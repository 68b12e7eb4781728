/** The Visualizations object: it holds the predictor, the test set and the
    result table built once when the object is created. */
module Visualizations {
  import opened Iris
  import opened Tabulation
  import opened Display

  class Visualizations {
    /** IrisGP.evaluate_row applied to the parse tree under study: the
        correctness flag and the raw output for one row. */
    const evaluate: TestRecord -> (bool, real)
    const thresholds: Thresholds
    /** The caller's test set; tabulation never writes to it. */
    const testDf: array<TestRecord>
    var testResults: seq<ResultRow>

    ghost predicate Valid()
      reads this
    {
      forall i :: 0 <= i < |testResults| ==> Consistent(testResults[i], thresholds)
    }

    constructor (evaluate: TestRecord -> (bool, real), thresholds: Thresholds, testDf: array<TestRecord>)
      ensures this.evaluate == evaluate && this.thresholds == thresholds && this.testDf == testDf
      ensures testResults == Tabulate(testDf[..], evaluate, thresholds)
      ensures Valid()
    {
      this.evaluate := evaluate;
      this.thresholds := thresholds;
      this.testDf := testDf;
      testResults := [];
      new;
      ghost var calls;
      testResults, calls := TabulateResults();
      TabulateFillsEveryRow(testDf[..], evaluate, thresholds);
    }

    /** Copies the test set, adds three empty columns and fills them row by
        row, calling the predictor once per row in order. `calls` lists the
        rows the predictor was called on. */
    method TabulateResults() returns (table: seq<ResultRow>, ghost calls: seq<TestRecord>)
      ensures table == Tabulate(testDf[..], evaluate, thresholds)
      ensures calls == testDf[..]
    {
      var n := testDf.Length;
      var results := new ResultRow[n](k reads testDf requires 0 <= k < n => Blank(testDf[k]));
      calls := [];
      for i := 0 to n
        invariant forall k :: 0 <= k < i ==> results[k] == FillRow(testDf[k], evaluate, thresholds)
        invariant forall k :: i <= k < n ==> results[k] == Blank(testDf[k])
        invariant calls == testDf[..i]
      {
        var row := results[i].record;
        var (correctness, res) := evaluate(row);
        calls := calls + [row];
        results[i] := results[i].(correct := Some(correctness));
        results[i] := results[i].(predictedValue := Some(res));
        var species := Classify(res, thresholds);
        results[i] := results[i].(predictedSpecies := Some(species));
      }
      table := results[..];
      TabulateAt(testDf[..], evaluate, thresholds);
    }

    /** The points handed to the scatter plot, one per result row in order. */
    method PlotPredictionsByDimension(part: Part) returns (points: seq<ScatterPoint>)
      requires Valid()
      ensures |points| == |testResults|
      ensures forall i :: 0 <= i < |points| ==>
        Filled(testResults[i]) && points[i] == Scatter(testResults[i], part)
    {
      points := [];
      for i := 0 to |testResults|
        invariant |points| == i
        invariant forall k :: 0 <= k < i ==> Filled(testResults[k]) && points[k] == Scatter(testResults[k], part)
      {
        points := points + [Scatter(testResults[i], part)];
      }
    }
  }
}
