/** The result table: each test row extended with the columns Correct,
    PredictedValue and PredictedSpecies, and the specification of the table
    that tabulation produces. */
module Tabulation {
  import opened Iris

  /** A row of the result table. The original columns are kept in `record`;
      the three added columns hold None until the row has been evaluated. */
  datatype ResultRow = ResultRow(
    record: TestRecord,
    correct: Option<bool>,
    predictedValue: Option<real>,
    predictedSpecies: Option<Species>)

  /** A copied row with the three new columns set to None. */
  function Blank(rec: TestRecord): (r: ResultRow)
  {
    ResultRow(rec, None, None, None)
  }

  predicate Filled(r: ResultRow)
  {
    r.correct.Some? && r.predictedValue.Some? && r.predictedSpecies.Some?
  }

  /** A filled row whose predicted species is the classification of its
      predicted value. */
  predicate Consistent(r: ResultRow, th: Thresholds)
  {
    Filled(r) && r.predictedSpecies.value == Classify(r.predictedValue.value, th)
  }

  /** The row after the predictor has been called on it once. */
  function FillRow(rec: TestRecord, evaluate: TestRecord -> (bool, real), th: Thresholds): (r: ResultRow)
  {
    var (correctness, res) := evaluate(rec);
    ResultRow(rec, Some(correctness), Some(res), Some(Classify(res, th)))
  }

  /** The table tabulation produces: the rows in order, each filled. */
  function Tabulate(rows: seq<TestRecord>, evaluate: TestRecord -> (bool, real), th: Thresholds): (t: seq<ResultRow>)
    decreases |rows|
  {
    if rows == [] then []
    else Tabulate(rows[..|rows| - 1], evaluate, th) + [FillRow(rows[|rows| - 1], evaluate, th)]
  }

  lemma {:induction false} TabulateAt(rows: seq<TestRecord>, evaluate: TestRecord -> (bool, real), th: Thresholds)
    ensures |Tabulate(rows, evaluate, th)| == |rows|
    ensures forall i :: 0 <= i < |rows| ==> Tabulate(rows, evaluate, th)[i] == FillRow(rows[i], evaluate, th)
    decreases |rows|
  {
    if rows != [] {
      TabulateAt(rows[..|rows| - 1], evaluate, th);
    }
  }

  /** Same rows, same order, original columns unchanged. */
  lemma {:induction false} TabulatePreservesRecords(rows: seq<TestRecord>, evaluate: TestRecord -> (bool, real), th: Thresholds)
    ensures |Tabulate(rows, evaluate, th)| == |rows|
    ensures forall i :: 0 <= i < |rows| ==> Tabulate(rows, evaluate, th)[i].record == rows[i]
  {
    TabulateAt(rows, evaluate, th);
  }

  /** No None is left in any of the three added columns, and every row's
      species agrees with its value. */
  lemma {:induction false} TabulateFillsEveryRow(rows: seq<TestRecord>, evaluate: TestRecord -> (bool, real), th: Thresholds)
    ensures forall r :: r in Tabulate(rows, evaluate, th) ==> Consistent(r, th)
  {
    TabulateAt(rows, evaluate, th);
  }

  /** Correct and PredictedValue are exactly the predictor's pair for that
      row; PredictedSpecies is the classification of PredictedValue. */
  lemma TabulateFromPredictor(rows: seq<TestRecord>, evaluate: TestRecord -> (bool, real), th: Thresholds, i: nat)
    requires i < |rows|
    ensures i < |Tabulate(rows, evaluate, th)|
    ensures Tabulate(rows, evaluate, th)[i].correct == Some(evaluate(rows[i]).0)
    ensures Tabulate(rows, evaluate, th)[i].predictedValue == Some(evaluate(rows[i]).1)
    ensures Tabulate(rows, evaluate, th)[i].predictedSpecies == Some(Classify(evaluate(rows[i]).1, th))
  {
    TabulateAt(rows, evaluate, th);
  }

  /** The predicted species depends on the predicted value only: not on the
      correctness flag, the true species or the measurements. */
  lemma SpeciesDependsOnlyOnValue(
    rows1: seq<TestRecord>, ev1: TestRecord -> (bool, real), i: nat,
    rows2: seq<TestRecord>, ev2: TestRecord -> (bool, real), j: nat, th: Thresholds)
    requires i < |rows1| && j < |rows2|
    requires ev1(rows1[i]).1 == ev2(rows2[j]).1
    ensures i < |Tabulate(rows1, ev1, th)| && j < |Tabulate(rows2, ev2, th)|
    ensures Tabulate(rows1, ev1, th)[i].predictedSpecies == Tabulate(rows2, ev2, th)[j].predictedSpecies
  {
    TabulateFromPredictor(rows1, ev1, th, i);
    TabulateFromPredictor(rows2, ev2, th, j);
  }

  /** Rows are tabulated independently: tabulating a split table gives the
      split result. */
  lemma {:induction false} TabulateAppend(a: seq<TestRecord>, b: seq<TestRecord>, evaluate: TestRecord -> (bool, real), th: Thresholds)
    ensures Tabulate(a + b, evaluate, th) == Tabulate(a, evaluate, th) + Tabulate(b, evaluate, th)
    decreases |b|
  {
    if b == [] {
      assert a + b == a;
    } else {
      var b' := b[..|b| - 1];
      assert (a + b)[..|a + b| - 1] == a + b';
      assert (a + b)[|a + b| - 1] == b[|b| - 1];
      TabulateAppend(a, b', evaluate, th);
    }
  }
}
