/** The encodings the scatter plot applies to each result row: colour by
    predicted species, size and opacity by correctness. */
module Display {
  import opened Iris
  import opened Tabulation

  /** COLOR_MAP, keyed by species label. */
  const ColorMap: map<string, string> := map[
    "Iris-setosa" := "tab:blue",
    "Iris-versicolor" := "tab:orange",
    "Iris-virginica" := "tab:green"]

  const CorrectOpacity: real := 0.3
  /** The opacity written as the literal 1 for an incorrect prediction. */
  const IncorrectOpacity: real := 1.0
  const CorrectSize: nat := 30
  const IncorrectSize: nat := 60

  /** Which pair of measurements a plot uses as its axes. */
  datatype Part = Sepal | Petal

  /** The arguments of one call to the scatter plot. */
  datatype ScatterPoint = ScatterPoint(x: real, y: real, color: string, alpha: real, size: nat)

  function Alpha(correct: bool): (a: real)
  {
    if correct then CorrectOpacity else IncorrectOpacity
  }

  function Size(correct: bool): (s: nat)
  {
    if correct then CorrectSize else IncorrectSize
  }

  /** Every species the classifier can predict has an entry. */
  lemma ColorMapCoversSpecies(s: Species)
    ensures Label(s) in ColorMap
  {
  }

  /** The colour map gives different species different colours. */
  lemma ColorMapInjective(a: string, b: string)
    requires a in ColorMap && b in ColorMap
    ensures ColorMap[a] == ColorMap[b] <==> a == b
  {
  }

  /** Correct points are strictly smaller and more transparent. */
  lemma CorrectPointsRecede()
    ensures Size(true) < Size(false)
    ensures Alpha(true) < Alpha(false)
  {
  }

  /** The point plotted for one filled row of the result table. */
  function Scatter(row: ResultRow, part: Part): (p: ScatterPoint)
    requires Filled(row)
    ensures part == Sepal ==> p.x == row.record.sepalLengthCm && p.y == row.record.sepalWidthCm
    ensures part == Petal ==> p.x == row.record.petalLengthCm && p.y == row.record.petalWidthCm
    ensures Label(row.predictedSpecies.value) in ColorMap
    ensures p.color == ColorMap[Label(row.predictedSpecies.value)]
    ensures row.correct.value ==> p.alpha == CorrectOpacity && p.size == CorrectSize
    ensures !row.correct.value ==> p.alpha == IncorrectOpacity && p.size == IncorrectSize
    ensures 0.0 < p.alpha <= 1.0 && p.size > 0
  {
    var rec := row.record;
    var species := row.predictedSpecies.value;
    var correct := row.correct.value;
    ColorMapCoversSpecies(species);
    ScatterPoint(
      if part == Sepal then rec.sepalLengthCm else rec.petalLengthCm,
      if part == Sepal then rec.sepalWidthCm else rec.petalWidthCm,
      ColorMap[Label(species)],
      Alpha(correct),
      Size(correct))
  }

  /** Two points share a colour exactly when their rows predict the same
      species. */
  lemma SameColorIffSameSpecies(r1: ResultRow, r2: ResultRow, part: Part)
    requires Filled(r1) && Filled(r2)
    ensures Scatter(r1, part).color == Scatter(r2, part).color
        <==> r1.predictedSpecies == r2.predictedSpecies
  {
    var s1, s2 := r1.predictedSpecies.value, r2.predictedSpecies.value;
    ColorMapCoversSpecies(s1);
    ColorMapCoversSpecies(s2);
    ColorMapInjective(Label(s1), Label(s2));
    LabelInjective(s1, s2);
  }

  /** A wrongly predicted row is drawn larger and more opaque than a
      correctly predicted one. */
  lemma ErrorsStandOut(good: ResultRow, bad: ResultRow, part: Part)
    requires Filled(good) && Filled(bad)
    requires good.correct == Some(true) && bad.correct == Some(false)
    ensures Scatter(good, part).size < Scatter(bad, part).size
    ensures Scatter(good, part).alpha < Scatter(bad, part).alpha
  {
    CorrectPointsRecede();
  }
}
