/** The iris data the visualizations work on: the three species, a row of the
    test set, and the three-way thresholder that turns the parse tree's scalar
    output into a species. */
module Iris {

  datatype Option<T> = None | Some(value: T)

  /** The closed set of species the classifier can predict. */
  datatype Species = Setosa | Versicolor | Virginica

  /** The label the data set and the colour map use for each species. */
  function Label(s: Species): (l: string)
  {
    match s
    case Setosa => "Iris-setosa"
    case Versicolor => "Iris-versicolor"
    case Virginica => "Iris-virginica"
  }

  /** Position of a species along the classifier's output axis. */
  function Rank(s: Species): (k: nat)
  {
    match s
    case Setosa => 0
    case Versicolor => 1
    case Virginica => 2
  }

  lemma LabelInjective(a: Species, b: Species)
    ensures Label(a) == Label(b) <==> a == b
  {
    if a != b {
      // the three labels have different lengths
      assert |Label(a)| != |Label(b)|;
    }
  }

  /** One row of the test set: four measurements and the true species. */
  datatype TestRecord = TestRecord(
    sepalLengthCm: real,
    sepalWidthCm: real,
    petalLengthCm: real,
    petalWidthCm: real,
    species: Species)

  /** The two cut points IrisGP.THRESHOLD_LOW and IrisGP.THRESHOLD_HIGH. */
  datatype Thresholds = Thresholds(low: real, high: real)

  /** Species predicted for the parse tree's output `res`. Both tests are
      strict, so a score equal to a cut point goes to the class above it. */
  function Classify(res: real, th: Thresholds): (s: Species)
    ensures s == Setosa <==> res < th.low
    ensures s == Versicolor <==> th.low <= res < th.high
    ensures s == Virginica <==> th.low <= res && th.high <= res
  {
    if res < th.low then Setosa
    else if res < th.high then Versicolor
    else Virginica
  }

  /** A score exactly on a cut point is never put in the class below it;
      anything strictly below the low cut point is setosa. */
  lemma ClassifyAtCutPoints(th: Thresholds, eps: real)
    requires eps > 0.0
    ensures Classify(th.low - eps, th) == Setosa
    ensures Classify(th.low, th) != Setosa
    ensures Classify(th.high, th) != Versicolor
    ensures th.low <= th.high ==> Classify(th.high, th) == Virginica
    ensures th.low < th.high ==> Classify(th.low, th) == Versicolor
    ensures th.low <= th.high - eps ==> Classify(th.high - eps, th) == Versicolor
  {
  }

  /** With ascending cut points every species is produced by some score. */
  lemma ClassifySurjective(th: Thresholds, s: Species)
    requires th.low < th.high
    ensures exists res :: Classify(res, th) == s
  {
    match s
    case Setosa => assert Classify(th.low - 1.0, th) == s;
    case Versicolor => assert Classify(th.low, th) == s;
    case Virginica => assert Classify(th.high, th) == s;
  }

  /** The code never checks the order of the cut points; when they are not
      ascending versicolor can never be predicted. */
  lemma NoVersicolorWhenCutPointsCross(th: Thresholds, res: real)
    requires th.high <= th.low
    ensures Classify(res, th) != Versicolor
  {
  }

  /** A larger score never gives a lower species, whatever the order of the
      cut points. */
  lemma ClassifyMonotone(th: Thresholds, a: real, b: real)
    requires a <= b
    ensures Rank(Classify(a, th)) <= Rank(Classify(b, th))
  {
  }

  /** A worked case with cut points 2 and 5. */
  lemma ClassifyExample()
    ensures var th := Thresholds(2.0, 5.0);
      [Classify(1.0, th), Classify(2.0, th), Classify(4.9, th), Classify(5.0, th), Classify(9.0, th)]
      == [Setosa, Versicolor, Versicolor, Virginica, Virginica]
  {
  }
}
