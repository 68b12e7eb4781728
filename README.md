# Iris genetic-programming visualizations: result tabulation

This project models the result-tabulation core of the `Visualizations` class
of a genetic-programming iris classifier. The class evaluates the best parse
tree on the held-out test set. For every row it records:

- whether the prediction was correct (`Correct`);
- the parse tree's raw output (`PredictedValue`);
- the species that output maps to (`PredictedSpecies`).

The species comes from a three-way thresholder over two cut points
(`IrisGP.THRESHOLD_LOW`, `IrisGP.THRESHOLD_HIGH`). The model also covers the
encodings the scatter plot applies to each row: colour by predicted species,
and size and opacity by correctness.

Files:

- `iris.dfy` (module `Iris`): the `Species` datatype, a test-set row
  (`TestRecord`), the cut points (`Thresholds`) and the thresholder
  `Classify`, with its boundary and ordering lemmas.
- `tabulation.dfy` (module `Tabulation`): a result row (`ResultRow`, whose
  three added columns are `Option`s that start as `None`), the specification
  `Tabulate` of the whole table, and lemmas about it.
- `display.dfy` (module `Display`): `COLOR_MAP`, the size and opacity
  constants, and the point drawn for one row (`Scatter`).
- `visualizations.dfy` (module `Visualizations`): the class. Its constructor
  builds the table. `TabulateResults` copies the test set into a fresh array
  of blank rows and fills that array in place, one row per loop iteration.
  `PlotPredictionsByDimension` produces the sequence of points handed to the
  scatter plot.

The cut points are parameters. The code never checks that `THRESHOLD_LOW <
THRESHOLD_HIGH`, so only the lemmas that need the ordering assume it. For
crossed cut points, `NoVersicolorWhenCutPointsCross` shows what happens:
versicolor is never predicted. The predictor `IrisGP.evaluate_row(parse_tree,
row)` is a total function `TestRecord -> (bool, real)` held by the object. The
row it is given in the source also carries the three new columns, but those
are still `None` at that point, so only the original columns are passed.

## Model

| member | source | states |
|---|---|---|
| `Iris.Classify` | python/visualizations.py:51-56 | the result is setosa exactly when the score is below the low cut point, versicolor exactly when low <= score < high, and virginica exactly when the score is at or above both cut points; so the result is always one of the three labels |
| `Iris.ClassifyAtCutPoints` | python/visualizations.py:51-56 | a score just below the low cut point is setosa. A score equal to the low cut point is not setosa. A score equal to the high cut point is never versicolor, and is virginica when the cut points are ordered. A score just below an ordered high cut point is versicolor |
| `Iris.ClassifySurjective` | python/visualizations.py:51-56 | with low < high, each of the three species is produced by some score |
| `Iris.NoVersicolorWhenCutPointsCross` | python/visualizations.py:51-54 | if high <= low, no score is ever classified versicolor |
| `Iris.ClassifyMonotone` | python/visualizations.py:51-56 | whatever the order of the cut points, a larger score never yields a lower species in setosa < versicolor < virginica order |
| `Iris.ClassifyExample` | python/visualizations.py:51-56 | with cut points 2 and 5, scores 1, 2, 4.9, 5, 9 give setosa, versicolor, versicolor, virginica, virginica |
| `Iris.LabelInjective` | python/visualizations.py:52-56 | the three species labels are pairwise distinct strings |
| `Tabulation.TabulateAt` | python/visualizations.py:43-58 | the table has one row per test row, and row i is test row i filled from one predictor call on it |
| `Tabulation.TabulatePreservesRecords` | python/visualizations.py:43-47 | same number of rows, same order, original columns of every row unchanged |
| `Tabulation.TabulateFillsEveryRow` | python/visualizations.py:44-57 | no `None` is left in Correct, PredictedValue or PredictedSpecies, and each row's species is the classification of its value |
| `Tabulation.TabulateFromPredictor` | python/visualizations.py:48-57 | Correct and PredictedValue of row i are exactly the pair the predictor returns for test row i, and PredictedSpecies is the classification of that value |
| `Tabulation.SpeciesDependsOnlyOnValue` | python/visualizations.py:50-57 | two rows with the same predicted value get the same predicted species, whatever their correctness, true species or measurements |
| `Tabulation.TabulateAppend` | python/visualizations.py:47-57 | rows are tabulated independently: the table of a concatenation is the concatenation of the tables |
| `Display.ColorMapCoversSpecies` | python/visualizations.py:70-74 | every species label the thresholder can produce is a key of the colour map |
| `Display.ColorMapInjective` | python/visualizations.py:70-74 | distinct keys of the colour map have distinct colours |
| `Display.CorrectPointsRecede` | python/visualizations.py:75-77 | correct points are smaller (30 < 60) and more transparent (0.3 < 1) than incorrect ones |
| `Display.Scatter` | python/visualizations.py:94-100 | the point for a filled row has the chosen part's length as x and its width as y, the colour-map entry of its predicted species' label as colour, opacity 0.3 and size 30 when the prediction is correct, opacity 1 and size 60 when it is not |
| `Display.SameColorIffSameSpecies` | python/visualizations.py:70-74 | two plotted rows share a colour exactly when they predict the same species |
| `Display.ErrorsStandOut` | python/visualizations.py:97-99 | a wrongly predicted row is drawn strictly larger and strictly more opaque than a correctly predicted one |
| `Visualizations.Visualizations.constructor` | python/visualizations.py:27-30 | the object keeps the predictor, cut points and test set, and its result table is the tabulation of the test set, with every row consistent |
| `Visualizations.Visualizations.TabulateResults` | python/visualizations.py:32-58 | the table returned equals the tabulation of the test set, and the rows handed to the predictor are exactly the test rows, in order. That there is a single call per row rests on the loop body, since a pure predictor cannot observe repeated calls. The test set is read, never written, because the work is done on a fresh copy |
| `Visualizations.Visualizations.PlotPredictionsByDimension` | python/visualizations.py:93-100 | one scatter point per result row, in order, each the encoding of that row |

## Left out

- Rendering: the calls into matplotlib are not modelled. This covers the scatter drawing itself, the legend handles (python/visualizations.py:78-91, 102-110), axis labels, titles and `plt.show`. `PlotPredictionsByDimension` stops at the arguments of each scatter call.
- `plot_confusion_matrix` and `print_classification_report` are not modelled. They hand the true and predicted species columns to scikit-learn and print the results.
- `IrisGP.evaluate_row`, `ParseTree` and the concrete cut-point values are defined in files that are not part of this model. They are parameters here.
- An exception raised by the predictor aborts tabulation in the source. It is not modelled, because the predictor is a total function here.
- The pandas data frame is modelled as an array of records and a sequence of result rows. `copy`, `iterrows`, `.at` and dtype coercion are not modelled. The table is returned as the contents of the filled array, not as the mutable frame itself.
- The only `part` values the source handles are "Sepal" and "Petal"; `Part` is a two-valued datatype, so the failing column lookup for any other string is not modelled.
- The true `Species` column is taken to hold one of the three species. The string labels matter only as colour-map keys, through `Label`.
- Scores are `real`s. IEEE rounding is not modelled, because the code only compares scores with the cut points. NaN and the infinities have no counterpart among reals: a NaN score fails both `<` tests and is classified virginica in the source, a case the model does not cover.
