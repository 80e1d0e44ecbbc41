# Pareto ranking and contour plumbing of process-improve, in Dafny

process-improve analyses designed experiments. It fits a linear model to
coded factors and draws two pictures of the fit. The first is a Pareto plot,
a horizontal bar chart of the effects ordered by magnitude. The second is a
contour plot of the predicted response over two factors. This project models
the logic in `process_improve/plotting.py` that comes before any drawing:

- **Plot titles** (`get_plot_title`). If `main` is `None` there is no title.
  Otherwise the title is the prefix, followed by `": "` and the model's title
  when that title is non-empty. The caller's `main` text is discarded
  (module `Titles`).
- **Pareto ranking** (`pareto_plot`). Three parallel columns are built from
  the signed coefficients: the signed tooltip text, the bar colour and the
  sign label. The magnitudes are then argsorted, and one permutation reorders
  every column. Bars sit at positions 1..n, and each tick is labelled with the
  name in its slot (modules `Ranking` and `Pareto`).
- **Contour plumbing** (`contour_plot`). The axis grids are expanded with
  meshgrid and ravelled in row-major order. The axis factors default to the
  first two parameter names. The keyword map `{xlabel: h_grid, ylabel: v_grid}`
  is meant to be merged with a dictionary of other factors. As written, the
  update throws the map away (see Findings). The flat prediction is reshaped
  to N x N (module `Contour`).

Coefficients are exact `real`s, so there is no floating point and no NaN.
Calls into code outside this model are parameters: the number format `0.4g`
is `fmt`, `model.get_title()` is `title`, and `predict(model, **kwargs)` is
`predict`. The N grid values of each axis (`np.linspace`) are inputs.

Three behaviours of the code are kept as written:

- A coefficient of exactly 0 is labelled "Negative" but gets the positive
  colour. The label tests `> 0` (plotting.py:83) and the colour tests `< 0`
  (plotting.py:82).
- The sign labels are the fixed strings "Positive" and "Negative". The legend
  texts in the `negative`/`positive` arguments are never used.
- The ranking does not drop an intercept term. Every parameter returned by
  `get_parameters()` is ranked (plotting.py:78). Likewise the default contour
  axes are the first two parameter names, whatever they are (plotting.py:183,
  :188).

Ties among equal magnitudes are left to pandas' default quicksort argsort in
the code. The model uses one stable order: equal magnitudes keep their input
order (`Ranking.ArgSortStable`). Every column uses that same permutation.

## Model

| member | source | states |
|---|---|---|
| `Titles.GetPlotTitle` | process_improve/plotting.py:18-28 | No title exactly when `main` is `None`. Otherwise the result starts with `prefix`. It is exactly `prefix` when the model title is `None` or empty. Otherwise it is `prefix` followed by `": "` and the title. |
| `Titles.MainTextIsDiscarded` | process_improve/plotting.py:22-23 | Any two non-`None` values of `main` give the same title. |
| `Titles.ParetoTitle` | process_improve/plotting.py:105-108 | The Pareto plot's title starts with "Pareto plot" whenever `main` is given. |
| `Titles.ContourTitle` | process_improve/plotting.py:220 | The contour title starts with "Contour plot" when `main` is given. There is none when `main` is `None`, which is `contour_plot`'s default. |
| `Ranking.Insert` | process_improve/plotting.py:85-90 | One insertion step of the argsort: the result holds the old indices plus the new one (multiset) and stays in range. |
| `Ranking.SortPrefix` | process_improve/plotting.py:85-90 | Sorting the first k indices gives k indices, all inside the column. |
| `Ranking.SortPrefixPermutation` | process_improve/plotting.py:85-90 | Sorting the first k indices gives a permutation of 0..k-1. |
| `Ranking.ArgSort` | process_improve/plotting.py:85-90 | The argsort of the magnitudes is a permutation of 0..n-1. |
| `Ranking.PermutationFacts` | process_improve/plotting.py:87-89 | A permutation of 0..n-1 has length n, indexes only inside the column, and holds each index exactly once. |
| `Ranking.InsertAscending` | process_improve/plotting.py:85-90 | Inserting into an ascending ordering keeps it ascending. |
| `Ranking.SortPrefixAscending` | process_improve/plotting.py:85-90 | Every sorted prefix is ascending by key. |
| `Ranking.ArgSortAscending` | process_improve/plotting.py:85-90 | The argsort visits the keys in non-decreasing order. |
| `Ranking.InsertStable` | process_improve/plotting.py:85-90 | Inserting an index larger than all placed ones keeps tied keys in index order. |
| `Ranking.SortPrefixStable` | process_improve/plotting.py:85-90 | Every sorted prefix keeps tied keys in index order. |
| `Ranking.ArgSortStable` | process_improve/plotting.py:85-90 | Among equal magnitudes the argsort keeps input order, so the single order chosen for ties is deterministic. |
| `Ranking.Gather` | process_improve/plotting.py:87-89 | `[col[i] for i in order]`: entry k of the reordered column is `col[order[k]]`, with one entry per index of the order. |
| `Ranking.GatherInsert` | process_improve/plotting.py:87-89 | Reordering a column by an insertion step adds exactly the inserted element. |
| `Ranking.GatherSortPrefix` | process_improve/plotting.py:87-89 | Reordering by a sorted prefix permutes the first k entries of the column. |
| `Ranking.GatherArgSortPermutes` | process_improve/plotting.py:87-90 | Reordering any parallel column by the argsort of the magnitudes loses and duplicates nothing (multiset equality). |
| `Pareto.SignedText` | process_improve/plotting.py:81 | A strictly positive value gets a "+" before its formatted number. Any other value is the formatted number alone. |
| `Pareto.BarColour` | process_improve/plotting.py:82 | The negative colour for values `< 0`, the positive colour otherwise (zero included). |
| `Pareto.BarSign` | process_improve/plotting.py:83 | The label is "Positive" exactly when the value is `> 0`, otherwise "Negative". |
| `Pareto.ZeroCoefficientQuirk` | process_improve/plotting.py:82-83 | A zero coefficient is labelled "Negative" and drawn in the positive colour. |
| `Pareto.Names` | process_improve/plotting.py:95 | The names column holds, in input order, the name of each term. |
| `Pareto.SignedTexts` | process_improve/plotting.py:81 | The tooltip column has one entry per term, in input order, and entry k is the signed text of term k's own coefficient. |
| `Pareto.BarColours` | process_improve/plotting.py:82 | The colour column has one entry per term, in input order, and entry k is the colour of term k's own coefficient. |
| `Pareto.BarSigns` | process_improve/plotting.py:83 | The sign column has one entry per term, in input order, and entry k is the label of term k's own coefficient. |
| `Pareto.Magnitudes` | process_improve/plotting.py:85 | The magnitude of each term is the absolute value of its own coefficient and is non-negative. |
| `Pareto.RankOrder` | process_improve/plotting.py:85-90 | The one ordering used for all columns is a permutation of the terms that sorts their magnitudes ascending. |
| `Pareto.Positions` | process_improve/plotting.py:94 | The bar positions are exactly 1..n in order. |
| `Pareto.ParetoSource` | process_improve/plotting.py:78-100 | All six columns have one entry per term, and the positions are 1..n. Row k across all columns is the input term `RankOrder[k]` with its own magnitude, colour, sign label and text, so the columns stay aligned. |
| `Pareto.ParetoAscending` | process_improve/plotting.py:85-93 | The bar lengths are non-decreasing from the first bar to the last. |
| `Pareto.ParetoPermutesTerms` | process_improve/plotting.py:85-98 | The ranked bars, each read across all columns, are a permutation (multiset) of the input terms' bars. |
| `Pareto.EachTermRankedOnce` | process_improve/plotting.py:85-90 | Every input term occupies exactly one ranked slot. |
| `Pareto.ParetoTiesKeepInputOrder` | process_improve/plotting.py:85-90 | Two slots with equal magnitude hold terms in their input order. |
| `Pareto.RankedSignLabel` | process_improve/plotting.py:83-95 | Slot k shows the name and magnitude of its own term. Its label is "Positive" iff that term's coefficient is `> 0`, and "Negative" iff it is `<= 0`. |
| `Pareto.RankedColour` | process_improve/plotting.py:82-96 | With two distinct colours, slot k has the negative colour iff its own coefficient is `< 0`, and the positive colour iff it is `>= 0`. |
| `Pareto.RankedSignedText` | process_improve/plotting.py:81-98 | If the formatter never writes a leading "+", slot k's tooltip starts with "+" iff its own coefficient is `> 0`. |
| `Pareto.DictFromPairs` | process_improve/plotting.py:126 | Inserting the first m pairs gives exactly those m keys, and every value is one of the first m values. |
| `Pareto.DictZip` | process_improve/plotting.py:126 | `dict(zip(keys, values))` stops at the shorter input. Its keys are exactly the keys that have a partner value, and every value comes from the values. |
| `Pareto.DictFromIncreasingPairsAt` | process_improve/plotting.py:126 | With strictly increasing keys, key j is present and keeps the value paired with it, because no later pair overwrites it. |
| `Pareto.DictFromIncreasingPairs` | process_improve/plotting.py:126 | With strictly increasing keys nothing is overwritten, and each key maps to its own value. |
| `Pareto.DictZipIncreasingAt` | process_improve/plotting.py:126 | With strictly increasing keys and enough values, key j is present in `dict(zip(keys, values))` and maps to value j. |
| `Pareto.TickLabels` | process_improve/plotting.py:123-126 | Every tick is one of the bar positions and its label is one of the factor names. Every position that has a name is a tick. |
| `Pareto.TicksCoverPositions` | process_improve/plotting.py:123-126 | Each position p in 1..n is a tick labelled with name p-1. |
| `Pareto.TicksOnlyAtPositions` | process_improve/plotting.py:123-126 | No tick lies outside the positions 1..n. |
| `Pareto.TicksOfPositions` | process_improve/plotting.py:123-126 | Zipping the positions 1..n with n names gives keys exactly 1..n, with position k+1 mapped to name k. |
| `Pareto.TickLabelsMatchRanking` | process_improve/plotting.py:123-126 | The ticks of the Pareto plot are exactly 1..n, and tick k+1 is labelled with the name in ranked slot k. |
| `Pareto.PlotHeight` | process_improve/plotting.py:106 | A given non-zero height is used as is. `None` or 0 falls back to 20 pixels per bar on a 340-pixel base. |
| `Pareto.ExampleArgSort` | process_improve/plotting.py:85-90 | Magnitudes 3, 1, 0 are argsorted to 2, 1, 0. |
| `Pareto.ExampleRankOrder` | process_improve/plotting.py:85-90 | Coefficients -3, 1 and 0 are ranked in the order 0, 1, -3, by magnitude. |
| `Pareto.ExampleNamesAndMagnitudes` | process_improve/plotting.py:85-95 | In that example the names are AB, B, A and the lengths are 0, 1, 3. |
| `Pareto.ExampleSigns` | process_improve/plotting.py:83-96 | In that example the labels are Negative, Positive, Negative. |
| `Pareto.ExampleColours` | process_improve/plotting.py:82-96 | In that example the colours are black, black, grey. |
| `Pareto.ZeroEffectExample` | process_improve/plotting.py:81-98 | The zero effect AB is ranked first, at position 1, with magnitude 0. It is labelled "Negative" and drawn in the positive colour. |
| `Contour.FlatIndexRoundTrip` | process_improve/plotting.py:178-179 | Cell (i, j) of a rows x cols grid has a row-major flat index below rows*cols. Division and remainder by cols give back i and j. |
| `Contour.MeshH` | process_improve/plotting.py:178-179 | The ravelled H of `meshgrid(h, v)` has `|v|*|h|` points. Its contents are stated by `Contour.MeshCell` and `Contour.MeshHRavelsRows`. |
| `Contour.MeshV` | process_improve/plotting.py:178-179 | The ravelled V of `meshgrid(h, v)` has `|v|*|h|` points. Its contents are stated by `Contour.MeshCell` and `Contour.MeshVRavelsRows`. |
| `Contour.MeshCell` | process_improve/plotting.py:178-179 | Mesh cell (row i, column j) sits at flat index i*\|h\|+j and holds the pair (h[j], v[i]). |
| `Contour.ResolveLabel` | process_improve/plotting.py:182-190 | A given axis label is used. A missing one is the parameter name at that position. With too few parameters it is an IndexError. |
| `Contour.AxisKwargs` | process_improve/plotting.py:192 | The keyword map has exactly the two axis names as keys. The y name maps to the v column, and the x name to the h column when the two names differ. |
| `Contour.UpdateKwargsAsWritten` | process_improve/plotting.py:193-194 | As written: a dictionary of other factors turns the whole keyword map into `None`. Anything else leaves the map unchanged. |
| `Contour.MergeKwargs` | process_improve/plotting.py:193-194 | Intended: with a dictionary, the keys are the union, the other factors win on shared keys, and untouched axis entries are kept. Otherwise the map is unchanged. |
| `Contour.OtherFactorsDropKwargs` | process_improve/plotting.py:193-194 | With other factors, the as-written update hands over no map. The intended merge keeps both axis grids and adds every other factor. |
| `Contour.Row` | process_improve/plotting.py:200 | A row has `cols` values, and value j is flat value i*cols+j. |
| `Contour.Reshape` | process_improve/plotting.py:200 | `reshape(rows, cols)` succeeds exactly when the size matches, otherwise it is a ReshapeError carrying the sizes. The result has rows rows of cols values. |
| `Contour.ReshapeRow` | process_improve/plotting.py:200 | Row i of the reshaped grid is the slice of flat values from i*cols to (i+1)*cols. |
| `Contour.ReshapeCells` | process_improve/plotting.py:200 | Row i, column j of the reshaped grid is flat value i*cols+j. |
| `Contour.Ravel` | process_improve/plotting.py:179 | `ravel` of a grid loses nothing and invents nothing: every value of every row is in the flat result, and every flat value comes from some row. |
| `Contour.RavelReshapedRows` | process_improve/plotting.py:200 | The first m reshaped rows ravel back to the flat values before row m. |
| `Contour.RavelReshape` | process_improve/plotting.py:179-200 | Reshape followed by ravel gives back the flat predictions (round trip). |
| `Contour.MeshHRavelsRows` | process_improve/plotting.py:178-179 | `H.ravel()` equals `Ravel` of the grid whose \|v\| rows are each a copy of h. |
| `Contour.MeshVRavelsRows` | process_improve/plotting.py:178-179 | `V.ravel()` equals `Ravel` of the grid whose row i is v[i] repeated \|h\| times. |
| `Contour.ContourKwargs` | process_improve/plotting.py:181-194 | Argument resolution fails exactly when a default axis needs a missing parameter name (IndexError 0 or 1). Otherwise it gives the axis grids merged with the other factors by the corrected merge `Contour.MergeKwargs` (as written the code gives `None` here; see Findings). |
| `Contour.ContourSurface` | process_improve/plotting.py:176-200 | Errors from label resolution are passed through. The reshape succeeds iff the prediction has N*N values. Then the surface is N x N, with row i, column j equal to prediction i*N+j. |
| `Contour.PointwiseSurface` | process_improve/plotting.py:176-200 | If f is evaluated at every mesh point, the reshaped surface holds f(h[j], v[i]) in row i, column j, matching the H and V grids given to the contour call. |
| `Contour.DefaultAxesSurface` | process_improve/plotting.py:181-200 | Setup: default axes (first two parameter names, distinct), no other factors, and a prediction that evaluates f pointwise. Then the surface is N x N with f(h[j], v[i]) at row i, column j. |

## Left out

- Rendering with bokeh and matplotlib is left out: figures, axes styling, legend, `show`, contour levels, `imshow`, colour bar and the scatter of the experimental points (plotting.py:105, 107, 109-134, 202-246; the height at :106 and the title at :108 are modelled). It is drawing, not logic.
- The `np.linspace` grid values (plotting.py:176-177) are floating point. The model takes the N values of each axis as inputs.
- The x-axis bound `params.max()*1.05` (plotting.py:116) is floating-point scaling that only sizes the drawing.
- The `0.4g` number format (plotting.py:81) is a parameter `fmt`. Only the "+" prefix rule is modelled.
- NaN placement (`na_position='last'`, plotting.py:90) is left out, because reals have no NaN.
- `predict` (plotting.py:199) is passed in as a function. It is imported from process_improve/models.py (plotting.py:15), which defines no `predict`, so what it computes is not modelled.
- `model.get_parameters()` and `model.get_title()` are methods of the model object, and the `Model` class in process_improve/models.py does not define them. The model takes their results as inputs.
- `str(xlabel)` and `str(ylabel)` (plotting.py:185, :190) are not modelled. Labels are taken to be strings already.
- `predict_plot` and `interaction_plot` (plotting.py:252-261) are empty stubs.
- process_improve/models.py is left out. Its least-squares fit, summary formatting and demo script work inside statsmodels, which is not part of this model.
- `Ranking.ArgSort`: the order among equal magnitudes is fixed as stable. The code leaves it to pandas' default (quicksort) argsort, and `sort_values` on the same data is assumed to produce the same permutation.
- `Pareto.RankedColour`: the "iff" needs the two colours to differ. With equal colours only the one direction stated by `Pareto.BarColour` holds.
- `Pareto.RankedSignedText`: the "iff" assumes the formatter never writes a leading "+" itself, as `0.4g` does not.
- `Contour.ContourKwargs`: uses the corrected merge of other factors (`Contour.MergeKwargs`). As written, a dictionary of other factors gives `None` instead of a keyword map, and `predict` then fails (see Findings). The as-written update is `Contour.UpdateKwargsAsWritten`.
- `Contour.ContourSurface`: built on `Contour.ContourKwargs`, so it too uses the corrected merge where the code as written hands `predict` no keyword map.

## Findings

| source | as written | input that shows it | evidently intended | confidence | as-written member | corrected member |
|---|---|---|---|---|---|---|
| process_improve/plotting.py:193-194 | `kwargs = kwargs.update(other_factors)` binds `kwargs` to `None`, the return value of `dict.update`. `predict(model, **kwargs)` on the next line (plotting.py:199) then has no mapping to unpack (a TypeError in Python), and the axis grids are lost | `contour_plot(model, other_factors={"C": 0.0})` with x and y axes A and B: the as-written update gives `None` | the axis grids updated with the other factors (`kwargs.update(other_factors)` on its own) | high; not executed | `Contour.UpdateKwargsAsWritten`, shown by `Contour.OtherFactorsDropKwargs` | `Contour.MergeKwargs` |
