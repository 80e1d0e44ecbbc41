/** The effect ranking of `pareto_plot` in process_improve/plotting.py.

    The fitted coefficients arrive as a sequence of (term name, signed value)
    pairs. Three per-term columns are built from the signed values (the signed
    text, the bar colour and the sign label), the values are replaced by their
    magnitudes, and one ordering permutation that sorts the magnitudes
    ascending is applied to every column. The bars are then placed at
    positions 1..n and each position is labelled with the name in its slot.

    Coefficients are exact reals here: no floating point, no NaN. */
module Pareto {
  import opened Wrappers
  import opened Ranking

  /** One fitted coefficient: its term name (the index of the parameter
      series) and its signed value. */
  datatype Term = Term(name: string, value: real)

  /** A (legend text, bar colour) pair, as the `negative` and `positive`
      arguments of `pareto_plot`. */
  datatype Legend = Legend(text: string, colour: string)

  const DefaultNegative: Legend := Legend("Negative", "grey")
  const DefaultPositive: Legend := Legend("Positive", "black")

  /** The data handed to the bar chart: one entry per term in each column. */
  datatype ColumnSource = ColumnSource(
    x: seq<real>,                           // magnitudes, the bar lengths
    y: seq<int>,                            // bar positions
    factorNames: seq<string>,
    barColours: seq<string>,
    barSigns: seq<string>,
    originalMagnitudeWithSign: seq<string>)

  /** Row k of a column source, read across all of its columns. */
  datatype Bar = Bar(name: string, magnitude: real, colour: string, sign: string, text: string)

  function Abs(v: real): (r: real)
    ensures r >= 0.0
    ensures r == v || r == -v
  {
    if v < 0.0 then -v else v
  }

  predicate StartsWithPlus(s: string)
  {
    |s| > 0 && s[0] == '+'
  }

  /** The tooltip text of one coefficient: the number as `fmt` writes it
      (the `0.4g` format, outside this model), preceded by "+" for a
      strictly positive value only. */
  function SignedText(v: real, fmt: real -> string): (s: string)
    ensures v > 0.0 ==> StartsWithPlus(s) && s[1..] == fmt(v)
    ensures v <= 0.0 ==> s == fmt(v)
  {
    if v > 0.0 then "+" + fmt(v) else fmt(v)
  }

  /** The bar colour: the negative colour only for a strictly negative value. */
  function BarColour(v: real, negative: Legend, positive: Legend): (c: string)
    ensures v < 0.0 ==> c == negative.colour
    ensures v >= 0.0 ==> c == positive.colour
  {
    if v < 0.0 then negative.colour else positive.colour
  }

  /** The sign label: "Positive" only for a strictly positive value. The
      legend texts of `negative` and `positive` are not used. */
  function BarSign(v: real): (s: string)
    ensures s == "Positive" || s == "Negative"
    ensures s == "Positive" <==> v > 0.0
  {
    if v > 0.0 then "Positive" else "Negative"
  }

  /** A coefficient of exactly zero is labelled "Negative" but drawn in the
      positive colour, because the label and the colour test the sign with
      different comparisons. */
  lemma ZeroCoefficientQuirk(negative: Legend, positive: Legend)
    ensures BarSign(0.0) == "Negative"
    ensures BarColour(0.0, negative, positive) == positive.colour
  {
  }

  /** The per-term columns, in input order. */

  function Names(params: seq<Term>): (r: seq<string>)
    ensures |r| == |params| && forall k :: 0 <= k < |params| ==> r[k] == params[k].name
  {
    seq(|params|, k requires 0 <= k < |params| => params[k].name)
  }

  function Magnitudes(params: seq<Term>): (r: seq<real>)
    ensures |r| == |params|
    ensures forall k :: 0 <= k < |params| ==> r[k] >= 0.0 && r[k] == Abs(params[k].value)
  {
    seq(|params|, k requires 0 <= k < |params| => Abs(params[k].value))
  }

  function SignedTexts(params: seq<Term>, fmt: real -> string): (r: seq<string>)
    ensures |r| == |params|
    ensures forall k :: 0 <= k < |params| ==> r[k] == SignedText(params[k].value, fmt)
  {
    seq(|params|, k requires 0 <= k < |params| => SignedText(params[k].value, fmt))
  }

  function BarColours(params: seq<Term>, negative: Legend, positive: Legend): (r: seq<string>)
    ensures |r| == |params|
    ensures forall k :: 0 <= k < |params| ==> r[k] == BarColour(params[k].value, negative, positive)
  {
    seq(|params|, k requires 0 <= k < |params| => BarColour(params[k].value, negative, positive))
  }

  function BarSigns(params: seq<Term>): (r: seq<string>)
    ensures |r| == |params|
    ensures forall k :: 0 <= k < |params| ==> r[k] == BarSign(params[k].value)
  {
    seq(|params|, k requires 0 <= k < |params| => BarSign(params[k].value))
  }

  /** The bars of the input terms, unsorted: what each term contributes to
      every column. */
  function TermBars(params: seq<Term>, negative: Legend, positive: Legend, fmt: real -> string): (r: seq<Bar>)
    ensures |r| == |params|
  {
    seq(|params|, k requires 0 <= k < |params| =>
      var v := params[k].value;
      Bar(params[k].name, Abs(v), BarColour(v, negative, positive), BarSign(v), SignedText(v, fmt)))
  }

  /** All columns have one entry per bar. */
  predicate WellFormed(src: ColumnSource)
  {
    var n := |src.x|;
    |src.y| == n && |src.factorNames| == n && |src.barColours| == n &&
    |src.barSigns| == n && |src.originalMagnitudeWithSign| == n
  }

  /** The column source read row by row. */
  function Bars(src: ColumnSource): (r: seq<Bar>)
    requires WellFormed(src)
    ensures |r| == |src.x|
  {
    seq(|src.x|, k requires 0 <= k < |src.x| =>
      Bar(src.factorNames[k], src.x[k], src.barColours[k], src.barSigns[k], src.originalMagnitudeWithSign[k]))
  }

  /** The single ordering used for every column: the argsort of the
      magnitudes. */
  function RankOrder(params: seq<Term>): (order: seq<nat>)
    ensures |order| == |params|
    ensures IsPermutation(order, |params|)
    ensures InRange(order, |params|)
    ensures Ascending(Magnitudes(params), order)
  {
    ArgSortAscending(Magnitudes(params));
    PermutationFacts(ArgSort(Magnitudes(params)), |params|);
    ArgSort(Magnitudes(params))
  }

  /** The bar positions 1..n. */
  function Positions(n: nat): (r: seq<int>)
    ensures |r| == n
    ensures forall k :: 0 <= k < n ==> r[k] == k + 1
  {
    seq(n, k => k + 1)
  }

  /** The `ColumnSource` built by `pareto_plot`. Every column is the input
      column reordered by the same permutation, so row k of the result is
      exactly the input term `RankOrder(params)[k]` with its own sign data. */
  function ParetoSource(params: seq<Term>, negative: Legend, positive: Legend, fmt: real -> string): (r: ColumnSource)
    ensures WellFormed(r) && |r.x| == |params|
    ensures forall k :: 0 <= k < |params| ==> r.y[k] == k + 1
    ensures Bars(r) == Gather(TermBars(params, negative, positive, fmt), RankOrder(params))
  {
    var order := RankOrder(params);
    ColumnSource(
      x := Gather(Magnitudes(params), order),
      y := Positions(|params|),
      factorNames := Gather(Names(params), order),
      barColours := Gather(BarColours(params, negative, positive), order),
      barSigns := Gather(BarSigns(params), order),
      originalMagnitudeWithSign := Gather(SignedTexts(params, fmt), order))
  }

  /** The magnitudes are in ascending order, smallest bar first. */
  lemma ParetoAscending(params: seq<Term>, negative: Legend, positive: Legend, fmt: real -> string)
    ensures var r := ParetoSource(params, negative, positive, fmt);
      forall a, b :: 0 <= a < b < |r.x| ==> r.x[a] <= r.x[b]
  {
    var r := ParetoSource(params, negative, positive, fmt);
    var order := RankOrder(params);
    var mags := Magnitudes(params);
    forall a, b | 0 <= a < b < |r.x| ensures r.x[a] <= r.x[b] {
      assert Bars(r)[a].magnitude == r.x[a];
      assert Bars(r)[b].magnitude == r.x[b];
      assert mags[order[a]] <= mags[order[b]];
    }
  }

  /** The ranked bars are the input terms' bars, each exactly once: nothing
      is lost or duplicated, and no column is shuffled apart from the others. */
  lemma ParetoPermutesTerms(params: seq<Term>, negative: Legend, positive: Legend, fmt: real -> string)
    ensures multiset(Bars(ParetoSource(params, negative, positive, fmt)))
         == multiset(TermBars(params, negative, positive, fmt))
  {
    GatherArgSortPermutes(TermBars(params, negative, positive, fmt), Magnitudes(params));
  }

  /** Each input term sits in exactly one ranked slot. */
  lemma EachTermRankedOnce(params: seq<Term>)
    ensures |RankOrder(params)| == |params|
    ensures forall i: nat :: i < |params| ==> multiset(RankOrder(params))[i] == 1
  {
    PermutationFacts(RankOrder(params), |params|);
  }

  /** Terms of equal magnitude keep the order they had in the input. */
  lemma ParetoTiesKeepInputOrder(params: seq<Term>, negative: Legend, positive: Legend, fmt: real -> string)
    ensures var r := ParetoSource(params, negative, positive, fmt);
      var order := RankOrder(params);
      forall a, b :: 0 <= a < b < |r.x| && r.x[a] == r.x[b] ==> order[a] < order[b]
  {
    var r := ParetoSource(params, negative, positive, fmt);
    var order := RankOrder(params);
    var mags := Magnitudes(params);
    ArgSortStable(mags);
    forall a, b | 0 <= a < b < |r.x| && r.x[a] == r.x[b] ensures order[a] < order[b] {
      assert Bars(r)[a].magnitude == r.x[a];
      assert Bars(r)[b].magnitude == r.x[b];
    }
  }

  /** The ranked term in slot k, its magnitude, name and sign label. */
  lemma RankedSignLabel(params: seq<Term>, negative: Legend, positive: Legend, fmt: real -> string, k: nat)
    requires k < |params|
    ensures var r := ParetoSource(params, negative, positive, fmt);
      var t := params[RankOrder(params)[k]];
      && r.factorNames[k] == t.name
      && r.x[k] == Abs(t.value)
      && (r.barSigns[k] == "Positive" <==> t.value > 0.0)
      && (r.barSigns[k] == "Negative" <==> t.value <= 0.0)
  {
    var r := ParetoSource(params, negative, positive, fmt);
    assert Bars(r)[k] == TermBars(params, negative, positive, fmt)[RankOrder(params)[k]];
  }

  /** With two distinct colours, the bar in slot k has the negative colour
      exactly when its own coefficient is strictly negative. */
  lemma RankedColour(params: seq<Term>, negative: Legend, positive: Legend, fmt: real -> string, k: nat)
    requires k < |params|
    requires negative.colour != positive.colour
    ensures var r := ParetoSource(params, negative, positive, fmt);
      var t := params[RankOrder(params)[k]];
      && (r.barColours[k] == negative.colour <==> t.value < 0.0)
      && (r.barColours[k] == positive.colour <==> t.value >= 0.0)
  {
    var r := ParetoSource(params, negative, positive, fmt);
    assert Bars(r)[k] == TermBars(params, negative, positive, fmt)[RankOrder(params)[k]];
  }

  /** When the number format never writes a leading "+" itself (as the `0.4g`
      format does not), the tooltip text in slot k starts with "+" exactly
      when its own coefficient is strictly positive. */
  lemma RankedSignedText(params: seq<Term>, negative: Legend, positive: Legend, fmt: real -> string, k: nat)
    requires k < |params|
    requires !StartsWithPlus(fmt(params[RankOrder(params)[k]].value))
    ensures var r := ParetoSource(params, negative, positive, fmt);
      var t := params[RankOrder(params)[k]];
      StartsWithPlus(r.originalMagnitudeWithSign[k]) <==> t.value > 0.0
  {
    var r := ParetoSource(params, negative, positive, fmt);
    assert Bars(r)[k] == TermBars(params, negative, positive, fmt)[RankOrder(params)[k]];
  }

  /** `dict(zip(keys, vals))` over the first m pairs: a later key overwrites
      an earlier equal one. */
  function DictFromPairs(keys: seq<int>, vals: seq<string>, m: nat): (d: map<int, string>)
    requires m <= |keys| && m <= |vals|
    ensures d.Keys == set j | 0 <= j < m :: keys[j]
    ensures forall x :: x in d ==> d[x] in vals[..m]
  {
    if m == 0 then map[] else DictFromPairs(keys, vals, m - 1)[keys[m - 1] := vals[m - 1]]
  }

  /** `dict(zip(keys, vals))`: zip stops at the shorter sequence. */
  function DictZip(keys: seq<int>, vals: seq<string>): (d: map<int, string>)
    ensures d.Keys == set j | 0 <= j < |keys| && j < |vals| :: keys[j]
    ensures forall x :: x in d ==> d[x] in vals
  {
    DictFromPairs(keys, vals, if |keys| <= |vals| then |keys| else |vals|)
  }

  /** With strictly increasing keys, no later pair overwrites the value paired
      with key j. */
  lemma {:induction false} DictFromIncreasingPairsAt(keys: seq<int>, vals: seq<string>, m: nat, j: nat)
    requires j < m <= |keys| && m <= |vals|
    requires forall a, b :: 0 <= a < b < |keys| ==> keys[a] < keys[b]
    ensures keys[j] in DictFromPairs(keys, vals, m)
    ensures DictFromPairs(keys, vals, m)[keys[j]] == vals[j]
  {
    var last: nat := m - 1;
    if j < last {
      DictFromIncreasingPairsAt(keys, vals, last, j);
      assert keys[j] < keys[last];
    }
  }

  /** With strictly increasing keys nothing is overwritten: each key maps to
      the value paired with it. */
  lemma DictFromIncreasingPairs(keys: seq<int>, vals: seq<string>, m: nat)
    requires m <= |keys| && m <= |vals|
    requires forall a, b :: 0 <= a < b < |keys| ==> keys[a] < keys[b]
    ensures forall j :: 0 <= j < m ==> DictFromPairs(keys, vals, m)[keys[j]] == vals[j]
  {
    forall j | 0 <= j < m ensures DictFromPairs(keys, vals, m)[keys[j]] == vals[j] {
      DictFromIncreasingPairsAt(keys, vals, m, j);
    }
  }

  /** The same for `dict(zip(keys, vals))` with at least as many values as
      keys. */
  lemma DictZipIncreasingAt(keys: seq<int>, vals: seq<string>, j: nat)
    requires j < |keys| <= |vals|
    requires forall a, b :: 0 <= a < b < |keys| ==> keys[a] < keys[b]
    ensures keys[j] in DictZip(keys, vals)
    ensures DictZip(keys, vals)[keys[j]] == vals[j]
  {
    DictFromIncreasingPairsAt(keys, vals, |keys|, j);
  }

  /** The y-axis tick labels: each bar position mapped to the name in its
      slot. */
  function TickLabels(src: ColumnSource): (d: map<int, string>)
    ensures forall p :: p in d ==> p in src.y && d[p] in src.factorNames
    ensures forall k :: 0 <= k < |src.y| && k < |src.factorNames| ==> src.y[k] in d
  {
    DictZip(src.y, src.factorNames)
  }

  /** Pairing the positions 1..n with n names gives a dictionary whose keys
      are exactly 1..n, each mapped to the name beside it. */
  lemma {:induction false} TicksOfPositions(y: seq<int>, names: seq<string>)
    requires |y| == |names|
    requires forall k :: 0 <= k < |y| ==> y[k] == k + 1
    ensures var d := DictZip(y, names);
      && (forall p :: p in d <==> 1 <= p <= |y|)
      && forall k :: 0 <= k < |y| ==> d[k + 1] == names[k]
  {
    TicksCoverPositions(y, names);
    TicksOnlyAtPositions(y, names);
  }

  /** Each position p in 1..n is a tick labelled with name p - 1. */
  lemma TicksCoverPositions(y: seq<int>, names: seq<string>)
    requires |y| == |names|
    requires forall k :: 0 <= k < |y| ==> y[k] == k + 1
    ensures forall p :: 1 <= p <= |y| ==> p in DictZip(y, names) && DictZip(y, names)[p] == names[p - 1]
  {
    assert forall a, b :: 0 <= a < b < |y| ==> y[a] < y[b];
    forall p | 1 <= p <= |y| ensures p in DictZip(y, names) && DictZip(y, names)[p] == names[p - 1] {
      DictZipIncreasingAt(y, names, p - 1);
      assert y[p - 1] == p;
    }
  }

  /** Every tick is one of the positions 1..n. */
  lemma TicksOnlyAtPositions(y: seq<int>, names: seq<string>)
    requires |y| == |names|
    requires forall k :: 0 <= k < |y| ==> y[k] == k + 1
    ensures forall p :: p in DictZip(y, names) ==> 1 <= p <= |y|
  {
    forall p | p in DictZip(y, names) ensures 1 <= p <= |y| {
      var j :| 0 <= j < |y| && y[j] == p;
    }
  }

  /** The ticks are exactly the positions 1..n, and the tick at position
      k + 1 carries the name in slot k, which is the name of the k-th ranked
      term (`RankedSignLabel`). */
  lemma TickLabelsMatchRanking(params: seq<Term>, negative: Legend, positive: Legend, fmt: real -> string)
    ensures var r := ParetoSource(params, negative, positive, fmt);
      var d := TickLabels(r);
      && (forall p :: p in d <==> 1 <= p <= |params|)
      && forall k :: 0 <= k < |params| ==> d[k + 1] == r.factorNames[k]
  {
    var r := ParetoSource(params, negative, positive, fmt);
    TicksOfPositions(r.y, r.factorNames);
  }

  /** The figure height: `plot_height or (500 + (n - 8) * 20)`; a missing or
      zero height falls back to 20 pixels per bar on a 340-pixel base. */
  function PlotHeight(requested: Option<int>, n: nat): (h: int)
    ensures requested.Some? && requested.value != 0 ==> h == requested.value
    ensures requested.None? || requested.value == 0 ==> h >= 340 && h - 340 == 20 * n
  {
    if requested.Some? && requested.value != 0 then requested.value else 500 + (n - 8) * 20
  }

  /** Three effects ranked by magnitude: 3, 1 and 0 go to slots 3, 2, 1. */
  lemma ExampleRankOrder()
    ensures RankOrder([Term("A", -3.0), Term("B", 1.0), Term("AB", 0.0)]) == [2, 1, 0]
  {
    var params := [Term("A", -3.0), Term("B", 1.0), Term("AB", 0.0)];
    var mags := Magnitudes(params);
    assert mags[0] == 3.0 && mags[1] == 1.0 && mags[2] == 0.0;
    assert mags == [3.0, 1.0, 0.0];
    ExampleArgSort();
  }

  /** Magnitudes 3, 1, 0 are sorted by inserting each index in front. */
  lemma ExampleArgSort()
    ensures ArgSort([3.0, 1.0, 0.0]) == [2, 1, 0]
  {
    var mags := [3.0, 1.0, 0.0];
    assert SortPrefix(mags, 1) == [0];
    assert Insert(mags, [0], 1) == [1, 0];
    assert SortPrefix(mags, 2) == [1, 0];
    assert Insert(mags, [1, 0], 2) == [2, 1, 0];
  }

  /** The ranked names and magnitudes of the three-effect example. */
  lemma ExampleNamesAndMagnitudes(fmt: real -> string)
    ensures var r := ParetoSource([Term("A", -3.0), Term("B", 1.0), Term("AB", 0.0)],
                                  DefaultNegative, DefaultPositive, fmt);
      && |r.factorNames| == 3 && r.factorNames[0] == "AB" && r.factorNames[1] == "B" && r.factorNames[2] == "A"
      && |r.x| == 3 && r.x[0] == 0.0 && r.x[1] == 1.0 && r.x[2] == 3.0
  {
    var params := [Term("A", -3.0), Term("B", 1.0), Term("AB", 0.0)];
    ExampleRankOrder();
    var r := ParetoSource(params, DefaultNegative, DefaultPositive, fmt);
    assert r.factorNames == Gather(Names(params), [2, 1, 0]);
    assert r.x == Gather(Magnitudes(params), [2, 1, 0]);
  }

  /** The ranked sign labels of the three-effect example. */
  lemma ExampleSigns(fmt: real -> string)
    ensures var r := ParetoSource([Term("A", -3.0), Term("B", 1.0), Term("AB", 0.0)],
                                  DefaultNegative, DefaultPositive, fmt);
      |r.barSigns| == 3 && r.barSigns[0] == "Negative" && r.barSigns[1] == "Positive" && r.barSigns[2] == "Negative"
  {
    var params := [Term("A", -3.0), Term("B", 1.0), Term("AB", 0.0)];
    ExampleRankOrder();
    var r := ParetoSource(params, DefaultNegative, DefaultPositive, fmt);
    assert r.barSigns == Gather(BarSigns(params), [2, 1, 0]);
  }

  /** The ranked bar colours of the three-effect example. */
  lemma ExampleColours(fmt: real -> string)
    ensures var r := ParetoSource([Term("A", -3.0), Term("B", 1.0), Term("AB", 0.0)],
                                  DefaultNegative, DefaultPositive, fmt);
      |r.barColours| == 3 && r.barColours[0] == "black" && r.barColours[1] == "black" && r.barColours[2] == "grey"
  {
    var params := [Term("A", -3.0), Term("B", 1.0), Term("AB", 0.0)];
    ExampleRankOrder();
    var r := ParetoSource(params, DefaultNegative, DefaultPositive, fmt);
    assert r.barColours == Gather(BarColours(params, DefaultNegative, DefaultPositive), [2, 1, 0]);
  }

  /** Three effects, one of them exactly zero: the zero effect is ranked
      first (at position 1), labelled "Negative" and drawn in the positive
      colour. */
  lemma ZeroEffectExample(fmt: real -> string)
    ensures var r := ParetoSource([Term("A", -3.0), Term("B", 1.0), Term("AB", 0.0)],
                                  DefaultNegative, DefaultPositive, fmt);
      && |r.y| == 3 && r.y[0] == 1
      && r.factorNames[0] == "AB" && r.x[0] == 0.0
      && r.barSigns[0] == "Negative" && r.barColours[0] == DefaultPositive.colour
  {
    ExampleNamesAndMagnitudes(fmt);
    ExampleSigns(fmt);
    ExampleColours(fmt);
  }
}
