/** Argument plumbing and grid bookkeeping of `contour_plot` in
    process_improve/plotting.py.

    The N grid values of each axis are inputs here (their `np.linspace`
    computation is floating point). `np.meshgrid` followed by `ravel` turns
    them into two flat columns of N*N points in row-major order: flat index
    k is the point (h[k % N], v[k / N]). The axis factor names default to the
    first two parameter names; the keyword map sends each axis name to its
    flat column; the prediction (a call into code outside this model, passed
    in as `predict`) comes back flat and is reshaped to N rows of N values. */
module Contour {
  import opened Wrappers

  /** A keyword argument for the prediction: a flat grid column, or a single
      level at which another factor is held. */
  datatype FactorValue = Column(values: seq<real>) | Level(value: real)

  /** The `other_factors` argument: `None`, a dictionary, or some other
      object (which `isinstance(other_factors, dict)` ignores). */
  datatype OtherFactors = NotGiven | Dict(entries: map<string, FactorValue>) | NotADict

  datatype ContourError =
    | IndexError(position: nat)                        // params.index[position] with too few parameters
    | ReshapeError(size: nat, rows: nat, cols: nat)    // reshape to a shape of another size

  /** Row-major (C order) position of cell (i, j) in a grid with `cols`
      columns. */
  function FlatIndex(i: nat, j: nat, cols: nat): (k: nat)
  {
    i * cols + j
  }

  lemma MulMonotone(a: nat, b: nat, c: nat)
    requires a <= b
    ensures a * c <= b * c
  {
  }

  /** Every cell of a rows x cols grid has a flat index inside the flat
      sequence, and division and remainder by `cols` recover the cell. */
  lemma FlatIndexRoundTrip(i: nat, j: nat, rows: nat, cols: nat)
    requires i < rows && j < cols
    ensures FlatIndex(i, j, cols) < rows * cols
    ensures FlatIndex(i, j, cols) / cols == i
    ensures FlatIndex(i, j, cols) % cols == j
  {
    MulMonotone(i + 1, rows, cols);
    var k := FlatIndex(i, j, cols);
    var q, r := k / cols, k % cols;
    assert k == q * cols + r && 0 <= r < cols;
    if q > i {
      MulMonotone(i + 1, q, cols);
    } else if q < i {
      MulMonotone(q + 1, i, cols);
    }
  }

  /** A flat index below rows * cols lies in row k / cols < rows. */
  lemma RowOfFlatIndex(k: nat, rows: nat, cols: nat)
    requires k < rows * cols
    ensures cols > 0 && k / cols < rows
  {
    if cols > 0 && k / cols >= rows {
      MulMonotone(rows, k / cols, cols);
    }
  }

  /** `H.ravel()` for `H, V = np.meshgrid(h, v)`: H has |v| rows, each a copy
      of h, flattened row after row. */
  function MeshH(h: seq<real>, v: seq<real>): (hs: seq<real>)
    ensures |hs| == |v| * |h|
  {
    seq(|v| * |h|, k requires 0 <= k < |v| * |h| => RowOfFlatIndex(k, |v|, |h|); h[k % |h|])
  }

  /** `V.ravel()` for `H, V = np.meshgrid(h, v)`: row i of V is v[i]
      repeated |h| times, flattened row after row. */
  function MeshV(h: seq<real>, v: seq<real>): (vs: seq<real>)
    ensures |vs| == |v| * |h|
  {
    seq(|v| * |h|, k requires 0 <= k < |v| * |h| => RowOfFlatIndex(k, |v|, |h|); v[k / |h|])
  }

  /** The mesh cell in row i and column j sits at flat index i * |h| + j and
      holds the pair (h[j], v[i]). */
  lemma MeshCell(h: seq<real>, v: seq<real>, i: nat, j: nat)
    requires i < |v| && j < |h|
    ensures FlatIndex(i, j, |h|) < |v| * |h|
    ensures MeshH(h, v)[FlatIndex(i, j, |h|)] == h[j]
    ensures MeshV(h, v)[FlatIndex(i, j, |h|)] == v[i]
  {
    FlatIndexRoundTrip(i, j, |v|, |h|);
  }

  /** Every flat point of the mesh is a pair of grid values: position k holds
      (h[k % |h|], v[k / |h|]), the cell in row k / |h| and column k % |h|. */
  lemma MeshPointAt(h: seq<real>, v: seq<real>, k: nat)
    requires k < |v| * |h|
    ensures |h| > 0 && k / |h| < |v| && k == FlatIndex(k / |h|, k % |h|, |h|)
    ensures MeshH(h, v)[k] == h[k % |h|] && MeshV(h, v)[k] == v[k / |h|]
  {
    RowOfFlatIndex(k, |v|, |h|);
  }

  /** The axis factor: the label given, or else the parameter name at
      `position` (`params.index[position]`), which fails with too few
      parameters. */
  function ResolveLabel(given: Option<string>, names: seq<string>, position: nat): (r: Result<string, ContourError>)
    ensures r.Err? <==> given.None? && |names| <= position
    ensures r.Err? ==> r.error == IndexError(position)
    ensures r.Ok? ==> r.value == if given.Some? then given.value else names[position]
  {
    match given
    case Some(s) => Ok(s)
    case None => if position < |names| then Ok(names[position]) else Err(IndexError(position))
  }

  /** `{xlabel: h_grid, ylabel: v_grid}`. A dictionary display keeps the
      last value for a repeated key, so equal names keep only the v grid. */
  function AxisKwargs(xl: string, yl: string, hs: seq<real>, vs: seq<real>): (kw: map<string, FactorValue>)
    ensures kw.Keys == {xl, yl}
    ensures kw[yl] == Column(vs)
    ensures xl != yl ==> kw[xl] == Column(hs)
  {
    map[xl := Column(hs)][yl := Column(vs)]
  }

  /** `kwargs = kwargs.update(other_factors)` AS WRITTEN: `dict.update`
      returns `None`, so a dictionary of other factors replaces the whole
      keyword map (the axis grids included) by `None`. */
  function UpdateKwargsAsWritten(kw: map<string, FactorValue>, other: OtherFactors): (r: Option<map<string, FactorValue>>)
    ensures r.None? <==> other.Dict?
    ensures r.Some? ==> r.value == kw
  {
    if other.Dict? then None else Some(kw)
  }

  /** The intended merge: the axis grids updated with the other factors
      (`dict.update` semantics: on a shared key the other factor wins);
      `None` and non-dictionaries leave the map alone. */
  function MergeKwargs(kw: map<string, FactorValue>, other: OtherFactors): (r: map<string, FactorValue>)
    ensures other.Dict? ==> r.Keys == kw.Keys + other.entries.Keys
    ensures !other.Dict? ==> r == kw
    ensures other.Dict? ==> forall f :: f in other.entries ==> r[f] == other.entries[f]
    ensures forall f :: f in kw && (!other.Dict? || f !in other.entries) ==> r[f] == kw[f]
  {
    if other.Dict? then kw + other.entries else kw
  }

  /** With a dictionary of other factors the as-written code hands the
      prediction no keyword map at all, while the intended merge keeps both
      axis grids and adds every other factor. */
  lemma OtherFactorsDropKwargs(xl: string, yl: string, hs: seq<real>, vs: seq<real>, entries: map<string, FactorValue>)
    requires xl != yl && xl !in entries && yl !in entries
    ensures UpdateKwargsAsWritten(AxisKwargs(xl, yl, hs, vs), Dict(entries)) == None
    ensures var kw := MergeKwargs(AxisKwargs(xl, yl, hs, vs), Dict(entries));
      kw[xl] == Column(hs) && kw[yl] == Column(vs) && entries.Keys <= kw.Keys
  {
  }

  /** Row i of a rows x cols grid occupies flat indices i * cols up to
      (i + 1) * cols, inside the rows * cols flat values. */
  lemma RowSpan(i: nat, rows: nat, cols: nat)
    requires i < rows
    ensures FlatIndex(i, 0, cols) + cols <= rows * cols
  {
    MulMonotone(i + 1, rows, cols);
  }

  /** The `cols` flat values of row i. */
  function Row(flat: seq<real>, i: nat, cols: nat): (r: seq<real>)
    requires FlatIndex(i, 0, cols) + cols <= |flat|
    ensures |r| == cols
    ensures forall j :: 0 <= j < cols ==> r[j] == flat[FlatIndex(i, 0, cols) + j]
  {
    flat[FlatIndex(i, 0, cols)..FlatIndex(i, 0, cols) + cols]
  }

  /** `Z.values.reshape(rows, cols)`: row i is the slice of `cols` values
      starting at flat index i * cols; any other size is an error. */
  function Reshape(flat: seq<real>, rows: nat, cols: nat): (r: Result<seq<seq<real>>, ContourError>)
    ensures r.Ok? <==> |flat| == rows * cols
    ensures r.Err? ==> r.error == ReshapeError(|flat|, rows, cols)
    ensures r.Ok? ==> |r.value| == rows && forall i :: 0 <= i < rows ==> |r.value[i]| == cols
  {
    if |flat| != rows * cols then Err(ReshapeError(|flat|, rows, cols))
    else
      Ok(seq(rows, i requires 0 <= i < rows => RowSpan(i, rows, cols); Row(flat, i, cols)))
  }

  /** The reshaped grid holds flat[i * cols + j] in row i, column j. */
  lemma ReshapeCells(flat: seq<real>, rows: nat, cols: nat)
    requires |flat| == rows * cols
    ensures var z := Reshape(flat, rows, cols).value;
      forall i: nat, j: nat :: i < rows && j < cols ==>
        FlatIndex(i, j, cols) < |flat| && z[i][j] == flat[FlatIndex(i, j, cols)]
  {
    var z := Reshape(flat, rows, cols).value;
    forall i: nat, j: nat | i < rows && j < cols
      ensures FlatIndex(i, j, cols) < |flat| && z[i][j] == flat[FlatIndex(i, j, cols)]
    {
      RowSpan(i, rows, cols);
    }
  }

  /** `ravel` of a grid given as rows: the rows concatenated in order. */
  function Ravel(z: seq<seq<real>>): (flat: seq<real>)
    ensures forall i, x :: 0 <= i < |z| && x in z[i] ==> x in flat
    ensures forall x :: x in flat ==> exists i :: 0 <= i < |z| && x in z[i]
  {
    if z == [] then [] else Ravel(z[..|z| - 1]) + z[|z| - 1]
  }

  /** Row i + 1 starts where row i ends. */
  lemma NextRowStart(i: nat, cols: nat)
    ensures FlatIndex(i, 0, cols) + cols == FlatIndex(i + 1, 0, cols)
  {
  }

  /** Row i of the reshaped grid is the slice of flat values it spans. */
  lemma ReshapeRow(flat: seq<real>, rows: nat, cols: nat, i: nat)
    requires |flat| == rows * cols && i < rows
    ensures FlatIndex(i, 0, cols) + cols <= |flat|
    ensures Reshape(flat, rows, cols).value[i] == flat[FlatIndex(i, 0, cols)..FlatIndex(i, 0, cols) + cols]
  {
    RowSpan(i, rows, cols);
  }

  /** Ravelling one more row appends that row. */
  lemma RavelSnoc(z: seq<seq<real>>, m: nat)
    requires 0 < m <= |z|
    ensures Ravel(z[..m]) == Ravel(z[..m - 1]) + z[m - 1]
  {
    assert z[..m][..m - 1] == z[..m - 1];
  }

  /** A prefix splits at any point into a shorter prefix and a slice. */
  lemma PrefixSplit(flat: seq<real>, a: nat, b: nat)
    requires a <= b <= |flat|
    ensures flat[..b] == flat[..a] + flat[a..b]
  {
  }

  /** The first m rows of a reshaped grid ravel back to the flat values
      before row m. */
  lemma {:induction false} RavelReshapedRows(flat: seq<real>, rows: nat, cols: nat, m: nat)
    requires |flat| == rows * cols && m <= rows
    ensures FlatIndex(m, 0, cols) <= |flat|
    ensures Ravel(Reshape(flat, rows, cols).value[..m]) == flat[..FlatIndex(m, 0, cols)]
  {
    if m < rows {
      RowSpan(m, rows, cols);
    }
    if m > 0 {
      var p: nat := m - 1;
      var z := Reshape(flat, rows, cols).value;
      RavelReshapedRows(flat, rows, cols, p);
      ReshapeRow(flat, rows, cols, p);
      NextRowStart(p, cols);
      RavelSnoc(z, m);
      PrefixSplit(flat, FlatIndex(p, 0, cols), FlatIndex(m, 0, cols));
    }
  }

  /** Reshaping and then ravelling gives back the flat values. */
  lemma RavelReshape(flat: seq<real>, rows: nat, cols: nat)
    requires |flat| == rows * cols
    ensures Ravel(Reshape(flat, rows, cols).value) == flat
  {
    RavelReshapedRows(flat, rows, cols, rows);
    assert Reshape(flat, rows, cols).value[..rows] == Reshape(flat, rows, cols).value;
    assert flat[..FlatIndex(rows, 0, cols)] == flat;
  }
  /** `H.ravel()` is the grid H, whose |v| rows are each a copy of h,
      ravelled row after row. */
  lemma MeshHRavelsRows(h: seq<real>, v: seq<real>)
    ensures MeshH(h, v) == Ravel(seq(|v|, _ => h))
  {
    var hs := MeshH(h, v);
    var z := Reshape(hs, |v|, |h|).value;
    ReshapeCells(hs, |v|, |h|);
    forall i | 0 <= i < |v| ensures z[i] == h {
      forall j | 0 <= j < |h| ensures z[i][j] == h[j] {
        MeshCell(h, v, i, j);
      }
    }
    assert z == seq(|v|, _ => h);
    RavelReshape(hs, |v|, |h|);
  }

  /** `V.ravel()` is the grid V, whose row i is v[i] repeated |h| times,
      ravelled row after row. */
  lemma MeshVRavelsRows(h: seq<real>, v: seq<real>)
    ensures MeshV(h, v) == Ravel(seq(|v|, i requires 0 <= i < |v| => seq(|h|, _ => v[i])))
  {
    var vs := MeshV(h, v);
    var z := Reshape(vs, |v|, |h|).value;
    var rows := seq(|v|, i requires 0 <= i < |v| => seq(|h|, _ => v[i]));
    ReshapeCells(vs, |v|, |h|);
    forall i | 0 <= i < |v| ensures z[i] == rows[i] {
      forall j | 0 <= j < |h| ensures z[i][j] == v[i] {
        MeshCell(h, v, i, j);
      }
    }
    assert z == rows;
    RavelReshape(vs, |v|, |h|);
  }

  /** The keyword map `contour_plot` passes to the prediction, with the
      corrected merge of the other factors. */
  function ContourKwargs(names: seq<string>, xlabel: Option<string>, ylabel: Option<string>,
                         h: seq<real>, v: seq<real>, other: OtherFactors): (r: Result<map<string, FactorValue>, ContourError>)
    ensures r.Err? <==> (xlabel.None? && |names| == 0) || (ylabel.None? && |names| <= 1)
    ensures r.Err? ==> r.error == if xlabel.None? && |names| == 0 then IndexError(0) else IndexError(1)
    ensures r.Ok? ==>
      var xl := if xlabel.Some? then xlabel.value else names[0];
      var yl := if ylabel.Some? then ylabel.value else names[1];
      r.value == MergeKwargs(AxisKwargs(xl, yl, MeshH(h, v), MeshV(h, v)), other)
  {
    match ResolveLabel(xlabel, names, 0)
    case Err(e) => Err(e)
    case Ok(xl) =>
      match ResolveLabel(ylabel, names, 1)
      case Err(e) => Err(e)
      case Ok(yl) => Ok(MergeKwargs(AxisKwargs(xl, yl, MeshH(h, v), MeshV(h, v)), other))
  }

  /** The N x N surface of predictions. Row i of the result belongs to the
      vertical grid value v[i], column j to the horizontal value h[j]. */
  function ContourSurface(names: seq<string>, xlabel: Option<string>, ylabel: Option<string>,
                          h: seq<real>, v: seq<real>, other: OtherFactors,
                          predict: map<string, FactorValue> -> seq<real>): (r: Result<seq<seq<real>>, ContourError>)
    requires |v| == |h|
    ensures ContourKwargs(names, xlabel, ylabel, h, v, other).Err? ==>
      r == Err(ContourKwargs(names, xlabel, ylabel, h, v, other).error)
    ensures ContourKwargs(names, xlabel, ylabel, h, v, other).Ok? ==>
      var flat := predict(ContourKwargs(names, xlabel, ylabel, h, v, other).value);
      && (r.Ok? <==> |flat| == |h| * |h|)
      && (r.Err? ==> r.error == ReshapeError(|flat|, |h|, |h|))
      && (r.Ok? ==> |r.value| == |h| && forall i :: 0 <= i < |h| ==> |r.value[i]| == |h|)
      && (r.Ok? ==> forall i: nat, j: nat :: i < |h| && j < |h| ==>
            FlatIndex(i, j, |h|) < |flat| && r.value[i][j] == flat[FlatIndex(i, j, |h|)])
  {
    match ContourKwargs(names, xlabel, ylabel, h, v, other)
    case Err(e) => Err(e)
    case Ok(kw) =>
      var flat := predict(kw);
      if |flat| == |h| * |h| then
        ReshapeCells(flat, |h|, |h|);
        Reshape(flat, |h|, |h|)
      else
        Reshape(flat, |h|, |h|)
  }

  /** Evaluating a function of the two axis values at every flat mesh point
      and reshaping puts f(h[j], v[i]) in row i, column j. */
  lemma PointwiseSurface(h: seq<real>, v: seq<real>, f: (real, real) -> real)
    requires |v| == |h|
    ensures var n := |h|;
      var hs := MeshH(h, v);
      var vs := MeshV(h, v);
      var flat := seq(n * n, k requires 0 <= k < n * n => f(hs[k], vs[k]));
      && Reshape(flat, n, n).Ok?
      && forall i: nat, j: nat :: i < n && j < n ==> Reshape(flat, n, n).value[i][j] == f(h[j], v[i])
  {
    var n := |h|;
    var hs := MeshH(h, v);
    var vs := MeshV(h, v);
    var flat := seq(n * n, k requires 0 <= k < n * n => f(hs[k], vs[k]));
    var z := Reshape(flat, n, n).value;
    ReshapeCells(flat, n, n);
    forall i: nat, j: nat | i < n && j < n ensures z[i][j] == f(h[j], v[i]) {
      MeshCell(h, v, i, j);
    }
  }

  /** With the default axes (the first two parameter names, distinct) and no
      other factors, a prediction that evaluates f at each pair of axis values
      yields the surface f(h[j], v[i]) in row i, column j. */
  lemma DefaultAxesSurface(names: seq<string>, h: seq<real>, v: seq<real>, f: (real, real) -> real,
                           predict: map<string, FactorValue> -> seq<real>)
    requires |v| == |h| && |names| >= 2 && names[0] != names[1]
    requires var hs := MeshH(h, v); var vs := MeshV(h, v);
      predict(map[names[0] := Column(hs), names[1] := Column(vs)])
        == seq(|h| * |h|, k requires 0 <= k < |h| * |h| => f(hs[k], vs[k]))
    ensures var r := ContourSurface(names, None, None, h, v, NotGiven, predict);
      && r.Ok? && |r.value| == |h|
      && forall i: nat, j: nat :: i < |h| && j < |h| ==> r.value[i][j] == f(h[j], v[i])
  {
    var hs := MeshH(h, v);
    var vs := MeshV(h, v);
    var kw := ContourKwargs(names, None, None, h, v, NotGiven);
    assert kw.Ok? && kw.value == AxisKwargs(names[0], names[1], hs, vs);
    assert kw.value == map[names[0] := Column(hs), names[1] := Column(vs)];
    PointwiseSurface(h, v, f);
  }
}
