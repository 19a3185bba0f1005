/** The bookkeeping of the conditional-oscillation heatmap analysis around
    the optimal-point extractor: reshaping interpolated heatmaps into
    parallel one-dimensional arrays, recognising the measured quantities by
    name, the single-minimum fallback, and flattening the clusters for
    plotting. */
module HeatmapAnalysis {
  import opened Wrappers
  import opened Numerals
  import opened FluxSelection
  import opened FluxRanking
  import opened FluxOptimals
  import opened ArrayLayout

  /** What the analysis can raise on the paths modelled here. */
  datatype HeatmapError =
    | NameNotFound        // IndexError from `np.where(...)[0][0]`
    | EmptyArgMin         // ValueError from `argmin` of an empty array
    | ZeroSliceLength     // ZeroDivisionError from `size / slice_above_len`
    | ZeroSliceStep       // ValueError: slice step cannot be zero
    | Unmeasured          // a quantity the extractor needs was never found
    | SweepFailed(cause: SweepError)

  // ---------------------------------------------------------------------
  // Reshaping interpolated heatmaps
  // ---------------------------------------------------------------------

  /** A heatmap as a list of rows. */
  type Matrix = seq<seq<real>>

  function Width(z: Matrix): nat
  {
    if |z| == 0 then 0 else |z[0]|
  }

  /** A two-dimensional array: every row as long as the first. */
  predicate Rectangular(z: Matrix)
  {
    forall i :: 0 <= i < |z| ==> |z[i]| == Width(z)
  }

  /** `v[::step]` for a positive step: every step-th element from the first. */
  function Strided<T>(v: seq<T>, step: nat): (r: seq<T>)
    requires step >= 1
    decreases |v|
  {
    if |v| == 0 then []
    else if |v| <= step then [v[0]]
    else [v[0]] + Strided(v[step..], step)
  }

  /** `v[::step]` keeps ceil(|v| / step) elements, element k being
      v[k * step]. */
  lemma StridedAt<T>(v: seq<T>, step: nat)
    requires step >= 1
    ensures |Strided(v, step)| == (|v| + step - 1) / step
    ensures forall k :: 0 <= k < |Strided(v, step)| ==> k * step < |v| && Strided(v, step)[k] == v[k * step]
  {
    StridedLength(v, step);
    forall k | 0 <= k < |Strided(v, step)| ensures k * step < |v| && Strided(v, step)[k] == v[k * step] {
      StridedElement(v, step, k);
    }
  }

  lemma {:induction false} StridedLength<T>(v: seq<T>, step: nat)
    requires step >= 1
    ensures |Strided(v, step)| == (|v| + step - 1) / step
    decreases |v|
  {
    if |v| == 0 {
      ModUnique(step - 1, step, 0, step - 1);
    } else if |v| <= step {
      ModUnique(|v| + step - 1, step, 1, |v| - 1);
    } else {
      StridedLength(v[step..], step);
      var n := |v| - 1;
      assert |v[step..]| + step - 1 == n;
      ModUnique(n, step, n / step, n % step);
      ModUnique(n + step, step, n / step + 1, n % step);
    }
  }

  lemma {:induction false} StridedElement<T>(v: seq<T>, step: nat, k: nat)
    requires step >= 1 && k < |Strided(v, step)|
    ensures k * step < |v| && Strided(v, step)[k] == v[k * step]
    decreases k
  {
    if k > 0 {
      var tail := v[step..];
      assert Strided(v, step)[k] == Strided(tail, step)[k - 1];
      StridedElement(tail, step, k - 1);
      assert (k - 1) * step + step == k * step;
    }
  }

  function Reversed<T>(v: seq<T>): (r: seq<T>)
    ensures |r| == |v|
    ensures forall k :: 0 <= k < |v| ==> r[k] == v[|v| - 1 - k]
  {
    seq(|v|, k requires 0 <= k < |v| => v[|v| - 1 - k])
  }

  /** `v[::step]` for a non-zero step; a negative step walks back from the
      last element. */
  function Slice<T>(v: seq<T>, step: int): seq<T>
    requires step != 0
  {
    if step > 0 then Strided(v, step) else Strided(Reversed(v), -step)
  }

  /** `np.int(np.ceil(size / n))` for integers, n non-zero. */
  function CeilDiv(size: nat, n: int): (q: int)
    requires n != 0
    ensures n > 0 ==> (q - 1) * n < size <= q * n
    ensures n < 0 ==> q * n <= size < (q - 1) * n
  {
    if n > 0 then
      ModUnique(size + n - 1, n, (size + n - 1) / n, (size + n - 1) % n);
      (size + n - 1) / n
    else
      ModUnique(size, -n, size / -n, size % -n);
      -(size / -n)
  }

  /** The step `interp_to_1D_arr` takes through an axis of `size` elements
      so that about `sliceAboveLen` remain. */
  function SliceStep(size: nat, sliceAboveLen: int): (r: Result<int, HeatmapError>)
    ensures sliceAboveLen == 0 <==> r == Failure(ZeroSliceLength)
    ensures r.Success? ==> r.value != 0
    ensures sliceAboveLen > 0 && size >= 1 ==> r.Success? && r.value >= 1
    ensures sliceAboveLen > 0 && size == 0 ==> r == Failure(ZeroSliceStep)
  {
    if sliceAboveLen == 0 then Failure(ZeroSliceLength)
    else
      var step := CeilDiv(size, sliceAboveLen);
      if step == 0 then Failure(ZeroSliceStep) else Success(step)
  }

  /** `np.array(v)[::step]` with the step from `SliceStep`. */
  function ThinOut(v: seq<real>, sliceAboveLen: int): (r: Result<seq<real>, HeatmapError>)
    ensures r.Failure? <==> SliceStep(|v|, sliceAboveLen).Failure?
  {
    var step :- SliceStep(|v|, sliceAboveLen);
    Success(Slice(v, step))
  }

  /** `np.array(z)[::step0, ::step1]`: rows and then every row thinned out. */
  function ThinOutMatrix(z: Matrix, sliceAboveLen: int): (r: Result<Matrix, HeatmapError>)
    ensures r.Failure? <==> SliceStep(|z|, sliceAboveLen).Failure? || SliceStep(Width(z), sliceAboveLen).Failure?
  {
    var step0 :- SliceStep(|z|, sliceAboveLen);
    var step1 :- SliceStep(Width(z), sliceAboveLen);
    var rows := Slice(z, step0);
    Success(seq(|rows|, i requires 0 <= i < |rows| => Slice(rows[i], step1)))
  }

  /** `np.ravel(z)`: the rows one after another. */
  function Ravel(z: Matrix): seq<real>
  {
    if |z| == 0 then [] else Ravel(z[..|z| - 1]) + z[|z| - 1]
  }

  /** Element k of the row-major layout of z, rows of width w. */
  function Cell(z: Matrix, w: nat, k: nat): real
  {
    if 1 <= w && k / w < |z| && k % w < |z[k / w]| then z[k / w][k % w] else 0.0
  }

  lemma {:induction false} RavelLength(z: Matrix)
    requires Rectangular(z)
    ensures |Ravel(z)| == |z| * Width(z)
  {
    if |z| > 0 {
      var init := z[..|z| - 1];
      assert Rectangular(init) && (|init| > 0 ==> Width(init) == Width(z)) by {
        if |init| > 0 { assert init[0] == z[0]; }
      }
      RavelLength(init);
      assert |Ravel(z)| == (|z| - 1) * Width(z) + Width(z);
    }
  }

  lemma {:induction false} RavelCell(z: Matrix, k: nat)
    requires Rectangular(z) && k < |Ravel(z)|
    ensures 1 <= Width(z) && k / Width(z) < |z| && Ravel(z)[k] == Cell(z, Width(z), k)
  {
    var w := Width(z);
    var init := z[..|z| - 1];
    assert Rectangular(init) && (|init| > 0 ==> Width(init) == w) by {
      if |init| > 0 { assert init[0] == z[0]; }
    }
    var prev := Ravel(init);
    assert |prev| == (|z| - 1) * w by {
      RavelLength(init);
    }
    if k < |prev| {
      RavelCell(init, k);
      assert Ravel(z)[k] == prev[k];
      assert init[k / w] == z[k / w];
    } else {
      assert w >= 1 && k - |prev| < w;
      ModUnique(k, w, |z| - 1, k - |prev|);
      assert Ravel(z)[k] == z[|z| - 1][k - |prev|];
    }
  }

  lemma RavelCells(z: Matrix)
    requires Rectangular(z)
    ensures |Ravel(z)| == |z| * Width(z)
    ensures forall k :: 0 <= k < |Ravel(z)| ==> 1 <= Width(z) && k / Width(z) < |z| && Ravel(z)[k] == Cell(z, Width(z), k)
  {
    RavelLength(z);
    forall k | 0 <= k < |Ravel(z)| ensures 1 <= Width(z) && k / Width(z) < |z| && Ravel(z)[k] == Cell(z, Width(z), k) {
      RavelCell(z, k);
    }
  }

  lemma RavelAt(z: Matrix)
    requires Rectangular(z)
    ensures |Ravel(z)| == |z| * Width(z)
    ensures forall k :: 0 <= k < |Ravel(z)| ==> Ravel(z)[k] == z[k / Width(z)][k % Width(z)]
  {
    RavelCells(z);
  }

  /** What `interp_to_1D_arr` hands back. */
  datatype Reshaped =
    | NoArrays
    | Values(z: seq<real>)
    | Grid(x: seq<real>, y: seq<real>)
    | GridValues(x: seq<real>, y: seq<real>, z: seq<real>)
    | GridHeatmap(x: seq<real>, y: seq<real>, heatmap: Matrix)

  function ThinOutOpt(v: Option<seq<real>>, sliceAboveLen: int): (r: Result<Option<seq<real>>, HeatmapError>)
    ensures r.Success? ==> r.value.Some? == v.Some?
  {
    match v
    case None => Success(None)
    case Some(a) =>
      var t :- ThinOut(a, sliceAboveLen);
      Success(Some(t))
  }

  function ThinOutMatrixOpt(z: Option<Matrix>, sliceAboveLen: int): (r: Result<Option<Matrix>, HeatmapError>)
    ensures r.Success? ==> r.value.Some? == z.Some?
  {
    match z
    case None => Success(None)
    case Some(a) =>
      var t :- ThinOutMatrix(a, sliceAboveLen);
      Success(Some(t))
  }

  /** The optional thinning of `interp_to_1D_arr`, applied to x, then y,
      then z; the first failure is the one raised. */
  function ThinAll(x: Option<seq<real>>, y: Option<seq<real>>, z: Option<Matrix>, sliceAboveLen: Option<int>)
    : (r: Result<(Option<seq<real>>, Option<seq<real>>, Option<Matrix>), HeatmapError>)
    ensures r.Success? ==> r.value.0.Some? == x.Some? && r.value.1.Some? == y.Some? && r.value.2.Some? == z.Some?
  {
    match sliceAboveLen
    case None => Success((x, y, z))
    case Some(n) =>
      var x' :- ThinOutOpt(x, n);
      var y' :- ThinOutOpt(y, n);
      var z' :- ThinOutMatrixOpt(z, n);
      Success((x', y', z'))
  }
  /** Thinning out with a positive length keeps the first element and then
      every step-th one, and leaves at most `sliceAboveLen` elements. */
  lemma ThinOutAtMost(v: seq<real>, sliceAboveLen: int)
    requires sliceAboveLen >= 1 && |v| >= 1
    ensures var r := ThinOut(v, sliceAboveLen);
      && r.Success?
      && 1 <= |r.value| <= sliceAboveLen
      && var step := CeilDiv(|v|, sliceAboveLen);
         forall k :: 0 <= k < |r.value| ==> k * step < |v| && r.value[k] == v[k * step]
  {
    var step := CeilDiv(|v|, sliceAboveLen);
    assert step >= 1 && |v| <= step * sliceAboveLen;
    assert ThinOut(v, sliceAboveLen) == Success(Strided(v, step));
    assert |Strided(v, step)| == (|v| + step - 1) / step
        && forall k :: 0 <= k < |Strided(v, step)| ==> k * step < |v| && Strided(v, step)[k] == v[k * step] by {
      StridedAt(v, step);
    }
    CeilBounds(|v|, step, sliceAboveLen);
  }

  /** Rounding n / step up gives between 1 and l when 1 <= n <= step * l. */
  lemma CeilBounds(n: nat, step: nat, l: nat)
    requires step >= 1 && 1 <= n <= step * l
    ensures 1 <= (n + step - 1) / step <= l
  {
    DivBelow(n + step - 1, step, l + 1);
    ModUnique(n + step - 1, step, (n + step - 1) / step, (n + step - 1) % step);
  }

  /** The reshaping proper, once the arrays have been thinned out. */
  function Layout(x: Option<seq<real>>, y: Option<seq<real>>, z: Option<Matrix>): (r: Reshaped)
    ensures z.Some? && x.Some? && y.Some? ==> r.GridValues?
    ensures z.Some? && !(x.Some? && y.Some?) ==> r.Values?
    ensures z.None? && x.Some? && y.Some? ==> r.Grid?
    ensures z.None? && !(x.Some? && y.Some?) ==> r == NoArrays
  {
    if x.Some? && y.Some? && z.Some? then
      GridValues(Tiled(x.value, |y.value|), Stretched(y.value, |x.value|), Ravel(z.value))
    else if z.Some? then Values(Ravel(z.value))
    else if x.Some? && y.Some? then Grid(Tiled(x.value, |y.value|), Stretched(y.value, |x.value|))
    else NoArrays
  }

  /** `interp_to_1D_arr(x_int, y_int, z_int, slice_above_len)` with the
      heatmap flattened in every branch: the optional arrays are thinned
      out, then laid out as parallel one-dimensional arrays. */
  function InterpTo1DArr(x: Option<seq<real>>, y: Option<seq<real>>, z: Option<Matrix>, sliceAboveLen: Option<int>)
    : (r: Result<Reshaped, HeatmapError>)
    ensures r.Failure? <==> ThinAll(x, y, z, sliceAboveLen).Failure?
    ensures sliceAboveLen.None? ==> r.Success?
    ensures r.Success? && z.Some? && x.Some? && y.Some? ==> r.value.GridValues?
    ensures r.Success? && z.Some? && !(x.Some? && y.Some?) ==> r.value.Values?
    ensures r.Success? && z.None? && x.Some? && y.Some? ==> r.value.Grid?
    ensures r.Success? && z.None? && !(x.Some? && y.Some?) ==> r.value == NoArrays
  {
    var t :- ThinAll(x, y, z, sliceAboveLen);
    Success(Layout(t.0, t.1, t.2))
  }

  /** `interp_to_1D_arr` as written: when x, y and z are all given, the
      third component handed back is the thinned two-dimensional heatmap,
      not its ravel. */
  function InterpTo1DArrAsWritten(x: Option<seq<real>>, y: Option<seq<real>>, z: Option<Matrix>, sliceAboveLen: Option<int>)
    : (r: Result<Reshaped, HeatmapError>)
    ensures r.Failure? <==> ThinAll(x, y, z, sliceAboveLen).Failure?
    ensures r.Success? && z.Some? && x.Some? && y.Some? ==> r.value.GridHeatmap?
  {
    var t :- ThinAll(x, y, z, sliceAboveLen);
    if t.0.Some? && t.1.Some? && t.2.Some? then
      Success(GridHeatmap(Tiled(t.0.value, |t.1.value|), Stretched(t.1.value, |t.0.value|), t.2.value))
    else Success(Layout(t.0, t.1, t.2))
  }

  /** A heatmap with one row per y value and one column per x value. */
  predicate HeatmapOver(z: Matrix, x: seq<real>, y: seq<real>)
  {
    |z| == |y| && forall i :: 0 <= i < |z| ==> |z[i]| == |x|
  }

  /** The flattened grid enumerates every (x, y) pair, x varying fastest,
      and the flattened heatmap is aligned with it: entry k holds the
      heatmap value at column k % |x|, row k / |x|. */
  lemma InterpAligned(x: seq<real>, y: seq<real>, z: Matrix)
    requires HeatmapOver(z, x, y)
    ensures InterpTo1DArr(Some(x), Some(y), Some(z), None)
         == Success(GridValues(Tiled(x, |y|), Stretched(y, |x|), Ravel(z)))
    ensures |Tiled(x, |y|)| == |Stretched(y, |x|)| == |Ravel(z)| == |x| * |y|
    ensures forall k :: 0 <= k < |x| * |y| ==>
      && k / |x| < |y|
      && Tiled(x, |y|)[k] == x[k % |x|]
      && Stretched(y, |x|)[k] == y[k / |x|]
      && Ravel(z)[k] == z[k / |x|][k % |x|]
  {
    GridCoordinates(x, y);
    GridRavel(x, y, z);
  }

  lemma GridCoordinates(x: seq<real>, y: seq<real>)
    ensures |Tiled(x, |y|)| == |Stretched(y, |x|)| == |x| * |y|
    ensures forall k :: 0 <= k < |x| * |y| ==>
      && k / |x| < |y|
      && Tiled(x, |y|)[k] == x[k % |x|]
      && Stretched(y, |x|)[k] == y[k / |x|]
  {
    TiledAt(x, |y|);
    StretchedAt(y, |x|);
  }

  lemma GridRavel(x: seq<real>, y: seq<real>, z: Matrix)
    requires HeatmapOver(z, x, y)
    ensures |Ravel(z)| == |x| * |y|
    ensures forall k :: 0 <= k < |x| * |y| ==> k / |x| < |y| && Ravel(z)[k] == z[k / |x|][k % |x|]
  {
    if |z| == 0 {
      assert |x| * |y| == 0;
    } else {
      assert Width(z) == |x| && Rectangular(z);
      RavelRect(z, |x|);
    }
  }

  /** A flattened rectangular heatmap of width w, entry by entry. */
  lemma RavelRect(z: Matrix, w: nat)
    requires Rectangular(z) && |z| > 0 && Width(z) == w
    ensures |Ravel(z)| == w * |z|
    ensures forall k :: 0 <= k < w * |z| ==> k / w < |z| && Ravel(z)[k] == z[k / w][k % w]
  {
    assert |Ravel(z)| == w * |z| by {
      RavelLength(z);
    }
    forall k | 0 <= k < w * |z| ensures k / w < |z| && Ravel(z)[k] == z[k / w][k % w] {
      RavelPoint(z, w, k);
    }
  }

  /** Entry k of a flattened rectangular heatmap of width w sits at row
      k / w, column k % w. */
  lemma RavelPoint(z: Matrix, w: nat, k: nat)
    requires Rectangular(z) && |z| > 0 && Width(z) == w && k < w * |z|
    ensures |Ravel(z)| == w * |z| && k / w < |z| && k % w < |z[k / w]| && Ravel(z)[k] == z[k / w][k % w]
  {
    RavelLength(z);
    RavelCell(z, k);
    DivBelow(k, w, |z|);
  }

  /** As written, for any grid with at least two x values the third
      component has one entry per row instead of one per grid point, so it
      cannot be lined up with the flattened coordinates. */
  lemma InterpAsWrittenMisaligned(x: seq<real>, y: seq<real>, z: Matrix)
    requires HeatmapOver(z, x, y) && |x| >= 2 && |y| >= 1
    ensures var r := InterpTo1DArrAsWritten(Some(x), Some(y), Some(z), None);
      && r.Success? && r.value.GridHeatmap?
      && |r.value.heatmap| < |r.value.x|
  {
    TiledAt(x, |y|);
    MulLe(1, |x| - 1, |y|);
  }

  /** A concrete instance: a 2 by 2 heatmap comes back with two rows next to
      four grid points. */
  lemma InterpAsWrittenExample()
    ensures var r := InterpTo1DArrAsWritten(Some([0.0, 1.0]), Some([0.0, 1.0]), Some([[1.0, 2.0], [3.0, 4.0]]), None);
      r == Success(GridHeatmap([0.0, 1.0, 0.0, 1.0], [0.0, 0.0, 1.0, 1.0], [[1.0, 2.0], [3.0, 4.0]]))
  {
    assert Tiled([0.0, 1.0], 2) == [0.0, 1.0, 0.0, 1.0];
    assert Stretched([0.0, 1.0], 2) == [0.0, 0.0, 1.0, 1.0];
  }

  // ---------------------------------------------------------------------
  // Recognising the measured quantities by name
  // ---------------------------------------------------------------------

  /** `name.replace(' ', '_')`. */
  function Underscored(name: string): (r: string)
    ensures |r| == |name|
    ensures forall i :: 0 <= i < |r| ==> r[i] != ' '
    ensures forall i :: 0 <= i < |r| && name[i] != ' ' ==> r[i] == name[i]
    ensures forall i :: 0 <= i < |r| && name[i] == ' ' ==> r[i] == '_'
  {
    if |name| == 0 then ""
    else [if name[0] == ' ' then '_' else name[0]] + Underscored(name[1..])
  }

  lemma UnderscoredIdempotent(name: string)
    ensures Underscored(Underscored(name)) == Underscored(name)
  {
    var u := Underscored(name);
    assert Underscored(u) == u;
  }

  lemma UnderscoredFixed(name: string)
    ensures Underscored(name) == name <==> forall i :: 0 <= i < |name| ==> name[i] != ' '
  {
    if Underscored(name) != name {
      var u := Underscored(name);
      var i :| 0 <= i < |name| && u[i] != name[i];
    }
  }

  /** `names.union({name.replace(' ', '_') for name in names})`. */
  function WithUnderscores(names: set<string>): set<string>
  {
    names + set n | n in names :: Underscored(n)
  }

  /** The extended set holds the names, their underscored forms, and
      nothing else. */
  lemma WithUnderscoresSpec(names: set<string>)
    ensures names <= WithUnderscores(names)
    ensures forall n :: n in names ==> Underscored(n) in WithUnderscores(names)
    ensures forall n :: n in WithUnderscores(names) && n !in names ==> exists m :: m in names && n == Underscored(m)
  {
  }

  /** The extended name sets are closed under replacing spaces. */
  lemma WithUnderscoresClosed(names: set<string>)
    ensures forall n :: n in WithUnderscores(names) ==> Underscored(n) in WithUnderscores(names)
  {
    forall n | n in WithUnderscores(names) ensures Underscored(n) in WithUnderscores(names) {
      WithUnderscoresSpec(names);
      if n !in names {
        var m :| m in names && n == Underscored(m);
        UnderscoredIdempotent(m);
      }
    }
  }

  /** The quantities the analysis looks for among the value names. */
  datatype Quantity = CostFunc | Leakage | MissingFraction | CondPhase | OffsetDiff

  /** The spellings written out in the analysis's constructor. */
  function Spellings(q: Quantity): set<string>
  {
    match q
    case CostFunc => {"Cost func", "Cost func.", "cost func", "cost func.", "cost function", "Cost function", "Cost function value"}
    case Leakage => {"L1", "Leakage"}
    case MissingFraction => {"missing fraction", "Missing fraction", "missing frac", "missing frac.", "Missing frac", "Missing frac."}
    case CondPhase => {"Cond phase", "Cond. phase", "Conditional phase", "cond phase", "cond. phase", "conditional phase"}
    case OffsetDiff => {"offset difference", "offset diff", "offset diff.", "Offset difference", "Offset diff", "Offset diff."}
  }

  /** The accepted names: the spellings, and the same with underscores
      between the words. */
  function NamesOf(q: Quantity): set<string>
  {
    WithUnderscores(Spellings(q))
  }

  /** i is the first value name in the set. */
  predicate FirstNamed(vln: seq<string>, names: set<string>, i: nat)
  {
    i < |vln| && vln[i] in names && forall j :: 0 <= j < i ==> vln[j] !in names
  }

  /** `np.where([name in names for name in vln])[0][0]`, with None where the
      source raises IndexError. */
  function FirstIn(vln: seq<string>, names: set<string>): (r: Option<nat>)
    ensures r.Some? ==> FirstNamed(vln, names, r.value)
    ensures r.None? <==> forall j :: 0 <= j < |vln| ==> vln[j] !in names
  {
    if |vln| == 0 then None
    else if vln[0] in names then Some(0)
    else match FirstIn(vln[1..], names)
      case None => None
      case Some(i) => Some(i + 1)
  }

  /** What the analysis takes from the measured values when it clusters
      the measured points. */
  datatype Columns = Columns(cost: seq<real>, condPhase: Option<seq<real>>, leakage: Option<seq<real>>)

  /** The row of the first value name in the set, if any. */
  function Lookup(vln: seq<string>, measured: seq<seq<real>>, names: set<string>): (r: Option<seq<real>>)
    requires |measured| == |vln|
    ensures r.None? <==> forall j :: 0 <= j < |vln| ==> vln[j] !in names
    ensures r.Some? ==> exists i: nat :: FirstNamed(vln, names, i) && r.value == measured[i]
  {
    match FirstIn(vln, names)
    case None => None
    case Some(i) => Some(measured[i])
  }

  /** The measured branch of `process_data`: the cost function is required
      (IndexError otherwise); the conditional phase and the leakage are
      picked up when measured and silently skipped when not. Each is the
      row of the first value name that names it. */
  function MeasuredColumns(vln: seq<string>, measured: seq<seq<real>>): (r: Result<Columns, HeatmapError>)
    requires |measured| == |vln|
    ensures r.Failure? <==> Lookup(vln, measured, NamesOf(CostFunc)).None?
    ensures r.Failure? ==> r.error == NameNotFound
    ensures r.Success? ==> Some(r.value.cost) == Lookup(vln, measured, NamesOf(CostFunc))
    ensures r.Success? ==> r.value.condPhase == Lookup(vln, measured, NamesOf(CondPhase))
    ensures r.Success? ==> r.value.leakage == Lookup(vln, measured, NamesOf(Leakage))
  {
    match Lookup(vln, measured, NamesOf(CostFunc))
    case None => Failure(NameNotFound)
    case Some(cost) =>
      Success(Columns(cost, Lookup(vln, measured, NamesOf(CondPhase)), Lookup(vln, measured, NamesOf(Leakage))))
  }

  // ---------------------------------------------------------------------
  // Choosing the optimal points
  // ---------------------------------------------------------------------

  /** Without local optimals: the single point of least cost, as its own
      cluster (`[[argmin]]`); `argmin` of nothing raises ValueError. */
  function SingleMinimum(cost: seq<real>): (r: Result<(seq<nat>, seq<seq<nat>>), HeatmapError>)
    ensures r.Failure? <==> |cost| == 0
    ensures r.Failure? ==> r.error == EmptyArgMin
    ensures r.Success? ==>
      && |r.value.0| == 1 && r.value.1 == [r.value.0]
      && r.value.0[0] < |cost|
      && (forall j :: 0 <= j < |cost| ==> cost[r.value.0[0]] <= cost[j])
      && (forall j :: 0 <= j < r.value.0[0] ==> cost[r.value.0[0]] < cost[j])
  {
    if |cost| == 0 then Failure(EmptyArgMin)
    else
      var i := ArgMin(cost);
      Success(([i], [[i]]))
  }

  /** The defaults `process_data` leaves to `get_optimal_pnts_indxs`:
      `phase_thr=5`, `L1_thr=0.3`, `clustering_thr=10`, `tolerances=[1, 2, 3]`. */
  function DefaultThresholds(): Thresholds { Thresholds(5.0, 0.3) }
  function DefaultClusteringThr(): real { 10.0 }
  function DefaultTolerances(): seq<real> { [1.0, 2.0, 3.0] }

  /** The optimal points of `process_data`: the single minimum of the cost
      function, or, with `find_local_optimals`, the extractor run with its
      defaults on the sweep, which then needs the conditional phase and
      the leakage to have been found. `dev` is the phase deviation from
      the target conditional phase (and twice it). */
  method OptimalPoints(findLocalOptimals: bool, cost: seq<real>, x: seq<real>, y: seq<real>,
                       condPhase: Option<seq<real>>, leakage: Option<seq<real>>, dev: real -> real)
    returns (r: Result<(seq<nat>, seq<seq<nat>>), HeatmapError>)
    requires condPhase.Some? && leakage.Some? ==> Parallel(Sweep(x, y, condPhase.value, leakage.value))
    ensures !findLocalOptimals ==> r == SingleMinimum(cost)
    ensures findLocalOptimals && (condPhase.None? || leakage.None?) ==> r == Failure(Unmeasured)
    ensures findLocalOptimals && condPhase.Some? && leakage.Some? ==>
      var s := Sweep(x, y, condPhase.value, leakage.value);
      match Ladder(s, dev, DefaultThresholds(), DefaultTolerances())
      case Failure(e) => r == Failure(SweepFailed(e))
      case Success(Exhausted) => r == Success(([], []))
      case Success(Single(i)) => r == Success(([i], [[i]]))
      case Success(Several(sel)) =>
        && r.Success?
        && (forall k :: 0 <= k < |sel| ==> sel[k] < |s.x|)
        && Extracted(s, DefaultClusteringThr(), sel, r.value.0, r.value.1)
  {
    if !findLocalOptimals {
      return SingleMinimum(cost);
    }
    if condPhase.None? || leakage.None? {
      return Failure(Unmeasured);
    }
    var s := Sweep(x, y, condPhase.value, leakage.value);
    var found := GetOptimalPntsIndxs(s, dev, DefaultThresholds(), DefaultClusteringThr(), DefaultTolerances());
    match found
    case Failure(e) =>
      return Failure(SweepFailed(e));
    case Success(v) =>
      return Success(v);
  }

  // ---------------------------------------------------------------------
  // Flattening the clusters for plotting
  // ---------------------------------------------------------------------

  /** Every index of every cluster in turn, with the number of the cluster
      it came from. */
  function Flatten(clusters: seq<seq<nat>>): (r: (seq<nat>, seq<nat>))
    ensures |r.0| == |r.1|
    ensures forall k :: 0 <= k < |r.1| ==> r.1[k] < |clusters| && r.0[k] in clusters[r.1[k]]
    ensures forall a, b :: 0 <= a <= b < |r.1| ==> r.1[a] <= r.1[b]
  {
    if |clusters| == 0 then ([], [])
    else
      var l := |clusters| - 1;
      var prev := Flatten(clusters[..l]);
      (prev.0 + clusters[l], prev.1 + seq(|clusters[l]|, _ => l))
  }

  /** Every index of every cluster is below n. */
  predicate ClustersBelow(clusters: seq<seq<nat>>, n: nat)
  {
    forall l, k :: 0 <= l < |clusters| && 0 <= k < |clusters[l]| ==> clusters[l][k] < n
  }

  lemma FlattenBelow(clusters: seq<seq<nat>>, n: nat)
    requires ClustersBelow(clusters, n)
    ensures forall k :: 0 <= k < |Flatten(clusters).0| ==> Flatten(clusters).0[k] < n
  {
    var f := Flatten(clusters);
    forall k | 0 <= k < |f.0| ensures f.0[k] < n {
      var l := f.1[k];
      var m :| 0 <= m < |clusters[l]| && clusters[l][m] == f.0[k];
    }
  }

  /** Cluster l occupies one contiguous block of the flattened arrays,
      holding its indices in order and coloured l. */
  lemma {:induction false} FlattenBlocks(clusters: seq<seq<nat>>, l: nat, m: nat)
    requires l < |clusters| && m < |clusters[l]|
    ensures var f := Flatten(clusters);
      var start := |Flatten(clusters[..l]).0|;
      && start + m < |f.0|
      && f.0[start + m] == clusters[l][m]
      && f.1[start + m] == l
    decreases |clusters|
  {
    var last := |clusters| - 1;
    var prev := Flatten(clusters[..last]);
    if l < last {
      assert clusters[..last][..l] == clusters[..l];
      FlattenBlocks(clusters[..last], l, m);
    } else {
      assert clusters[..l] == clusters[..last];
    }
  }

  /** The coordinates of the flattened members. */
  function Coordinates(v: seq<real>, clusters: seq<seq<nat>>): (r: seq<real>)
    requires ClustersBelow(clusters, |v|)
    ensures |r| == |Flatten(clusters).0|
    ensures forall k :: 0 <= k < |r| ==> Flatten(clusters).0[k] < |v| && r[k] == v[Flatten(clusters).0[k]]
  {
    FlattenBelow(clusters, |v|);
    Gather(v, Flatten(clusters).0)
  }

  /** One more cluster appends its members' coordinates and its colour. */
  lemma FlattenStep(v: seq<real>, clusters: seq<seq<nat>>, l: nat)
    requires l < |clusters| && ClustersBelow(clusters, |v|)
    ensures ClustersBelow(clusters[..l], |v|) && ClustersBelow(clusters[..l + 1], |v|)
    ensures Flatten(clusters[..l + 1]).1 == Flatten(clusters[..l]).1 + seq(|clusters[l]|, _ => l)
    ensures Coordinates(v, clusters[..l + 1]) == Coordinates(v, clusters[..l]) + Gather(v, clusters[l])
  {
    assert clusters[..l + 1][..l] == clusters[..l];
    assert clusters[..l + 1][l] == clusters[l];
    var prev := Flatten(clusters[..l]);
    assert Flatten(clusters[..l + 1]) == (prev.0 + clusters[l], prev.1 + seq(|clusters[l]|, _ => l));
  }

  /** The loop of `process_data` that concatenates, cluster by cluster, the
      x and y coordinates of the members and a colour per member equal to
      the cluster's position. */
  method FlattenClusters(xArr: seq<real>, yArr: seq<real>, clusters: seq<seq<nat>>)
    returns (px: seq<real>, py: seq<real>, colours: seq<nat>)
    requires ClustersBelow(clusters, |xArr|) && ClustersBelow(clusters, |yArr|)
    ensures px == Coordinates(xArr, clusters)
    ensures py == Coordinates(yArr, clusters)
    ensures colours == Flatten(clusters).1
  {
    px, py, colours := [], [], [];
    var l := 0;
    while l < |clusters|
      invariant 0 <= l <= |clusters|
      invariant ClustersBelow(clusters[..l], |xArr|) && ClustersBelow(clusters[..l], |yArr|)
      invariant px == Coordinates(xArr, clusters[..l])
      invariant py == Coordinates(yArr, clusters[..l])
      invariant colours == Flatten(clusters[..l]).1
    {
      FlattenStep(xArr, clusters, l);
      FlattenStep(yArr, clusters, l);
      px := px + Gather(xArr, clusters[l]);
      py := py + Gather(yArr, clusters[l]);
      colours := colours + seq(|clusters[l]|, _ => l);
      l := l + 1;
    }
    assert clusters[..l] == clusters;
  }

  // ---------------------------------------------------------------------
  // The optimal points' coordinates
  // ---------------------------------------------------------------------

  /** `x_arr[optimal_idxs]`, `y_arr[optimal_idxs]` and the list of
      `{xlabel: x, ylabel: y}` dictionaries built from them; when both
      labels coincide, each dictionary keeps only the y value. */
  method OptimalCoordinates(xArr: seq<real>, yArr: seq<real>, optimal: seq<nat>, xLabel: string, yLabel: string)
    returns (xOpt: seq<real>, yOpt: seq<real>, pars: seq<map<string, real>>)
    requires forall k :: 0 <= k < |optimal| ==> optimal[k] < |xArr| && optimal[k] < |yArr|
    ensures |xOpt| == |yOpt| == |pars| == |optimal|
    ensures forall k :: 0 <= k < |optimal| ==> xOpt[k] == xArr[optimal[k]] && yOpt[k] == yArr[optimal[k]]
    ensures forall k :: 0 <= k < |pars| ==> pars[k].Keys == {xLabel, yLabel} && pars[k][yLabel] == yOpt[k]
    ensures forall k :: 0 <= k < |pars| && xLabel != yLabel ==> pars[k][xLabel] == xOpt[k]
  {
    xOpt := Gather(xArr, optimal);
    yOpt := Gather(yArr, optimal);
    pars := [];
    var k := 0;
    while k < |optimal|
      invariant 0 <= k <= |optimal| && |pars| == k
      invariant forall j :: 0 <= j < k ==> pars[j].Keys == {xLabel, yLabel} && pars[j][yLabel] == yOpt[j]
      invariant forall j :: 0 <= j < k && xLabel != yLabel ==> pars[j][xLabel] == xOpt[j]
    {
      pars := pars + [map[xLabel := xOpt[k], yLabel := yOpt[k]]];
      k := k + 1;
    }
  }
}
