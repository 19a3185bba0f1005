/** numpy's `repeat` and `tile` on one-dimensional arrays: the layouts
    used to flatten a grid and to build sweep points. */
module ArrayLayout {
  import opened Numerals

  /** `np.tile(x, n)`, and `np.ravel(np.repeat([x], n, axis=0))`: x laid
      out n times. */
  function Tiled<T>(x: seq<T>, n: nat): seq<T>
  {
    if n == 0 then [] else Tiled(x, n - 1) + x
  }

  /** `np.repeat(y, m)`, and `np.ravel(np.repeat([y], m, axis=1))`: every
      element of y m times in a row. */
  function Stretched<T>(y: seq<T>, m: nat): seq<T>
  {
    if |y| == 0 then [] else Stretched(y[..|y| - 1], m) + seq(m, _ => y[|y| - 1])
  }

  /** A quotient stays below q when the dividend is below q blocks. */
  lemma DivBelow(k: int, m: int, q: int)
    requires m >= 1 && 0 <= k < q * m
    ensures 0 <= k / m < q
  {
    var d := k / m;
    assert k == d * m + k % m;
    if d >= q { MulLe(q, d, m); }
  }

  lemma {:induction false} TiledAt<T>(x: seq<T>, n: nat)
    ensures |Tiled(x, n)| == n * |x|
    ensures forall k :: 0 <= k < |Tiled(x, n)| ==> Tiled(x, n)[k] == x[k % |x|]
  {
    if n > 0 {
      TiledAt(x, n - 1);
      var prev := Tiled(x, n - 1);
      assert |prev| == (n - 1) * |x|;
      assert |Tiled(x, n)| == (n - 1) * |x| + |x|;
      forall k | 0 <= k < |Tiled(x, n)| ensures Tiled(x, n)[k] == x[k % |x|] {
        if k >= |prev| {
          ModUnique(k, |x|, n - 1, k - |prev|);
        }
      }
    }
  }

  lemma {:induction false} StretchedAt<T>(y: seq<T>, m: nat)
    ensures |Stretched(y, m)| == |y| * m
    ensures forall k :: 0 <= k < |Stretched(y, m)| ==> k / m < |y| && Stretched(y, m)[k] == y[k / m]
  {
    if |y| > 0 {
      var init := y[..|y| - 1];
      StretchedAt(init, m);
      var prev := Stretched(init, m);
      assert |prev| == (|y| - 1) * m;
      assert |Stretched(y, m)| == (|y| - 1) * m + m;
      forall k | 0 <= k < |Stretched(y, m)| ensures k / m < |y| && Stretched(y, m)[k] == y[k / m] {
        if k < |prev| {
          DivBelow(k, m, |y| - 1);
          assert y[k / m] == init[k / m];
        } else {
          ModUnique(k, m, |y| - 1, k - |prev|);
        }
      }
    }
  }

  /** Appending a row of m items to a grid of a rows of m, row by row:
      item b of row a' sits at a' * m + b. */
  lemma AppendRow<T>(p: seq<T>, row: seq<T>, a: nat, m: nat, a': nat, b: nat)
    requires |p| == a * m && |row| == m && a' <= a && b < m
    ensures a' * m + b < |p + row|
    ensures a' < a ==> a' * m + b < |p| && (p + row)[a' * m + b] == p[a' * m + b]
    ensures a' == a ==> (p + row)[a' * m + b] == row[b]
  {
    RowIndex(a, m, a', b);
  }

  lemma RowIndex(a: nat, m: nat, a': nat, b: nat)
    requires a' <= a && b < m
    ensures a' * m + b < a * m + m
    ensures a' < a ==> a' * m + b < a * m
    ensures a' == a ==> a' * m + b - a * m == b
  {
    MulLe(a', a, m);
    if a' < a {
      MulLe(a' + 1, a, m);
      assert (a' + 1) * m == a' * m + m;
    }
  }

  /** Item b of block a of `np.repeat(y, m)` is y[a]. */
  lemma StretchedIndex<T>(y: seq<T>, m: nat, a: nat, b: nat)
    requires a < |y| && b < m
    ensures |Stretched(y, m)| == |y| * m
    ensures a * m + b < |Stretched(y, m)| && Stretched(y, m)[a * m + b] == y[a]
  {
    StretchedAt(y, m);
    MulMono(a, |y|, m);
    ModUnique(a * m + b, m, a, b);
  }
}
