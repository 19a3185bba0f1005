/** Scoring and ranking of clusters: the neighbourhood-averaged leakage
    (`av_around`), the first minimum of a list (`np.argmin`), the cluster
    weight `av_L1 / max(av_L1) / size` with the IEEE outcomes of a zero
    maximum, and a stable `np.argsort` of the weights. */
module FluxRanking {
  import opened FluxSelection
  import opened FluxClustering

  function PointAt(xs: seq<real>, ys: seq<real>, j: nat): Point
    requires j < |xs| && j < |ys|
  {
    Point(xs[j], ys[j])
  }

  /** The samples below n within `radius` of sample idx (squared distance
      at most `radius**2`), in increasing order. */
  function NeighboursBelow(xs: seq<real>, ys: seq<real>, idx: nat, radius: real, n: nat): (r: seq<nat>)
    requires |ys| == |xs| && idx < |xs| && n <= |xs|
    ensures forall k :: 0 <= k < |r| ==> r[k] < n
  {
    if n == 0 then []
    else
      var prev := NeighboursBelow(xs, ys, idx, radius, n - 1);
      if SqDist(PointAt(xs, ys, n - 1), PointAt(xs, ys, idx)) <= radius * radius then prev + [n - 1] else prev
  }

  /** The neighbours are listed once each, in increasing order, and are
      exactly the samples below n within the radius. */
  lemma {:induction false} NeighboursBelowMembers(xs: seq<real>, ys: seq<real>, idx: nat, radius: real, n: nat)
    requires |ys| == |xs| && idx < |xs| && n <= |xs|
    ensures Increasing(NeighboursBelow(xs, ys, idx, radius, n))
    ensures forall j: nat :: j in NeighboursBelow(xs, ys, idx, radius, n) <==>
      j < n && SqDist(PointAt(xs, ys, j), PointAt(xs, ys, idx)) <= radius * radius
  {
    if n > 0 {
      NeighboursBelowMembers(xs, ys, idx, radius, n - 1);
    }
  }

  /** NumPy fancy indexing `z[indices]`: the elements at the given
      positions, in the order the positions are listed. */
  function Gather<T>(z: seq<T>, indices: seq<nat>): (r: seq<T>)
    requires forall k :: 0 <= k < |indices| ==> indices[k] < |z|
    ensures |r| == |indices|
    ensures forall k :: 0 <= k < |r| ==> r[k] == z[indices[k]]
  {
    seq(|indices|, k requires 0 <= k < |indices| => z[indices[k]])
  }

  function Sum(v: seq<real>): real
  {
    if v == [] then 0.0 else Sum(v[..|v| - 1]) + v[|v| - 1]
  }

  /** `np.average` of a non-empty array. */
  function Average(v: seq<real>): real
    requires |v| >= 1
  {
    Sum(v) / (|v| as real)
  }

  /** The average lies between the least and the greatest value. */
  lemma AverageBounds(v: seq<real>)
    requires |v| >= 1
    ensures Min(v) <= Average(v) <= Max(v)
  {
    AverageWithin(v, Min(v), Max(v));
  }

  /** Values between lo and hi average to something between lo and hi. */
  lemma AverageWithin(v: seq<real>, lo: real, hi: real)
    requires |v| >= 1 && forall k :: 0 <= k < |v| ==> lo <= v[k] <= hi
    ensures lo <= Average(v) <= hi
  {
    SumBounds(v, lo, hi);
    AverageBetween(Sum(v), |v| as real, lo, hi);
  }

  lemma {:induction false} SumBounds(v: seq<real>, lo: real, hi: real)
    requires forall k :: 0 <= k < |v| ==> lo <= v[k] <= hi
    ensures lo * (|v| as real) <= Sum(v) <= hi * (|v| as real)
    decreases |v|
  {
    if v != [] {
      var u := v[..|v| - 1];
      SumBounds(u, lo, hi);
      assert lo * ((|u| + 1) as real) == lo * (|u| as real) + lo;
      assert hi * ((|u| + 1) as real) == hi * (|u| as real) + hi;
    }
  }

  lemma AverageBetween(s: real, n: real, lo: real, hi: real)
    requires n > 0.0 && lo * n <= s <= hi * n
    ensures lo <= s / n <= hi
  {
  }

  /** `av_around(x, y, z, idx, radius)`: the average of z over the samples
      within `radius` of sample idx, and those samples. */
  function AvAround(xs: seq<real>, ys: seq<real>, z: seq<real>, idx: nat, radius: real): (real, seq<nat>)
    requires |ys| == |xs| && |z| == |xs| && idx < |xs|
  {
    var nb := NeighboursBelow(xs, ys, idx, radius, |xs|);
    NeighbourhoodHasCentre(xs, ys, idx, radius);
    (Average(Gather(z, nb)), nb)
  }

  lemma NeighbourhoodHasCentre(xs: seq<real>, ys: seq<real>, idx: nat, radius: real)
    requires |ys| == |xs| && idx < |xs|
    ensures idx in NeighboursBelow(xs, ys, idx, radius, |xs|)
  {
    NeighboursBelowMembers(xs, ys, idx, radius, |xs|);
    assert SqDist(PointAt(xs, ys, idx), PointAt(xs, ys, idx)) == 0.0;
    assert 0.0 <= radius * radius;
  }

  /** The neighbourhood of `av_around` always contains idx itself, so the
      average is always defined and lies between the least and the greatest
      z of the neighbourhood. */
  lemma AvAroundNeighbourhood(xs: seq<real>, ys: seq<real>, z: seq<real>, idx: nat, radius: real)
    requires |ys| == |xs| && |z| == |xs| && idx < |xs|
    ensures var r := AvAround(xs, ys, z, idx, radius);
      && idx in r.1 && Increasing(r.1)
      && (forall j: nat :: j in r.1 <==> j < |xs| && SqDist(PointAt(xs, ys, j), PointAt(xs, ys, idx)) <= radius * radius)
      && (forall k :: 0 <= k < |r.1| ==> r.1[k] < |z|)
      && r.0 == Average(Gather(z, r.1))
      && Min(Gather(z, r.1)) <= r.0 <= Max(Gather(z, r.1))
  {
    var nb := NeighboursBelow(xs, ys, idx, radius, |xs|);
    NeighboursBelowMembers(xs, ys, idx, radius, |xs|);
    NeighbourhoodHasCentre(xs, ys, idx, radius);
    AverageBounds(Gather(z, nb));
  }

  /** `np.argmin`: the position of the first minimum. */
  function ArgMin(v: seq<real>): (k: nat)
    requires |v| >= 1
    ensures k < |v|
    ensures forall j :: 0 <= j < |v| ==> v[k] <= v[j]
    ensures forall j :: 0 <= j < k ==> v[k] < v[j]
  {
    if |v| == 1 then 0
    else
      var k := ArgMin(v[..|v| - 1]);
      if v[|v| - 1] < v[k] then |v| - 1 else k
  }

  /** A cluster weight as the floating-point division yields it: a finite
      value, or -inf, +inf or nan when the maximum leakage is zero. */
  datatype Weight = NegInf | Finite(value: real) | PosInf | NaN

  /** The order `np.sort` uses: -inf, the finite values, +inf, and nan last. */
  predicate WeightLe(a: Weight, b: Weight)
  {
    match (a, b)
    case (NegInf, _) => true
    case (Finite(u), Finite(v)) => u <= v
    case (Finite(_), NegInf) => false
    case (Finite(_), _) => true
    case (PosInf, PosInf) => true
    case (PosInf, NaN) => true
    case (PosInf, _) => false
    case (NaN, NaN) => true
    case (NaN, _) => false
  }

  lemma WeightLeTotal(a: Weight, b: Weight)
    ensures WeightLe(a, b) || WeightLe(b, a)
  {
  }

  lemma WeightLeTrans(a: Weight, b: Weight, c: Weight)
    requires WeightLe(a, b) && WeightLe(b, c)
    ensures WeightLe(a, c)
  {
  }

  /** `av / max_av / size` for one cluster. */
  function ClusterWeight(av: real, maxAv: real, size: nat): (w: Weight)
    requires size >= 1
    ensures maxAv != 0.0 ==> w.Finite? && w.value * maxAv * (size as real) == av
    ensures maxAv == 0.0 ==> (w == NaN <==> av == 0.0) && (w == NegInf <==> av < 0.0) && (w == PosInf <==> av > 0.0)
  {
    if maxAv == 0.0 then (if av == 0.0 then NaN else if av < 0.0 then NegInf else PosInf)
    else Finite(av / maxAv / (size as real))
  }

  /** `w1 = av_L1 / np.max(av_L1) / sizes` */
  function Weights(avL1: seq<real>, sizes: seq<nat>): (w: seq<Weight>)
    requires |avL1| >= 1 && |sizes| == |avL1|
    requires forall k :: 0 <= k < |sizes| ==> sizes[k] >= 1
    ensures |w| == |avL1|
    ensures forall k :: 0 <= k < |w| ==> w[k] == ClusterWeight(avL1[k], Max(avL1), sizes[k])
  {
    seq(|avL1|, k requires 0 <= k < |avL1| => ClusterWeight(avL1[k], Max(avL1), sizes[k]))
  }

  /** With a positive maximum, of two clusters with the same averaged
      leakage the larger one weighs less, and of two clusters of the same
      size the one with lower leakage weighs less. */
  lemma WeightOrder(av: real, av': real, m: real, size: nat, size': nat)
    requires m > 0.0 && 1 <= size && 1 <= size'
    ensures av >= 0.0 && av == av' && size >= size' ==> ClusterWeight(av, m, size).value <= ClusterWeight(av', m, size').value
    ensures av <= av' && size == size' ==> ClusterWeight(av, m, size).value <= ClusterWeight(av', m, size').value
  {
    var q := av / m;
    if av >= 0.0 && av == av' && size >= size' {
      assert q >= 0.0;
      DivideMore(q, size as real, size' as real);
    }
    if av <= av' && size == size' {
      assert av / m <= av' / m;
    }
  }

  lemma DivideMore(q: real, a: real, b: real)
    requires q >= 0.0 && a >= b > 0.0
    ensures q / a <= q / b
  {
    assert q / b - q / a == q * (a - b) / (a * b);
  }

  /** perm lists the positions in an order that never decreases the key. */
  predicate SortedBy(keys: seq<Weight>, perm: seq<nat>)
    requires forall k :: 0 <= k < |perm| ==> perm[k] < |keys|
  {
    forall a, b :: 0 <= a < b < |perm| ==> WeightLe(keys[perm[a]], keys[perm[b]])
  }

  /** Positions with equal keys keep their original order. */
  predicate StableBy(keys: seq<Weight>, perm: seq<nat>)
    requires forall k :: 0 <= k < |perm| ==> perm[k] < |keys|
  {
    forall a, b :: 0 <= a < b < |perm| && keys[perm[a]] == keys[perm[b]] ==> perm[a] < perm[b]
  }

  predicate Distinct(perm: seq<nat>)
  {
    forall a, b :: 0 <= a < b < |perm| ==> perm[a] != perm[b]
  }

  /** Insert position i into a sorted order, after every position whose key
      is not greater than i's. */
  function InsertAfterEqual(keys: seq<Weight>, perm: seq<nat>, i: nat): (r: seq<nat>)
    requires i < |keys| && forall k :: 0 <= k < |perm| ==> perm[k] < i
    requires SortedBy(keys, perm) && StableBy(keys, perm) && Distinct(perm)
    ensures |r| == |perm| + 1
    ensures forall v :: v in r <==> v in perm || v == i
    ensures forall k :: 0 <= k < |r| ==> r[k] <= i
    ensures SortedBy(keys, r) && StableBy(keys, r) && Distinct(r)
  {
    if perm == [] then [i]
    else if WeightLe(keys[perm[0]], keys[i]) then
      var rest := InsertAfterEqual(keys, perm[1..], i);
      forall k | 0 <= k < |rest|
        ensures WeightLe(keys[perm[0]], keys[rest[k]])
        ensures keys[perm[0]] == keys[rest[k]] ==> perm[0] < rest[k]
        ensures perm[0] != rest[k]
      {
        if rest[k] != i {
          HeadBeforeTail(keys, perm, rest[k]);
        }
      }
      Prepend(keys, perm[0], rest);
      [perm[0]] + rest
    else
      forall k | 0 <= k < |perm|
        ensures WeightLe(keys[i], keys[perm[k]])
        ensures keys[i] != keys[perm[k]]
        ensures i != perm[k]
      {
        BelowHead(keys, perm, i, k);
      }
      Prepend(keys, i, perm);
      [i] + perm
  }

  /** In a sorted, stable order the head comes before every later position. */
  lemma HeadBeforeTail(keys: seq<Weight>, perm: seq<nat>, v: nat)
    requires |perm| >= 1 && forall k :: 0 <= k < |perm| ==> perm[k] < |keys|
    requires SortedBy(keys, perm) && StableBy(keys, perm) && Distinct(perm)
    requires v in perm[1..]
    ensures WeightLe(keys[perm[0]], keys[v])
    ensures keys[perm[0]] == keys[v] ==> perm[0] < v
    ensures perm[0] != v
  {
    var b :| 0 <= b < |perm[1..]| && perm[1..][b] == v;
    assert perm[b + 1] == v;
  }

  /** A key strictly below the head's is below every key of a sorted order. */
  lemma BelowHead(keys: seq<Weight>, perm: seq<nat>, i: nat, k: nat)
    requires k < |perm| && i < |keys| && forall j :: 0 <= j < |perm| ==> perm[j] < i
    requires SortedBy(keys, perm)
    requires !WeightLe(keys[perm[0]], keys[i])
    ensures WeightLe(keys[i], keys[perm[k]]) && keys[i] != keys[perm[k]] && i != perm[k]
  {
    WeightLeTotal(keys[perm[0]], keys[i]);
    if k > 0 {
      WeightLeTrans(keys[i], keys[perm[0]], keys[perm[k]]);
    }
  }

  lemma Prepend(keys: seq<Weight>, x: nat, rest: seq<nat>)
    requires x < |keys| && forall k :: 0 <= k < |rest| ==> rest[k] < |keys|
    requires SortedBy(keys, rest) && StableBy(keys, rest) && Distinct(rest)
    requires forall k :: 0 <= k < |rest| ==> WeightLe(keys[x], keys[rest[k]])
    requires forall k :: 0 <= k < |rest| ==> keys[x] == keys[rest[k]] ==> x < rest[k]
    requires forall k :: 0 <= k < |rest| ==> x != rest[k]
    ensures SortedBy(keys, [x] + rest) && StableBy(keys, [x] + rest) && Distinct([x] + rest)
  {
    var r := [x] + rest;
    forall a, b | 0 <= a < b < |r| ensures WeightLe(keys[r[a]], keys[r[b]]) {
      if a > 0 { assert r[a] == rest[a - 1] && r[b] == rest[b - 1]; }
    }
    forall a, b | 0 <= a < b < |r| && keys[r[a]] == keys[r[b]] ensures r[a] < r[b] {
      if a > 0 { assert r[a] == rest[a - 1] && r[b] == rest[b - 1]; }
    }
    forall a, b | 0 <= a < b < |r| ensures r[a] != r[b] {
      if a > 0 { assert r[a] == rest[a - 1] && r[b] == rest[b - 1]; }
    }
  }

  function ArgSortBelow(keys: seq<Weight>, n: nat): (r: seq<nat>)
    requires n <= |keys|
    ensures |r| == n
    ensures forall k :: 0 <= k < |r| ==> r[k] < n
    ensures forall v :: 0 <= v < n ==> v in r
    ensures SortedBy(keys, r) && StableBy(keys, r) && Distinct(r)
  {
    if n == 0 then []
    else InsertAfterEqual(keys, ArgSortBelow(keys, n - 1), n - 1)
  }

  /** `np.argsort(keys)`: a permutation of the positions under which the keys
      never decrease; equal keys keep their original order. */
  function ArgSort(keys: seq<Weight>): (r: seq<nat>)
    ensures |r| == |keys| && Distinct(r)
    ensures forall k :: 0 <= k < |r| ==> r[k] < |keys|
    ensures forall v :: 0 <= v < |keys| ==> v in r
    ensures SortedBy(keys, r) && StableBy(keys, r)
  {
    ArgSortBelow(keys, |keys|)
  }
}
