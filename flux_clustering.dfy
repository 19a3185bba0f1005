/** The flat clustering of the candidates (`fclusterdata` with the
    `distance` criterion and single linkage): two candidates share a cluster
    exactly when a chain of candidates, each within the threshold distance
    of the next, joins them. */
module FluxClustering {
  import opened FluxSelection

  /** A candidate's normalised coordinates. */
  datatype Point = Point(x: real, y: real)

  function SqDist(p: Point, q: Point): (d: real)
    ensures d >= 0.0
  {
    (p.x - q.x) * (p.x - q.x) + (p.y - q.y) * (p.y - q.y)
  }

  lemma SqDistSymmetric(p: Point, q: Point)
    ensures SqDist(p, q) == SqDist(q, p)
  {
    assert (p.x - q.x) * (p.x - q.x) == (q.x - p.x) * (q.x - p.x);
    assert (p.y - q.y) * (p.y - q.y) == (q.y - p.y) * (q.y - p.y);
  }

  /** Candidates i and j are within distance t of each other (compared on
      squares, so no square root is needed; a negative t links nothing). */
  predicate Linked(pts: seq<Point>, t: real, i: nat, j: nat)
    requires i < |pts| && j < |pts|
  {
    t >= 0.0 && SqDist(pts[i], pts[j]) <= t * t
  }

  /** w is a chain of candidates from i to j, each linked to the next. */
  ghost predicate IsPath(pts: seq<Point>, t: real, w: seq<nat>, i: nat, j: nat)
  {
    && |w| >= 1 && w[0] == i && w[|w| - 1] == j
    && (forall k :: 0 <= k < |w| ==> w[k] < |pts|)
    && (forall k :: 0 <= k < |w| - 1 ==> Linked(pts, t, w[k], w[k + 1]))
  }

  ghost predicate Connected(pts: seq<Point>, t: real, i: nat, j: nat)
  {
    exists w :: IsPath(pts, t, w, i, j)
  }

  lemma ConnectedRefl(pts: seq<Point>, t: real, i: nat)
    requires i < |pts|
    ensures Connected(pts, t, i, i)
  {
    assert IsPath(pts, t, [i], i, i);
  }

  lemma ConnectedLinked(pts: seq<Point>, t: real, i: nat, j: nat)
    requires i < |pts| && j < |pts| && Linked(pts, t, i, j)
    ensures Connected(pts, t, i, j)
  {
    assert IsPath(pts, t, [i, j], i, j);
  }

  lemma LinkedSymmetric(pts: seq<Point>, t: real, i: nat, j: nat)
    requires i < |pts| && j < |pts|
    ensures Linked(pts, t, i, j) == Linked(pts, t, j, i)
  {
    SqDistSymmetric(pts[i], pts[j]);
  }

  lemma ConnectedSym(pts: seq<Point>, t: real, i: nat, j: nat)
    requires Connected(pts, t, i, j)
    ensures Connected(pts, t, j, i)
  {
    var w :| IsPath(pts, t, w, i, j);
    var n := |w|;
    var v := seq(n, k requires 0 <= k < n => w[n - 1 - k]);
    forall k | 0 <= k < n - 1 ensures Linked(pts, t, v[k], v[k + 1]) {
      assert Linked(pts, t, w[n - 2 - k], w[n - 1 - k]);
      LinkedSymmetric(pts, t, w[n - 2 - k], w[n - 1 - k]);
    }
    assert IsPath(pts, t, v, j, i);
  }

  lemma ConnectedTrans(pts: seq<Point>, t: real, i: nat, j: nat, k: nat)
    requires Connected(pts, t, i, j) && Connected(pts, t, j, k)
    ensures Connected(pts, t, i, k)
  {
    var w1 :| IsPath(pts, t, w1, i, j);
    var w2 :| IsPath(pts, t, w2, j, k);
    var w := w1 + w2[1..];
    forall m | 0 <= m < |w| - 1 ensures Linked(pts, t, w[m], w[m + 1]) {
      if m < |w1| - 1 {
        assert w[m] == w1[m] && w[m + 1] == w1[m + 1];
      } else {
        assert w[m] == w2[m - |w1| + 1] && w[m + 1] == w2[m - |w1| + 2];
      }
    }
    assert IsPath(pts, t, w, i, k);
  }

  /** Every two candidates with the same root are connected. */
  ghost predicate RootsConnected(pts: seq<Point>, t: real, root: seq<nat>)
    requires |root| == |pts|
  {
    forall a, b :: 0 <= a < |pts| && 0 <= b < |pts| && root[a] == root[b] ==> Connected(pts, t, a, b)
  }

  /** Relabel every candidate whose root is root[j] with root[i]. */
  function Merge(root: seq<nat>, i: nat, j: nat): (r: seq<nat>)
    requires i < |root| && j < |root|
    ensures |r| == |root|
    ensures forall a :: 0 <= a < |root| ==> r[a] == if root[a] == root[j] then root[i] else root[a]
  {
    seq(|root|, a requires 0 <= a < |root| => if root[a] == root[j] then root[i] else root[a])
  }

  /** Merging the classes of two linked candidates keeps every class connected. */
  lemma MergeConnected(pts: seq<Point>, t: real, root: seq<nat>, i: nat, j: nat)
    requires |root| == |pts| && i < |pts| && j < |pts|
    requires Linked(pts, t, i, j) && RootsConnected(pts, t, root)
    ensures RootsConnected(pts, t, Merge(root, i, j))
  {
    var r := Merge(root, i, j);
    ConnectedLinked(pts, t, i, j);
    ConnectedSym(pts, t, i, j);
    forall a, b | 0 <= a < |pts| && 0 <= b < |pts| && r[a] == r[b]
      ensures Connected(pts, t, a, b)
    {
      if root[a] == root[j] && root[b] != root[j] {
        // a ~ j ~ i ~ b
        assert root[b] == root[i];
        assert Connected(pts, t, a, j);
        ConnectedTrans(pts, t, a, j, i);
        assert Connected(pts, t, i, b);
        ConnectedTrans(pts, t, a, i, b);
      } else if root[a] != root[j] && root[b] == root[j] {
        // a ~ i ~ j ~ b
        assert root[a] == root[i];
        assert Connected(pts, t, a, i);
        ConnectedTrans(pts, t, a, i, j);
        assert Connected(pts, t, j, b);
        ConnectedTrans(pts, t, a, j, b);
      } else {
        assert root[a] == root[b];
      }
    }
  }

  /** Number the distinct roots 1, 2, ... in order of first appearance:
      candidates get the same label exactly when they had the same root. */
  method Renumber(raw: seq<nat>) returns (labels: seq<nat>, count: nat)
    ensures |labels| == |raw|
    ensures forall i :: 0 <= i < |raw| ==> 1 <= labels[i] <= count
    ensures forall c :: 1 <= c <= count ==> c in labels
    ensures forall i, j :: 0 <= i < |raw| && 0 <= j < |raw| ==> (labels[i] == labels[j] <==> raw[i] == raw[j])
  {
    var m: map<nat, nat> := map[];
    labels, count := [], 0;
    var i := 0;
    while i < |raw|
      invariant 0 <= i <= |raw| && |labels| == i
      invariant forall k :: 0 <= k < i ==> raw[k] in m && labels[k] == m[raw[k]]
      invariant forall v :: v in m ==> 1 <= m[v] <= count
      invariant forall v, w :: v in m && w in m && m[v] == m[w] ==> v == w
      invariant forall c :: 1 <= c <= count ==> c in labels
    {
      if raw[i] !in m {
        count := count + 1;
        m := m[raw[i] := count];
      }
      labels := labels + [m[raw[i]]];
      assert labels[i] == m[raw[i]];
      i := i + 1;
    }
  }

  /** `fclusterdata(pts, t, criterion="distance")` with single linkage:
      labels 1..count, all used; linked candidates share a label, and
      candidates sharing a label are joined by a chain of links. Clusters are
      numbered in order of their first candidate. */
  method FlatClusters(pts: seq<Point>, t: real) returns (labels: seq<nat>, count: nat)
    ensures |labels| == |pts|
    ensures forall i :: 0 <= i < |pts| ==> 1 <= labels[i] <= count
    ensures forall c :: 1 <= c <= count ==> c in labels
    ensures forall i, j :: 0 <= i < |pts| && 0 <= j < |pts| && Linked(pts, t, i, j) ==> labels[i] == labels[j]
    ensures forall i, j :: 0 <= i < |pts| && 0 <= j < |pts| && labels[i] == labels[j] ==> Connected(pts, t, i, j)
  {
    var n := |pts|;
    var root: seq<nat> := seq(n, a requires 0 <= a < n => a);
    forall a, b | 0 <= a < n && 0 <= b < n && root[a] == root[b]
      ensures Connected(pts, t, a, b)
    {
      ConnectedRefl(pts, t, a);
    }
    var i := 0;
    while i < n
      invariant 0 <= i <= n && |root| == n
      invariant RootsConnected(pts, t, root)
      invariant forall a, b :: 0 <= a < i && 0 <= b < n && Linked(pts, t, a, b) ==> root[a] == root[b]
    {
      var j := 0;
      while j < n
        invariant 0 <= j <= n && |root| == n
        invariant RootsConnected(pts, t, root)
        invariant forall a, b :: 0 <= a < i && 0 <= b < n && Linked(pts, t, a, b) ==> root[a] == root[b]
        invariant forall b :: 0 <= b < j && Linked(pts, t, i, b) ==> root[i] == root[b]
      {
        if Linked(pts, t, i, j) && root[i] != root[j] {
          MergeConnected(pts, t, root, i, j);
          root := Merge(root, i, j);
        }
        j := j + 1;
      }
      i := i + 1;
    }
    labels, count := Renumber(root);
  }

  /** `np.where(labels == c)[0]` restricted to indices below n. */
  function MembersBelow(labels: seq<nat>, c: nat, n: nat): (r: seq<nat>)
    requires n <= |labels|
    ensures Increasing(r)
    ensures forall k :: 0 <= k < |r| ==> r[k] < n
    ensures forall i: nat :: i in r <==> i < n && labels[i] == c
  {
    if n == 0 then []
    else
      var prev := MembersBelow(labels, c, n - 1);
      if labels[n - 1] == c then prev + [n - 1] else prev
  }

  /** `np.where(labels == c)`: the positions labelled c, in increasing order. */
  function Members(labels: seq<nat>, c: nat): (r: seq<nat>)
    ensures Increasing(r)
    ensures forall k :: 0 <= k < |r| ==> r[k] < |labels|
    ensures forall i: nat :: i in r <==> i < |labels| && labels[i] == c
  {
    MembersBelow(labels, c, |labels|)
  }
}
