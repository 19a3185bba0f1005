/** `get_optimal_pnts_indxs`: select candidates through the tolerance
    ladder, cluster them, pick in each cluster the member with the lowest
    neighbourhood-averaged leakage, and rank the clusters by weight. */
module FluxOptimals {
  import opened Wrappers
  import opened FluxSelection
  import opened FluxClustering
  import opened FluxRanking

  /** `np.transpose([x_filt, y_filt])`: the normalised coordinates of the candidates. */
  function Candidates(xn: seq<real>, yn: seq<real>, sel: seq<nat>): (pts: seq<Point>)
    requires |yn| == |xn| && forall k :: 0 <= k < |sel| ==> sel[k] < |xn|
    ensures |pts| == |sel|
    ensures forall k :: 0 <= k < |sel| ==> pts[k] == PointAt(xn, yn, sel[k])
  {
    seq(|sel|, k requires 0 <= k < |sel| => PointAt(xn, yn, sel[k]))
  }

  /** The neighbourhood-averaged leakage of sample m. */
  function LocalLeakage(xn: seq<real>, yn: seq<real>, l1: seq<real>, radius: real, m: nat): real
    requires |yn| == |xn| && |l1| == |xn| && m < |xn|
  {
    AvAround(xn, yn, l1, m, radius).0
  }

  /** `[av_around(x_norm, y_norm, L1_arr, idx, radius)[0] for idx in cluster]` */
  function LeakageAround(xn: seq<real>, yn: seq<real>, l1: seq<real>, cluster: seq<nat>, radius: real): (r: seq<real>)
    requires |yn| == |xn| && |l1| == |xn| && forall k :: 0 <= k < |cluster| ==> cluster[k] < |xn|
    ensures |r| == |cluster|
    ensures forall k :: 0 <= k < |r| ==> r[k] == LocalLeakage(xn, yn, l1, radius, cluster[k])
  {
    seq(|cluster|, k requires 0 <= k < |cluster| => LocalLeakage(xn, yn, l1, radius, cluster[k]))
  }

  /** Cluster `id` as sample indices, its representative (the first member
      of lowest local leakage) and that representative's leakage. */
  ghost predicate RepresentsCluster(xn: seq<real>, yn: seq<real>, l1: seq<real>, sel: seq<nat>, labels: seq<nat>,
                                    radius: real, id: nat, opt: nat, cluster: seq<nat>, av: real)
    requires |yn| == |xn| && |l1| == |xn| && |labels| == |sel|
    requires forall k :: 0 <= k < |sel| ==> sel[k] < |xn|
  {
    && cluster == Gather(sel, Members(labels, id))
    && |cluster| >= 1
    && opt == cluster[ArgMin(LeakageAround(xn, yn, l1, cluster, radius))]
    && av == LocalLeakage(xn, yn, l1, radius, opt)
  }

  /** The loop over cluster ids 1..count: each cluster's members as sample
      indices, its representative and that representative's leakage. */
  method Representatives(xn: seq<real>, yn: seq<real>, l1: seq<real>, sel: seq<nat>, labels: seq<nat>, count: nat, radius: real)
    returns (optimal: seq<nat>, clusters: seq<seq<nat>>, avL1: seq<real>)
    requires |yn| == |xn| && |l1| == |xn|
    requires forall k :: 0 <= k < |sel| ==> sel[k] < |xn|
    requires |labels| == |sel|
    requires forall c :: 1 <= c <= count ==> c in labels
    ensures |optimal| == count && |clusters| == count && |avL1| == count
    ensures forall c :: 0 <= c < count ==> |clusters[c]| >= 1
    ensures forall c :: 0 <= c < count ==>
      RepresentsCluster(xn, yn, l1, sel, labels, radius, c + 1, optimal[c], clusters[c], avL1[c])
  {
    optimal, clusters, avL1 := [], [], [];
    var id := 1;
    while id <= count
      invariant 1 <= id <= count + 1
      invariant |optimal| == id - 1 && |clusters| == id - 1 && |avL1| == id - 1
      invariant forall c :: 0 <= c < id - 1 ==> |clusters[c]| >= 1
      invariant forall c :: 0 <= c < id - 1 ==>
        RepresentsCluster(xn, yn, l1, sel, labels, radius, c + 1, optimal[c], clusters[c], avL1[c])
    {
      var opt, inOrig, av := RepresentCluster(xn, yn, l1, sel, labels, radius, id);
      RepresentsAppend(xn, yn, l1, sel, labels, radius, optimal, clusters, avL1, opt, inOrig, av);
      optimal := optimal + [opt];
      clusters := clusters + [inOrig];
      avL1 := avL1 + [av];
      id := id + 1;
    }
  }

  /** The body of that loop for one id that labels some candidate: the
      cluster's members as sample indices, the local leakage of each, and
      the first member where it is lowest. */
  method RepresentCluster(xn: seq<real>, yn: seq<real>, l1: seq<real>, sel: seq<nat>, labels: seq<nat>, radius: real, id: nat)
    returns (opt: nat, inOrig: seq<nat>, av: real)
    requires |yn| == |xn| && |l1| == |xn| && |labels| == |sel|
    requires forall k :: 0 <= k < |sel| ==> sel[k] < |xn|
    requires id in labels
    ensures |inOrig| >= 1
    ensures RepresentsCluster(xn, yn, l1, sel, labels, radius, id, opt, inOrig, av)
  {
    var members := Members(labels, id);
    ghost var a :| 0 <= a < |labels| && labels[a] == id;
    assert a in members;
    inOrig := Gather(sel, members);
    var around := LeakageAround(xn, yn, l1, inOrig, radius);
    var minIdx := ArgMin(around);
    opt, av := inOrig[minIdx], around[minIdx];
  }

  /** One more turn of the loop over cluster ids keeps every cluster
      represented. */
  lemma RepresentsAppend(xn: seq<real>, yn: seq<real>, l1: seq<real>, sel: seq<nat>, labels: seq<nat>, radius: real,
                         optimal: seq<nat>, clusters: seq<seq<nat>>, avL1: seq<real>, opt: nat, cluster: seq<nat>, av: real)
    requires |yn| == |xn| && |l1| == |xn| && |labels| == |sel|
    requires forall k :: 0 <= k < |sel| ==> sel[k] < |xn|
    requires |optimal| == |clusters| == |avL1|
    requires forall c :: 0 <= c < |clusters| ==>
      RepresentsCluster(xn, yn, l1, sel, labels, radius, c + 1, optimal[c], clusters[c], avL1[c])
    requires RepresentsCluster(xn, yn, l1, sel, labels, radius, |clusters| + 1, opt, cluster, av)
    ensures forall c :: 0 <= c < |clusters| + 1 ==>
      RepresentsCluster(xn, yn, l1, sel, labels, radius, c + 1, (optimal + [opt])[c], (clusters + [cluster])[c], (avL1 + [av])[c])
  {
    forall c | 0 <= c < |clusters| + 1
      ensures RepresentsCluster(xn, yn, l1, sel, labels, radius, c + 1, (optimal + [opt])[c], (clusters + [cluster])[c], (avL1 + [av])[c])
    {
      if c < |clusters| {
        assert (optimal + [opt])[c] == optimal[c] && (clusters + [cluster])[c] == clusters[c] && (avL1 + [av])[c] == avL1[c];
      } else {
        assert (optimal + [opt])[c] == opt && (clusters + [cluster])[c] == cluster && (avL1 + [av])[c] == av;
      }
    }
  }

  /** `map(np.size, clusters_by_indx)` */
  function Sizes(clusters: seq<seq<nat>>): (r: seq<nat>)
    ensures |r| == |clusters|
    ensures forall c :: 0 <= c < |r| ==> r[c] == |clusters[c]|
  {
    seq(|clusters|, c requires 0 <= c < |clusters| => |clusters[c]|)
  }

  // ---------------------------------------------------------------------
  // What the extractor promises about its result
  // ---------------------------------------------------------------------

  /** The clusters are non-empty increasing lists of candidates, every
      candidate is in exactly one of them. */
  ghost predicate Partitions(sel: seq<nat>, clusters: seq<seq<nat>>)
  {
    && (forall c :: 0 <= c < |clusters| ==> |clusters[c]| >= 1 && Increasing(clusters[c]))
    && (forall c, e :: 0 <= c < |clusters| && e in clusters[c] ==> e in sel)
    && (forall e :: e in sel ==> exists c :: 0 <= c < |clusters| && e in clusters[c])
    && (forall c, d, e :: 0 <= c < |clusters| && 0 <= d < |clusters| && c != d && e in clusters[c] ==> e !in clusters[d])
  }

  /** A cluster holds every candidate linked to one of its members, and any
      two of its members are joined by a chain of links. */
  ghost predicate FollowsLinks(pts: seq<Point>, t: real, sel: seq<nat>, clusters: seq<seq<nat>>)
    requires |pts| == |sel|
  {
    && (forall c, a, b ::
          (0 <= c < |clusters| && 0 <= a < |sel| && 0 <= b < |sel| && sel[a] in clusters[c] && Linked(pts, t, a, b))
          ==> sel[b] in clusters[c])
    && (forall c, a, b ::
          (0 <= c < |clusters| && 0 <= a < |sel| && 0 <= b < |sel| && sel[a] in clusters[c] && sel[b] in clusters[c])
          ==> Connected(pts, t, a, b))
  }

  /** Each representative is a member of its cluster with the lowest local
      leakage, and no lower-indexed member ties with it. */
  ghost predicate RepresentsBest(xn: seq<real>, yn: seq<real>, l1: seq<real>, radius: real, optimal: seq<nat>, clusters: seq<seq<nat>>)
    requires |yn| == |xn| && |l1| == |xn|
  {
    && |optimal| == |clusters|
    && (forall c, k :: 0 <= c < |clusters| && 0 <= k < |clusters[c]| ==> clusters[c][k] < |xn|)
    && (forall c :: 0 <= c < |clusters| ==> optimal[c] in clusters[c])
    && (forall c, k :: 0 <= c < |clusters| && 0 <= k < |clusters[c]| ==>
          LocalLeakage(xn, yn, l1, radius, optimal[c]) <= LocalLeakage(xn, yn, l1, radius, clusters[c][k]))
    && (forall c, k :: 0 <= c < |clusters| && 0 <= k < |clusters[c]| && clusters[c][k] < optimal[c] ==>
          LocalLeakage(xn, yn, l1, radius, optimal[c]) < LocalLeakage(xn, yn, l1, radius, clusters[c][k]))
  }

  /** The representatives' local leakages, in output order. */
  function RepLeakages(xn: seq<real>, yn: seq<real>, l1: seq<real>, radius: real, optimal: seq<nat>): (r: seq<real>)
    requires |yn| == |xn| && |l1| == |xn| && forall c :: 0 <= c < |optimal| ==> optimal[c] < |xn|
    ensures |r| == |optimal|
    ensures forall c :: 0 <= c < |r| ==> r[c] == LocalLeakage(xn, yn, l1, radius, optimal[c])
  {
    seq(|optimal|, c requires 0 <= c < |optimal| => LocalLeakage(xn, yn, l1, radius, optimal[c]))
  }

  /** The clusters come out in non-decreasing order of
      `leakage / max leakage / size`. */
  ghost predicate RankedByWeight(xn: seq<real>, yn: seq<real>, l1: seq<real>, radius: real, optimal: seq<nat>, clusters: seq<seq<nat>>)
    requires |yn| == |xn| && |l1| == |xn|
  {
    && |optimal| == |clusters| >= 1
    && (forall c :: 0 <= c < |optimal| ==> optimal[c] < |xn|)
    && (forall c :: 0 <= c < |clusters| ==> |clusters[c]| >= 1)
    && var w := Weights(RepLeakages(xn, yn, l1, radius, optimal), Sizes(clusters));
       forall a, b :: 0 <= a < b < |w| ==> WeightLe(w[a], w[b])
  }

  /** `clustering_thr / 360`: the clustering distance in the normalised units. */
  function ClusteringThreshold(clusteringThr: real): (t: real)
    ensures t * 360.0 == clusteringThr
  {
    clusteringThr / 360.0
  }

  /** The leakage is averaged within 1.5 times the clustering distance. */
  function AveragingRadius(clusteringThr: real): real
  {
    clusteringThr / 360.0 * 1.5
  }

  /** Everything the extractor promises when several candidates survive. */
  ghost predicate Extracted(s: Sweep, clusteringThr: real, sel: seq<nat>, optimal: seq<nat>, clusters: seq<seq<nat>>)
    requires Parallel(s) && forall k :: 0 <= k < |sel| ==> sel[k] < |s.x|
  {
    && Partitions(sel, clusters)
    && FollowsLinks(Candidates(XNorm(s), YNorm(s), sel), ClusteringThreshold(clusteringThr), sel, clusters)
    && RepresentsBest(XNorm(s), YNorm(s), s.l1, AveragingRadius(clusteringThr), optimal, clusters)
    && RankedByWeight(XNorm(s), YNorm(s), s.l1, AveragingRadius(clusteringThr), optimal, clusters)
  }

  // ---------------------------------------------------------------------
  // The extractor
  // ---------------------------------------------------------------------

  /** `get_optimal_pnts_indxs(theta_f_arr, lambda_2_arr, cond_phase_arr,
      L1_arr, ...)`: the representatives and their clusters (as sample
      indices), both ranked by weight. `dev` is the phase-deviation function
      for the target phase; `base` holds `phase_thr` and `L1_thr`. */
  method GetOptimalPntsIndxs(s: Sweep, dev: real -> real, base: Thresholds, clusteringThr: real, tols: seq<real>)
    returns (r: Result<(seq<nat>, seq<seq<nat>>), SweepError>)
    requires Parallel(s)
    ensures match Ladder(s, dev, base, tols)
      case Failure(e) => r == Failure(e)
      case Success(Exhausted) => r == Success(([], []))
      case Success(Single(i)) => r == Success(([i], [[i]]))
      case Success(Several(sel)) =>
        && r.Success?
        && (forall k :: 0 <= k < |sel| ==> sel[k] < |s.x|)
        && Extracted(s, clusteringThr, sel, r.value.0, r.value.1)
  {
    var selection := SelectCandidates(s, dev, base, tols);
    if selection.Failure? {
      return Failure(selection.error);
    }
    match selection.value
    case Exhausted =>
      return Success(([], []));
    case Single(i) =>
      return Success(([i], [[i]]));
    case Several(sel) =>
      LadderSeveral(s, dev, base, tols, sel);
      var optimal, clusters := ExtractSeveral(s, sel, clusteringThr);
      return Success((optimal, clusters));
  }

  /** The extractor once several candidates survive: normalise the sweep,
      cluster with threshold `clustering_thr / 360` and average the leakage
      within 1.5 times that threshold. */
  method ExtractSeveral(s: Sweep, sel: seq<nat>, clusteringThr: real) returns (optimal: seq<nat>, clusters: seq<seq<nat>>)
    requires Parallel(s) && |sel| >= 1
    requires Increasing(sel) && forall k :: 0 <= k < |sel| ==> sel[k] < |s.x|
    ensures Extracted(s, clusteringThr, sel, optimal, clusters)
  {
    var thresh := ClusteringThreshold(clusteringThr);
    var radius := AveragingRadius(clusteringThr);
    optimal, clusters := ClusterAndRank(XNorm(s), YNorm(s), s.l1, sel, thresh, radius);
  }

  /** The second half of the extractor, once several candidates survive:
      cluster them with threshold t, pick each cluster's representative
      by the leakage averaged within `radius` (the extractor passes
      `1.5 * t`), and rank clusters and representatives by weight. */
  method ClusterAndRank(xn: seq<real>, yn: seq<real>, l1: seq<real>, sel: seq<nat>, t: real, radius: real)
    returns (optimal: seq<nat>, clusters: seq<seq<nat>>)
    requires |yn| == |xn| && |l1| == |xn| && |sel| >= 1
    requires Increasing(sel) && forall k :: 0 <= k < |sel| ==> sel[k] < |xn|
    ensures Partitions(sel, clusters)
    ensures FollowsLinks(Candidates(xn, yn, sel), t, sel, clusters)
    ensures RepresentsBest(xn, yn, l1, radius, optimal, clusters)
    ensures RankedByWeight(xn, yn, l1, radius, optimal, clusters)
  {
    var pts := Candidates(xn, yn, sel);
    var labels, count := FlatClusters(pts, t);
    assert 1 <= labels[0] <= count;
    var opt, cls, avL1 := Representatives(xn, yn, l1, sel, labels, count, radius);
    var order := ArgSort(Weights(avL1, Sizes(cls)));
    SeveralExtracted(xn, yn, l1, pts, t, radius, sel, labels, count, opt, cls, avL1, order);
    optimal, clusters := Gather(opt, order), Gather(cls, order);
  }

  // ---------------------------------------------------------------------
  // Proofs
  // ---------------------------------------------------------------------

  /** What clustering, picking representatives and ranking establish
      together. */
  lemma SeveralExtracted(xn: seq<real>, yn: seq<real>, l1: seq<real>, pts: seq<Point>, t: real, radius: real,
                         sel: seq<nat>, labels: seq<nat>, count: nat,
                         optimal: seq<nat>, clusters: seq<seq<nat>>, avL1: seq<real>, order: seq<nat>)
    requires |yn| == |xn| && |l1| == |xn| && |pts| == |sel| && |labels| == |sel|
    requires Increasing(sel) && forall k :: 0 <= k < |sel| ==> sel[k] < |xn|
    requires forall i :: 0 <= i < |pts| ==> 1 <= labels[i] <= count
    requires forall i, j :: 0 <= i < |pts| && 0 <= j < |pts| && Linked(pts, t, i, j) ==> labels[i] == labels[j]
    requires forall i, j :: 0 <= i < |pts| && 0 <= j < |pts| && labels[i] == labels[j] ==> Connected(pts, t, i, j)
    requires count >= 1 && |optimal| == count && |clusters| == count && |avL1| == count
    requires forall c :: 0 <= c < count ==> |clusters[c]| >= 1
    requires forall c :: 0 <= c < count ==>
      RepresentsCluster(xn, yn, l1, sel, labels, radius, c + 1, optimal[c], clusters[c], avL1[c])
    requires order == ArgSort(Weights(avL1, Sizes(clusters)))
    ensures Partitions(sel, Gather(clusters, order))
    ensures FollowsLinks(pts, t, sel, Gather(clusters, order))
    ensures RepresentsBest(xn, yn, l1, radius, Gather(optimal, order), Gather(clusters, order))
    ensures RankedByWeight(xn, yn, l1, radius, Gather(optimal, order), Gather(clusters, order))
  {
    UnfoldRepresents(xn, yn, l1, sel, labels, radius, optimal, clusters, avL1);
    ClustersPartition(sel, labels, count, clusters);
    ClustersFollowLinks(pts, t, sel, labels, count, clusters);
    RepresentativesBest(xn, yn, l1, radius, optimal, clusters);
    PermutedExtracted(xn, yn, l1, pts, t, radius, sel, optimal, clusters, avL1, order);
  }

  /** Ranking keeps the clusters a partition that follows the links, with
      their best representatives, and puts them in order of weight. */
  lemma PermutedExtracted(xn: seq<real>, yn: seq<real>, l1: seq<real>, pts: seq<Point>, t: real, radius: real,
                          sel: seq<nat>, optimal: seq<nat>, clusters: seq<seq<nat>>, avL1: seq<real>, order: seq<nat>)
    requires |yn| == |xn| && |l1| == |xn| && |pts| == |sel|
    requires Partitions(sel, clusters) && FollowsLinks(pts, t, sel, clusters)
    requires RepresentsBest(xn, yn, l1, radius, optimal, clusters)
    requires |optimal| == |clusters| == |avL1| >= 1
    requires forall c :: 0 <= c < |optimal| ==> optimal[c] < |xn| && avL1[c] == LocalLeakage(xn, yn, l1, radius, optimal[c])
    requires order == ArgSort(Weights(avL1, Sizes(clusters)))
    ensures Partitions(sel, Gather(clusters, order))
    ensures FollowsLinks(pts, t, sel, Gather(clusters, order))
    ensures RepresentsBest(xn, yn, l1, radius, Gather(optimal, order), Gather(clusters, order))
    ensures RankedByWeight(xn, yn, l1, radius, Gather(optimal, order), Gather(clusters, order))
  {
    PermutedRanked(xn, yn, l1, radius, optimal, clusters, avL1, order);
    PermutedPartition(sel, clusters, order);
    PermutedFollowsLinks(pts, t, sel, clusters, order);
    PermutedRepresentsBest(xn, yn, l1, radius, optimal, clusters, order);
  }

  /** What `RepresentsCluster` says about every cluster, spelled out. */
  lemma UnfoldRepresents(xn: seq<real>, yn: seq<real>, l1: seq<real>, sel: seq<nat>, labels: seq<nat>, radius: real,
                         optimal: seq<nat>, clusters: seq<seq<nat>>, avL1: seq<real>)
    requires |yn| == |xn| && |l1| == |xn| && |labels| == |sel|
    requires forall k :: 0 <= k < |sel| ==> sel[k] < |xn|
    requires |optimal| == |clusters| == |avL1|
    requires forall c :: 0 <= c < |clusters| ==>
      RepresentsCluster(xn, yn, l1, sel, labels, radius, c + 1, optimal[c], clusters[c], avL1[c])
    ensures forall c :: 0 <= c < |clusters| ==> clusters[c] == Gather(sel, Members(labels, c + 1)) && |clusters[c]| >= 1
    ensures forall c :: 0 <= c < |clusters| ==> forall k :: 0 <= k < |clusters[c]| ==> clusters[c][k] < |xn|
    ensures forall c :: 0 <= c < |clusters| ==>
      optimal[c] == clusters[c][ArgMin(LeakageAround(xn, yn, l1, clusters[c], radius))]
    ensures forall c :: 0 <= c < |clusters| ==> optimal[c] < |xn| && avL1[c] == LocalLeakage(xn, yn, l1, radius, optimal[c])
  {
    forall c | 0 <= c < |clusters|
      ensures clusters[c] == Gather(sel, Members(labels, c + 1)) && |clusters[c]| >= 1
      ensures forall k :: 0 <= k < |clusters[c]| ==> clusters[c][k] < |xn|
      ensures optimal[c] == clusters[c][ArgMin(LeakageAround(xn, yn, l1, clusters[c], radius))]
      ensures optimal[c] < |xn| && avL1[c] == LocalLeakage(xn, yn, l1, radius, optimal[c])
    {
      assert RepresentsCluster(xn, yn, l1, sel, labels, radius, c + 1, optimal[c], clusters[c], avL1[c]);
    }
  }

  /** A strictly increasing sequence has no repeated element. */
  lemma IncreasingInjective(v: seq<nat>, i: nat, j: nat)
    requires Increasing(v) && i < |v| && j < |v| && v[i] == v[j]
    ensures i == j
  {
  }

  /** In a strictly increasing sequence a smaller element comes earlier. */
  lemma IncreasingBefore(v: seq<nat>, i: nat, j: nat)
    requires Increasing(v) && i < |v| && j < |v| && v[i] < v[j]
    ensures i < j
  {
  }

  /** Sample sel[a] belongs to the cluster with id c exactly when candidate a has label c. */
  lemma PickMember(sel: seq<nat>, labels: seq<nat>, c: nat, a: nat)
    requires Increasing(sel) && |labels| == |sel| && a < |sel|
    ensures sel[a] in Gather(sel, Members(labels, c)) <==> labels[a] == c
  {
    var ms := Members(labels, c);
    var p := Gather(sel, ms);
    if labels[a] == c {
      assert a in ms;
      var k :| 0 <= k < |ms| && ms[k] == a;
      assert p[k] == sel[a];
    }
    if sel[a] in p {
      var k :| 0 <= k < |p| && p[k] == sel[a];
      IncreasingInjective(sel, ms[k], a);
      assert ms[k] in ms;
    }
  }

  /** Every sample of a cluster is a candidate. */
  lemma PickFromSel(sel: seq<nat>, labels: seq<nat>, c: nat, e: nat)
    requires |labels| == |sel| && e in Gather(sel, Members(labels, c))
    ensures exists a :: 0 <= a < |sel| && sel[a] == e && labels[a] == c
  {
    var ms := Members(labels, c);
    var p := Gather(sel, ms);
    var k :| 0 <= k < |p| && p[k] == e;
    assert ms[k] in ms;
  }

  lemma PickIncreasing(sel: seq<nat>, ms: seq<nat>)
    requires Increasing(sel) && Increasing(ms) && forall k :: 0 <= k < |ms| ==> ms[k] < |sel|
    ensures Increasing(Gather(sel, ms))
  {
  }

  lemma ClustersPartition(sel: seq<nat>, labels: seq<nat>, count: nat, clusters: seq<seq<nat>>)
    requires Increasing(sel) && |labels| == |sel| && |clusters| == count
    requires forall a :: 0 <= a < |sel| ==> 1 <= labels[a] <= count
    requires forall c :: 0 <= c < count ==> clusters[c] == Gather(sel, Members(labels, c + 1)) && |clusters[c]| >= 1
    ensures Partitions(sel, clusters)
  {
    forall c | 0 <= c < count ensures Increasing(clusters[c]) {
      PickIncreasing(sel, Members(labels, c + 1));
    }
    forall c, e | 0 <= c < count && e in clusters[c] ensures e in sel {
      PickFromSel(sel, labels, c + 1, e);
    }
    forall e | e in sel ensures exists c :: 0 <= c < count && e in clusters[c] {
      var a :| 0 <= a < |sel| && sel[a] == e;
      PickMember(sel, labels, labels[a], a);
      assert e in clusters[labels[a] - 1];
    }
    forall c, d, e | 0 <= c < count && 0 <= d < count && c != d && e in clusters[c] ensures e !in clusters[d] {
      PickFromSel(sel, labels, c + 1, e);
      var a :| 0 <= a < |sel| && sel[a] == e && labels[a] == c + 1;
      PickMember(sel, labels, d + 1, a);
    }
  }

  lemma ClustersFollowLinks(pts: seq<Point>, t: real, sel: seq<nat>, labels: seq<nat>, count: nat, clusters: seq<seq<nat>>)
    requires Increasing(sel) && |pts| == |sel| && |labels| == |sel| && |clusters| == count
    requires forall i, j :: 0 <= i < |pts| && 0 <= j < |pts| && Linked(pts, t, i, j) ==> labels[i] == labels[j]
    requires forall i, j :: 0 <= i < |pts| && 0 <= j < |pts| && labels[i] == labels[j] ==> Connected(pts, t, i, j)
    requires forall c :: 0 <= c < count ==> clusters[c] == Gather(sel, Members(labels, c + 1))
    ensures FollowsLinks(pts, t, sel, clusters)
  {
    forall c, a, b | 0 <= c < |clusters| && 0 <= a < |sel| && 0 <= b < |sel| && sel[a] in clusters[c] && Linked(pts, t, a, b)
      ensures sel[b] in clusters[c]
    {
      SameCluster(sel, labels, count, clusters, c, a, b);
    }
    forall c, a, b | 0 <= c < |clusters| && 0 <= a < |sel| && 0 <= b < |sel| && sel[a] in clusters[c] && sel[b] in clusters[c]
      ensures Connected(pts, t, a, b)
    {
      SameCluster(sel, labels, count, clusters, c, a, b);
    }
  }

  /** Two selected points lie in cluster c exactly when both carry its
      label. */
  lemma SameCluster(sel: seq<nat>, labels: seq<nat>, count: nat, clusters: seq<seq<nat>>, c: nat, a: nat, b: nat)
    requires Increasing(sel) && |labels| == |sel| && |clusters| == count
    requires forall c :: 0 <= c < count ==> clusters[c] == Gather(sel, Members(labels, c + 1))
    requires c < count && a < |sel| && b < |sel|
    ensures sel[a] in clusters[c] <==> labels[a] == c + 1
    ensures sel[b] in clusters[c] <==> labels[b] == c + 1
  {
    assert clusters[c] == Gather(sel, Members(labels, c + 1));
    PickMember(sel, labels, c + 1, a);
    PickMember(sel, labels, c + 1, b);
  }

  /** The first minimum of the local leakages over one increasing cluster
      is a member of lowest leakage, and every member below it in index has
      strictly higher leakage. */
  lemma BestInCluster(xn: seq<real>, yn: seq<real>, l1: seq<real>, radius: real, opt: nat, cluster: seq<nat>)
    requires |yn| == |xn| && |l1| == |xn| && |cluster| >= 1 && Increasing(cluster)
    requires forall k :: 0 <= k < |cluster| ==> cluster[k] < |xn|
    requires opt == cluster[ArgMin(LeakageAround(xn, yn, l1, cluster, radius))]
    ensures opt in cluster
    ensures forall k :: 0 <= k < |cluster| ==>
      LocalLeakage(xn, yn, l1, radius, opt) <= LocalLeakage(xn, yn, l1, radius, cluster[k])
    ensures forall k :: 0 <= k < |cluster| && cluster[k] < opt ==>
      LocalLeakage(xn, yn, l1, radius, opt) < LocalLeakage(xn, yn, l1, radius, cluster[k])
  {
    var around := LeakageAround(xn, yn, l1, cluster, radius);
    FirstMinimum(cluster, around);
  }

  /** On positions listed in increasing order, the first minimum of v is
      strictly below v at every earlier position. */
  lemma FirstMinimum(keys: seq<nat>, v: seq<real>)
    requires |v| == |keys| >= 1 && Increasing(keys)
    ensures keys[ArgMin(v)] in keys
    ensures forall k :: 0 <= k < |v| && keys[k] < keys[ArgMin(v)] ==> v[ArgMin(v)] < v[k]
  {
    var m := ArgMin(v);
    forall k | 0 <= k < |v| && keys[k] < keys[m] ensures v[m] < v[k] {
      IncreasingBefore(keys, k, m);
    }
  }

  lemma RepresentativesBest(xn: seq<real>, yn: seq<real>, l1: seq<real>, radius: real, optimal: seq<nat>, clusters: seq<seq<nat>>)
    requires |yn| == |xn| && |l1| == |xn| && |optimal| == |clusters|
    requires forall c :: 0 <= c < |clusters| ==> |clusters[c]| >= 1 && Increasing(clusters[c])
    requires forall c :: 0 <= c < |clusters| ==> forall k :: 0 <= k < |clusters[c]| ==> clusters[c][k] < |xn|
    requires forall c :: 0 <= c < |clusters| ==>
      optimal[c] == clusters[c][ArgMin(LeakageAround(xn, yn, l1, clusters[c], radius))]
    ensures RepresentsBest(xn, yn, l1, radius, optimal, clusters)
  {
    forall c | 0 <= c < |clusters|
      ensures optimal[c] in clusters[c]
      ensures forall k :: 0 <= k < |clusters[c]| ==>
        LocalLeakage(xn, yn, l1, radius, optimal[c]) <= LocalLeakage(xn, yn, l1, radius, clusters[c][k])
      ensures forall k :: 0 <= k < |clusters[c]| && clusters[c][k] < optimal[c] ==>
        LocalLeakage(xn, yn, l1, radius, optimal[c]) < LocalLeakage(xn, yn, l1, radius, clusters[c][k])
    {
      BestInCluster(xn, yn, l1, radius, optimal[c], clusters[c]);
    }
  }

  /** `order` lists every position below n exactly once. */
  predicate IsPermutation(order: seq<nat>, n: nat)
  {
    && |order| == n
    && (forall k :: 0 <= k < n ==> order[k] < n)
    && (forall v :: 0 <= v < n ==> v in order)
    && Distinct(order)
  }

  lemma PermutedPartition(sel: seq<nat>, clusters: seq<seq<nat>>, order: seq<nat>)
    requires Partitions(sel, clusters) && IsPermutation(order, |clusters|)
    ensures Partitions(sel, Gather(clusters, order))
  {
    var p := Gather(clusters, order);
    forall e | e in sel ensures exists c :: 0 <= c < |p| && e in p[c] {
      var c0 :| 0 <= c0 < |clusters| && e in clusters[c0];
      assert c0 in order;
      var k :| 0 <= k < |order| && order[k] == c0;
      assert e in p[k];
    }
    forall c, d, e | 0 <= c < |p| && 0 <= d < |p| && c != d && e in p[c] ensures e !in p[d] {
      assert order[c] != order[d] by {
        if c < d { assert order[c] != order[d]; } else { assert order[d] != order[c]; }
      }
    }
  }

  lemma PermutedFollowsLinks(pts: seq<Point>, t: real, sel: seq<nat>, clusters: seq<seq<nat>>, order: seq<nat>)
    requires |pts| == |sel| && FollowsLinks(pts, t, sel, clusters) && IsPermutation(order, |clusters|)
    ensures FollowsLinks(pts, t, sel, Gather(clusters, order))
  {
    var p := Gather(clusters, order);
    forall c, a, b | 0 <= c < |p| && 0 <= a < |sel| && 0 <= b < |sel| && sel[a] in p[c] && Linked(pts, t, a, b)
      ensures sel[b] in p[c]
    {
      assert p[c] == clusters[order[c]];
    }
    forall c, a, b | 0 <= c < |p| && 0 <= a < |sel| && 0 <= b < |sel| && sel[a] in p[c] && sel[b] in p[c]
      ensures Connected(pts, t, a, b)
    {
      assert p[c] == clusters[order[c]];
    }
  }

  lemma PermutedRepresentsBest(xn: seq<real>, yn: seq<real>, l1: seq<real>, radius: real, optimal: seq<nat>, clusters: seq<seq<nat>>, order: seq<nat>)
    requires |yn| == |xn| && |l1| == |xn|
    requires RepresentsBest(xn, yn, l1, radius, optimal, clusters) && IsPermutation(order, |clusters|)
    ensures RepresentsBest(xn, yn, l1, radius, Gather(optimal, order), Gather(clusters, order))
  {
  }

  /** Max depends only on which values occur. */
  lemma MaxSameValues(u: seq<real>, v: seq<real>)
    requires |u| >= 1 && |v| >= 1
    requires forall x :: x in u ==> x in v
    requires forall x :: x in v ==> x in u
    ensures Max(u) == Max(v)
  {
    var mu, mv := Max(u), Max(v);
    assert mu in v;
    assert mv in u;
    var i :| 0 <= i < |v| && v[i] == mu;
    var j :| 0 <= j < |u| && u[j] == mv;
  }

  /** Reordering the leakages does not change their maximum. */
  lemma PermutedMax(v: seq<real>, order: seq<nat>)
    requires |v| >= 1 && IsPermutation(order, |v|)
    ensures Max(Gather(v, order)) == Max(v)
  {
    var pv := Gather(v, order);
    forall x | x in pv ensures x in v {
      var k :| 0 <= k < |pv| && pv[k] == x;
    }
    forall x | x in v ensures x in pv {
      var c :| 0 <= c < |v| && v[c] == x;
      assert c in order;
      var k :| 0 <= k < |order| && order[k] == c;
      assert pv[k] == x;
    }
    MaxSameValues(pv, v);
  }

  /** Permuting the clusters permutes their weights the same way. */
  lemma PermutedWeights(avL1: seq<real>, clusters: seq<seq<nat>>, order: seq<nat>)
    requires |avL1| == |clusters| >= 1 && IsPermutation(order, |clusters|)
    requires forall c :: 0 <= c < |clusters| ==> |clusters[c]| >= 1
    ensures Weights(Gather(avL1, order), Sizes(Gather(clusters, order))) == Gather(Weights(avL1, Sizes(clusters)), order)
  {
    PermutedMax(avL1, order);
  }

  /** The representatives' leakages, reordered, are the reordered averages. */
  lemma RepLeakagesPermuted(xn: seq<real>, yn: seq<real>, l1: seq<real>, radius: real,
                            optimal: seq<nat>, avL1: seq<real>, order: seq<nat>)
    requires |yn| == |xn| && |l1| == |xn| && |optimal| == |avL1|
    requires forall c :: 0 <= c < |optimal| ==> optimal[c] < |xn| && avL1[c] == LocalLeakage(xn, yn, l1, radius, optimal[c])
    requires forall k :: 0 <= k < |order| ==> order[k] < |optimal|
    ensures RepLeakages(xn, yn, l1, radius, Gather(optimal, order)) == Gather(avL1, order)
  {
  }

  lemma PermutedRanked(xn: seq<real>, yn: seq<real>, l1: seq<real>, radius: real,
                       optimal: seq<nat>, clusters: seq<seq<nat>>, avL1: seq<real>, order: seq<nat>)
    requires |yn| == |xn| && |l1| == |xn|
    requires |optimal| == |clusters| == |avL1| >= 1
    requires forall c :: 0 <= c < |clusters| ==> |clusters[c]| >= 1
    requires forall c :: 0 <= c < |optimal| ==> optimal[c] < |xn| && avL1[c] == LocalLeakage(xn, yn, l1, radius, optimal[c])
    requires order == ArgSort(Weights(avL1, Sizes(clusters)))
    ensures IsPermutation(order, |clusters|)
    ensures RankedByWeight(xn, yn, l1, radius, Gather(optimal, order), Gather(clusters, order))
  {
    var w := Weights(avL1, Sizes(clusters));
    assert IsPermutation(order, |clusters|);
    var optimal', clusters' := Gather(optimal, order), Gather(clusters, order);
    assert forall c :: 0 <= c < |optimal'| ==> optimal'[c] < |xn|;
    assert forall c :: 0 <= c < |clusters'| ==> |clusters'[c]| >= 1;
    RepLeakagesPermuted(xn, yn, l1, radius, optimal, avL1, order);
    PermutedWeights(avL1, clusters, order);
    var w' := Gather(w, order);
    assert Weights(RepLeakages(xn, yn, l1, radius, optimal'), Sizes(clusters')) == w';
    assert forall a, b :: 0 <= a < b < |w'| ==> WeightLe(w'[a], w'[b]);
  }
}
