/** Candidate selection of the optimal-point extractor: the two-dimensional
    sweep, the criteria a sample must meet to become a candidate, and the
    tolerance ladder that relaxes the thresholds until something qualifies. */
module FluxSelection {
  import opened Wrappers

  /** One sweep: coordinates `theta_f` (x) and `lambda_2` (y) of each sample,
      its conditional phase and its leakage L1. */
  datatype Sweep = Sweep(x: seq<real>, y: seq<real>, condPhase: seq<real>, l1: seq<real>)

  /** The four arrays are parallel. */
  predicate Parallel(s: Sweep)
  {
    |s.y| == |s.x| && |s.condPhase| == |s.x| && |s.l1| == |s.x|
  }

  /** `x / 360.`: the first sweep axis, in degrees, as turns. */
  function XNorm(s: Sweep): (r: seq<real>)
    ensures |r| == |s.x|
    ensures forall i :: 0 <= i < |r| ==> r[i] * 360.0 == s.x[i]
  {
    seq(|s.x|, i requires 0 <= i < |s.x| => s.x[i] / 360.0)
  }

  /** `y / (2 * np.pi)`, with 2*pi written as the double the source computes. */
  function YNorm(s: Sweep): (r: seq<real>)
    ensures |r| == |s.y|
    ensures forall i :: 0 <= i < |r| ==> r[i] * 6.283185307179586 == s.y[i]
  {
    seq(|s.y|, i requires 0 <= i < |s.y| => s.y[i] / 6.283185307179586)
  }

  /** `np.max` of a non-empty array. */
  function Max(v: seq<real>): (m: real)
    requires |v| >= 1
    ensures forall i :: 0 <= i < |v| ==> v[i] <= m
    ensures m in v
  {
    if |v| == 1 then v[0]
    else
      var m := Max(v[..|v| - 1]);
      assert m in v[..|v| - 1];
      if v[|v| - 1] > m then v[|v| - 1] else m
  }

  /** `np.min` of a non-empty array. */
  function Min(v: seq<real>): (m: real)
    requires |v| >= 1
    ensures forall i :: 0 <= i < |v| ==> m <= v[i]
    ensures m in v
  {
    if |v| == 1 then v[0]
    else
      var m := Min(v[..|v| - 1]);
      assert m in v[..|v| - 1];
      if v[|v| - 1] < m then v[|v| - 1] else m
  }

  /** Sample i lies strictly inside the range of v: not on the boundary of the sweep. */
  predicate Interior(v: seq<real>, i: nat)
    requires i < |v|
  {
    Min(v) < v[i] < Max(v)
  }

  /** The phase-deviation and leakage thresholds in force. */
  datatype Thresholds = Thresholds(phase: real, l1: real)

  /** Sample i qualifies: its phase deviation (given by `dev`, the function
      built by `multi_targets_phase_offset(target_phase, 2 * target_phase)`)
      and its leakage are within the thresholds, and it is not on the
      boundary of the sweep along either axis. */
  predicate Qualifies(s: Sweep, dev: real -> real, th: Thresholds, i: nat)
    requires Parallel(s) && i < |s.x|
  {
    && dev(s.condPhase[i]) <= th.phase
    && s.l1[i] <= th.l1
    && Interior(s.x, i)
    && Interior(s.y, i)
  }

  predicate Increasing(v: seq<nat>)
  {
    forall i, j :: 0 <= i < j < |v| ==> v[i] < v[j]
  }

  /** The qualifying indices below n, in increasing order. */
  function SelectBelow(s: Sweep, dev: real -> real, th: Thresholds, n: nat): (r: seq<nat>)
    requires Parallel(s) && n <= |s.x|
    ensures Increasing(r)
    ensures forall k :: 0 <= k < |r| ==> r[k] < n
    ensures forall i: nat :: i in r <==> i < n && Qualifies(s, dev, th, i)
  {
    if n == 0 then []
    else
      var prev := SelectBelow(s, dev, th, n - 1);
      if Qualifies(s, dev, th, n - 1) then prev + [n - 1] else prev
  }

  /** `np.where(sel)[0]`: every qualifying index, in increasing order. */
  function Select(s: Sweep, dev: real -> real, th: Thresholds): (r: seq<nat>)
    requires Parallel(s)
    ensures Increasing(r)
    ensures forall i: nat :: i in r <==> i < |s.x| && Qualifies(s, dev, th, i)
  {
    SelectBelow(s, dev, th, |s.x|)
  }

  function Product(ts: seq<real>): real
  {
    if ts == [] then 1.0 else Product(ts[..|ts| - 1]) * ts[|ts| - 1]
  }

  /** The thresholds on the k-th rung of the ladder: each base threshold
      times every tolerance up to and including the k-th (they compound). */
  function Rung(base: Thresholds, tols: seq<real>, k: nat): Thresholds
    requires k < |tols|
  {
    var p := Product(tols[..k + 1]);
    Thresholds(base.phase * p, base.l1 * p)
  }

  /** The ladder stops on rung k when something qualifies there, or when
      the k-th tolerance equals the last one (compared by value). */
  predicate StopsAt(s: Sweep, dev: real -> real, base: Thresholds, tols: seq<real>, k: nat)
    requires Parallel(s) && k < |tols|
  {
    |Select(s, dev, Rung(base, tols, k))| >= 1 || tols[k] == tols[|tols| - 1]
  }

  /** The first rung at or after k where the ladder stops. */
  function FirstStop(s: Sweep, dev: real -> real, base: Thresholds, tols: seq<real>, k: nat): (r: nat)
    requires Parallel(s) && k < |tols|
    ensures k <= r < |tols| && StopsAt(s, dev, base, tols, r)
    ensures forall j :: k <= j < r ==> !StopsAt(s, dev, base, tols, j)
    decreases |tols| - k
  {
    if StopsAt(s, dev, base, tols, k) then k else FirstStop(s, dev, base, tols, k + 1)
  }

  /** What the ladder yields: nothing (two empty arrays), a single candidate
      (returned at once, without clustering) or several candidates to cluster. */
  datatype Selection = Exhausted | Single(index: nat) | Several(indices: seq<nat>)

  /** The errors the extractor raises: an empty tolerance list leaves the
      filtered coordinates unbound (UnboundLocalError), and an empty sweep
      makes `np.max` fail (ValueError). */
  datatype SweepError = NoTolerances | EmptySweep

  function Outcome(sel: seq<nat>): (r: Selection)
  {
    if |sel| == 0 then Exhausted else if |sel| == 1 then Single(sel[0]) else Several(sel)
  }

  /** The result of the tolerance ladder. */
  function Ladder(s: Sweep, dev: real -> real, base: Thresholds, tols: seq<real>): (r: Result<Selection, SweepError>)
    requires Parallel(s)
    ensures r == Failure(NoTolerances) <==> |tols| == 0
    ensures r == Failure(EmptySweep) <==> |tols| >= 1 && |s.x| == 0
  {
    if |tols| == 0 then Failure(NoTolerances)
    else if |s.x| == 0 then Failure(EmptySweep)
    else Success(Outcome(Select(s, dev, Rung(base, tols, FirstStop(s, dev, base, tols, 0)))))
  }

  lemma ProductStep(tols: seq<real>, i: nat)
    requires i < |tols|
    ensures Product(tols[..i + 1]) == Product(tols[..i]) * tols[i]
  {
    assert tols[..i + 1][..i] == tols[..i];
  }

  lemma {:induction false} FirstStopIs(s: Sweep, dev: real -> real, base: Thresholds, tols: seq<real>, k: nat, i: nat)
    requires Parallel(s) && k <= i < |tols|
    requires StopsAt(s, dev, base, tols, i)
    requires forall j :: k <= j < i ==> !StopsAt(s, dev, base, tols, j)
    ensures FirstStop(s, dev, base, tols, k) == i
    decreases i - k
  {
    if k < i {
      FirstStopIs(s, dev, base, tols, k + 1, i);
    }
  }

  /** The loop over `tolerances`: both thresholds are multiplied by each
      tolerance in turn; the first rung that selects something, or whose
      tolerance equals the last one, ends the loop. */
  method SelectCandidates(s: Sweep, dev: real -> real, base: Thresholds, tols: seq<real>)
    returns (r: Result<Selection, SweepError>)
    requires Parallel(s)
    ensures r == Ladder(s, dev, base, tols)
  {
    if |tols| == 0 {
      return Failure(NoTolerances);
    }
    var phaseThr, l1Thr := base.phase, base.l1;
    var i := 0;
    while true
      invariant 0 <= i < |tols|
      invariant phaseThr == base.phase * Product(tols[..i])
      invariant l1Thr == base.l1 * Product(tols[..i])
      invariant forall j :: 0 <= j < i ==> !StopsAt(s, dev, base, tols, j)
      decreases |tols| - i
    {
      var tol := tols[i];
      ProductStep(tols, i);
      phaseThr := phaseThr * tol;
      l1Thr := l1Thr * tol;
      assert Thresholds(phaseThr, l1Thr) == Rung(base, tols, i);
      if |s.x| == 0 {
        return Failure(EmptySweep);
      }
      var selected := Select(s, dev, Thresholds(phaseThr, l1Thr));
      if |selected| == 0 {
        if tol == tols[|tols| - 1] {
          FirstStopIs(s, dev, base, tols, 0, i);
          return Success(Exhausted);
        }
      } else {
        FirstStopIs(s, dev, base, tols, 0, i);
        if |selected| == 1 {
          return Success(Single(selected[0]));
        } else {
          return Success(Several(selected));
        }
      }
      i := i + 1;
    }
  }

  /** The rung the ladder ends on, for a non-empty sweep and ladder. */
  function StopRung(s: Sweep, dev: real -> real, base: Thresholds, tols: seq<real>): (k: nat)
    requires Parallel(s) && |tols| >= 1
    ensures k < |tols|
  {
    FirstStop(s, dev, base, tols, 0)
  }

  /** No rung up to and including k selects anything. */
  ghost predicate NothingUpTo(s: Sweep, dev: real -> real, base: Thresholds, tols: seq<real>, k: nat)
    requires Parallel(s) && k < |tols|
  {
    forall j :: 0 <= j <= k ==> Select(s, dev, Rung(base, tols, j)) == []
  }

  /** Nothing is found exactly when some rung whose tolerance equals the last
      one is reached with every rung up to it selecting nothing; a copy of the
      last tolerance earlier in the list therefore ends the ladder early. */
  lemma LadderExhausted(s: Sweep, dev: real -> real, base: Thresholds, tols: seq<real>)
    requires Parallel(s) && |tols| >= 1 && |s.x| >= 1
    ensures Ladder(s, dev, base, tols) == Success(Exhausted) <==>
      exists k :: 0 <= k < |tols| && tols[k] == tols[|tols| - 1] && NothingUpTo(s, dev, base, tols, k)
  {
    if Ladder(s, dev, base, tols) == Success(Exhausted) {
      ExhaustedWitness(s, dev, base, tols);
    }
    if exists k :: 0 <= k < |tols| && tols[k] == tols[|tols| - 1] && NothingUpTo(s, dev, base, tols, k) {
      var k :| 0 <= k < |tols| && tols[k] == tols[|tols| - 1] && NothingUpTo(s, dev, base, tols, k);
      ExhaustedFrom(s, dev, base, tols, k);
    }
  }

  lemma ExhaustedWitness(s: Sweep, dev: real -> real, base: Thresholds, tols: seq<real>)
    requires Parallel(s) && |tols| >= 1 && |s.x| >= 1
    requires Ladder(s, dev, base, tols) == Success(Exhausted)
    ensures var k := StopRung(s, dev, base, tols); tols[k] == tols[|tols| - 1] && NothingUpTo(s, dev, base, tols, k)
  {
    var k := StopRung(s, dev, base, tols);
    assert Select(s, dev, Rung(base, tols, k)) == [];
    forall j | 0 <= j <= k ensures Select(s, dev, Rung(base, tols, j)) == [] {
      if j < k {
        assert !StopsAt(s, dev, base, tols, j);
      }
    }
  }

  lemma ExhaustedFrom(s: Sweep, dev: real -> real, base: Thresholds, tols: seq<real>, k: nat)
    requires Parallel(s) && |s.x| >= 1 && k < |tols|
    requires tols[k] == tols[|tols| - 1] && NothingUpTo(s, dev, base, tols, k)
    ensures Ladder(s, dev, base, tols) == Success(Exhausted)
  {
    var r := StopRung(s, dev, base, tols);
    assert StopsAt(s, dev, base, tols, k);
    assert r <= k;
    assert Select(s, dev, Rung(base, tols, r)) == [];
  }

  /** A single candidate is returned as it is: it qualifies on the rung
      reached, it is the only sample that does, and no earlier rung selected
      anything. */
  lemma LadderSingle(s: Sweep, dev: real -> real, base: Thresholds, tols: seq<real>, i: nat)
    requires Parallel(s) && Ladder(s, dev, base, tols) == Success(Single(i))
    ensures |tols| >= 1 && i < |s.x|
    ensures Qualifies(s, dev, Rung(base, tols, StopRung(s, dev, base, tols)), i)
    ensures forall j :: 0 <= j < |s.x| && Qualifies(s, dev, Rung(base, tols, StopRung(s, dev, base, tols)), j) ==> j == i
    ensures forall k :: 0 <= k < StopRung(s, dev, base, tols) ==> Select(s, dev, Rung(base, tols, k)) == []
  {
    var k := StopRung(s, dev, base, tols);
    var sel := Select(s, dev, Rung(base, tols, k));
    assert sel == [i];
    assert i in sel;
    forall j | 0 <= j < |s.x| && Qualifies(s, dev, Rung(base, tols, k), j) ensures j == i {
      assert j in sel;
    }
    forall k' | 0 <= k' < k ensures Select(s, dev, Rung(base, tols, k')) == [] {
      assert !StopsAt(s, dev, base, tols, k');
    }
  }

  /** Several candidates: every qualifying sample of the rung reached, in
      increasing order, none of them on the boundary of the sweep. */
  lemma LadderSeveral(s: Sweep, dev: real -> real, base: Thresholds, tols: seq<real>, sel: seq<nat>)
    requires Parallel(s) && Ladder(s, dev, base, tols) == Success(Several(sel))
    ensures |tols| >= 1 && |sel| >= 2 && Increasing(sel)
    ensures sel == Select(s, dev, Rung(base, tols, StopRung(s, dev, base, tols)))
    ensures forall i :: i in sel ==> i < |s.x| && Min(s.x) < s.x[i] < Max(s.x) && Min(s.y) < s.y[i] < Max(s.y)
    ensures forall k :: 0 <= k < StopRung(s, dev, base, tols) ==> Select(s, dev, Rung(base, tols, k)) == []
  {
    var k := StopRung(s, dev, base, tols);
    forall k' | 0 <= k' < k ensures Select(s, dev, Rung(base, tols, k')) == [] {
      assert !StopsAt(s, dev, base, tols, k');
    }
  }

  /** Each rung's thresholds are the previous rung's times the next tolerance. */
  lemma RungCompounds(base: Thresholds, tols: seq<real>, k: nat)
    requires k + 1 < |tols|
    ensures Rung(base, tols, k + 1).phase == Rung(base, tols, k).phase * tols[k + 1]
    ensures Rung(base, tols, k + 1).l1 == Rung(base, tols, k).l1 * tols[k + 1]
  {
    ProductStep(tols, k + 1);
    var p := Product(tols[..k + 1]);
    assert base.phase * (p * tols[k + 1]) == (base.phase * p) * tols[k + 1];
    assert base.l1 * (p * tols[k + 1]) == (base.l1 * p) * tols[k + 1];
  }

  lemma {:induction false} ProductAtLeastOne(ts: seq<real>)
    requires forall i :: 0 <= i < |ts| ==> ts[i] >= 1.0
    ensures Product(ts) >= 1.0
    decreases |ts|
  {
    if ts != [] {
      ProductAtLeastOne(ts[..|ts| - 1]);
      var p := Product(ts[..|ts| - 1]);
      ScaleUp(p, ts[|ts| - 1]);
    }
  }

  lemma ScaleUp(p: real, t: real)
    requires p >= 0.0 && t >= 1.0
    ensures p * t >= p
  {
  }

  /** Looser thresholds never lose a candidate. */
  lemma SelectMonotone(s: Sweep, dev: real -> real, th: Thresholds, th': Thresholds)
    requires Parallel(s) && th.phase <= th'.phase && th.l1 <= th'.l1
    ensures forall i :: i in Select(s, dev, th) ==> i in Select(s, dev, th')
  {
  }

  /** With non-negative base thresholds and tolerances of at least 1, each
      rung selects a superset of the previous rung's candidates. */
  lemma EscalationMonotone(s: Sweep, dev: real -> real, base: Thresholds, tols: seq<real>, k: nat)
    requires Parallel(s) && k + 1 < |tols|
    requires base.phase >= 0.0 && base.l1 >= 0.0
    requires forall i :: 0 <= i < |tols| ==> tols[i] >= 1.0
    ensures forall i :: i in Select(s, dev, Rung(base, tols, k)) ==> i in Select(s, dev, Rung(base, tols, k + 1))
  {
    ProductAtLeastOne(tols[..k + 1]);
    var p := Product(tols[..k + 1]);
    RungCompounds(base, tols, k);
    ScaleUp(base.phase * p, tols[k + 1]);
    ScaleUp(base.l1 * p, tols[k + 1]);
    SelectMonotone(s, dev, Rung(base, tols, k), Rung(base, tols, k + 1));
  }
}
