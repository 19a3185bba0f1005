/** Two-qubit sequences: the two-qubit AllXY, Bell-state tomography and
    the partial tomography of a cardinal state. */
module OqlTwoQubit {
  import opened Wrappers
  import opened Numerals
  import opened ArrayLayout
  import opened OqlKernel

  // ---------------------------------------------------------------------
  // two_qubit_AllXY
  // ---------------------------------------------------------------------

  /** The 21 AllXY pulse pairs. */
  function AllXYPairs(): (r: seq<(string, string)>)
    ensures |r| == 21
  {
    [("i", "i"), ("rx180", "rx180"), ("ry180", "ry180"),
     ("rx180", "ry180"), ("ry180", "rx180"),
     ("rx90", "i"), ("ry90", "i"), ("rx90", "ry90"),
     ("ry90", "rx90"), ("rx90", "ry180"),
     ("ry90", "rx180"),
     ("rx180", "ry90"), ("ry180", "rx90"),
     ("rx90", "rx180"),
     ("rx180", "rx90"), ("ry90", "ry180"),
     ("ry180", "ry90"),
     ("rx180", "i"), ("ry180", "i"), ("rx90", "rx90"),
     ("ry90", "ry90")]
  }

  /** The four timings of the pulses; any other `sequence_type` is
      rejected. */
  datatype SequenceType = Interleaved | Sandwiched | Sequential | Simultaneous

  function ParseSequenceType(s: string): (r: Option<SequenceType>)
    ensures r.None? <==> s !in {"interleaved", "sandwiched", "sequential", "simultaneous"}
  {
    if s == "interleaved" then Some(Interleaved)
    else if s == "sandwiched" then Some(Sandwiched)
    else if s == "sequential" then Some(Sequential)
    else if s == "simultaneous" then Some(Simultaneous)
    else None
  }

  /** The pairs played on q0: each of the 21 pairs `repetitions` times in a
      row (`np.repeat(..., axis=0)`). */
  function PairsQ0(repetitions: nat): (r: seq<(string, string)>)
    ensures |r| == 21 * repetitions
  {
    StretchedAt(AllXYPairs(), repetitions);
    Stretched(AllXYPairs(), repetitions)
  }

  /** The pairs played on q1: the whole list `repetitions` times
      (`np.tile`), or `[g, g]` throughout when the q1 pulses are replaced
      by g. */
  function PairsQ1(repetitions: nat, replacement: Option<string>): (r: seq<(string, string)>)
    ensures |r| == 21 * repetitions
  {
    TiledAt(AllXYPairs(), repetitions);
    match replacement
    case Some(g) => seq(21 * repetitions, _ => (g, g))
    case None => Tiled(AllXYPairs(), repetitions)
  }

  /** Kernel i (from 0) plays pair i / repetitions on q0 and, unless
      replaced, pair i mod 21 on q1: with 21 repetitions every ordered
      combination of two pairs occurs exactly once. */
  lemma AllXYPairing(repetitions: nat, replacement: Option<string>)
    ensures |PairsQ0(repetitions)| == |PairsQ1(repetitions, replacement)| == 21 * repetitions
    ensures forall k :: 0 <= k < 21 * repetitions ==>
      && k / repetitions < 21
      && PairsQ0(repetitions)[k] == AllXYPairs()[k / repetitions]
      && PairsQ1(repetitions, replacement)[k]
           == (if replacement.Some? then (replacement.value, replacement.value) else AllXYPairs()[k % 21])
  {
    StretchedAt(AllXYPairs(), repetitions);
    TiledAt(AllXYPairs(), repetitions);
  }

  /** The gates of one AllXY kernel between preparation and measurement,
      branch by branch; identities keep the timing. */
  function AllXYGates(t: SequenceType, p0: (string, string), p1: (string, string), q0: int, q1: int): (r: seq<Instr>)
    ensures |r| == 2 * |Order(t)|
    ensures forall x :: x in r ==> x.Gate? && (x.qs == [q0] || x.qs == [q1])
  {
    match t
    case Interleaved =>
      [Gate(p0.0, [q0]), Gate("i", [q1]), Gate("i", [q0]), Gate(p1.0, [q1]),
       Gate(p0.1, [q0]), Gate("i", [q1]), Gate("i", [q0]), Gate(p1.1, [q1])]
    case Sandwiched =>
      [Gate("i", [q0]), Gate(p1.0, [q1]), Gate(p0.0, [q0]), Gate("i", [q1]),
       Gate(p0.1, [q0]), Gate("i", [q1]), Gate("i", [q0]), Gate(p1.1, [q1])]
    case Sequential =>
      [Gate(p0.0, [q0]), Gate("i", [q1]), Gate(p0.1, [q0]), Gate("i", [q1]),
       Gate("i", [q0]), Gate(p1.0, [q1]), Gate("i", [q0]), Gate(p1.1, [q1])]
    case Simultaneous =>
      [Gate(p0.0, [q0]), Gate(p1.0, [q1]), Gate(p0.1, [q0]), Gate(p1.1, [q1])]
  }

  /** Between the preparation and the measurement of both qubits, kernel
      i holds the pulses of its branch only. */
  function AllXYKernel(i: nat, t: SequenceType, p0: (string, string), p1: (string, string), q0: int, q1: int): (r: Kernel)
    ensures |r.body| == 4 + 2 * |Order(t)| && r.body[..2] == [Prepz(q0), Prepz(q1)]
    ensures r.body[|r.body| - 2..] == [Measure(q0), Measure(q1)]
    ensures forall k :: 2 <= k < |r.body| - 2 ==> r.body[k].Gate?
  {
    Kernel("AllXY_" + Decimal(i + 1),
      [Prepz(q0), Prepz(q1)] + AllXYGates(t, p0, p1, q0, q1) + [Measure(q0), Measure(q1)])
  }

  /** Kernel i is named `AllXY_` followed by the decimal digits of i + 1. */
  lemma AllXYKernelName(i: nat, t: SequenceType, p0: (string, string), p1: (string, string), q0: int, q1: int)
    ensures var name := AllXYKernel(i, t, p0, p1, q0, q1).name;
      |name| > 6 && name[..6] == "AllXY_" && AllDigits(name[6..], 10) && ValueOf(name[6..], 10) == i + 1
  {
    DigitsValue(i + 1, 10);
    DigitsAreDigits(i + 1, 10);
    assert ("AllXY_" + Decimal(i + 1))[6..] == Decimal(i + 1);
  }

  /** Whose pulse a time slot carries. */
  datatype Turn = TurnQ0 | TurnQ1 | TurnBoth

  /** The documented order of the pulses: sequential q0|q0|q1|q1,
      interleaved q0|q1|q0|q1, simultaneous q01|q01, sandwiched
      q1|q0|q0|q1. */
  function Order(t: SequenceType): seq<Turn>
  {
    match t
    case Sequential => [TurnQ0, TurnQ0, TurnQ1, TurnQ1]
    case Interleaved => [TurnQ0, TurnQ1, TurnQ0, TurnQ1]
    case Simultaneous => [TurnBoth, TurnBoth]
    case Sandwiched => [TurnQ1, TurnQ0, TurnQ0, TurnQ1]
  }

  /** No slot before k is the qubit's own. */
  predicate NoneOwnBefore(order: seq<Turn>, k: nat, other: Turn)
    requires k <= |order|
  {
    forall j :: 0 <= j < k ==> order[j] == other
  }

  /** The gates a qubit sees in an order of slots: its first pulse in its
      first own (or shared) slot, its second pulse in a later one, and an
      identity in each slot of the other qubit. */
  function Lane(order: seq<Turn>, pulses: (string, string), other: Turn, q: int): (r: seq<Instr>)
    ensures |r| == |order|
  {
    seq(|order|, k requires 0 <= k < |order| =>
      if order[k] == other then Gate("i", [q])
      else if NoneOwnBefore(order, k, other) then Gate(pulses.0, [q])
      else Gate(pulses.1, [q]))
  }

  /** In every timing, each qubit sees its own two pulses in order, in the
      slots the documented order gives it, and identities in the others. */
  lemma AllXYLanes(t: SequenceType, p0: (string, string), p1: (string, string), q0: int, q1: int)
    requires q0 != q1
    ensures On(AllXYGates(t, p0, p1, q0, q1), q0) == Lane(Order(t), p0, TurnQ1, q0)
    ensures On(AllXYGates(t, p0, p1, q0, q1), q1) == Lane(Order(t), p1, TurnQ0, q1)
  {
    AllXYLaneQ0(t, p0, p1, q0, q1);
    AllXYLaneQ1(t, p0, p1, q0, q1);
  }

  lemma AllXYLaneQ0(t: SequenceType, p0: (string, string), p1: (string, string), q0: int, q1: int)
    requires q0 != q1
    ensures On(AllXYGates(t, p0, p1, q0, q1), q0) == Lane(Order(t), p0, TurnQ1, q0)
  {
    var g := AllXYGates(t, p0, p1, q0, q1);
    var o := Order(t);
    if t == Simultaneous {
      On4(g, q0);
      LaneTwoSlots(o, p0, TurnQ1, q0);
    } else {
      On8(g, q0);
      LaneSlots(o, p0, TurnQ1, q0);
    }
  }

  lemma AllXYLaneQ1(t: SequenceType, p0: (string, string), p1: (string, string), q0: int, q1: int)
    requires q0 != q1
    ensures On(AllXYGates(t, p0, p1, q0, q1), q1) == Lane(Order(t), p1, TurnQ0, q1)
  {
    var g := AllXYGates(t, p0, p1, q0, q1);
    var o := Order(t);
    if t == Simultaneous {
      On4(g, q1);
      LaneTwoSlots(o, p1, TurnQ0, q1);
    } else {
      On8(g, q1);
      LaneSlots(o, p1, TurnQ0, q1);
    }
  }

  lemma On8(g: seq<Instr>, q: int)
    requires |g| == 8
    ensures On(g, q) == Keep(g[0], q) + Keep(g[1], q) + Keep(g[2], q) + Keep(g[3], q)
                        + Keep(g[4], q) + Keep(g[5], q) + Keep(g[6], q) + Keep(g[7], q)
  {
    var l, h := g[..4], g[4..];
    assert g == l + h;
    assert l[0] == g[0] && l[1] == g[1] && l[2] == g[2] && l[3] == g[3];
    assert h[0] == g[4] && h[1] == g[5] && h[2] == g[6] && h[3] == g[7];
    On4(l, q);
    On4(h, q);
    OnAppend(l, h, q);
  }

  /** Lane of a four-slot order, slot by slot. */
  lemma LaneSlots(o: seq<Turn>, p: (string, string), other: Turn, q: int)
    requires |o| == 4
    ensures var l := Lane(o, p, other, q);
      && l == [l[0], l[1], l[2], l[3]]
      && l[0] == (if o[0] == other then Gate("i", [q]) else Gate(p.0, [q]))
      && l[1] == (if o[1] == other then Gate("i", [q]) else if o[0] == other then Gate(p.0, [q]) else Gate(p.1, [q]))
      && l[2] == (if o[2] == other then Gate("i", [q]) else if o[0] == other && o[1] == other then Gate(p.0, [q]) else Gate(p.1, [q]))
      && l[3] == (if o[3] == other then Gate("i", [q])
                  else if o[0] == other && o[1] == other && o[2] == other then Gate(p.0, [q]) else Gate(p.1, [q]))
  {
    assert NoneOwnBefore(o, 0, other);
    assert NoneOwnBefore(o, 1, other) <==> o[0] == other;
    assert NoneOwnBefore(o, 2, other) <==> o[0] == other && o[1] == other;
    assert NoneOwnBefore(o, 3, other) <==> o[0] == other && o[1] == other && o[2] == other;
  }

  /** Lane of a two-slot order, slot by slot. */
  lemma LaneTwoSlots(o: seq<Turn>, p: (string, string), other: Turn, q: int)
    requires |o| == 2
    ensures var l := Lane(o, p, other, q);
      && l == [l[0], l[1]]
      && l[0] == (if o[0] == other then Gate("i", [q]) else Gate(p.0, [q]))
      && l[1] == (if o[1] == other then Gate("i", [q]) else if o[0] == other then Gate(p.0, [q]) else Gate(p.1, [q]))
  {
    assert NoneOwnBefore(o, 0, other);
    assert NoneOwnBefore(o, 1, other) <==> o[0] == other;
  }

  /** `two_qubit_AllXY`: one kernel per pair of pulse pairs. An unknown
      `sequence_type` raises ValueError inside the loop, so only when there
      is at least one kernel to build. */
  method TwoQubitAllXY(q0: int, q1: int, sequenceType: string, replacement: Option<string>, repetitions: nat)
    returns (r: Result<seq<Kernel>, OqlError>)
    ensures r.Failure? <==> ParseSequenceType(sequenceType).None? && repetitions >= 1
    ensures r.Failure? ==> r.error == ValueError
    ensures r.Success? ==> |r.value| == 21 * repetitions
    ensures r.Success? ==> forall i :: 0 <= i < |r.value| ==>
      r.value[i] == AllXYKernel(i, ParseSequenceType(sequenceType).value,
                                PairsQ0(repetitions)[i], PairsQ1(repetitions, replacement)[i], q0, q1)
  {
    var pairsQ0 := PairsQ0(repetitions);
    var pairsQ1 := PairsQ1(repetitions, replacement);
    var p: seq<Kernel> := [];
    var i := 0;
    while i < |pairsQ0|
      invariant 0 <= i <= |pairsQ0| && |p| == i
      invariant i > 0 ==> ParseSequenceType(sequenceType).Some?
      invariant forall j :: 0 <= j < i ==>
        p[j] == AllXYKernel(j, ParseSequenceType(sequenceType).value, pairsQ0[j], pairsQ1[j], q0, q1)
    {
      var t := ParseSequenceType(sequenceType);
      if t.None? {
        return Failure(ValueError);
      }
      p := p + [AllXYKernel(i, t.value, pairsQ0[i], pairsQ1[i], q0, q1)];
      i := i + 1;
    }
    if repetitions >= 1 {
      assert |pairsQ0| >= 1;
    }
    return Success(p);
  }

  // ---------------------------------------------------------------------
  // two_qubit_tomo_bell
  // ---------------------------------------------------------------------

  /** The six tomography pre-rotations. */
  function TomoGates(): (r: seq<string>)
    ensures |r| == 6
  {
    ["i", "rx180", "ry90", "rym90", "rx90", "rxm90"]
  }

  /** The preparation pulses (on q0, on q1) of a Bell state: 0 is one case,
      and otherwise only the last decimal digit counts, 1 to 3; any other
      index raises ValueError. */
  function BellPreparation(bellState: int): (r: Result<(string, string), OqlError>)
    ensures r.Success? <==> bellState == 0 || bellState % 10 in {1, 2, 3}
    ensures r.Failure? ==> r.error == ValueError
    ensures r.Success? ==> (r.value.0 == "ry90" <==> bellState == 0 || bellState % 10 == 2)
    ensures r.Success? ==> (r.value.1 == "ry90" <==> bellState == 0 || bellState % 10 == 1)
    ensures r.Success? ==> r.value.0 in {"ry90", "rym90"} && r.value.1 in {"ry90", "rym90"}
  {
    if bellState == 0 then Success(("ry90", "ry90"))
    else if bellState % 10 == 1 then Success(("rym90", "ry90"))
    else if bellState % 10 == 2 then Success(("ry90", "rym90"))
    else if bellState % 10 == 3 then Success(("rym90", "rym90"))
    else Failure(ValueError)
  }

  /** Index 10 and index 0 end in the same digit, but only 0 is a Bell
      state; 11 to 13 repeat 1 to 3. */
  lemma BellIndexAliases()
    ensures BellPreparation(10).Failure? && BellPreparation(0).Success?
    ensures BellPreparation(11) == BellPreparation(1)
    ensures BellPreparation(-9) == BellPreparation(1)
  {
  }

  /** One tomography kernel. `waitNs` is the wait after the flux pulse,
      already rounded to nanoseconds; None leaves the wait out. */
  function BellKernel(prep: (string, string), pQ1: string, pQ0: string, q0: int, q1: int,
                      fluxCodeword: string, waitNs: Option<int>): (r: Kernel)
    ensures |r.body| == (if waitNs.Some? then 13 else 12)
    ensures r.body[..2] == [Prepz(q0), Prepz(q1)] && r.body[|r.body| - 2..] == [Measure(q0), Measure(q1)]
    ensures r.body[5] == Gate(fluxCodeword, [q0, q1])
    ensures waitNs.Some? ==> r.body[8] == Wait([q0, q1], waitNs.value)
    ensures waitNs.None? ==> r.body[8] == Gate(pQ0, [q1])
  {
    Kernel("BellTomo_" + IntStr(q1) + pQ1 + "_" + IntStr(q0) + pQ0,
      [Prepz(q0), Prepz(q1), Gate(prep.0, [q0]), Gate(prep.1, [q1]),
       Barrier([]), Gate(fluxCodeword, [q0, q1]), Barrier([]),
       Gate("rym90", [q1])]
      + (if waitNs.Some? then [Wait([q0, q1], waitNs.value)] else [])
      + [Gate(pQ0, [q1]), Gate(pQ1, [q0]), Measure(q0), Measure(q1)])
  }

  /** What each qubit of a Bell tomography kernel sees on its own: the
      kernel's `p_q1` rotation lands on q0 and its `p_q0` rotation on q1. */
  lemma BellKernelLanes(prep: (string, string), pQ1: string, pQ0: string, q0: int, q1: int,
                        fluxCodeword: string, waitNs: Option<int>)
    requires q0 != q1
    ensures On(BellKernel(prep, pQ1, pQ0, q0, q1, fluxCodeword, waitNs).body, q0)
      == [Prepz(q0), Gate(prep.0, [q0]), Gate(pQ1, [q0]), Measure(q0)]
    ensures On(BellKernel(prep, pQ1, pQ0, q0, q1, fluxCodeword, waitNs).body, q1)
      == [Prepz(q1), Gate(prep.1, [q1]), Gate("rym90", [q1]), Gate(pQ0, [q1]), Measure(q1)]
  {
    var a := [Prepz(q0), Prepz(q1), Gate(prep.0, [q0]), Gate(prep.1, [q1])];
    var b := [Barrier([]), Gate(fluxCodeword, [q0, q1]), Barrier([]), Gate("rym90", [q1])];
    var w := if waitNs.Some? then [Wait([q0, q1], waitNs.value)] else [];
    var c := [Gate(pQ0, [q1]), Gate(pQ1, [q0]), Measure(q0), Measure(q1)];
    assert BellKernel(prep, pQ1, pQ0, q0, q1, fluxCodeword, waitNs).body == a + b + w + c;
    if waitNs.Some? {
      OnSkip(w[0], q0);
      OnSkip(w[0], q1);
      assert w == [w[0]];
    }
    BellBlocks(a, b, w, c, q0);
    BellBlocks(a, b, w, c, q1);
    BellQ0(a, b, c, prep, pQ1, pQ0, q0, q1, fluxCodeword);
    BellQ1(a, b, c, prep, pQ1, pQ0, q0, q1, fluxCodeword);
  }

  lemma BellQ0(a: seq<Instr>, b: seq<Instr>, c: seq<Instr>, prep: (string, string), pQ1: string, pQ0: string,
               q0: int, q1: int, fluxCodeword: string)
    requires q0 != q1
    requires a == [Prepz(q0), Prepz(q1), Gate(prep.0, [q0]), Gate(prep.1, [q1])]
    requires b == [Barrier([]), Gate(fluxCodeword, [q0, q1]), Barrier([]), Gate("rym90", [q1])]
    requires c == [Gate(pQ0, [q1]), Gate(pQ1, [q0]), Measure(q0), Measure(q1)]
    ensures On(a, q0) + On(b, q0) + On(c, q0) == [Prepz(q0), Gate(prep.0, [q0]), Gate(pQ1, [q0]), Measure(q0)]
  {
    assert On(a, q0) == [Prepz(q0), Gate(prep.0, [q0])] by { On4(a, q0); }
    assert On(b, q0) == [] by { On4(b, q0); }
    assert On(c, q0) == [Gate(pQ1, [q0]), Measure(q0)] by { On4(c, q0); }
  }

  lemma BellQ1(a: seq<Instr>, b: seq<Instr>, c: seq<Instr>, prep: (string, string), pQ1: string, pQ0: string,
               q0: int, q1: int, fluxCodeword: string)
    requires q0 != q1
    requires a == [Prepz(q0), Prepz(q1), Gate(prep.0, [q0]), Gate(prep.1, [q1])]
    requires b == [Barrier([]), Gate(fluxCodeword, [q0, q1]), Barrier([]), Gate("rym90", [q1])]
    requires c == [Gate(pQ0, [q1]), Gate(pQ1, [q0]), Measure(q0), Measure(q1)]
    ensures On(a, q1) + On(b, q1) + On(c, q1) == [Prepz(q1), Gate(prep.1, [q1]), Gate("rym90", [q1]), Gate(pQ0, [q1]), Measure(q1)]
  {
    assert On(a, q1) == [Prepz(q1), Gate(prep.1, [q1])] by { On4(a, q1); }
    assert On(b, q1) == [Gate("rym90", [q1])] by { On4(b, q1); }
    assert On(c, q1) == [Gate(pQ0, [q1]), Measure(q1)] by { On4(c, q1); }
  }

  lemma BellBlocks(a: seq<Instr>, b: seq<Instr>, w: seq<Instr>, c: seq<Instr>, q: int)
    requires On(w, q) == []
    ensures On(a + b + w + c, q) == On(a, q) + On(b, q) + On(c, q)
  {
    OnAppend(a, b, q);
    OnAppend(a + b, w, q);
    OnAppend(a + b + w, c, q);
  }

  /** The inner loop of `two_qubit_tomo_bell`: the six kernels of one
      `p_q1`. */
  method BellRow(prep: (string, string), pQ1: string, q0: int, q1: int, waitNs: Option<int>, fluxCodeword: string)
    returns (row: seq<Kernel>)
    ensures |row| == 6
    ensures forall b :: 0 <= b < 6 ==> row[b] == BellKernel(prep, pQ1, TomoGates()[b], q0, q1, fluxCodeword, waitNs)
  {
    var gates := TomoGates();
    row := [];
    var b := 0;
    while b < 6
      invariant 0 <= b <= 6 && |row| == b
      invariant forall b' :: 0 <= b' < b ==> row[b'] == BellKernel(prep, pQ1, gates[b'], q0, q1, fluxCodeword, waitNs)
    {
      row := row + [BellKernel(prep, pQ1, gates[b], q0, q1, fluxCodeword, waitNs)];
      b := b + 1;
    }
  }

  /** `two_qubit_tomo_bell`: ValueError for an undefined Bell state;
      otherwise 36 kernels, `p_q1` in the outer loop and `p_q0` in the
      inner one. */
  method TwoQubitTomoBell(bellState: int, q0: int, q1: int, waitNs: Option<int>, fluxCodeword: string)
    returns (r: Result<seq<Kernel>, OqlError>)
    ensures r.Failure? <==> BellPreparation(bellState).Failure?
    ensures r.Failure? ==> r.error == ValueError
    ensures r.Success? ==> |r.value| == 36 && forall a, b :: 0 <= a < 6 && 0 <= b < 6 ==>
      r.value[6 * a + b] == BellKernel(BellPreparation(bellState).value, TomoGates()[a], TomoGates()[b],
                                       q0, q1, fluxCodeword, waitNs)
  {
    var prep := BellPreparation(bellState);
    if prep.Failure? {
      return Failure(ValueError);
    }
    var gates := TomoGates();
    var p: seq<Kernel> := [];
    var a := 0;
    while a < 6
      invariant 0 <= a <= 6 && |p| == 6 * a
      invariant forall a', b :: 0 <= a' < a && 0 <= b < 6 ==>
        p[6 * a' + b] == BellKernel(prep.value, gates[a'], gates[b], q0, q1, fluxCodeword, waitNs)
    {
      var row := BellRow(prep.value, gates[a], q0, q1, waitNs, fluxCodeword);
      var p' := p + row;
      forall a', b | 0 <= a' <= a && 0 <= b < 6
        ensures p'[6 * a' + b] == BellKernel(prep.value, gates[a'], gates[b], q0, q1, fluxCodeword, waitNs)
      {
        AppendRow(p, row, a, 6, a', b);
      }
      p := p';
      a := a + 1;
    }
    return Success(p);
  }

  // ---------------------------------------------------------------------
  // partial_tomography_cardinal
  // ---------------------------------------------------------------------

  /** `idx_p0 = c % 6` and `idx_p1 = ((c - idx_p0) // 6) % 6`. */
  function CardinalIndices(cardinal: int): (int, int)
  {
    var p0 := cardinal % 6;
    (p0, ((cardinal - p0) / 6) % 6)
  }

  /** On [0, 35] the two indices are the base-6 digits of the cardinal, so
      distinct cardinals prepare distinct pairs of states. */
  lemma CardinalDigits(c: int, d: int)
    requires 0 <= c <= 35 && 0 <= d <= 35
    ensures 0 <= CardinalIndices(c).0 < 6 && 0 <= CardinalIndices(c).1 < 6
    ensures c == CardinalIndices(c).0 + 6 * CardinalIndices(c).1
    ensures CardinalIndices(c) == CardinalIndices(d) ==> c == d
  {
  }

  /** The eight tomography pairs; the first gate goes on q0, the second on q1. */
  function TomoPairs(): (r: seq<(string, string)>)
    ensures |r| == 8
  {
    [("i", "i"), ("i", "rx180"), ("rx180", "i"), ("rx180", "rx180"),
     ("ry90", "ry90"), ("rym90", "rym90"), ("rx90", "rx90"), ("rxm90", "rxm90")]
  }

  /** Kernel i of a cardinal prepares q0 in the state of the cardinal's low
      base-6 digit and q1 in that of its high digit, then applies pair i. */
  function CardinalKernel(cardinal: int, i: nat, q0: int, q1: int): (r: Kernel)
    requires 0 <= cardinal <= 35 && i < 8
    ensures |r.body| == 11 && r.body[..2] == [Prepz(q0), Prepz(q1)]
    ensures r.body[2] == Gate(TomoGates()[cardinal % 6], [q0]) && r.body[3] == Gate(TomoGates()[cardinal / 6], [q1])
    ensures r.body[4] == Gate(TomoPairs()[i].0, [q0]) && r.body[5] == Gate(TomoPairs()[i].1, [q1])
    ensures r.body[6..8] == [Measure(q0), Measure(q1)]
  {
    var (p0, p1) := CardinalIndices(cardinal);
    var gates := TomoPairs()[i];
    var g0 := i % 6;
    var g1 := ((i - g0) / 6) % 6;
    Kernel("PT_" + Decimal(cardinal) + "_tomo_" + Decimal(g0) + "_" + Decimal(g1),
      [Prepz(q0), Prepz(q1),
       Gate(TomoGates()[p0], [q0]), Gate(TomoGates()[p1], [q1]),
       Gate(gates.0, [q0]), Gate(gates.1, [q1]),
       Measure(q0), Measure(q1),
       Barrier([]), Wait([2, 0], 0), Barrier([])])
  }

  /** The eight kernels of one cardinal carry distinct index pairs in their
      names. */
  lemma TomoIndicesDistinct(i: nat, j: nat)
    requires i < 8 && j < 8 && i != j
    ensures (i % 6, ((i - i % 6) / 6) % 6) != (j % 6, ((j - j % 6) / 6) % 6)
  {
  }

  /** `partial_tomography_cardinal`: NotImplementedError without
      precompiled flux pulses, ValueError for a cardinal outside [0, 35],
      otherwise the eight tomography kernels in order. */
  method PartialTomographyCardinal(q0: int, q1: int, cardinal: int, precompiledFlux: bool)
    returns (r: Result<seq<Kernel>, OqlError>)
    ensures !precompiledFlux ==> r == Failure(NotImplementedError)
    ensures precompiledFlux && !(0 <= cardinal <= 35) ==> r == Failure(ValueError)
    ensures precompiledFlux && 0 <= cardinal <= 35 ==>
      r.Success? && |r.value| == 8 && forall i :: 0 <= i < 8 ==> r.value[i] == CardinalKernel(cardinal, i, q0, q1)
  {
    if !precompiledFlux {
      return Failure(NotImplementedError);
    }
    if cardinal > 35 || cardinal < 0 {
      return Failure(ValueError);
    }
    var p: seq<Kernel> := [];
    var i := 0;
    while i < 8
      invariant 0 <= i <= 8 && |p| == i
      invariant forall j :: 0 <= j < i ==> p[j] == CardinalKernel(cardinal, j, q0, q1)
    {
      p := p + [CardinalKernel(cardinal, i, q0, q1)];
      i := i + 1;
    }
    return Success(p);
  }
}
