/** The flux-pulse calibration sequences: the conditional oscillation and
    the parity check with a flux dance. */
module OqlFlux {
  import opened Wrappers
  import opened Numerals
  import opened ArrayLayout
  import opened OqlKernel
  import opened OqlOffOn

  // ---------------------------------------------------------------------
  // Recovery phase gates
  // ---------------------------------------------------------------------

  /** The codeword of the phase pulse for an angle: the pulses come in
      steps of 20 degrees (floor division), codeword 9 standing for 0. */
  function PhaseCodeword(angle: int): (r: string)
    ensures |r| >= 5 && r[..3] == "cw_"
  {
    "cw_" + FormatPadded(angle / 20 + 9, 2)
  }

  /** The recovery gate of `conditional_oscillation_seq`: ry90 for 90
      degrees, rx90 for 0, the phase codeword otherwise. */
  function PhiGate(angle: int): (r: string)
    ensures |r| >= 4
    ensures r == "ry90" <==> angle == 90
    ensures r == "rx90" <==> angle == 0
    ensures angle != 90 && angle != 0 ==> r[..3] == "cw_"
  {
    if angle == 90 then "ry90" else if angle == 0 then "rx90" else PhaseCodeword(angle)
  }

  /** A phase codeword spells its index after the prefix `cw_`. */
  lemma PhaseCodewordValue(angle: int)
    requires angle / 20 + 9 >= 0
    ensures |PhaseCodeword(angle)| >= 4 && PhaseCodeword(angle)[0] == 'c'
    ensures ValueOf(PhaseCodeword(angle)[3..], 10) == angle / 20 + 9
  {
    var r := FormatPadded(angle / 20 + 9, 2);
    assert ("cw_" + r)[3..] == r;
  }

  /** Angles in different 20-degree steps get different codewords. */
  lemma PhaseCodewordInjective(a: int, b: int)
    requires a / 20 + 9 >= 0 && b / 20 + 9 >= 0 && a / 20 != b / 20
    ensures PhaseCodeword(a) != PhaseCodeword(b)
  {
    var ra, rb := PhaseCodeword(a), PhaseCodeword(b);
    assert |ra| >= 4 && ValueOf(ra[3..], 10) == a / 20 + 9 by {
      PhaseCodewordValue(a);
    }
    assert |rb| >= 4 && ValueOf(rb[3..], 10) == b / 20 + 9 by {
      PhaseCodewordValue(b);
    }
  }

  /** On a full turn in steps of 20 degrees, the codewords used lie in
      10..26 and distinct angles get distinct recovery gates. */
  lemma PhiGateInjective(a: int, b: int)
    requires 0 <= a < 360 && a % 20 == 0 && 0 <= b < 360 && b % 20 == 0 && a != b
    ensures a != 0 ==> 10 <= a / 20 + 9 <= 26
    ensures PhiGate(a) != PhiGate(b)
  {
    assert a != 90 && b != 90 && a / 20 != b / 20 && 0 <= a / 20 < 18 by {
      assert a == 20 * (a / 20) && b == 20 * (b / 20);
    }
    if a != 0 && b != 0 {
      PhaseCodewordInjective(a, b);
    } else if a == 0 {
      assert PhiGate(b)[0] == 'c' by {
        PhaseCodewordValue(b);
      }
    } else {
      assert PhiGate(a)[0] == 'c' by {
        PhaseCodewordValue(a);
      }
    }
  }

  // ---------------------------------------------------------------------
  // conditional_oscillation_seq
  // ---------------------------------------------------------------------

  /** What the optional qubits q2 and q3 do while q0 and q1 are measured. */
  datatype ParkedSequence = Ground | Ramsey | Excited

  /** The assertion on `parked_qubit_seq`. */
  function ParseParked(s: string): (r: Option<ParkedSequence>)
    ensures r.None? <==> s !in {"ground", "ramsey", "excited"}
  {
    if s == "ground" then Some(Ground)
    else if s == "ramsey" then Some(Ramsey)
    else if s == "excited" then Some(Excited)
    else None
  }

  /** The settings of one conditional oscillation; `serial` is
      `disable_parallel_single_q_gates` and None stands for an absent
      optional qubit or parking codeword. Durations are in nanoseconds. */
  datatype CondOsc = CondOsc(
    q0: int, q1: int, q2: Option<int>, q3: Option<int>,
    disableCz: bool, disabledCzDuration: int, czRepetitions: nat,
    waitBefore: int, waitAfter: int,
    fluxCodeword: string, park: Option<string>, parked: ParkedSequence, serial: bool)

  function Opt(q: Option<int>): seq<int>
  {
    if q.Some? then [q.value] else []
  }

  /** Every qubit of the sequence, in the order it is prepared and measured. */
  function AllQubits(c: CondOsc): seq<int>
  {
    [c.q0, c.q1] + Opt(c.q2) + Opt(c.q3)
  }

  /** The qubits flipped in the excitation case. */
  function ControlQubits(c: CondOsc): seq<int>
  {
    [c.q1] + Opt(c.q3)
  }

  /** The qubits that undergo the Ramsey sequence. */
  function RamseyQubits(c: CondOsc): seq<int>
  {
    [c.q0] + (if c.parked == Ramsey then Opt(c.q2) + Opt(c.q3) else [])
  }

  /** The pi pulses on parked qubits held in the excited state. */
  function ParkedPulses(c: CondOsc): seq<Instr>
  {
    if c.parked == Excited then GateAll("rx180", Opt(c.q2) + Opt(c.q3)) else []
  }

  /** A single-qubit gate, followed by a barrier when single-qubit gates
      must not run in parallel. */
  function PulseOf(name: string, q: int, serial: bool): seq<Instr>
  {
    [Gate(name, [q])] + (if serial then [Barrier([])] else [])
  }

  /** One gate per qubit, each followed by a barrier when serial. */
  function Pulses(name: string, qs: seq<int>, serial: bool): seq<Instr>
  {
    if |qs| == 0 then [] else Pulses(name, qs[..|qs| - 1], serial) + PulseOf(name, qs[|qs| - 1], serial)
  }

  /** Of one pulse, a qubit sees the gate if it is its target. */
  lemma OnPulseOf(name: string, p: int, serial: bool, q: int)
    ensures On(PulseOf(name, p, serial), q) == if p == q then [Gate(name, [q])] else []
  {
    OnOne(Gate(name, [p]), q);
    if serial {
      OnOne(Barrier([]), q);
      OnAppend([Gate(name, [p])], [Barrier([])], q);
    } else {
      assert PulseOf(name, p, serial) == [Gate(name, [p])];
    }
  }

  lemma {:induction false} OnPulses(name: string, qs: seq<int>, serial: bool, q: int)
    requires DistinctQubits(qs)
    ensures On(Pulses(name, qs, serial), q) == if q in qs then [Gate(name, [q])] else []
  {
    if |qs| > 0 {
      var n := |qs| - 1;
      LastFresh(qs);
      OnPulses(name, qs[..n], serial, q);
      OnAppend(Pulses(name, qs[..n], serial), PulseOf(name, qs[n], serial), q);
      OnPulseOf(name, qs[n], serial, q);
      assert q in qs <==> q in qs[..n] || q == qs[n];
    }
  }

  /** Where the flux pulse of one repetition goes, by codeword. */
  datatype FluxKind = DanceKind | RefocusKind | PairKind

  /** A codeword naming a dance is played on the dummy qubit 0, a parity
      check codeword as the four refocusing steps, any other on the pair. */
  function FluxKindOf(codeword: string): FluxKind
  {
    if Contains(codeword, "dance") then DanceKind
    else if Contains(codeword, "parity_check") then RefocusKind
    else PairKind
  }

  /** The flux pulse of one repetition. */
  function FluxGates(c: CondOsc): (r: seq<Instr>)
    ensures FluxKindOf(c.fluxCodeword) == DanceKind <==> r == [Gate(c.fluxCodeword, [0])]
    ensures FluxKindOf(c.fluxCodeword) == RefocusKind <==> |r| == 4
    ensures FluxKindOf(c.fluxCodeword) == PairKind <==> r == [Gate(c.fluxCodeword, [c.q0, c.q1])]
  {
    match FluxKindOf(c.fluxCodeword)
    case DanceKind => [Gate(c.fluxCodeword, [0])]
    case RefocusKind =>
      [Gate("flux_dance_refocus_1", [0]), Gate("flux_dance_refocus_2", [0]),
       Gate("flux_dance_refocus_3", [0]), Gate("flux_dance_refocus_4", [0])]
    case PairKind => [Gate(c.fluxCodeword, [c.q0, c.q1])]
  }

  /** The flux pulse goes to the dummy qubit 0 only for dance codewords. */
  predicate SparesQubit(c: CondOsc, q: int)
  {
    q != 0 || FluxKindOf(c.fluxCodeword) == PairKind
  }

  /** The codewords on parked qubits: a CZ on q2-q3, or a single-qubit
      parking pulse on q2, which requires q3 to be absent; any other
      codeword raises ValueError. An absent q2 or q3 reaches OpenQL's gate
      call as a `None` operand, which raises TypeError there, before the
      check on q3. */
  function ParkGates(c: CondOsc): (r: Result<seq<Instr>, OqlError>)
    ensures r == Failure(TypeError) <==>
      (c.park == Some("cz") && (c.q2.None? || c.q3.None?)) || (c.park == Some("park") && c.q2.None?)
    ensures r == Failure(ValueError) <==>
      c.park.Some? && (c.park.value !in {"cz", "park"} || (c.park.value == "park" && c.q2.Some? && c.q3.Some?))
    ensures r.Failure? ==> r.error == TypeError || r.error == ValueError
    ensures r.Success? ==> (r.value == [] <==> c.park.None?)
  {
    match c.park
    case None => Success([])
    case Some(codeword) =>
      if codeword == "cz" then
        (if c.q2.None? || c.q3.None? then Failure(TypeError) else Success([Gate("cz", [c.q2.value, c.q3.value])]))
      else if codeword == "park" then
        (if c.q2.None? then Failure(TypeError)
         else if c.q3.Some? then Failure(ValueError)
         else Success([Gate("park", [c.q2.value])]))
      else Failure(ValueError)
  }

  /** The parking gates of every repetition (none when they fail, since no
      kernel is then built). */
  function ParkSegment(c: CondOsc): seq<Instr>
  {
    if ParkGates(c).Success? then ParkGates(c).value else []
  }

  /** One repetition of the flux part, or its stand-in wait when the CZ is
      disabled. */
  function CzBlock(c: CondOsc, park: seq<Instr>): seq<Instr>
  {
    (if !c.disableCz then FluxGates(c) + [Barrier([c.q0, c.q1])] + park
     else [Barrier([]), Wait([c.q0, c.q1], c.disabledCzDuration), Barrier([])])
    + [Barrier([])]
  }

  function ExcitationPulses(c: CondOsc, excitation: bool): seq<Instr>
  {
    if excitation then Pulses("rx180", ControlQubits(c), c.serial) else []
  }

  function Before(c: CondOsc, excitation: bool): seq<Instr>
  {
    ParkedPulses(c) + ExcitationPulses(c, excitation) + Pulses("rx90", RamseyQubits(c), c.serial)
    + [Barrier([]), Wait([], c.waitBefore)]
  }

  function Flux(c: CondOsc, park: seq<Instr>): seq<Instr>
  {
    Tiled(CzBlock(c, park), c.czRepetitions) + [Wait([], c.waitAfter)]
  }

  function After(c: CondOsc, phi: string, excitation: bool): seq<Instr>
  {
    ExcitationPulses(c, excitation) + Pulses(phi, RamseyQubits(c), c.serial) + ParkedPulses(c) + [Barrier([])]
  }

  /** The body of one kernel; `excitation` tells the case "excitation"
      apart, `park` holds the parking gates and `phi` is the recovery
      gate. */
  function CondOscBody(c: CondOsc, park: seq<Instr>, excitation: bool, phi: string): (r: seq<Instr>)
    ensures |r| > 2 * |AllQubits(c)| && r[..|AllQubits(c)|] == PrepzAll(AllQubits(c))
    ensures r[|r| - |AllQubits(c)| - 1..] == MeasureAll(AllQubits(c)) + [Barrier([])]
  {
    Bracketed4(PrepzAll(AllQubits(c)), [Barrier([])], Before(c, excitation), Flux(c, park), After(c, phi, excitation),
      MeasureAll(AllQubits(c)), Barrier([]));
    PrepzAll(AllQubits(c)) + [Barrier([])]
    + Before(c, excitation) + Flux(c, park) + After(c, phi, excitation)
    + MeasureAll(AllQubits(c)) + [Barrier([])]
  }

  /** The kernel `<case>_<angle>`. */
  function CondOscKernel(c: CondOsc, park: seq<Instr>, kase: string, angle: int): (r: Kernel)
    ensures |r.name| > |kase| + 1 && r.name[..|kase|] == kase && r.name[|kase|] == '_'
    ensures |r.body| > 2 * |AllQubits(c)| && r.body[..|AllQubits(c)|] == PrepzAll(AllQubits(c))
  {
    Kernel(kase + "_" + IntStr(angle), CondOscBody(c, park, kase == "excitation", PhiGate(angle)))
  }

  /** The kernel of an angle and a case, as the nested loops build it. */
  function CondOscCell(c: CondOsc, park: seq<Instr>): (int, string) -> Kernel
  {
    (angle, kase) => CondOscKernel(c, park, kase, angle)
  }

  /** The qubits are distinct. */
  predicate Distinct(c: CondOsc)
  {
    DistinctQubits(AllQubits(c))
  }

  lemma DistinctParts(c: CondOsc)
    requires Distinct(c)
    ensures DistinctQubits(ControlQubits(c)) && DistinctQubits(RamseyQubits(c)) && DistinctQubits(Opt(c.q2) + Opt(c.q3))
    ensures c.q0 !in ControlQubits(c) && c.q1 !in RamseyQubits(c)
    ensures c.q0 !in Opt(c.q2) + Opt(c.q3) && c.q1 !in Opt(c.q2) + Opt(c.q3)
    ensures c.q0 in AllQubits(c) && c.q1 in AllQubits(c) && c.q0 != c.q1
  {
    var all := AllQubits(c);
    assert all[0] == c.q0 && all[1] == c.q1;
    if c.q2.Some? { assert all[2] == c.q2.value; }
    if c.q3.Some? { assert all[|all| - 1] == c.q3.value; }
  }

  /** The parking gates never address q0 or q1 on their own. */
  lemma ParkQuiet(c: CondOsc, q: int)
    requires Distinct(c) && (q == c.q0 || q == c.q1)
    ensures On(ParkSegment(c), q) == []
  {
    DistinctParts(c);
    var park := ParkSegment(c);
    if park != [] {
      assert |park| == 1;
      OnOne(park[0], q);
      assert park == [park[0]];
      if c.park == Some("park") {
        assert c.q2.value in Opt(c.q2) + Opt(c.q3);
      }
    }
  }

  /** What a qubit sees of segments joined around two barriers. */
  lemma OnSegments(a: seq<Instr>, b: seq<Instr>, c: seq<Instr>, d: seq<Instr>, e: seq<Instr>, q: int)
    ensures On(a + [Barrier([])] + b + c + d + e + [Barrier([])], q)
      == On(a, q) + On(b, q) + On(c, q) + On(d, q) + On(e, q)
  {
    OnOne(Barrier([]), q);
    var x1 := a + [Barrier([])];
    OnAppend(a, [Barrier([])], q);
    assert On(x1, q) == On(a, q);
    var x2 := x1 + b;
    OnAppend(x1, b, q);
    var x3 := x2 + c;
    OnAppend(x2, c, q);
    var x4 := x3 + d;
    OnAppend(x3, d, q);
    var x5 := x4 + e;
    OnAppend(x4, e, q);
    OnAppend(x5, [Barrier([])], q);
  }

  /** What a qubit sees of three segments followed by a tail it does not
      see. */
  lemma OnThree(a: seq<Instr>, b: seq<Instr>, c: seq<Instr>, tail: seq<Instr>, q: int)
    requires On(tail, q) == []
    ensures On(a + b + c + tail, q) == On(a, q) + On(b, q) + On(c, q)
  {
    var x1 := a + b;
    OnAppend(a, b, q);
    var x2 := x1 + c;
    OnAppend(x1, c, q);
    OnAppend(x2, tail, q);
  }

  /** Of the pulses before the flux part, a qubit sees the parked, the
      excitation and the pi/2 pulses. */
  lemma BeforeOn(c: CondOsc, exc: bool, q: int)
    ensures On(Before(c, exc), q)
      == On(ParkedPulses(c), q) + On(ExcitationPulses(c, exc), q) + On(Pulses("rx90", RamseyQubits(c), c.serial), q)
  {
    var bw := [Barrier([]), Wait([], c.waitBefore)];
    OnOne(Barrier([]), q);
    OnOne(Wait([], c.waitBefore), q);
    OnAppend([Barrier([])], [Wait([], c.waitBefore)], q);
    assert [Barrier([])] + [Wait([], c.waitBefore)] == bw;
    OnThree(ParkedPulses(c), ExcitationPulses(c, exc), Pulses("rx90", RamseyQubits(c), c.serial), bw, q);
  }

  /** Of the pulses after the flux part, a qubit sees the excitation, the
      recovery and the parked pulses. */
  lemma AfterOn(c: CondOsc, phi: string, exc: bool, q: int)
    ensures On(After(c, phi, exc), q)
      == On(ExcitationPulses(c, exc), q) + On(Pulses(phi, RamseyQubits(c), c.serial), q) + On(ParkedPulses(c), q)
  {
    OnOne(Barrier([]), q);
    OnThree(ExcitationPulses(c, exc), Pulses(phi, RamseyQubits(c), c.serial), ParkedPulses(c), [Barrier([])], q);
  }

  /** Of the flux part, a qubit sees the repetitions. */
  lemma FluxOn(c: CondOsc, park: seq<Instr>, q: int)
    ensures On(Flux(c, park), q) == On(Tiled(CzBlock(c, park), c.czRepetitions), q)
  {
    OnOne(Wait([], c.waitAfter), q);
    OnAppend(Tiled(CzBlock(c, park), c.czRepetitions), [Wait([], c.waitAfter)], q);
  }

  /** The flux pulse of a repetition does not address a spared qubit on
      its own. */
  lemma FluxGatesQuiet(c: CondOsc, q: int)
    requires SparesQubit(c, q)
    ensures On(FluxGates(c), q) == []
  {
    var f := FluxGates(c);
    if FluxKindOf(c.fluxCodeword) == RefocusKind {
      On4(f, q);
    } else {
      OnOne(f[0], q);
      assert f == [f[0]];
    }
  }

  /** Nor does one repetition, parking gates included. */
  lemma CzBlockQuiet(c: CondOsc, park: seq<Instr>, q: int)
    requires SparesQubit(c, q) && On(park, q) == []
    ensures On(CzBlock(c, park), q) == []
  {
    OnOne(Barrier([]), q);
    if !c.disableCz {
      var f := FluxGates(c);
      FluxGatesQuiet(c, q);
      OnOne(Barrier([c.q0, c.q1]), q);
      OnThree(f, [Barrier([c.q0, c.q1])], park, [Barrier([])], q);
    } else {
      var w := [Barrier([]), Wait([c.q0, c.q1], c.disabledCzDuration), Barrier([]), Barrier([])];
      On4(w, q);
      assert CzBlock(c, park) == w;
    }
  }

  /** Nor do all the repetitions. */
  lemma {:induction false} FluxQuiet(c: CondOsc, park: seq<Instr>, q: int, n: nat)
    requires SparesQubit(c, q) && On(park, q) == []
    ensures On(Tiled(CzBlock(c, park), n), q) == []
  {
    if n > 0 {
      FluxQuiet(c, park, q, n - 1);
      CzBlockQuiet(c, park, q);
      OnAppend(Tiled(CzBlock(c, park), n - 1), CzBlock(c, park), q);
    }
  }

  /** Among distinct qubits, each is prepared and measured once. */
  lemma PrepMeasureOn(c: CondOsc, q: int)
    requires Distinct(c) && q in AllQubits(c)
    ensures On(PrepzAll(AllQubits(c)), q) == [Prepz(q)] && On(MeasureAll(AllQubits(c)), q) == [Measure(q)]
  {
    OnPrepzAll(AllQubits(c), q);
    OnMeasureAll(AllQubits(c), q);
  }

  /** The flux part, parking gates included, does not address q0 or q1 on
      its own. */
  lemma FluxPartQuiet(c: CondOsc, q: int)
    requires Distinct(c) && SparesQubit(c, q) && (q == c.q0 || q == c.q1)
    ensures On(Flux(c, ParkSegment(c)), q) == []
  {
    ParkQuiet(c, q);
    FluxQuiet(c, ParkSegment(c), q, c.czRepetitions);
    FluxOn(c, ParkSegment(c), q);
  }

  /** A qubit outside the parked ones sees none of their pi pulses. */
  lemma ParkedPulsesOn(c: CondOsc, q: int)
    requires DistinctQubits(Opt(c.q2) + Opt(c.q3)) && q !in Opt(c.q2) + Opt(c.q3)
    ensures On(ParkedPulses(c), q) == []
  {
    OnGateAll("rx180", Opt(c.q2) + Opt(c.q3), q);
  }

  /** A control qubit sees its pi pulse in the excitation case; any other
      qubit sees none. */
  lemma ExcitationPulsesOn(c: CondOsc, exc: bool, q: int)
    requires DistinctQubits(ControlQubits(c))
    ensures On(ExcitationPulses(c, exc), q) == if exc && q in ControlQubits(c) then [Gate("rx180", [q])] else []
  {
    OnPulses("rx180", ControlQubits(c), c.serial, q);
  }

  /** What q0 sees of each pulse segment. */
  lemma RamseySegments(c: CondOsc, exc: bool, phi: string)
    requires Distinct(c)
    ensures var q := c.q0;
      && On(ParkedPulses(c), q) == [] && On(ExcitationPulses(c, exc), q) == []
      && On(Pulses("rx90", RamseyQubits(c), c.serial), q) == [Gate("rx90", [q])]
      && On(Pulses(phi, RamseyQubits(c), c.serial), q) == [Gate(phi, [q])]
  {
    var q, g, h := c.q0, Gate("rx90", [c.q0]), Gate(phi, [c.q0]);
    assert On(ParkedPulses(c), q) == [] by {
      DistinctParts(c);
      ParkedPulsesOn(c, q);
    }
    assert On(ExcitationPulses(c, exc), q) == [] by {
      DistinctParts(c);
      ExcitationPulsesOn(c, exc, q);
    }
    assert On(Pulses("rx90", RamseyQubits(c), c.serial), q) == [g] by {
      DistinctParts(c);
      OnPulses("rx90", RamseyQubits(c), c.serial, q);
    }
    assert On(Pulses(phi, RamseyQubits(c), c.serial), q) == [h] by {
      DistinctParts(c);
      OnPulses(phi, RamseyQubits(c), c.serial, q);
    }
  }

  /** q0 receives the pi/2 pulse before and the recovery gate after the
      flux part, and no excitation or parking pulse. */
  lemma RamseyPulsesOn(c: CondOsc, exc: bool, phi: string)
    requires Distinct(c)
    ensures On(Before(c, exc), c.q0) == [Gate("rx90", [c.q0])]
    ensures On(After(c, phi, exc), c.q0) == [Gate(phi, [c.q0])]
  {
    var q, g, h := c.q0, Gate("rx90", [c.q0]), Gate(phi, [c.q0]);
    RamseySegments(c, exc, phi);
    BeforeOn(c, exc, q);
    AfterOn(c, phi, exc, q);
    Padded([g]);
    Padded([h]);
  }

  /** What q1 sees of each pulse segment. */
  lemma ControlSegments(c: CondOsc, exc: bool, phi: string)
    requires Distinct(c)
    ensures var q := c.q1;
      && On(ParkedPulses(c), q) == [] && On(ExcitationPulses(c, exc), q) == (if exc then [Gate("rx180", [q])] else [])
      && On(Pulses("rx90", RamseyQubits(c), c.serial), q) == []
      && On(Pulses(phi, RamseyQubits(c), c.serial), q) == []
  {
    var q := c.q1;
    var flip := if exc then [Gate("rx180", [q])] else [];
    assert On(ParkedPulses(c), q) == [] by {
      DistinctParts(c);
      ParkedPulsesOn(c, q);
    }
    assert On(ExcitationPulses(c, exc), q) == flip by {
      DistinctParts(c);
      ExcitationPulsesOn(c, exc, q);
      assert q in ControlQubits(c);
    }
    assert On(Pulses("rx90", RamseyQubits(c), c.serial), q) == [] by {
      DistinctParts(c);
      OnPulses("rx90", RamseyQubits(c), c.serial, q);
    }
    assert On(Pulses(phi, RamseyQubits(c), c.serial), q) == [] by {
      DistinctParts(c);
      OnPulses(phi, RamseyQubits(c), c.serial, q);
    }
  }

  /** q1 receives a pi pulse before and after the flux part in the
      excitation case, and nothing else. */
  lemma ControlPulsesOn(c: CondOsc, exc: bool, phi: string)
    requires Distinct(c)
    ensures On(Before(c, exc), c.q1) == (if exc then [Gate("rx180", [c.q1])] else [])
    ensures On(After(c, phi, exc), c.q1) == (if exc then [Gate("rx180", [c.q1])] else [])
  {
    var q := c.q1;
    var flip := if exc then [Gate("rx180", [q])] else [];
    ControlSegments(c, exc, phi);
    BeforeOn(c, exc, q);
    AfterOn(c, phi, exc, q);
    Padded(flip);
  }

  /** Empty segments contribute nothing. */
  lemma Padded(x: seq<Instr>)
    ensures [] + [] + x == x && [] + x + [] == x && x + [] + [] == x
  {
  }

  /** What a qubit sees of a body made of segments, given what it sees of
      each. */
  lemma LaneOf(pre: seq<Instr>, bef: seq<Instr>, fl: seq<Instr>, aft: seq<Instr>, mea: seq<Instr>, q: int,
               s1: seq<Instr>, s2: seq<Instr>, s3: seq<Instr>, s4: seq<Instr>, s5: seq<Instr>)
    requires On(pre, q) == s1 && On(bef, q) == s2 && On(fl, q) == s3 && On(aft, q) == s4 && On(mea, q) == s5
    ensures On(pre + [Barrier([])] + bef + fl + aft + mea + [Barrier([])], q) == s1 + s2 + s3 + s4 + s5
  {
    OnSegments(pre, bef, fl, aft, mea, q);
  }

  lemma SpellFour(x0: Instr, x1: Instr, x2: Instr, x3: Instr)
    ensures [x0] + [x1] + [] + [x2] + [x3] == [x0, x1, x2, x3]
  {
  }

  lemma SpellFlips(x0: Instr, g: Instr, x3: Instr, exc: bool)
    ensures var flip := if exc then [g] else [];
      [x0] + flip + [] + flip + [x3] == [x0] + (if exc then [g, g] else []) + [x3]
  {
  }

  /** The documented timing of the oscillating qubit q0: a pi/2 pulse
      before the flux pulses and the recovery pulse after them, between
      preparation and measurement. */
  lemma CondOscRamseyLane(c: CondOsc, exc: bool, phi: string)
    requires Distinct(c) && SparesQubit(c, c.q0)
    ensures On(CondOscBody(c, ParkSegment(c), exc, phi), c.q0)
      == [Prepz(c.q0), Gate("rx90", [c.q0]), Gate(phi, [c.q0]), Measure(c.q0)]
  {
    var q := c.q0;
    assert AllQubits(c)[0] == q;
    PrepMeasureOn(c, q);
    RamseyPulsesOn(c, exc, phi);
    FluxPartQuiet(c, q);
    var x0, x1, x2, x3 := Prepz(q), Gate("rx90", [q]), Gate(phi, [q]), Measure(q);
    LaneOf(PrepzAll(AllQubits(c)), Before(c, exc), Flux(c, ParkSegment(c)), After(c, phi, exc), MeasureAll(AllQubits(c)), q,
      [x0], [x1], [], [x2], [x3]);
    SpellFour(x0, x1, x2, x3);
  }

  /** The documented timing of the control qubit q1: a pi pulse before and
      after the flux pulses in the excitation case, nothing otherwise. */
  lemma CondOscControlLane(c: CondOsc, exc: bool, phi: string)
    requires Distinct(c) && SparesQubit(c, c.q1)
    ensures On(CondOscBody(c, ParkSegment(c), exc, phi), c.q1)
      == [Prepz(c.q1)] + (if exc then [Gate("rx180", [c.q1]), Gate("rx180", [c.q1])] else []) + [Measure(c.q1)]
  {
    var q := c.q1;
    assert AllQubits(c)[1] == q;
    PrepMeasureOn(c, q);
    ControlPulsesOn(c, exc, phi);
    FluxPartQuiet(c, q);
    var x0, g, x3 := Prepz(q), Gate("rx180", [q]), Measure(q);
    var flip: seq<Instr> := if exc then [g] else [];
    LaneOf(PrepzAll(AllQubits(c)), Before(c, exc), Flux(c, ParkSegment(c)), After(c, phi, exc), MeasureAll(AllQubits(c)), q,
      [x0], flip, [], flip, [x3]);
    SpellFlips(x0, g, x3, exc);
  }

  /** The calibration states: two-qubit states, or three-qubit ones when
      q2 is present. */
  function CondOscCalStates(withQ2: bool): (r: seq<string>)
    ensures |r| == 4
  {
    if withQ2 then ["000", "010", "101", "111"] else ["00", "01", "10", "11"]
  }

  /** `np.repeat(angles, len(cases))`, then 361, 362, ... for the
      calibration points. */
  function CondOscSweepPoints(angles: seq<int>, nCases: nat, addCalPoints: bool, withQ2: bool): seq<int>
  {
    Stretched(angles, nCases)
      + (if addCalPoints then seq(|CondOscCalStates(withQ2)|, i requires 0 <= i < 4 => 361 + i) else [])
  }

  /** The kernel of angle a and case b has its own angle as sweep point. */
  lemma CondOscSweepAt(angles: seq<int>, nCases: nat, addCalPoints: bool, withQ2: bool, a: nat, b: nat)
    requires a < |angles| && b < nCases
    ensures var s := CondOscSweepPoints(angles, nCases, addCalPoints, withQ2);
      a * nCases + b < |s| && s[a * nCases + b] == angles[a]
  {
    StretchedIndex(angles, nCases, a, b);
  }

  /** The calibration points follow the kernels at 361 and up. */
  lemma CondOscSweepCal(angles: seq<int>, nCases: nat, withQ2: bool, i: nat)
    requires i < 4
    ensures var s := CondOscSweepPoints(angles, nCases, true, withQ2);
      |s| == |angles| * nCases + 4 && s[|angles| * nCases + i] == 361 + i
  {
    StretchedAt(angles, nCases);
  }

  /** `conditional_oscillation_seq`: an AssertionError for an unknown
      `parked_qubit_seq`; a ValueError for a bad parking codeword as soon as
      a first flux pulse is emitted; otherwise one kernel per angle and
      case, angles outermost, with their sweep points. */
  method ConditionalOscillationSeq(c: CondOsc, parkedQubitSeq: string, angles: seq<int>, cases: seq<string>, addCalPoints: bool)
    returns (r: Result<(seq<Kernel>, seq<int>), OqlError>)
    requires ParseParked(parkedQubitSeq) == Some(c.parked) || ParseParked(parkedQubitSeq).None?
    ensures ParseParked(parkedQubitSeq).None? ==> r == Failure(AssertionError)
    ensures ParseParked(parkedQubitSeq).Some? ==>
      && (r.Failure? <==> |angles| >= 1 && |cases| >= 1 && !c.disableCz && c.czRepetitions >= 1 && ParkGates(c).Failure?)
      && (r.Failure? ==> r.error == ParkGates(c).error)
    ensures r.Success? ==>
      && r.value.0 == Grid(angles, cases, CondOscCell(c, ParkSegment(c)))
      && r.value.1 == CondOscSweepPoints(angles, |cases|, addCalPoints, c.q2.Some?)
  {
    if ParseParked(parkedQubitSeq).None? {
      return Failure(AssertionError);
    }
    if |angles| >= 1 && |cases| >= 1 && !c.disableCz && c.czRepetitions >= 1 && ParkGates(c).Failure? {
      return Failure(ParkGates(c).error);
    }
    var p := AddGrid(angles, cases, CondOscCell(c, ParkSegment(c)));
    return Success((p, CondOscSweepPoints(angles, |cases|, addCalPoints, c.q2.Some?)));
  }

  // ---------------------------------------------------------------------
  // parity_check_flux_dance
  // ---------------------------------------------------------------------

  /** The qubits of a parity check; absent ramsey or parking lists are
      empty. */
  datatype ParityCheck = ParityCheck(
    targets: seq<int>, controls: seq<int>, ramsey: seq<int>, parking: seq<int>,
    fluxCodewords: seq<string>, initialMeasurement: bool)

  /** The pulses on the control qubits whose character in the case is
      '1', skipping characters beyond the last control qubit. */
  function Pulsed(name: string, kase: string, controls: seq<int>): seq<Instr>
  {
    if |kase| == 0 then []
    else
      var n := |kase| - 1;
      Pulsed(name, kase[..n], controls) + (if kase[n] == '1' && n < |controls| then [Gate(name, [controls[n]])] else [])
  }

  /** `for i, indx in enumerate(case): if indx == '1': k.gate(name,
      [controls[i]])`; a '1' beyond the last control qubit raises
      IndexError. */
  function Flips(name: string, kase: string, controls: seq<int>): (r: Result<seq<Instr>, OqlError>)
    ensures r.Failure? <==> exists i :: 0 <= i < |kase| && kase[i] == '1' && i >= |controls|
    ensures r.Failure? ==> r.error == IndexError
    ensures r.Success? ==> r.value == Pulsed(name, kase, controls)
  {
    if |kase| == 0 then Success([])
    else
      var n := |kase| - 1;
      match Flips(name, kase[..n], controls)
      case Failure(e) =>
        assert exists i :: 0 <= i < n && kase[..n][i] == '1' && i >= |controls|;
        Failure(e)
      case Success(init) =>
        if kase[n] != '1' then
          assert forall i :: 0 <= i < n ==> kase[i] == kase[..n][i];
          Success(init)
        else if n >= |controls| then Failure(IndexError)
        else
          assert forall i :: 0 <= i < n ==> kase[i] == kase[..n][i];
          Success(init + [Gate(name, [controls[n]])])
  }

  /** The flips are exactly the pulses on the control qubits whose
      character is '1': among distinct controls, control j sees one pulse
      iff `case[j] == '1'`. */
  lemma {:induction false} FlipsOn(name: string, kase: string, controls: seq<int>, j: nat)
    requires DistinctQubits(controls) && j < |controls|
    ensures On(Pulsed(name, kase, controls), controls[j])
      == if j < |kase| && kase[j] == '1' then [Gate(name, [controls[j]])] else []
    decreases |kase|
  {
    if |kase| > 0 {
      var n, q := |kase| - 1, controls[j];
      var init := Pulsed(name, kase[..n], controls);
      var last: seq<Instr> := if kase[n] == '1' && n < |controls| then [Gate(name, [controls[n]])] else [];
      assert Pulsed(name, kase, controls) == init + last;
      FlipsOn(name, kase[..n], controls, j);
      OnAppend(init, last, q);
      assert On(last, q) == if n == j && kase[n] == '1' then [Gate(name, [q])] else [] by {
        if kase[n] == '1' && n < |controls| {
          OnOne(Gate(name, [controls[n]]), q);
          assert controls[n] == q <==> n == j;
        }
      }
      if j < n {
        assert kase[..n][j] == kase[j];
      }
    }
  }

  /** The flux-dance codewords, each on the dummy qubit 0. */
  function Dance(codewords: seq<string>): (r: seq<Instr>)
    ensures |r| == |codewords|
  {
    seq(|codewords|, i requires 0 <= i < |codewords| => Gate(codewords[i], [0]))
  }

  /** The body of the kernel `<case>_<angle>`, given the flips before and
      after the flux dance. */
  function ParityBody(pc: ParityCheck, flipsOn: seq<Instr>, flipsOff: seq<Instr>, angle: int): (r: seq<Instr>)
    ensures var prep := PrepzAll(pc.targets) + PrepzAll(pc.controls) + PrepzAll(pc.parking);
      |r| > 2 * |prep| && r[..|prep|] == prep
    ensures var meas := MeasureAll(pc.targets) + MeasureAll(pc.controls) + MeasureAll(pc.parking);
      |r| > |meas| && r[|r| - |meas| - 1..] == meas + [Barrier([])]
  {
    var prep := PrepzAll(pc.targets) + PrepzAll(pc.controls) + PrepzAll(pc.parking);
    var meas := MeasureAll(pc.targets) + MeasureAll(pc.controls) + MeasureAll(pc.parking);
    var r := prep + ParityMiddle(pc, flipsOn, flipsOff, angle) + (meas + [Barrier([])]);
    Bracketed(prep, ParityMiddle(pc, flipsOn, flipsOff, angle), meas + [Barrier([])]);
    r
  }

  /** What a parity-check kernel does between preparing and measuring. */
  function ParityMiddle(pc: ParityCheck, flipsOn: seq<Instr>, flipsOff: seq<Instr>, angle: int): seq<Instr>
  {
    [Barrier([])]
    + (if pc.initialMeasurement then MeasureAll(pc.controls) + MeasureAll(pc.targets) else []) + [Barrier([])]
    + flipsOn + GateAll("rx90", pc.targets) + GateAll("rx90", pc.ramsey) + GateAll("rx180", pc.parking) + [Barrier([])]
    + Dance(pc.fluxCodewords) + [Barrier([])]
    + flipsOff + GateAll(PhaseCodeword(angle), pc.targets) + GateAll("rxm90", pc.ramsey) + GateAll("rxm180", pc.parking)
    + [Barrier([])]
  }

  /** The kernel of a case and an angle, once its flips succeed. */
  function ParityKernel(pc: ParityCheck, kase: string, angle: int): (r: Kernel)
    ensures |r.name| > |kase| + 1 && r.name[..|kase|] == kase && r.name[|kase|] == '_'
    ensures var prep := PrepzAll(pc.targets) + PrepzAll(pc.controls) + PrepzAll(pc.parking);
      |r.body| > 2 * |prep| && r.body[..|prep|] == prep
  {
    Kernel(kase + "_" + IntStr(angle),
      ParityBody(pc, Pulsed("rx180", kase, pc.controls), Pulsed("rxm180", kase, pc.controls), angle))
  }

  /** The kernel of a case and an angle, as the nested loops build it. */
  function ParityCell(pc: ParityCheck): (string, int) -> Kernel
  {
    (kase, angle) => ParityKernel(pc, kase, angle)
  }

  /** The calibration states as written: every n-bit string in increasing
      order and, with parking qubits, one character appended to every
      state whatever their number, '0' in the first half and '1' in the
      second. */
  function ParityCalStatesAsWritten(n: nat, nParking: nat): (r: seq<string>)
    ensures |r| == Pow(2, n)
  {
    var m := Pow(2, n);
    seq(m, i requires 0 <= i < m => Int2Base(i, 2, n) + (if nParking == 0 then "" else if 2 * i < m then "0" else "1"))
  }

  /** As written, state i spells i in binary on n characters ("0" when
      there are no targets or controls), followed, whenever a qubit is
      parked, by a single character: '0' in the first half of the states
      and '1' in the second. */
  lemma ParityCalStatesAsWrittenShape(n: nat, nParking: nat, i: nat)
    requires i < Pow(2, n)
    ensures var s := ParityCalStatesAsWritten(n, nParking)[i];
      var w := if n == 0 then 1 else n;
      && |s| == w + (if nParking == 0 then 0 else 1)
      && AllDigits(s[..w], 2) && ValueOf(s[..w], 2) == i
      && (nParking > 0 ==> s[w] == (if 2 * i < Pow(2, n) then '0' else '1'))
  {
    var st, w := Int2Base(i, 2, n), if n == 0 then 1 else n;
    var tail := if nParking == 0 then "" else if 2 * i < Pow(2, n) then "0" else "1";
    AsWrittenAt(n, nParking, i);
    BinaryState(n, i);
    DigitsThenTail(st, tail, w, i);
  }

  /** State i as written is the binary rendering of i and the appended
      character. */
  lemma AsWrittenAt(n: nat, nParking: nat, i: nat)
    requires i < Pow(2, n)
    ensures ParityCalStatesAsWritten(n, nParking)[i]
      == Int2Base(i, 2, n) + (if nParking == 0 then "" else if 2 * i < Pow(2, n) then "0" else "1")
  {
  }

  /** `int2base(i, 2, n)` below 2^n: n binary digits denoting i, or "0"
      when n is 0. */
  lemma BinaryState(n: nat, i: nat)
    requires i < Pow(2, n)
    ensures var st := Int2Base(i, 2, n);
      |st| == (if n == 0 then 1 else n) && AllDigits(st, 2) && ValueOf(st, 2) == i
  {
    if n == 0 {
      DigitsValue(i, 2);
      DigitsAreDigits(i, 2);
    } else {
      Int2BaseValue(i, 2, n);
    }
  }

  /** A binary string of value i followed by a tail keeps its digits and
      its value in front of the tail. */
  lemma DigitsThenTail(st: string, tail: string, w: nat, i: nat)
    requires |st| == w && AllDigits(st, 2) && ValueOf(st, 2) == i
    ensures var s := st + tail;
      && |s| == w + |tail|
      && AllDigits(s[..w], 2) && ValueOf(s[..w], 2) == i
      && (|tail| > 0 ==> s[w] == tail[0])
  {
    assert (st + tail)[..w] == st;
  }

  /** The calibration states as the comment describes them: every parked
      qubit appended in state 0 in the first half and in state 1 in the
      second. */
  function ParityCalStates(n: nat, nParking: nat): (r: seq<string>)
    ensures |r| == Pow(2, n)
  {
    var m := Pow(2, n);
    seq(m, i requires 0 <= i < m => Int2Base(i, 2, n) + Repeat(if 2 * i < m then '0' else '1', nParking))
  }

  /** With two parked qubits, a state as written is one character short of
      the qubits it is meant to prepare. */
  lemma ParityCalStatesShort(n: nat, i: nat)
    requires n >= 1 && i < Pow(2, n)
    ensures |ParityCalStatesAsWritten(n, 2)[i]| == n + 1 < n + 2
  {
    var m, st := Pow(2, n), Int2Base(i, 2, n);
    assert |st| == n by {
      Int2BaseValue(i, 2, n);
    }
    assert ParityCalStatesAsWritten(n, 2)[i] == st + (if 2 * i < m then "0" else "1");
  }

  /** With at most one parked qubit, the states as written are the
      intended ones. */
  lemma ParityCalStatesAgree(n: nat, nParking: nat)
    requires nParking <= 1
    ensures ParityCalStatesAsWritten(n, nParking) == ParityCalStates(n, nParking)
  {
    var m := Pow(2, n);
    forall i | 0 <= i < m ensures ParityCalStatesAsWritten(n, nParking)[i] == ParityCalStates(n, nParking)[i] {
      var c := if 2 * i < m then '0' else '1';
      if nParking == 1 {
        assert Repeat(c, 1) == [c];
      }
    }
  }

  /** The corrected states have one character per measured qubit: the
      first n spell the state's index in binary, and the parked ones are
      all '0' in the first half and all '1' in the second. */
  lemma ParityCalStatesShape(n: nat, nParking: nat, i: nat)
    requires n >= 1 && i < Pow(2, n)
    ensures var s := ParityCalStates(n, nParking)[i];
      && |s| == n + nParking
      && ValueOf(s[..n], 2) == i
      && forall j :: n <= j < |s| ==> s[j] == (if 2 * i < Pow(2, n) then '0' else '1')
  {
    var c := if 2 * i < Pow(2, n) then '0' else '1';
    CorrectedAt(n, nParking, i);
    Int2BaseValue(i, 2, n);
    DigitsThenRepeat(Int2Base(i, 2, n), c, nParking, n, i);
  }

  /** Corrected state i is the binary rendering of i and one character per
      parked qubit. */
  lemma CorrectedAt(n: nat, nParking: nat, i: nat)
    requires i < Pow(2, n)
    ensures ParityCalStates(n, nParking)[i]
      == Int2Base(i, 2, n) + Repeat(if 2 * i < Pow(2, n) then '0' else '1', nParking)
  {
  }

  /** A string of value i followed by k copies of c keeps its value in
      front of them. */
  lemma DigitsThenRepeat(st: string, c: char, k: nat, w: nat, i: nat)
    requires |st| == w && ValueOf(st, 2) == i
    ensures var s := st + Repeat(c, k);
      && |s| == w + k
      && ValueOf(s[..w], 2) == i
      && forall j :: w <= j < |s| ==> s[j] == c
  {
    assert (st + Repeat(c, k))[..w] == st;
  }

  /** `np.repeat(np.arange(len(cases)), len(angles))`, then the indices of
      the calibration points right after. */
  function ParitySweepPoints(nCases: nat, nAngles: nat, nCal: nat): seq<int>
  {
    Stretched(seq(nCases, i => i), nAngles) + seq(nCal, i => nCases + i)
  }

  /** The kernel of case c and angle a has its case's index as sweep point. */
  lemma ParitySweepAt(nCases: nat, nAngles: nat, nCal: nat, c: nat, a: nat)
    requires c < nCases && a < nAngles
    ensures var s := ParitySweepPoints(nCases, nAngles, nCal);
      c * nAngles + a < |s| && s[c * nAngles + a] == c
  {
    StretchedIndex(seq(nCases, i => i), nAngles, c, a);
  }

  /** The calibration points continue the numbering of the cases. */
  lemma ParitySweepCal(nCases: nat, nAngles: nat, nCal: nat, i: nat)
    requires i < nCal
    ensures var s := ParitySweepPoints(nCases, nAngles, nCal);
      |s| == nCases * nAngles + nCal && s[nCases * nAngles + i] == nCases + i
  {
    StretchedAt(seq(nCases, i => i), nAngles);
  }

  /** `parity_check_flux_dance`: cases outermost and angles inside; a case
      that flips a missing control qubit raises IndexError when its first
      kernel is built; the sweep points number the cases, and the
      calibration states are returned with them. */
  method ParityCheckFluxDance(pc: ParityCheck, cases: seq<string>, angles: seq<int>, addCalPoints: bool)
    returns (r: Result<(seq<Kernel>, seq<int>, seq<string>), OqlError>)
    ensures r.Failure? <==> |angles| >= 1 && exists c :: 0 <= c < |cases| && Flips("rx180", cases[c], pc.controls).Failure?
    ensures r.Failure? ==> r.error == IndexError
    ensures r.Success? ==>
      && r.value.0 == Grid(cases, angles, ParityCell(pc))
      && r.value.2 == (if addCalPoints then ParityCalStatesAsWritten(|pc.targets| + |pc.controls|, |pc.parking|) else [])
      && r.value.1 == ParitySweepPoints(|cases|, |angles|, |r.value.2|)
  {
    if |angles| >= 1 {
      var c := 0;
      while c < |cases|
        invariant 0 <= c <= |cases|
        invariant forall c' :: 0 <= c' < c ==> Flips("rx180", cases[c'], pc.controls).Success?
      {
        if Flips("rx180", cases[c], pc.controls).Failure? {
          return Failure(IndexError);
        }
        c := c + 1;
      }
    }
    var p := AddGrid(cases, angles, ParityCell(pc));
    var cal := if addCalPoints then ParityCalStatesAsWritten(|pc.targets| + |pc.controls|, |pc.parking|) else [];
    return Success((p, ParitySweepPoints(|cases|, |angles|, |cal|), cal));
  }
}
