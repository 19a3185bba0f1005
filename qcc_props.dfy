/** Properties of the CC-Light configuration for the 17-qubit chip: how the
    entries of the instruction table encode their operation, which entries
    coincide, and how the topology, the resources and the gate
    decompositions relate to the coupling graph and to the table. */
module QccProps {
  import opened Wrappers
  import opened Numerals
  import opened QccCfg

  // ---------------------------------------------------------------------
  // Opcodes and codewords
  // ---------------------------------------------------------------------

  /** The opcode offset of a condition: none, "if the last measurement gave
      1" (`C1`) and "if it gave 0" (`C0`). */
  function CondOffset(cond: Option<nat>): nat
  {
    match cond
    case None => 0
    case Some(c) => if c == 1 then 32 else 40
  }

  /** The instruction-name prefix of a condition. */
  function CondPrefix(cond: Option<nat>): string
  {
    match cond
    case None => ""
    case Some(c) => if c == 1 then "C1_" else "C0_"
  }

  lemma Pad2Zero()
    ensures Pad2(0) == "00"
  {
    assert Decimal(0) == "0";
    assert Repeat('0', 1) == "0";
  }

  /** The microwave entry of codeword cw under condition cond. */
  predicate MwCodeword(p: Params, q: nat, e: Entry, cw: nat, cond: Option<nat>)
  {
    e.duration == p.mwPulseDuration && e.latency == p.mwLatency && e.qubits == [q] &&
    !e.disableOptimization && e.kind == Mw && e.gateClass == SingleQubitGate &&
    e.instr == CondPrefix(cond) + "cw_" + Pad2(cw) && e.codewords == Codeword(cw) &&
    e.opcode == 8 + cw + CondOffset(cond) && e.cond == cond
  }

  /** The instruction names of the three conditions, whatever follows them. */
  lemma PrefixNames(d: string)
    ensures CondPrefix(None) + "cw_" + d == "cw_" + d
    ensures CondPrefix(Some(1)) + "cw_" + d == "C1_cw_" + d
    ensures CondPrefix(Some(2)) + "cw_" + d == "C0_cw_" + d
    ensures ("C1_cw_" + d)[1] == '1' && ("C0_cw_" + d)[1] == '0'
  {
    assert CondPrefix(Some(1)) + "cw_" + d == "C1_" + "cw_" + d;
    assert CondPrefix(Some(2)) + "cw_" + d == "C0_" + "cw_" + d;
  }

  lemma LutLaw(p: Params, cw: nat, q: nat)
    ensures MwCodeword(p, q, MwEntry(p, q, "cw_" + Pad2(cw), cw, 8 + cw, None), cw, None)
  {
    PrefixNames(Pad2(cw));
  }

  lemma IfOneLaw(p: Params, cw: nat, q: nat)
    ensures MwCodeword(p, q, MwEntry(p, q, "C1_cw_" + Pad2(cw), cw, 32 + 8 + cw, Some(1)), cw, Some(1))
  {
    PrefixNames(Pad2(cw));
  }

  lemma IfZeroLaw(p: Params, cw: nat, q: nat)
    ensures MwCodeword(p, q, MwEntry(p, q, "C0_cw_" + Pad2(cw), cw, 32 + 16 + cw, Some(2)), cw, Some(2))
  {
    PrefixNames(Pad2(cw));
  }

  lemma CompensateLaw(p: Params, q: nat)
    ensures MwCodeword(p, q, MwEntry(p, q, "cw_00", 0, 8 + 0, None), 0, None)
  {
    Pad2Zero();
    PrefixNames(Pad2(0));
  }

  /** A microwave entry is a codeword below 32 whose opcode and instruction
      are fixed by the codeword and the condition; every other field is
      the microwave pulse's. */
  lemma MwEntryLaw(p: Params, k: InstrKey)
    requires ValidKey(k) && EntryOf(p, k).kind == Mw
    ensures var e := EntryOf(p, k);
      k.Single? && e.codewords.Codeword? && e.codewords.cw < 32 &&
      (e.cond == None || e.cond == Some(1) || e.cond == Some(2)) &&
      MwCodeword(p, k.q, e, e.codewords.cw, e.cond)
  {
    match k.op
    case Lut(cw) => LutLaw(p, cw, k.q);
    case Cw(cw) => LutLaw(p, cw, k.q);
    case IfOne(cw) => IfOneLaw(p, cw, k.q);
    case IfZero(cw) => IfZeroLaw(p, cw, k.q);
    case Compensate => CompensateLaw(p, k.q);
  }

  /** A flux entry drives a coupled pair with equal right and left
      codewords below 8, and its opcode is 128 plus that codeword. */
  lemma FluxEntryLaw(p: Params, k: InstrKey)
    requires ValidKey(k) && EntryOf(p, k).kind == Flux
    ensures var e := EntryOf(p, k);
      k.Pair? && e.qubits == [k.a, k.b] && (k.b, k.a) in FluxTuples() &&
      e.gateClass == TwoQubitGate && e.disableOptimization &&
      e.duration == p.fluxPulseDuration && e.latency == p.flLatency &&
      e.codewords.RightLeft? && e.codewords.right == e.codewords.left < 8 &&
      128 <= e.opcode < 136 && e.opcode == 128 + e.codewords.right && e.cond == None &&
      e.instr == "fl_cw_" + Pad2(e.codewords.right)
  {
    FluxPair(k.a, k.b);
  }

  /** The kind of an entry is fixed by its operation, and the two-qubit
      entries are exactly the flux ones; resets take the initialisation
      time with no latency, measurements the readout time and latency. */
  lemma EntryKind(p: Params, k: InstrKey)
    requires ValidKey(k)
    ensures var e := EntryOf(p, k);
      (e.kind == NoKind <==> k.op == Prepz) &&
      (e.kind == Readout <==> k.op == Measure) &&
      (e.kind == Flux <==> k.Pair?) &&
      (e.gateClass == TwoQubitGate <==> k.Pair?) &&
      e.matrix == PlaceholderMatrix() &&
      (k.op == Prepz ==> e.duration == p.initDuration && e.latency == 0 && e.opcode == 2) &&
      (k.op == Measure ==> e.duration == p.roDuration && e.latency == p.roLatency && e.opcode == 4)
  {
  }

  /** Among microwave entries the opcode and the condition together
      determine the instruction and the codeword. */
  lemma {:induction false} MwOpcodeDetermines(p: Params, k: InstrKey, l: InstrKey)
    requires ValidKey(k) && ValidKey(l)
    requires EntryOf(p, k).kind == Mw && EntryOf(p, l).kind == Mw
    requires EntryOf(p, k).opcode == EntryOf(p, l).opcode && EntryOf(p, k).cond == EntryOf(p, l).cond
    ensures EntryOf(p, k).instr == EntryOf(p, l).instr && EntryOf(p, k).codewords == EntryOf(p, l).codewords
  {
    MwEntryLaw(p, k);
    MwEntryLaw(p, l);
    var e, f := EntryOf(p, k), EntryOf(p, l);
    assert e.codewords.cw == f.codewords.cw;
  }

  /** The opcode alone does not: the conditional pulses on lookup
      codewords 8, 9 and 10 taken if the last measurement gave 1 (`c1spec`,
      `c1rx12`, `c1square`) share their opcodes 48, 49 and 50 with those on
      codewords 0, 1 and 2 taken if it gave 0 (`c0i`, `c0rx180`,
      `c0ry180`). */
  lemma SharedConditionalOpcode(p: Params, cw: nat, q: nat)
    requires cw < 3 && q < QubitCount
    ensures EntryOf(p, Single(IfOne(cw + 8), q)).opcode == EntryOf(p, Single(IfZero(cw), q)).opcode == 48 + cw
    ensures EntryOf(p, Single(IfOne(cw + 8), q)).instr != EntryOf(p, Single(IfZero(cw), q)).instr
  {
    PrefixNames(Pad2(cw + 8));
    PrefixNames(Pad2(cw));
  }

  /** A named lookup-table pulse is stored exactly as the raw codeword
      instruction of the same codeword. */
  lemma LutIsRawCodeword(p: Params, cw: nat, q: nat)
    requires cw < |LutHeads()| && q < QubitCount
    ensures EntryOf(p, Single(Lut(cw), q)) == EntryOf(p, Single(Cw(cw), q))
    ensures KeyName(Single(Lut(cw), q)) != KeyName(Single(Cw(cw), q))
  {
    if KeyName(Single(Lut(cw), q)) == KeyName(Single(Cw(cw), q)) {
      KeyNameInjective(Single(Lut(cw), q), Single(Cw(cw), q));
    }
  }

  /** `compensate` plays codeword 0. */
  lemma CompensateIsCodewordZero(p: Params, q: nat)
    requires q < QubitCount
    ensures EntryOf(p, Single(Compensate, q)) == EntryOf(p, Single(Cw(0), q))
  {
    Pad2Zero();
  }

  /** `cz` plays flux codeword 1. */
  lemma CzIsFluxCodewordOne(p: Params, a: nat, b: nat)
    requires (a, b) in FluxTuples()
    ensures EntryOf(p, Pair(Cz, a, b)) == EntryOf(p, Pair(FluxCw(1), a, b))
  {
  }

  // ---------------------------------------------------------------------
  // Topology and resources
  // ---------------------------------------------------------------------

  /** Qubit i sits at position i of the site list. */
  lemma SitesIndexed()
    ensures |Sites()| == QubitCount == DeviceResources().qubitCount
    ensures forall i :: 0 <= i < |Sites()| ==> Sites()[i].id == i
  {
  }

  /** Edge i joins the coupled pair i, from its higher to its lower qubit,
      and there is one edge per edge resource. */
  lemma EdgeOfCoupling(i: nat)
    requires i < |Couplings()|
    ensures |Edges()| == |Couplings()| == DeviceResources().edgeCount == |DeviceResources().edgeMap|
    ensures Edges()[i] == Edge(i, Couplings()[i].1, Couplings()[i].0)
  {
  }

  /** Both directions of every edge are flux pairs. */
  lemma EdgeIsFluxPair(i: nat)
    requires i < |Edges()|
    ensures (Edges()[i].src, Edges()[i].dst) in FluxTuples()
    ensures (Edges()[i].dst, Edges()[i].src) in FluxTuples()
  {
    EdgeOfCoupling(i);
    var c := Couplings()[i];
    assert c in Couplings();
    BothWaysMembers(Couplings(), c.0, c.1);
    BothWaysMembers(Couplings(), c.1, c.0);
  }

  /** Every flux pair runs along an edge, in one direction or the other. */
  lemma FluxPairHasEdge(a: nat, b: nat)
    requires (a, b) in FluxTuples()
    ensures exists i :: (0 <= i < |Edges()| &&
                         (Edges()[i] == Edge(i, a, b) || Edges()[i] == Edge(i, b, a)))
  {
    BothWaysMembers(Couplings(), a, b);
    var i :| 0 <= i < |Couplings()| && (Couplings()[i] == (a, b) || Couplings()[i] == (b, a));
    EdgeOfCoupling(i);
  }

  /** Every edge joins diagonal neighbours, from a row to the row above. */
  lemma EdgeIsDiagonal(i: nat)
    requires i < |Edges()|
    ensures Edges()[i].src < |Sites()| && Edges()[i].dst < |Sites()|
    ensures var s := Sites()[Edges()[i].src]; var d := Sites()[Edges()[i].dst];
      s.y + 1 == d.y && (s.x + 1 == d.x || d.x + 1 == s.x)
  {
  }

  /** The site coordinates run past the declared grid size of 5 by 3. */
  lemma SitesExceedGrid()
    ensures Sites()[0].y >= DeviceTopology().ySize
    ensures Sites()[12].x >= DeviceTopology().xSize
  {
  }

  /** The QWG that drives each qubit, read off the connection map. */
  function QwgOf(q: nat): nat
    requires q < QubitCount
  {
    [2, 1, 1, 1, 2, 2, 2, 0, 0, 0, 2, 2, 2, 1, 1, 1, 2][q]
  }

  /** Every qubit is in the connection list of its QWG. */
  lemma QwgDrivesQubit(q: nat)
    requires q < QubitCount
    ensures DeviceResources().qwgCount == |DeviceResources().qwgMap|
    ensures QwgOf(q) < |DeviceResources().qwgMap| && q in DeviceResources().qwgMap[QwgOf(q)]
  {
  }

  /** A QWG lists only qubits of the chip that it drives: no qubit is in
      two lists. */
  lemma QwgListsOwnQubits(u: nat, q: nat)
    requires u < |DeviceResources().qwgMap| && q in DeviceResources().qwgMap[u]
    ensures q < QubitCount && QwgOf(q) == u
  {
  }

  /** Measurement unit u reads qubit u alone. */
  lemma MeasUnitPerQubit()
    ensures DeviceResources().measUnitCount == |DeviceResources().measMap| == QubitCount
    ensures forall u :: 0 <= u < QubitCount ==> DeviceResources().measMap[u] == [u]
  {
  }

  /** The hardware settings describe the same number of qubits as the
      resources, and take the buffers from the parameters. */
  lemma HardwareMatches(p: Params)
    ensures HardwareOf(p).qubitNumber == DeviceResources().qubitCount == QubitCount
    ensures HardwareOf(p).mwMwBuffer == p.mwMwBuffer && HardwareOf(p).mwFluxBuffer == p.mwFluxBuffer
    ensures HardwareOf(p).fluxMwBuffer == p.fluxMwBuffer
  {
  }

  // ---------------------------------------------------------------------
  // Gate decompositions
  // ---------------------------------------------------------------------

  /** The instruction templates a decomposition may expand into: every
      lookup-table pulse on the first operand `%0` or the second `%1`, and
      `cz` on both. */
  function StepTemplates(): seq<string>
  {
    ["i %0", "rx180 %0", "ry180 %0", "rx90 %0", "ry90 %0", "rxm90 %0", "rym90 %0",
     "rphi90 %0", "spec %0", "rx12 %0", "square %0",
     "i %1", "rx180 %1", "ry180 %1", "rx90 %1", "ry90 %1", "rxm90 %1", "rym90 %1",
     "rphi90 %1", "spec %1", "rx12 %1", "square %1",
     "cz %0,%1"]
  }

  /** The templates are the lookup-table pulses on each operand, and `cz`. */
  lemma StepTemplatesAreInstructions(i: nat)
    requires i < |LutHeads()|
    ensures |StepTemplates()| == 2 * |LutHeads()| + 1
    ensures StepTemplates()[i] == LutHeads()[i] + " %0"
    ensures StepTemplates()[|LutHeads()| + i] == LutHeads()[i] + " %1"
    ensures StepTemplates()[2 * |LutHeads()|] == "cz %0,%1"
  {
  }

  /** Every step of a Clifford decomposition is an instruction of the table. */
  lemma CliffordUsesTable(i: nat, j: nat)
    requires i < |CliffordDecompositions()| && j < |CliffordDecompositions()[i].steps|
    ensures CliffordDecompositions()[i].steps[j] in StepTemplates()
  {
  }

  /** Every step of the other decompositions is an instruction of the table. */
  lemma BasicUsesTable(i: nat, j: nat)
    requires i < |BasicDecompositions()| && j < |BasicDecompositions()[i].steps|
    ensures BasicDecompositions()[i].steps[j] in StepTemplates()
  {
  }

  /** Every step of every decomposition is an instruction of the table. */
  lemma DecompositionUsesTable(i: nat, j: nat)
    requires i < |GateDecompositions()| && j < |GateDecompositions()[i].steps|
    ensures GateDecompositions()[i].steps[j] in StepTemplates()
  {
    var b := BasicDecompositions();
    if i < |b| {
      assert GateDecompositions()[i] == b[i];
      BasicUsesTable(i, j);
    } else {
      assert GateDecompositions()[i] == CliffordDecompositions()[i - |b|];
      CliffordUsesTable(i - |b|, j);
    }
  }
}
