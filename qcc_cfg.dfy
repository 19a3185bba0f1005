/** The OpenQL configuration for the 17-qubit CC-Light set-up: a flat table
    of instructions, one entry per operation and target, together with the
    fixed hardware settings, resources, topology and gate decompositions. */
module QccCfg {
  import opened Wrappers
  import opened Numerals

  // ---------------------------------------------------------------------
  // Qubits, pulse names and flux pairs
  // ---------------------------------------------------------------------

  /** Number of qubits of the device, `q0` to `q16`. */
  const QubitCount: nat := 17

  /** The name of qubit q: `'q'` followed by its decimal index. */
  function QubitName(q: nat): (r: string)
    ensures |r| >= 2 && r[0] == 'q'
    ensures r[1..] == Decimal(q)
  {
    "q" + Decimal(q)
  }

  /** The pulses of the lookup table, by codeword; the instruction name is
      the pulse followed by a space and the qubit. */
  function LutHeads(): seq<string>
  {
    ["i", "rx180", "ry180", "rx90", "ry90", "rxm90", "rym90", "rphi90", "spec", "rx12", "square"]
  }

  /** Inverse of LutHeads: the codeword of a lookup-table pulse, 11 for a
      name that is none of them. */
  function LutCodeword(h: string): (cw: nat)
    ensures cw <= 11
  {
    if h == "i" then 0
    else if h == "rx180" then 1
    else if h == "ry180" then 2
    else if h == "rx90" then 3
    else if h == "ry90" then 4
    else if h == "rxm90" then 5
    else if h == "rym90" then 6
    else if h == "rphi90" then 7
    else if h == "spec" then 8
    else if h == "rx12" then 9
    else if h == "square" then 10
    else 11
  }

  /** Each of the 11 pulses is named once: LutCodeword reads back its
      codeword. */
  lemma LutCodewordOf(cw: nat)
    requires cw < |LutHeads()|
    ensures LutCodeword(LutHeads()[cw]) == cw
  {
  }

  /** The pairs the two-qubit flux instructions are defined on, as
      (control, target) indices. Each pair of the coupling map is listed
      with its reverse right after it. */
  function FluxTuples(): (r: seq<(nat, nat)>)
  {
    BothWays(Couplings())
  }

  /** The 24 couplings of the device, in the order they are listed. */
  function Couplings(): (r: seq<(nat, nat)>)
    ensures |r| == 24
  {
    [(0, 2), (0, 3), (1, 4), (1, 5), (2, 5), (2, 6), (3, 6), (4, 7), (5, 7), (5, 8), (6, 8), (6, 9),
     (7, 10), (8, 10), (8, 11), (9, 11), (9, 12), (10, 13), (10, 14), (11, 14), (11, 15), (12, 15), (13, 16), (14, 16)]
  }

  /** Each pair followed by its reverse. */
  function BothWays(ps: seq<(nat, nat)>): (r: seq<(nat, nat)>)
    ensures |r| == 2 * |ps|
  {
    seq(2 * |ps|, i requires 0 <= i < 2 * |ps| => if i % 2 == 0 then ps[i / 2] else (ps[i / 2].1, ps[i / 2].0))
  }

  /** A pair is listed both ways exactly when it, or its reverse, is one
      of the pairs. */
  lemma BothWaysMembers(ps: seq<(nat, nat)>, a: nat, b: nat)
    ensures (a, b) in BothWays(ps) <==> (a, b) in ps || (b, a) in ps
  {
    var r := BothWays(ps);
    if (a, b) in r {
      var i :| 0 <= i < |r| && r[i] == (a, b);
      assert ps[i / 2] == (a, b) || ps[i / 2] == (b, a);
    }
    if (a, b) in ps {
      var j :| 0 <= j < |ps| && ps[j] == (a, b);
      assert r[2 * j] == (a, b);
    }
    if (b, a) in ps {
      var j :| 0 <= j < |ps| && ps[j] == (b, a);
      assert r[2 * j + 1] == (a, b);
    }
  }

  /** Every coupling joins two distinct qubits of the device, the lower
      index first. */
  lemma CouplingsInRange(i: nat)
    requires i < |Couplings()|
    ensures Couplings()[i].0 < Couplings()[i].1 < QubitCount
  {
  }

  /** The flux pairs are closed under reversal, and each joins two distinct
      qubits of the device. */
  lemma FluxPair(a: nat, b: nat)
    requires (a, b) in FluxTuples()
    ensures (b, a) in FluxTuples()
    ensures a < QubitCount && b < QubitCount && a != b
  {
    BothWaysMembers(Couplings(), a, b);
    BothWaysMembers(Couplings(), b, a);
    CoupledQubits(a, b);
  }

  /** The two ends of a coupling are distinct qubits of the device. */
  lemma CoupledQubits(a: nat, b: nat)
    requires (a, b) in Couplings() || (b, a) in Couplings()
    ensures a < QubitCount && b < QubitCount && a != b
  {
    var i :| 0 <= i < |Couplings()| && (Couplings()[i] == (a, b) || Couplings()[i] == (b, a));
    CouplingsInRange(i);
  }

  // ---------------------------------------------------------------------
  // Instruction names
  // ---------------------------------------------------------------------

  /** The operations the table defines. Lut, IfOne and IfZero carry the
      lookup-table codeword (the plain pulse and its versions conditioned on
      the last measurement being 1 or 0), Cw a raw codeword, FluxCw a flux
      codeword; Cz is the two-qubit gate. */
  datatype Op =
    | Prepz
    | Measure
    | Lut(cw: nat)
    | IfOne(cw: nat)
    | IfZero(cw: nat)
    | Cw(cw: nat)
    | Compensate
    | Cz
    | FluxCw(cw: nat)

  predicate TwoQubit(op: Op)
  {
    op.Cz? || op.FluxCw?
  }

  /** The operations the table defines, with their codeword ranges. */
  predicate ValidOp(op: Op)
  {
    match op
    case Lut(cw) => cw < |LutHeads()|
    case IfOne(cw) => cw < |LutHeads()|
    case IfZero(cw) => cw < |LutHeads()|
    case Cw(cw) => cw < 32
    case FluxCw(cw) => cw < 8
    case _ => true
  }

  /** An instruction of the table: an operation and the qubit, or the
      ordered pair of qubits, it acts on. */
  datatype InstrKey = Single(op: Op, q: nat) | Pair(op: Op, a: nat, b: nat)

  predicate ValidKey(k: InstrKey)
  {
    ValidOp(k.op) &&
    match k
    case Single(op, q) => !TwoQubit(op) && q < QubitCount
    case Pair(op, a, b) => TwoQubit(op) && (a, b) in FluxTuples()
  }

  /** The codeword written with two digits, as `'{:02}'` does. */
  function Pad2(cw: nat): string
  {
    FormatPadded(cw, 2)
  }

  /** The name an operation goes by before its operands. */
  function Head(op: Op): string
    requires ValidOp(op)
  {
    match op
    case Prepz => "prepz"
    case Measure => "measure"
    case Lut(cw) => LutHeads()[cw]
    case IfOne(cw) => "c1" + LutHeads()[cw]
    case IfZero(cw) => "c0" + LutHeads()[cw]
    case Cw(cw) => "cw_" + Pad2(cw)
    case Compensate => "compensate"
    case Cz => "cz"
    case FluxCw(cw) => "fl_cw_" + Pad2(cw)
  }

  /** The key under which an instruction is stored: the operation's name,
      a space, then the qubit or the two qubits separated by a comma. */
  function KeyName(k: InstrKey): (r: string)
    requires ValidOp(k.op)
    ensures |r| > |Head(k.op)| && r[..|Head(k.op)|] == Head(k.op) && r[|Head(k.op)|] == ' '
  {
    Spaced(Head(k.op), OperandNames(k));
    Head(k.op) + " " + OperandNames(k)
  }

  /** The qubit, or the two qubits separated by a comma. */
  function OperandNames(k: InstrKey): string
  {
    match k
    case Single(_, q) => QubitName(q)
    case Pair(_, a, b) => QubitName(a) + "," + QubitName(b)
  }

  /** A name, a space and the rest keep the name in front of the space. */
  lemma Spaced(h: string, rest: string)
    ensures |h + " " + rest| > |h| && (h + " " + rest)[..|h|] == h && (h + " " + rest)[|h|] == ' '
  {
  }

  // ---------------------------------------------------------------------
  // Reading a name back
  // ---------------------------------------------------------------------

  /** The position of the first c in s, |s| when there is none. */
  function FindChar(s: string, c: char): (i: nat)
    ensures i <= |s|
    ensures forall j :: 0 <= j < i ==> s[j] != c
    ensures i < |s| ==> s[i] == c
  {
    if s == [] then 0 else if s[0] == c then 0 else 1 + FindChar(s[1..], c)
  }

  /** A qubit name of the device. */
  function ParseQubit(s: string): Option<nat>
  {
    if |s| >= 2 && s[0] == 'q' && AllDigits(s[1..], 10) && ValueOf(s[1..], 10) < QubitCount then
      Some(ValueOf(s[1..], 10))
    else
      None
  }

  /** Two decimal digits denoting a number below bound. */
  function ParseCodeword(s: string, bound: nat): Option<nat>
  {
    if |s| == 2 && AllDigits(s, 10) && ValueOf(s, 10) < bound then Some(ValueOf(s, 10)) else None
  }

  /** The operation a name before the operands denotes, told apart by its
      first character: flux codewords start with `f`; `compensate`, `cz`,
      the conditional pulses and the raw codewords with `c`. */
  function ParseHead(h: string): Option<Op>
  {
    if h == [] then None
    else if h[0] == 'f' then ParseFluxHead(h)
    else if h[0] == 'c' then ParseCHead(h)
    else ParsePlainHead(h)
  }

  function ParseFluxHead(h: string): Option<Op>
  {
    if |h| == 8 && h[..6] == "fl_cw_" && ParseCodeword(h[6..], 8).Some? then Some(FluxCw(ParseCodeword(h[6..], 8).value))
    else None
  }

  function ParseCHead(h: string): Option<Op>
  {
    if h == "compensate" then Some(Compensate)
    else if h == "cz" then Some(Cz)
    else if |h| >= 2 && h[..2] == "c1" && LutCodeword(h[2..]) < 11 then Some(IfOne(LutCodeword(h[2..])))
    else if |h| >= 2 && h[..2] == "c0" && LutCodeword(h[2..]) < 11 then Some(IfZero(LutCodeword(h[2..])))
    else if |h| == 5 && h[..3] == "cw_" && ParseCodeword(h[3..], 32).Some? then Some(Cw(ParseCodeword(h[3..], 32).value))
    else None
  }

  function ParsePlainHead(h: string): Option<Op>
  {
    if h == "prepz" then Some(Prepz)
    else if h == "measure" then Some(Measure)
    else if LutCodeword(h) < 11 then Some(Lut(LutCodeword(h)))
    else None
  }

  /** The instruction a table key names, None for a string that is not the
      key of any instruction of the table. */
  function ParseKey(s: string): Option<InstrKey>
  {
    var i := FindChar(s, ' ');
    if i == |s| then None
    else
      match ParseHead(s[..i])
      case None => None
      case Some(op) => ParseOperands(op, s[i + 1..])
  }

  /** The operands after the space: one qubit, or two separated by a comma
      for the two-qubit operations, where they must be a flux pair. */
  function ParseOperands(op: Op, rest: string): Option<InstrKey>
  {
    if TwoQubit(op) then
      var j := FindChar(rest, ',');
      if j == |rest| then None
      else
        match (ParseQubit(rest[..j]), ParseQubit(rest[j + 1..]))
        case (Some(a), Some(b)) => if (a, b) in FluxTuples() then Some(Pair(op, a, b)) else None
        case _ => None
    else
      match ParseQubit(rest)
      case Some(q) => Some(Single(op, q))
      case None => None
  }

  /** Splitting at the first c finds the piece before it when that piece
      holds no c. */
  lemma SplitAt(h: string, c: char, r: string)
    requires c !in h
    ensures FindChar(h + [c] + r, c) == |h|
    ensures (h + [c] + r)[..|h|] == h && (h + [c] + r)[|h| + 1..] == r
  {
    var s := h + [c] + r;
    var i := FindChar(s, c);
    assert s[|h|] == c;
    assert s[..|h|] == h;
    assert s[|h| + 1..] == r;
  }

  /** Digits are neither a space nor a comma. */
  lemma DigitsNoSeparator(s: string)
    requires AllDigits(s, 10)
    ensures ' ' !in s && ',' !in s
  {
  }

  /** A qubit name reads back as its qubit, and holds no separator. */
  lemma QubitNameRoundTrip(q: nat)
    requires q < QubitCount
    ensures ParseQubit(QubitName(q)) == Some(q)
    ensures ' ' !in QubitName(q) && ',' !in QubitName(q)
  {
    DigitsValue(q, 10);
    DigitsAreDigits(q, 10);
    DigitsNoSeparator(Decimal(q));
    assert QubitName(q) == "q" + Decimal(q);
  }

  /** A codeword below 100 is written with exactly two digits, which read
      back as the codeword. */
  lemma Pad2RoundTrip(cw: nat, bound: nat)
    requires cw < bound <= 100
    ensures |Pad2(cw)| == 2
    ensures ParseCodeword(Pad2(cw), bound) == Some(cw)
    ensures ' ' !in Pad2(cw)
  {
    assert Pow(10, 2) == 100 by {
      assert Pow(10, 0) == 1;
    }
    DigitsFit(cw, 10, 2);
    DigitsNoSeparator(Pad2(cw));
  }

  /** The name of an operation reads back as the operation, and holds no
      space. */
  lemma HeadRoundTrip(op: Op)
    requires ValidOp(op)
    ensures ParseHead(Head(op)) == Some(op)
    ensures ' ' !in Head(op)
  {
    match op
    case Lut(cw) => LutRoundTrip(cw);
    case IfOne(cw) => IfOneRoundTrip(cw);
    case IfZero(cw) => IfZeroRoundTrip(cw);
    case Cw(cw) => CwRoundTrip(cw);
    case FluxCw(cw) => FluxCwRoundTrip(cw);
    case _ =>
  }

  lemma LutRoundTrip(cw: nat)
    requires cw < |LutHeads()|
    ensures ParseHead(Head(Lut(cw))) == Some(Lut(cw)) && ' ' !in Head(Lut(cw))
  {
    LutCodewordOf(cw);
  }

  lemma IfOneRoundTrip(cw: nat)
    requires cw < |LutHeads()|
    ensures ParseHead(Head(IfOne(cw))) == Some(IfOne(cw)) && ' ' !in Head(IfOne(cw))
  {
    var h := Head(IfOne(cw));
    LutCodewordOf(cw);
    assert h[..2] == "c1" && h[2..] == LutHeads()[cw];
    assert h[0] == 'c';
  }

  lemma IfZeroRoundTrip(cw: nat)
    requires cw < |LutHeads()|
    ensures ParseHead(Head(IfZero(cw))) == Some(IfZero(cw)) && ' ' !in Head(IfZero(cw))
  {
    var h := Head(IfZero(cw));
    LutCodewordOf(cw);
    assert h[..2] == "c0" && h[2..] == LutHeads()[cw];
    assert h[0] == 'c' && h[1] == '0';
  }

  lemma CwRoundTrip(cw: nat)
    requires cw < 32
    ensures ParseHead(Head(Cw(cw))) == Some(Cw(cw)) && ' ' !in Head(Cw(cw))
  {
    var d := Pad2(cw);
    assert |d| == 2 && ParseCodeword(d, 32) == Some(cw) && ' ' !in d by {
      Pad2RoundTrip(cw, 32);
    }
    var h := "cw_" + d;
    assert h[..3] == "cw_" && h[3..] == d;
    assert h[0] == 'c' && h[1] == 'w' && |h| == 5;
  }

  lemma FluxCwRoundTrip(cw: nat)
    requires cw < 8
    ensures ParseHead(Head(FluxCw(cw))) == Some(FluxCw(cw)) && ' ' !in Head(FluxCw(cw))
  {
    var d := Pad2(cw);
    assert |d| == 2 && ParseCodeword(d, 8) == Some(cw) && ' ' !in d by {
      Pad2RoundTrip(cw, 8);
    }
    var h := "fl_cw_" + d;
    assert h[..6] == "fl_cw_" && h[6..] == d;
    assert h[0] == 'f' && |h| == 8;
  }

  /** Every key of the table reads back as the instruction it names. */
  lemma KeyNameRoundTrip(k: InstrKey)
    requires ValidKey(k)
    ensures ParseKey(KeyName(k)) == Some(k)
  {
    var h := Head(k.op);
    var rest := OperandNames(k);
    assert KeyName(k) == h + [' '] + rest;
    assert ParseHead(h) == Some(k.op) && ' ' !in h by {
      HeadRoundTrip(k.op);
    }
    assert ParseOperands(k.op, rest) == Some(k) by {
      OperandsRoundTrip(k);
    }
    ParseKeySplit(h, rest, k.op);
  }

  /** A key is read by its name up to the first space, then its operands. */
  lemma ParseKeySplit(h: string, rest: string, op: Op)
    requires ' ' !in h && ParseHead(h) == Some(op)
    ensures ParseKey(h + [' '] + rest) == ParseOperands(op, rest)
  {
    SplitAt(h, ' ', rest);
  }

  lemma OperandsRoundTrip(k: InstrKey)
    requires ValidKey(k)
    ensures ParseOperands(k.op, if k.Single? then QubitName(k.q) else QubitName(k.a) + [','] + QubitName(k.b)) == Some(k)
  {
    match k
    case Single(op, q) =>
      QubitNameRoundTrip(q);
    case Pair(op, a, b) =>
      PairOperandsRoundTrip(op, a, b);
  }

  lemma PairOperandsRoundTrip(op: Op, a: nat, b: nat)
    requires TwoQubit(op) && (a, b) in FluxTuples()
    ensures ParseOperands(op, QubitName(a) + [','] + QubitName(b)) == Some(Pair(op, a, b))
  {
    var qa, qb := QubitName(a), QubitName(b);
    var rest := qa + [','] + qb;
    assert a < QubitCount && b < QubitCount by {
      FluxPair(a, b);
    }
    assert ParseQubit(qa) == Some(a) && ',' !in qa by {
      QubitNameRoundTrip(a);
    }
    assert ParseQubit(qb) == Some(b) by {
      QubitNameRoundTrip(b);
    }
    SplitAt(qa, ',', qb);
  }

  /** Distinct instructions are stored under distinct keys. */
  lemma KeyNameInjective(k: InstrKey, l: InstrKey)
    requires ValidKey(k) && ValidKey(l) && KeyName(k) == KeyName(l)
    ensures k == l
  {
    KeyNameRoundTrip(k);
    KeyNameRoundTrip(l);
  }

  // ---------------------------------------------------------------------
  // Instruction entries
  // ---------------------------------------------------------------------

  /** The arguments of the generator (durations and latencies in ns). */
  datatype Params = Params(
    mwPulseDuration: int,
    fluxPulseDuration: int,
    roDuration: int,
    mwMwBuffer: int,
    mwFluxBuffer: int,
    fluxMwBuffer: int,
    roLatency: int,
    mwLatency: int,
    flLatency: int,
    initDuration: int)

  /** The defaults of the generator's keyword arguments. */
  function DefaultParams(): Params
  {
    Params(20, 40, 800, 0, 0, 0, 0, 0, 0, 200000)
  }

  /** The `type` field. */
  datatype Kind = NoKind | Readout | Mw | Flux

  /** The `cc_light_instr_type` field. */
  datatype GateClass = SingleQubitGate | TwoQubitGate

  /** `cc_light_codeword` of a single-qubit entry, or the right and left
      codewords of a two-qubit entry. */
  datatype Codewords = Codeword(cw: nat) | RightLeft(right: nat, left: nat)

  /** One entry of the instruction table; `cond` is `cc_light_cond` where
      the entry has one (1: only if the last measurement gave 1, 2: only if
      it gave 0). */
  datatype Entry = Entry(
    duration: int,
    latency: int,
    qubits: seq<nat>,
    matrix: seq<seq<real>>,
    disableOptimization: bool,
    kind: Kind,
    gateClass: GateClass,
    instr: string,
    codewords: Codewords,
    opcode: nat,
    cond: Option<nat>)

  /** The matrix every entry carries. */
  function PlaceholderMatrix(): seq<seq<real>>
  {
    [[0.0, 1.0], [1.0, 0.0], [1.0, 0.0], [0.0, 0.0]]
  }

  /** A microwave pulse on qubit q. */
  function MwEntry(p: Params, q: nat, instr: string, cw: nat, opcode: nat, cond: Option<nat>): Entry
  {
    Entry(p.mwPulseDuration, p.mwLatency, [q], PlaceholderMatrix(), false, Mw, SingleQubitGate,
          instr, Codeword(cw), opcode, cond)
  }

  /** A flux pulse with codeword cw on the pair (a, b). */
  function FluxEntry(p: Params, a: nat, b: nat, cw: nat): Entry
  {
    Entry(p.fluxPulseDuration, p.flLatency, [a, b], PlaceholderMatrix(), true, Flux, TwoQubitGate,
          "fl_cw_" + Pad2(cw), RightLeft(cw, cw), 128 + cw, None)
  }

  /** The entry the generator stores for an instruction of the table. */
  function EntryOf(p: Params, k: InstrKey): (r: Entry)
    requires ValidKey(k)
    ensures r.qubits == if k.Single? then [k.q] else [k.a, k.b]
  {
    match k
    case Single(Prepz, q) =>
      Entry(p.initDuration, 0, [q], PlaceholderMatrix(), true, NoKind, SingleQubitGate,
            "prepz", Codeword(0), 2, None)
    case Single(Measure, q) =>
      Entry(p.roDuration, p.roLatency, [q], PlaceholderMatrix(), false, Readout, SingleQubitGate,
            "measz", Codeword(0), 4, None)
    case Single(Lut(cw), q) => MwEntry(p, q, "cw_" + Pad2(cw), cw, 8 + cw, None)
    case Single(IfOne(cw), q) => MwEntry(p, q, "C1_cw_" + Pad2(cw), cw, 32 + 8 + cw, Some(1))
    case Single(IfZero(cw), q) => MwEntry(p, q, "C0_cw_" + Pad2(cw), cw, 32 + 16 + cw, Some(2))
    case Single(Cw(cw), q) => MwEntry(p, q, "cw_" + Pad2(cw), cw, 8 + cw, None)
    case Single(Compensate, q) => MwEntry(p, q, "cw_00", 0, 8 + 0, None)
    case Pair(Cz, a, b) => FluxEntry(p, a, b, 1)
    case Pair(FluxCw(cw), a, b) => FluxEntry(p, a, b, cw)
  }

  // ---------------------------------------------------------------------
  // Filling the table
  // ---------------------------------------------------------------------

  /** The table holds exactly the instructions of done, each under its
      name and with its entry, and every name reads back as its
      instruction. */
  predicate Exact<K>(table: map<string, Entry>, done: set<K>,
                     name: K -> string, entry: K -> Entry, parse: string -> Option<K>)
  {
    (forall k {:trigger name(k)} :: k in done ==> parse(name(k)) == Some(k) && name(k) in table && table[name(k)] == entry(k)) &&
    (forall s {:trigger parse(s)} :: s in table ==> parse(s).Some? && parse(s).value in done && name(parse(s).value) == s)
  }

  /** Storing one more instruction keeps the table exact: since names read
      back, its name is new or already its own. */
  lemma AddExact<K>(table: map<string, Entry>, done: set<K>,
                    name: K -> string, entry: K -> Entry, parse: string -> Option<K>, k: K)
    requires Exact(table, done, name, entry, parse)
    requires parse(name(k)) == Some(k)
    ensures Exact(table[name(k) := entry(k)], done + {k}, name, entry, parse)
  {
    var t := table[name(k) := entry(k)];
    forall l | l in done + {k}
      ensures parse(name(l)) == Some(l) && name(l) in t && t[name(l)] == entry(l)
    {
      if name(l) == name(k) {
        assert Some(l) == Some(k);
      }
    }
  }

  /** What an exact table says about one instruction of done. */
  lemma ExactAt<K>(table: map<string, Entry>, done: set<K>,
                   name: K -> string, entry: K -> Entry, parse: string -> Option<K>, k: K)
    requires Exact(table, done, name, entry, parse) && k in done
    ensures name(k) in table && table[name(k)] == entry(k)
  {
  }

  /** What an exact table says about one of its keys. */
  lemma ExactKey<K>(table: map<string, Entry>, done: set<K>,
                    name: K -> string, entry: K -> Entry, parse: string -> Option<K>, s: string)
    requires Exact(table, done, name, entry, parse) && s in table
    ensures parse(s).Some? && parse(s).value in done && name(parse(s).value) == s
  {
  }

  /** The key of an instruction as a total function. */
  function NameOf(k: InstrKey): string
  {
    if ValidOp(k.op) then KeyName(k) else ""
  }

  /** The entries of the table as a total function. */
  function Entries(p: Params): InstrKey -> Entry
  {
    k => if ValidKey(k) then EntryOf(p, k) else Entry(0, 0, [], [], false, NoKind, SingleQubitGate, "", Codeword(0), 0, None)
  }

  /** The table holds exactly the instructions of done. */
  predicate Holds(p: Params, table: map<string, Entry>, done: set<InstrKey>)
  {
    Exact(table, done, NameOf, Entries(p), ParseKey)
  }

  /** Storing a valid instruction under its key keeps the table exact. */
  lemma AddHolds(p: Params, table: map<string, Entry>, done: set<InstrKey>, k: InstrKey)
    requires Holds(p, table, done) && ValidKey(k)
    ensures Holds(p, table[NameOf(k) := Entries(p)(k)], done + {k})
  {
    KeyNameRoundTrip(k);
    AddExact(table, done, NameOf, Entries(p), ParseKey, k);
  }

  /** `cfg["instructions"][<key of k>] = <entry of k>` */
  method Put(p: Params, table: map<string, Entry>, ghost done: set<InstrKey>, k: InstrKey)
    returns (table': map<string, Entry>, ghost done': set<InstrKey>)
    requires ValidKey(k) && Holds(p, table, done)
    ensures Holds(p, table', done') && done' == done + {k}
    ensures table' == table[NameOf(k) := Entries(p)(k)]
  {
    AddHolds(p, table, done, k);
    table' := table[NameOf(k) := Entries(p)(k)];
    done' := done + {k};
  }

  /** Adding op on qubit q extends the qubits covered by one. */
  lemma SingleStep(done: set<InstrKey>, before: set<InstrKey>, after: set<InstrKey>, op: Op, q: nat)
    requires forall k :: k in before <==> k in done || (k.Single? && k.op == op && k.q < q)
    requires after == before + {Single(op, q)}
    ensures forall k :: k in after <==> k in done || (k.Single? && k.op == op && k.q < q + 1)
  {
  }

  /** Adding op on the next pair extends the pairs covered by one. */
  lemma PairStep(done: set<InstrKey>, before: set<InstrKey>, after: set<InstrKey>, op: Op,
                 tuples: seq<(nat, nat)>, t: nat)
    requires t < |tuples|
    requires forall k :: k in before <==> k in done || (k.Pair? && k.op == op && (k.a, k.b) in tuples[..t])
    requires after == before + {Pair(op, tuples[t].0, tuples[t].1)}
    ensures forall k :: k in after <==> k in done || (k.Pair? && k.op == op && (k.a, k.b) in tuples[..t + 1])
  {
    assert tuples[..t + 1] == tuples[..t] + [tuples[t]];
  }

  /** `for q in qubits: cfg["instructions"]["<op> q"] = ...` */
  method AddSingles(p: Params, op: Op, table: map<string, Entry>, ghost done: set<InstrKey>)
    returns (table': map<string, Entry>, ghost done': set<InstrKey>)
    requires ValidOp(op) && !TwoQubit(op)
    requires Holds(p, table, done)
    ensures Holds(p, table', done')
    ensures forall k :: k in done' <==> k in done || (k.Single? && k.op == op && k.q < QubitCount)
  {
    table', done' := table, done;
    for q := 0 to QubitCount
      invariant Holds(p, table', done')
      invariant forall k :: k in done' <==> k in done || (k.Single? && k.op == op && k.q < q)
    {
      ghost var before := done';
      table', done' := Put(p, table', done', Single(op, q));
      SingleStep(done, before, done', op, q);
    }
  }

  /** The plain lookup-table pulse of codeword cw and its two conditional
      versions. */
  predicate LutFamily(op: Op, cw: nat)
  {
    op == Lut(cw) || op == IfOne(cw) || op == IfZero(cw)
  }

  /** Adding the three pulses of codeword cw on qubit q extends the
      qubits covered by one. */
  lemma LutFamilyStep(done: set<InstrKey>, before: set<InstrKey>, after: set<InstrKey>, cw: nat, q: nat)
    requires forall k :: k in before <==> k in done || (k.Single? && LutFamily(k.op, cw) && k.q < q)
    requires after == before + {Single(Lut(cw), q)} + {Single(IfOne(cw), q)} + {Single(IfZero(cw), q)}
    ensures forall k :: k in after <==> k in done || (k.Single? && LutFamily(k.op, cw) && k.q < q + 1)
  {
  }

  /** `for q in qubits:` the plain lookup-table pulse of codeword cw and its
      two conditional versions. */
  method AddLutPulses(p: Params, cw: nat, table: map<string, Entry>, ghost done: set<InstrKey>)
    returns (table': map<string, Entry>, ghost done': set<InstrKey>)
    requires cw < |LutHeads()|
    requires Holds(p, table, done)
    ensures Holds(p, table', done')
    ensures forall k :: k in done' <==> k in done || (k.Single? && LutFamily(k.op, cw) && k.q < QubitCount)
  {
    table', done' := table, done;
    for q := 0 to QubitCount
      invariant Holds(p, table', done')
      invariant forall k :: k in done' <==> k in done || (k.Single? && LutFamily(k.op, cw) && k.q < q)
    {
      ghost var before := done';
      table', done' := PutLutPulses(p, cw, q, table', done');
      LutFamilyStep(done, before, done', cw, q);
    }
  }

  /** The body of the qubit loop: the plain, `c1` and `c0` pulses of one
      codeword on qubit q, stored under their keys. */
  method PutLutPulses(p: Params, cw: nat, q: nat, table: map<string, Entry>, ghost done: set<InstrKey>)
    returns (table': map<string, Entry>, ghost done': set<InstrKey>)
    requires cw < |LutHeads()| && q < QubitCount
    requires Holds(p, table, done)
    ensures Holds(p, table', done')
    ensures done' == done + {Single(Lut(cw), q), Single(IfOne(cw), q), Single(IfZero(cw), q)}
  {
    table', done' := Put(p, table, done, Single(Lut(cw), q));
    table', done' := PutConditioned(p, cw, q, table', done');
  }

  /** The `c1` and `c0` pulses of one codeword on qubit q. */
  method PutConditioned(p: Params, cw: nat, q: nat, table: map<string, Entry>, ghost done: set<InstrKey>)
    returns (table': map<string, Entry>, ghost done': set<InstrKey>)
    requires cw < |LutHeads()| && q < QubitCount
    requires Holds(p, table, done)
    ensures Holds(p, table', done')
    ensures done' == done + {Single(IfOne(cw), q), Single(IfZero(cw), q)}
  {
    table', done' := Put(p, table, done, Single(IfOne(cw), q));
    table', done' := Put(p, table', done', Single(IfZero(cw), q));
  }

  /** `for ft in flux_tuples: cfg["instructions"]["<op> a,b"] = ...` */
  method AddPairs(p: Params, op: Op, table: map<string, Entry>, ghost done: set<InstrKey>)
    returns (table': map<string, Entry>, ghost done': set<InstrKey>)
    requires ValidOp(op) && TwoQubit(op)
    requires Holds(p, table, done)
    ensures Holds(p, table', done')
    ensures forall k :: k in done' <==> k in done || (k.Pair? && k.op == op && (k.a, k.b) in FluxTuples())
  {
    table', done' := table, done;
    var tuples := FluxTuples();
    for t := 0 to |tuples|
      invariant Holds(p, table', done')
      invariant forall k :: k in done' <==> k in done || (k.Pair? && k.op == op && (k.a, k.b) in tuples[..t])
    {
      var k := Pair(op, tuples[t].0, tuples[t].1);
      assert (k.a, k.b) in tuples;
      ghost var before := done';
      table', done' := Put(p, table', done', k);
      PairStep(done, before, done', op, tuples, t);
    }
    assert tuples[..|tuples|] == tuples;
  }

  // ---------------------------------------------------------------------
  // The configuration
  // ---------------------------------------------------------------------

  /** `hardware_settings`: buffers between pulse kinds, in ns. */
  datatype HardwareSettings = HardwareSettings(
    qubitNumber: nat,
    cycleTime: nat,
    mwMwBuffer: int,
    mwFluxBuffer: int,
    mwReadoutBuffer: int,
    fluxMwBuffer: int,
    fluxFluxBuffer: int,
    fluxReadoutBuffer: int,
    readoutMwBuffer: int,
    readoutFluxBuffer: int,
    readoutReadoutBuffer: int)

  function HardwareOf(p: Params): HardwareSettings
  {
    HardwareSettings(17, 20, p.mwMwBuffer, p.mwFluxBuffer, 0, p.fluxMwBuffer, 0, 0, 0, 0, 0)
  }

  /** `resources`: each connection map is indexed by unit, the JSON keys
      "0", "1", ... being the unit's position. */
  datatype Resources = Resources(
    qubitCount: nat,
    qwgCount: nat,
    qwgMap: seq<seq<nat>>,
    measUnitCount: nat,
    measMap: seq<seq<nat>>,
    edgeCount: nat,
    edgeMap: seq<seq<nat>>)

  function DeviceResources(): Resources
  {
    Resources(
      17,
      3, [[7, 8, 9], [1, 2, 3, 13, 14, 15], [0, 4, 5, 6, 10, 11, 12, 16]],
      17, [[0], [1], [2], [3], [4], [5], [6], [7], [8], [9], [10], [11], [12], [13], [14], [15], [16]],
      24, [[], [], [], [], [], [], [], [], [], [], [], [], [], [], [], [], [], [], [], [], [], [], [], []])
  }

  /** A qubit's position on the chip. */
  datatype Site = Site(id: nat, x: nat, y: nat)

  /** A directed edge of the coupling graph. */
  datatype Edge = Edge(id: nat, src: nat, dst: nat)

  datatype Topology = Topology(xSize: nat, ySize: nat, sites: seq<Site>, edges: seq<Edge>)

  function Sites(): seq<Site>
  {
    [Site(0, 4, 6), Site(1, 1, 5), Site(2, 3, 5), Site(3, 5, 5), Site(4, 0, 4), Site(5, 2, 4),
     Site(6, 4, 4), Site(7, 1, 3), Site(8, 3, 3), Site(9, 5, 3), Site(10, 2, 2), Site(11, 4, 2),
     Site(12, 6, 2), Site(13, 1, 1), Site(14, 3, 1), Site(15, 5, 1), Site(16, 2, 0)]
  }

  function Edges(): seq<Edge>
  {
    [Edge(0, 2, 0), Edge(1, 3, 0), Edge(2, 4, 1), Edge(3, 5, 1), Edge(4, 5, 2), Edge(5, 6, 2),
     Edge(6, 6, 3), Edge(7, 7, 4), Edge(8, 7, 5), Edge(9, 8, 5), Edge(10, 8, 6), Edge(11, 9, 6),
     Edge(12, 10, 7), Edge(13, 10, 8), Edge(14, 11, 8), Edge(15, 11, 9), Edge(16, 12, 9), Edge(17, 13, 10),
     Edge(18, 14, 10), Edge(19, 14, 11), Edge(20, 15, 11), Edge(21, 15, 12), Edge(22, 16, 13), Edge(23, 16, 14)]
  }

  function DeviceTopology(): Topology
  {
    Topology(5, 3, Sites(), Edges())
  }

  /** A `gate_decomposition` entry: the gate with its operands `%0`, `%1`,
      and the instructions it expands into. */
  datatype Decomposition = Decomposition(gate: string, steps: seq<string>)

  function GateDecompositions(): seq<Decomposition>
  {
    BasicDecompositions() + CliffordDecompositions()
  }

  /** The named gates and the alternative spellings of the pulses. */
  function BasicDecompositions(): seq<Decomposition>
  {
    [Decomposition("x %0", ["rx180 %0"]),
     Decomposition("y %0", ["ry180 %0"]),
     Decomposition("roty90 %0", ["ry90 %0"]),
     Decomposition("cnot %0,%1", ["ry90 %1", "cz %0,%1", "ry90 %1"]),
     Decomposition("x180 %0", ["rx180 %0"]),
     Decomposition("y180 %0", ["ry180 %0"]),
     Decomposition("y90 %0", ["ry90 %0"]),
     Decomposition("x90 %0", ["rx90 %0"]),
     Decomposition("my90 %0", ["rym90 %0"]),
     Decomposition("mx90 %0", ["rxm90 %0"])]
  }

  /** The 24 single-qubit Cliffords as pulse sequences. */
  function CliffordDecompositions(): seq<Decomposition>
  {
    [Decomposition("cl_0 %0", ["i %0"]),
     Decomposition("cl_1 %0", ["ry90 %0", "rx90 %0"]),
     Decomposition("cl_2 %0", ["rxm90 %0", "rym90 %0"]),
     Decomposition("cl_3 %0", ["rx180 %0"]),
     Decomposition("cl_4 %0", ["rym90 %0", "rxm90 %0"]),
     Decomposition("cl_5 %0", ["rx90 %0", "rym90 %0"]),
     Decomposition("cl_6 %0", ["ry180 %0"]),
     Decomposition("cl_7 %0", ["rym90 %0", "rx90 %0"]),
     Decomposition("cl_8 %0", ["rx90 %0", "ry90 %0"]),
     Decomposition("cl_9 %0", ["rx180 %0", "ry180 %0"]),
     Decomposition("cl_10 %0", ["ry90 %0", "rxm90 %0"]),
     Decomposition("cl_11 %0", ["rxm90 %0", "ry90 %0"]),
     Decomposition("cl_12 %0", ["ry90 %0", "rx180 %0"]),
     Decomposition("cl_13 %0", ["rxm90 %0"]),
     Decomposition("cl_14 %0", ["rx90 %0", "rym90 %0", "rxm90 %0"]),
     Decomposition("cl_15 %0", ["rym90 %0"]),
     Decomposition("cl_16 %0", ["rx90 %0"]),
     Decomposition("cl_17 %0", ["rx90 %0", "ry90 %0", "rx90 %0"]),
     Decomposition("cl_18 %0", ["rym90 %0", "rx180 %0"]),
     Decomposition("cl_19 %0", ["rx90 %0", "ry180 %0"]),
     Decomposition("cl_20 %0", ["rx90 %0", "rym90 %0", "rx90 %0"]),
     Decomposition("cl_21 %0", ["ry90 %0"]),
     Decomposition("cl_22 %0", ["rxm90 %0", "ry180 %0"]),
     Decomposition("cl_23 %0", ["rx90 %0", "ry90 %0", "rxm90 %0"])]
  }

  /** The whole configuration file. */
  datatype Config = Config(
    compiler: string,
    hardware: HardwareSettings,
    instructions: map<string, Entry>,
    resources: Resources,
    topology: Topology,
    decompositions: seq<Decomposition>)

  /** The order in which the generator's loops add the instructions of an
      operation. */
  function Stage(op: Op): nat
  {
    match op
    case Prepz => 0
    case Measure => 1
    case Lut(cw) => 2 + cw
    case IfOne(cw) => 2 + cw
    case IfZero(cw) => 2 + cw
    case Cw(cw) => 13 + cw
    case Compensate => 45
    case Cz => 46
    case FluxCw(cw) => 47 + cw
  }

  /** Every valid instruction added before stage st is in done. */
  ghost predicate Covered(done: set<InstrKey>, st: nat)
  {
    forall k :: ValidKey(k) && Stage(k.op) < st ==> k in done
  }

  /** done' is done plus exactly the valid instructions of stages lo to
      hi - 1. */
  ghost predicate Extends(done: set<InstrKey>, done': set<InstrKey>, lo: nat, hi: nat)
  {
    forall k :: k in done' <==> k in done || (ValidKey(k) && lo <= Stage(k.op) < hi)
  }

  /** Extending a covered set by the following stages covers those too. */
  lemma ExtendsCovers(done: set<InstrKey>, done': set<InstrKey>, lo: nat, hi: nat)
    requires Covered(done, lo) && Extends(done, done', lo, hi)
    ensures Covered(done', hi)
  {
  }

  /** The instructions of a single-qubit operation outside the lookup
      table are the only ones of its stage. */
  lemma ExtendSingles(done: set<InstrKey>, before: set<InstrKey>, after: set<InstrKey>, op: Op, lo: nat)
    requires ValidOp(op) && !TwoQubit(op) && !op.Lut? && !op.IfOne? && !op.IfZero? && lo <= Stage(op)
    requires Extends(done, before, lo, Stage(op))
    requires forall k :: k in after <==> k in before || (k.Single? && k.op == op && k.q < QubitCount)
    ensures Extends(done, after, lo, Stage(op) + 1)
  {
    forall k: InstrKey
      ensures ValidKey(k) && Stage(k.op) == Stage(op) <==> k.Single? && k.op == op && k.q < QubitCount
    {
      if ValidKey(k) && Stage(k.op) == Stage(op) {
        assert k.op == op;
      }
    }
  }

  /** The three pulses of lookup-table codeword cw are the only
      instructions of its stage. */
  lemma ExtendLut(done: set<InstrKey>, before: set<InstrKey>, after: set<InstrKey>, cw: nat)
    requires cw < |LutHeads()|
    requires Extends(done, before, 2, 2 + cw)
    requires forall k :: k in after <==> k in before || (k.Single? && LutFamily(k.op, cw) && k.q < QubitCount)
    ensures Extends(done, after, 2, 2 + cw + 1)
  {
    forall k: InstrKey
      ensures ValidKey(k) && Stage(k.op) == 2 + cw <==> k.Single? && LutFamily(k.op, cw) && k.q < QubitCount
    {
    }
  }

  /** The instructions of a two-qubit operation are the only ones of its
      stage. */
  lemma ExtendPairs(done: set<InstrKey>, before: set<InstrKey>, after: set<InstrKey>, op: Op, lo: nat)
    requires ValidOp(op) && TwoQubit(op) && lo <= Stage(op)
    requires Extends(done, before, lo, Stage(op))
    requires forall k :: k in after <==> k in before || (k.Pair? && k.op == op && (k.a, k.b) in FluxTuples())
    ensures Extends(done, after, lo, Stage(op) + 1)
  {
    forall k: InstrKey
      ensures ValidKey(k) && Stage(k.op) == Stage(op) <==> k.Pair? && k.op == op && (k.a, k.b) in FluxTuples()
    {
      if ValidKey(k) && Stage(k.op) == Stage(op) {
        assert k.op == op;
      }
    }
  }

  /** The `prepz` and `measure` instructions of every qubit, and nothing
      else. */
  method AddInitAndReadout(p: Params, table: map<string, Entry>, ghost done: set<InstrKey>)
    returns (table': map<string, Entry>, ghost done': set<InstrKey>)
    requires Holds(p, table, done) && Covered(done, 0)
    ensures Holds(p, table', done') && Covered(done', 2)
    ensures Extends(done, done', 0, 2)
  {
    ghost var before := done;
    table', done' := AddSingles(p, Prepz, table, done);
    ExtendSingles(done, before, done', Prepz, 0);
    before := done';
    table', done' := AddSingles(p, Measure, table', done');
    ExtendSingles(done, before, done', Measure, 0);
    ExtendsCovers(done, done', 0, 2);
  }

  /** The lookup-table pulses, plain and conditional, of every qubit, and
      nothing else. */
  method AddLutTable(p: Params, table: map<string, Entry>, ghost done: set<InstrKey>)
    returns (table': map<string, Entry>, ghost done': set<InstrKey>)
    requires Holds(p, table, done) && Covered(done, 2)
    ensures Holds(p, table', done') && Covered(done', 13)
    ensures Extends(done, done', 2, 13)
  {
    table', done' := table, done;
    for cw := 0 to |LutHeads()|
      invariant Holds(p, table', done') && Extends(done, done', 2, 2 + cw)
    {
      ghost var before := done';
      table', done' := AddLutPulses(p, cw, table', done');
      ExtendLut(done, before, done', cw);
    }
    ExtendsCovers(done, done', 2, 13);
  }

  /** The raw codeword instructions `cw_00` to `cw_31` of every qubit, and
      nothing else. */
  method AddCodewordTable(p: Params, table: map<string, Entry>, ghost done: set<InstrKey>)
    returns (table': map<string, Entry>, ghost done': set<InstrKey>)
    requires Holds(p, table, done) && Covered(done, 13)
    ensures Holds(p, table', done') && Covered(done', 45)
    ensures Extends(done, done', 13, 45)
  {
    table', done' := table, done;
    for cw := 0 to 32
      invariant Holds(p, table', done') && Extends(done, done', 13, 13 + cw)
    {
      ghost var before := done';
      table', done' := AddSingles(p, Cw(cw), table', done');
      ExtendSingles(done, before, done', Cw(cw), 13);
    }
    ExtendsCovers(done, done', 13, 45);
  }

  /** `compensate` on every qubit and `cz` on every coupled pair, and
      nothing else. */
  method AddCompensateAndCz(p: Params, table: map<string, Entry>, ghost done: set<InstrKey>)
    returns (table': map<string, Entry>, ghost done': set<InstrKey>)
    requires Holds(p, table, done) && Covered(done, 45)
    ensures Holds(p, table', done') && Covered(done', 47)
    ensures Extends(done, done', 45, 47)
  {
    ghost var before := done;
    table', done' := AddSingles(p, Compensate, table, done);
    ExtendSingles(done, before, done', Compensate, 45);
    before := done';
    table', done' := AddPairs(p, Cz, table', done');
    ExtendPairs(done, before, done', Cz, 45);
    ExtendsCovers(done, done', 45, 47);
  }

  /** The flux codewords `fl_cw_00` to `fl_cw_07` of every coupled pair,
      and nothing else. */
  method AddFluxTable(p: Params, table: map<string, Entry>, ghost done: set<InstrKey>)
    returns (table': map<string, Entry>, ghost done': set<InstrKey>)
    requires Holds(p, table, done) && Covered(done, 47)
    ensures Holds(p, table', done') && Covered(done', 55)
    ensures Extends(done, done', 47, 55)
  {
    table', done' := table, done;
    for cw := 0 to 8
      invariant Holds(p, table', done') && Extends(done, done', 47, 47 + cw)
    {
      ghost var before := done';
      table', done' := AddPairs(p, FluxCw(cw), table', done');
      ExtendPairs(done, before, done', FluxCw(cw), 47);
    }
    ExtendsCovers(done, done', 47, 55);
  }

  /** `generate_config`, up to the file write: the fixed settings, and an
      instruction table holding exactly one entry per instruction of the
      device, under its key and with its fields. */
  method GenerateConfig(p: Params) returns (cfg: Config)
    ensures cfg.compiler == "cc_light_compiler"
    ensures cfg.hardware == HardwareOf(p) && cfg.resources == DeviceResources()
    ensures cfg.topology == DeviceTopology() && cfg.decompositions == GateDecompositions()
    ensures forall k :: ValidKey(k) ==> KeyName(k) in cfg.instructions && cfg.instructions[KeyName(k)] == EntryOf(p, k)
    ensures forall s :: s in cfg.instructions ==>
      ParseKey(s).Some? && ValidKey(ParseKey(s).value) && KeyName(ParseKey(s).value) == s
  {
    var table: map<string, Entry> := map[];
    ghost var done: set<InstrKey> := {};
    table, done := AddInitAndReadout(p, table, done);
    table, done := AddLutTable(p, table, done);
    table, done := AddCodewordTable(p, table, done);
    table, done := AddCompensateAndCz(p, table, done);
    table, done := AddFluxTable(p, table, done);
    HoldsComplete(p, table, done);
    cfg := Config("cc_light_compiler", HardwareOf(p), table, DeviceResources(), DeviceTopology(), GateDecompositions());
  }

  /** A table holding every instruction of stages up to the last holds
      every valid instruction, and nothing else. */
  lemma HoldsComplete(p: Params, table: map<string, Entry>, done: set<InstrKey>)
    requires Holds(p, table, done) && Covered(done, 55)
    ensures forall k :: ValidKey(k) ==> KeyName(k) in table && table[KeyName(k)] == EntryOf(p, k)
    ensures forall s :: s in table ==> ParseKey(s).Some? && ValidKey(ParseKey(s).value) && KeyName(ParseKey(s).value) == s
  {
    forall k | ValidKey(k)
      ensures KeyName(k) in table && table[KeyName(k)] == EntryOf(p, k)
    {
      assert k in done;
      ExactAt(table, done, NameOf, Entries(p), ParseKey, k);
      assert NameOf(k) == KeyName(k) && Entries(p)(k) == EntryOf(p, k);
    }
    forall s | s in table
      ensures ParseKey(s).Some? && ValidKey(ParseKey(s).value) && KeyName(ParseKey(s).value) == s
    {
      ExactKey(table, done, NameOf, Entries(p), ParseKey, s);
      var k := ParseKey(s).value;
      ExactAt(table, done, NameOf, Entries(p), ParseKey, k);
      assert ValidKey(k);
      assert NameOf(k) == KeyName(k);
    }
  }
}
