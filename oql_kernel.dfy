/** The gate lists the OpenQL sequence builders emit. A kernel is a named,
    append-only list of instructions; a program is the list of its kernels
    in the order they were added. */
module OqlKernel {
  import opened Numerals
  import opened ArrayLayout

  /** One call on a kernel: `prepz`, `measure`, `barrier`, `gate(name,
      qubits)` and the `gate("wait", qubits, duration)` form. Qubits are
      addressed by index. */
  datatype Instr =
    | Prepz(q: int)
    | Measure(q: int)
    | Barrier(qs: seq<int>)
    | Gate(name: string, qs: seq<int>)
    | Wait(qs: seq<int>, duration: int)

  datatype Kernel = Kernel(name: string, body: seq<Instr>)

  /** The exceptions the builders raise; TypeError is the one OpenQL
      raises for an operand that is not a qubit index. */
  datatype OqlError = ValueError | NotImplementedError | AssertionError | IndexError | TypeError

  /** A sequence opens with its first part and closes with its last. */
  lemma Bracketed<T>(a: seq<T>, m: seq<T>, b: seq<T>)
    ensures |a + m + b| == |a| + |m| + |b|
    ensures (a + m + b)[..|a|] == a && (a + m + b)[|a| + |m|..] == b
  {
  }

  /** The same for a body written out as preparation, four segments,
      measurement and a closing instruction. */
  lemma Bracketed4<T>(a: seq<T>, x1: seq<T>, x2: seq<T>, x3: seq<T>, x4: seq<T>, b: seq<T>, e: T)
    ensures var r := a + x1 + x2 + x3 + x4 + b + [e];
      |r| == |a| + |x1| + |x2| + |x3| + |x4| + |b| + 1 && r[..|a|] == a && r[|r| - |b| - 1..] == b + [e]
  {
    var r := a + x1 + x2 + x3 + x4 + b + [e];
    assert r == a + (x1 + x2 + x3 + x4) + (b + [e]);
    Bracketed(a, x1 + x2 + x3 + x4, b + [e]);
  }

  /** And with five segments. */
  lemma Bracketed5<T>(a: seq<T>, x1: seq<T>, x2: seq<T>, x3: seq<T>, x4: seq<T>, x5: seq<T>, b: seq<T>, e: T)
    ensures var r := a + x1 + x2 + x3 + x4 + x5 + b + [e];
      |r| == |a| + |x1| + |x2| + |x3| + |x4| + |x5| + |b| + 1 && r[..|a|] == a && r[|r| - |b| - 1..] == b + [e]
  {
    var r := a + x1 + x2 + x3 + x4 + x5 + b + [e];
    assert r == a + (x1 + x2 + x3 + x4 + x5) + (b + [e]);
    Bracketed(a, x1 + x2 + x3 + x4 + x5, b + [e]);
  }

  /** `for q in qs: k.prepz(q)` */
  function PrepzAll(qs: seq<int>): (r: seq<Instr>)
    ensures |r| == |qs|
  {
    if |qs| == 0 then [] else PrepzAll(qs[..|qs| - 1]) + [Prepz(qs[|qs| - 1])]
  }

  /** `for q in qs: k.measure(q)` */
  function MeasureAll(qs: seq<int>): (r: seq<Instr>)
    ensures |r| == |qs|
  {
    if |qs| == 0 then [] else MeasureAll(qs[..|qs| - 1]) + [Measure(qs[|qs| - 1])]
  }

  /** `for q in qs: k.gate(name, [q])` */
  function GateAll(name: string, qs: seq<int>): (r: seq<Instr>)
    ensures |r| == |qs|
  {
    if |qs| == 0 then [] else GateAll(name, qs[..|qs| - 1]) + [Gate(name, [qs[|qs| - 1]])]
  }

  /** The kernel body made of consecutive segments. */
  function Join(segments: seq<seq<Instr>>): seq<Instr>
  {
    if |segments| == 0 then [] else Join(segments[..|segments| - 1]) + segments[|segments| - 1]
  }

  /** sub occurs in s at position i. */
  predicate OccursAt(s: string, sub: string, i: int)
  {
    0 <= i <= |s| - |sub| && s[i..i + |sub|] == sub
  }

  /** sub occurs in s (Python's `sub in s`). */
  predicate Contains(s: string, sub: string)
  {
    exists i :: 0 <= i <= |s| - |sub| && OccursAt(s, sub, i)
  }

  /** `str(v)` for an integer. */
  function IntStr(v: int): string
  {
    if v < 0 then "-" + Decimal(-v) else Decimal(v)
  }

  /** The instruction addresses qubit q and no other. */
  predicate Addresses(i: Instr, q: int)
  {
    match i
    case Prepz(p) => p == q
    case Measure(p) => p == q
    case Gate(_, qs) => qs == [q]
    case _ => false
  }

  /** What qubit q alone is subjected to, in order. */
  function On(instrs: seq<Instr>, q: int): (r: seq<Instr>)
    ensures |r| <= |instrs|
  {
    if |instrs| == 0 then []
    else On(instrs[..|instrs| - 1], q) + (if Addresses(instrs[|instrs| - 1], q) then [instrs[|instrs| - 1]] else [])
  }

  lemma {:induction false} OnAppend(a: seq<Instr>, b: seq<Instr>, q: int)
    ensures On(a + b, q) == On(a, q) + On(b, q)
    decreases |b|
  {
    if |b| == 0 {
      assert a + b == a;
    } else {
      var b' := b[..|b| - 1];
      assert (a + b)[..|a + b| - 1] == a + b';
      OnAppend(a, b', q);
    }
  }

  /** An instruction that does not address q alone is invisible to it. */
  lemma OnSkip(x: Instr, q: int)
    requires !Addresses(x, q)
    ensures On([x], q) == []
  {
    assert [x][..0] == [];
  }

  /** The instruction, when it addresses q alone. */
  function Keep(i: Instr, q: int): seq<Instr>
  {
    if Addresses(i, q) then [i] else []
  }

  /** What q sees of four instructions. */
  lemma On4(s: seq<Instr>, q: int)
    requires |s| == 4
    ensures On(s, q) == Keep(s[0], q) + Keep(s[1], q) + Keep(s[2], q) + Keep(s[3], q)
  {
    assert s[..3][..2] == s[..2] && s[..2][..1] == s[..1] && s[..1][..0] == [];
    assert On(s[..1], q) == Keep(s[0], q);
    assert On(s[..2], q) == On(s[..1], q) + Keep(s[1], q);
    assert On(s[..3], q) == On(s[..2], q) + Keep(s[2], q);
    assert On(s, q) == On(s[..3], q) + Keep(s[3], q);
  }

  /** A qubit sees, of a joined body, what it sees of each segment. */
  lemma {:induction false} OnJoin(segments: seq<seq<Instr>>, q: int)
    ensures On(Join(segments), q) == Join(seq(|segments|, i requires 0 <= i < |segments| => On(segments[i], q)))
  {
    if |segments| > 0 {
      var n := |segments| - 1;
      OnJoin(segments[..n], q);
      OnAppend(Join(segments[..n]), segments[n], q);
      var seen := seq(|segments|, i requires 0 <= i < |segments| => On(segments[i], q));
      assert seen[..n] == seq(n, i requires 0 <= i < n => On(segments[..n][i], q));
    }
  }

  /** The qubits are pairwise distinct. */
  predicate DistinctQubits(qs: seq<int>)
  {
    forall i, j :: 0 <= i < j < |qs| ==> qs[i] != qs[j]
  }

  /** Among distinct qubits, q sees exactly one preparation and one
      measurement from the loops over all qubits. */
  lemma {:induction false} OnAll(qs: seq<int>, j: nat)
    requires DistinctQubits(qs) && j < |qs|
    ensures On(PrepzAll(qs), qs[j]) == [Prepz(qs[j])]
    ensures On(MeasureAll(qs), qs[j]) == [Measure(qs[j])]
  {
    var init := qs[..|qs| - 1];
    if j < |qs| - 1 {
      OnNone(init, qs[|qs| - 1]);
      OnAll(init, j);
      assert init[j] == qs[j];
    } else {
      OnNone(init, qs[j]);
    }
  }

  /** A qubit outside the list sees nothing of the loops over it. */
  lemma {:induction false} OnNone(qs: seq<int>, q: int)
    requires q !in qs
    ensures On(PrepzAll(qs), q) == [] && On(MeasureAll(qs), q) == []
  {
    if |qs| > 0 {
      OnNone(qs[..|qs| - 1], q);
    }
  }

  /** What q sees of a single instruction. */
  lemma OnOne(x: Instr, q: int)
    ensures On([x], q) == Keep(x, q)
  {
    assert [x][..0] == [];
  }

  /** The last of distinct qubits is not among the others. */
  lemma LastFresh(qs: seq<int>)
    requires DistinctQubits(qs) && |qs| > 0
    ensures DistinctQubits(qs[..|qs| - 1]) && qs[|qs| - 1] !in qs[..|qs| - 1]
  {
  }

  /** Among distinct qubits, each loop over all of them shows a qubit one
      instruction if it is among them and none otherwise. */
  lemma {:induction false} OnPrepzAll(qs: seq<int>, q: int)
    requires DistinctQubits(qs)
    ensures On(PrepzAll(qs), q) == if q in qs then [Prepz(q)] else []
  {
    if |qs| > 0 {
      var n := |qs| - 1;
      LastFresh(qs);
      OnPrepzAll(qs[..n], q);
      OnAppend(PrepzAll(qs[..n]), [Prepz(qs[n])], q);
      OnOne(Prepz(qs[n]), q);
      assert q in qs <==> q in qs[..n] || q == qs[n];
    }
  }

  lemma {:induction false} OnMeasureAll(qs: seq<int>, q: int)
    requires DistinctQubits(qs)
    ensures On(MeasureAll(qs), q) == if q in qs then [Measure(q)] else []
  {
    if |qs| > 0 {
      var n := |qs| - 1;
      LastFresh(qs);
      OnMeasureAll(qs[..n], q);
      OnAppend(MeasureAll(qs[..n]), [Measure(qs[n])], q);
      OnOne(Measure(qs[n]), q);
      assert q in qs <==> q in qs[..n] || q == qs[n];
    }
  }

  lemma {:induction false} OnGateAll(name: string, qs: seq<int>, q: int)
    requires DistinctQubits(qs)
    ensures On(GateAll(name, qs), q) == if q in qs then [Gate(name, [q])] else []
  {
    if |qs| > 0 {
      var n := |qs| - 1;
      var init, last := GateAll(name, qs[..n]), Gate(name, [qs[n]]);
      assert On(init, q) == if q in qs[..n] then [Gate(name, [q])] else [] by {
        LastFresh(qs);
        OnGateAll(name, qs[..n], q);
      }
      assert On([last], q) == if q == qs[n] then [Gate(name, [q])] else [] by {
        OnOne(last, q);
      }
      assert q in qs <==> q in qs[..n] || q == qs[n];
      assert !(q in qs[..n] && q == qs[n]) by {
        LastFresh(qs);
      }
      OnAppend(init, [last], q);
    }
  }

  /** The kernel names of a program are pairwise distinct. */
  predicate DistinctNames(p: seq<Kernel>)
  {
    forall i, j :: 0 <= i < j < |p| ==> p[i].name != p[j].name
  }

  /** `for x in xs: p.add_kernel(mk(x))`: one kernel per item, in order. */
  method AddKernels<T>(xs: seq<T>, mk: T -> Kernel) returns (p: seq<Kernel>)
    ensures |p| == |xs|
    ensures forall i :: 0 <= i < |xs| ==> p[i] == mk(xs[i])
  {
    p := [];
    var i := 0;
    while i < |xs|
      invariant 0 <= i <= |xs| && |p| == i
      invariant forall j :: 0 <= j < i ==> p[j] == mk(xs[j])
    {
      p := p + [mk(xs[i])];
      i := i + 1;
    }
  }

  /** The kernels of two nested loops, the outer items outermost. */
  function Grid<A, B>(outer: seq<A>, inner: seq<B>, mk: (A, B) -> Kernel): (r: seq<Kernel>)
    ensures |r| == |outer| * |inner|
  {
    if |outer| == 0 then []
    else
      var n := |outer| - 1;
      Grid(outer[..n], inner, mk) + seq(|inner|, j requires 0 <= j < |inner| => mk(outer[n], inner[j]))
  }

  /** The kernel of outer item i and inner item j is the (i * |inner| + j)-th. */
  lemma {:induction false} GridAt<A, B>(outer: seq<A>, inner: seq<B>, mk: (A, B) -> Kernel, i: nat, j: nat)
    requires i < |outer| && j < |inner|
    ensures i * |inner| + j < |Grid(outer, inner, mk)| && Grid(outer, inner, mk)[i * |inner| + j] == mk(outer[i], inner[j])
  {
    var n := |outer| - 1;
    var g := Grid(outer[..n], inner, mk);
    var row := seq(|inner|, j requires 0 <= j < |inner| => mk(outer[n], inner[j]));
    AppendRow(g, row, n, |inner|, i, j);
    if i < n {
      GridAt(outer[..n], inner, mk, i, j);
    }
  }

  /** Two nested loops adding one kernel per pair, the outer items
      outermost. */
  method AddGrid<A, B>(outer: seq<A>, inner: seq<B>, mk: (A, B) -> Kernel) returns (p: seq<Kernel>)
    ensures p == Grid(outer, inner, mk)
  {
    p := [];
    var i := 0;
    while i < |outer|
      invariant 0 <= i <= |outer| && p == Grid(outer[..i], inner, mk)
    {
      var x := outer[i];
      var row := AddKernels(inner, y => mk(x, y));
      assert outer[..i + 1][..i] == outer[..i];
      p := p + row;
      i := i + 1;
    }
    assert outer[..i] == outer;
  }
}
