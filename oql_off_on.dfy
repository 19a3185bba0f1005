/** The off/on sequences: every kernel prepares one combination of qubit
    states (a digit per qubit, the last qubit least significant) and
    measures all qubits. */
module OqlOffOn {
  import opened Wrappers
  import opened Numerals
  import opened General
  import opened OqlKernel

  // ---------------------------------------------------------------------
  // Combinations
  // ---------------------------------------------------------------------

  /** `int2base(i, base=b, fixed_length=w)`: the base-b digits of i,
      zero-filled to w characters. */
  function Int2Base(i: nat, b: nat, w: nat): string
    requires 2 <= b <= 16
  {
    ZFill(Digits(i, b), w)
  }

  /** Below b^w the rendering has exactly w digits and denotes i. */
  lemma Int2BaseValue(i: nat, b: nat, w: nat)
    requires 2 <= b <= 16 && w >= 1 && i < Pow(b, w)
    ensures |Int2Base(i, b, w)| == w
    ensures AllDigits(Int2Base(i, b, w), b)
    ensures ValueOf(Int2Base(i, b, w), b) == i
  {
    DigitsFit(i, b, w);
    DigitsValue(i, b);
    ZFillValue(Digits(i, b), w, b);
    DigitsAreDigits(i, b);
    ZFillDigits(Digits(i, b), w, b);
  }

  /** A digit character is determined by its value. */
  lemma DigitValueInjective(c: char, d: char)
    requires DigitValue(c) < 16 && DigitValue(c) == DigitValue(d)
    ensures c == d
  {
  }

  /** Digit strings of one length are determined by their value. */
  lemma {:induction false} ValueInjective(s: string, t: string, b: nat)
    requires 1 <= b <= 16 && |s| == |t| && AllDigits(s, b) && AllDigits(t, b)
    requires ValueOf(s, b) == ValueOf(t, b)
    ensures s == t
    decreases |s|
  {
    if |s| > 0 {
      var n := |s| - 1;
      var s', t' := s[..n], t[..n];
      assert AllDigits(s', b) by {
        forall i | 0 <= i < n ensures DigitValue(s'[i]) < b { assert s'[i] == s[i]; }
      }
      assert AllDigits(t', b) by {
        forall i | 0 <= i < n ensures DigitValue(t'[i]) < b { assert t'[i] == t[i]; }
      }
      assert DigitValue(s[n]) < b && DigitValue(t[n]) < b;
      ModUnique(ValueOf(s, b), b, ValueOf(s', b), DigitValue(s[n]));
      ModUnique(ValueOf(t, b), b, ValueOf(t', b), DigitValue(t[n]));
      DigitValueInjective(s[n], t[n]);
      ValueInjective(s', t', b);
      assert s == s' + [s[n]] && t == t' + [t[n]];
    }
  }

  function OffOnBase(secondExcited: bool): nat
  {
    if secondExcited then 3 else 2
  }

  /** The state combinations of `multi_qubit_off_on`: i = 0 .. base^n - 1
      written with `int2base`, base 3 when the second excited state is
      included and 2 otherwise. */
  function OffOnCombinations(n: nat, secondExcited: bool): (r: seq<string>)
    ensures |r| == Pow(OffOnBase(secondExcited), n)
  {
    var b := OffOnBase(secondExcited);
    seq(Pow(b, n), i requires 0 <= i < Pow(b, n) => Int2Base(i, b, n))
  }

  /** For at least one qubit, combination i is the n-digit base-b string of
      value i. */
  lemma OffOnCombinationAt(n: nat, secondExcited: bool, i: nat)
    requires n >= 1 && i < Pow(OffOnBase(secondExcited), n)
    ensures var c := OffOnCombinations(n, secondExcited)[i];
      |c| == n && AllDigits(c, OffOnBase(secondExcited)) && ValueOf(c, OffOnBase(secondExcited)) == i
  {
    Int2BaseValue(i, OffOnBase(secondExcited), n);
  }

  /** The combinations are pairwise distinct. */
  lemma OffOnCombinationsDistinct(n: nat, secondExcited: bool)
    requires n >= 1
    ensures var r := OffOnCombinations(n, secondExcited);
      forall i, j :: 0 <= i < j < |r| ==> r[i] != r[j]
  {
    var r := OffOnCombinations(n, secondExcited);
    forall i, j | 0 <= i < j < |r| ensures r[i] != r[j] {
      OffOnCombinationAt(n, secondExcited, i);
      OffOnCombinationAt(n, secondExcited, j);
    }
  }

  /** Every n-digit string of the base is among the combinations. */
  lemma OffOnCombinationsComplete(n: nat, secondExcited: bool, s: string)
    requires n >= 1 && |s| == n && AllDigits(s, OffOnBase(secondExcited))
    ensures s in OffOnCombinations(n, secondExcited)
  {
    var b := OffOnBase(secondExcited);
    var r := OffOnCombinations(n, secondExcited);
    var v := ValueOf(s, b);
    ValueBelowPow(s, b);
    OffOnCombinationAt(n, secondExcited, v);
    ValueInjective(s, r[v], b);
  }

  /** With no qubits there is one combination, the one-character "0". */
  lemma OffOnNoQubits(secondExcited: bool)
    ensures OffOnCombinations(0, secondExcited) == ["0"]
  {
    assert Digits(0, OffOnBase(secondExcited)) == "0";
  }

  // ---------------------------------------------------------------------
  // Preparing a combination
  // ---------------------------------------------------------------------

  /** How the three builders treat a state digit: `multi_qubit_off_on` puts
      an identity on a '0'; `single_qubit_off_on` nothing; and
      `targeted_off_on` acts only on a '1'. */
  datatype Style = WithIdentity | Silent | OnlyExcited

  /** The gates that prepare one qubit in the state its digit names. */
  function PrepareState(style: Style, state: char, q: int): (r: seq<Instr>)
    ensures forall x :: x in r ==> x.Gate? && x.qs == [q]
    ensures (|r| >= 1 && r[0] == Gate("rx180", [q])) <==> state == '1' || (state == '2' && style != OnlyExcited)
  {
    if state == '0' then (if style == WithIdentity then [Gate("i", [q])] else [])
    else if state == '1' then [Gate("rx180", [q])]
    else if state == '2' && style != OnlyExcited then [Gate("rx180", [q]), Gate("rx12", [q])]
    else []
  }

  /** `for state, q in zip(comb, qubits)`: each qubit prepared from its digit. */
  function PrepareAll(style: Style, comb: string, qubits: seq<int>): seq<Instr>
    decreases |qubits|
  {
    var m := if |comb| <= |qubits| then |comb| else |qubits|;
    if m == 0 then []
    else PrepareAll(style, comb[..m - 1], qubits[..m - 1]) + PrepareState(style, comb[m - 1], qubits[m - 1])
  }

  /** Each qubit sees exactly the gates its own digit asks for. */
  lemma {:induction false} PrepareAllOn(style: Style, comb: string, qubits: seq<int>, j: nat)
    requires |comb| == |qubits| && DistinctQubits(qubits) && j < |qubits|
    ensures On(PrepareAll(style, comb, qubits), qubits[j]) == PrepareState(style, comb[j], qubits[j])
    decreases |qubits|
  {
    var n := |qubits| - 1;
    var c', q' := comb[..n], qubits[..n];
    OnAppend(PrepareAll(style, c', q'), PrepareState(style, comb[n], qubits[n]), qubits[j]);
    if j < n {
      PrepareAllOn(style, c', q', j);
      assert q'[j] == qubits[j] && c'[j] == comb[j];
      PrepareStateOn(style, comb[n], qubits[n], qubits[j]);
    } else {
      PrepareNone(style, c', q', qubits[n]);
      PrepareStateOn(style, comb[n], qubits[n], qubits[n]);
    }
  }

  lemma PrepareStateOn(style: Style, state: char, q: int, p: int)
    ensures On(PrepareState(style, state, q), p) == if p == q then PrepareState(style, state, q) else []
  {
    var g := PrepareState(style, state, q);
    if |g| == 2 {
      assert g[..1] == [g[0]];
      assert [g[0]][..0] == [];
    } else if |g| == 1 {
      assert g[..0] == [];
    }
  }

  lemma {:induction false} PrepareNone(style: Style, comb: string, qubits: seq<int>, p: int)
    requires |comb| == |qubits| && p !in qubits
    ensures On(PrepareAll(style, comb, qubits), p) == []
    decreases |qubits|
  {
    if |qubits| > 0 {
      var n := |qubits| - 1;
      PrepareNone(style, comb[..n], qubits[..n], p);
      OnAppend(PrepareAll(style, comb[..n], qubits[..n]), PrepareState(style, comb[n], qubits[n]), p);
      PrepareStateOn(style, comb[n], qubits[n], p);
    }
  }

  // ---------------------------------------------------------------------
  // multi_qubit_off_on
  // ---------------------------------------------------------------------

  /** `nr_flux_dance` rounds of the four flux-dance codewords, each round
      closed by a barrier. */
  function FluxDances(rounds: nat): (r: seq<Instr>)
    ensures |r| == 5 * rounds
  {
    if rounds == 0 then []
    else FluxDances(rounds - 1)
         + [Gate("flux-dance-1", [0]), Gate("flux-dance-2", [0]), Gate("flux-dance-3", [0]), Gate("flux-dance-4", [0]), Barrier([])]
  }

  /** The kernel `Prep_<comb>` of `multi_qubit_off_on`. A zero
      `nr_flux_dance` stands for the source's None. */
  function OffOnKernel(comb: string, qubits: seq<int>, initialize: bool, nrFluxDance: nat, waitTime: int): (r: Kernel)
    ensures |r.name| == 5 + |comb| && r.name[..5] == "Prep_" && r.name[5..] == comb
    ensures |r.body| > 2 * |qubits| && r.body[..|qubits|] == PrepzAll(qubits)
    ensures r.body[|r.body| - |qubits| - 1..] == MeasureAll(qubits) + [Barrier(qubits)]
  {
    var init := if initialize then MeasureAll(qubits) + [Barrier(qubits)] else [];
    var dances := if nrFluxDance > 0 then FluxDances(nrFluxDance) + [Wait([], waitTime)] else [];
    Bracketed5(PrepzAll(qubits), [Barrier([])], init, dances, PrepareAll(WithIdentity, comb, qubits), [Barrier(qubits)],
      MeasureAll(qubits), Barrier(qubits));
    Kernel("Prep_" + comb,
      PrepzAll(qubits) + [Barrier([])]
      + (if initialize then MeasureAll(qubits) + [Barrier(qubits)] else [])
      + (if nrFluxDance > 0 then FluxDances(nrFluxDance) + [Wait([], waitTime)] else [])
      + PrepareAll(WithIdentity, comb, qubits)
      + [Barrier(qubits)] + MeasureAll(qubits) + [Barrier(qubits)])
  }

  /** The loop of `multi_qubit_off_on` over the combinations. */
  method OffOnKernels(combinations: seq<string>, qubits: seq<int>, initialize: bool, nrFluxDance: nat, waitTime: int)
    returns (p: seq<Kernel>)
    ensures |p| == |combinations|
    ensures forall i :: 0 <= i < |p| ==> p[i] == OffOnKernel(combinations[i], qubits, initialize, nrFluxDance, waitTime)
  {
    p := [];
    var i := 0;
    while i < |combinations|
      invariant 0 <= i <= |combinations| && |p| == i
      invariant forall j :: 0 <= j < i ==> p[j] == OffOnKernel(combinations[j], qubits, initialize, nrFluxDance, waitTime)
    {
      p := p + [OffOnKernel(combinations[i], qubits, initialize, nrFluxDance, waitTime)];
      i := i + 1;
    }
  }

  /** `multi_qubit_off_on`: one kernel per combination, in order. */
  method MultiQubitOffOn(qubits: seq<int>, initialize: bool, secondExcited: bool, nrFluxDance: nat, waitTime: int)
    returns (p: seq<Kernel>)
    ensures |p| == Pow(OffOnBase(secondExcited), |qubits|)
    ensures forall i :: 0 <= i < |p| ==>
      p[i] == OffOnKernel(OffOnCombinations(|qubits|, secondExcited)[i], qubits, initialize, nrFluxDance, waitTime)
  {
    p := OffOnKernels(OffOnCombinations(|qubits|, secondExcited), qubits, initialize, nrFluxDance, waitTime);
  }

  /** The closing barrier-measure-barrier block shows a qubit one measurement. */
  lemma OnMeasured(qubits: seq<int>, j: nat)
    requires DistinctQubits(qubits) && j < |qubits|
    ensures On([Barrier(qubits)] + MeasureAll(qubits) + [Barrier(qubits)], qubits[j]) == [Measure(qubits[j])]
  {
    var q := qubits[j];
    OnAll(qubits, j);
    OnSkip(Barrier(qubits), q);
    OnAppend([Barrier(qubits)], MeasureAll(qubits), q);
    OnAppend([Barrier(qubits)] + MeasureAll(qubits), [Barrier(qubits)], q);
  }

  /** What a qubit sees of eight consecutive segments, given what it sees
      of each. */
  lemma OnEight(a1: seq<Instr>, a2: seq<Instr>, a3: seq<Instr>, a4: seq<Instr>,
                a5: seq<Instr>, a6: seq<Instr>, a7: seq<Instr>, a8: seq<Instr>, q: int,
                s1: seq<Instr>, s3: seq<Instr>, s5: seq<Instr>, s7: seq<Instr>)
    requires On(a1, q) == s1 && On(a2, q) == [] && On(a3, q) == s3 && On(a4, q) == []
    requires On(a5, q) == s5 && On(a6, q) == [] && On(a7, q) == s7 && On(a8, q) == []
    ensures On(a1 + a2 + a3 + a4 + a5 + a6 + a7 + a8, q) == s1 + s3 + s5 + s7
  {
    var x2 := a1 + a2;
    assert On(x2, q) == s1 by { OnAppend(a1, a2, q); }
    var x3 := x2 + a3;
    assert On(x3, q) == s1 + s3 by { OnAppend(x2, a3, q); }
    var x4 := x3 + a4;
    assert On(x4, q) == s1 + s3 by { OnAppend(x3, a4, q); }
    var x5 := x4 + a5;
    assert On(x5, q) == s1 + s3 + s5 by { OnAppend(x4, a5, q); }
    var x6 := x5 + a6;
    assert On(x6, q) == s1 + s3 + s5 by { OnAppend(x5, a6, q); }
    var x7 := x6 + a7;
    assert On(x7, q) == s1 + s3 + s5 + s7 by { OnAppend(x6, a7, q); }
    assert On(x7 + a8, q) == s1 + s3 + s5 + s7 by { OnAppend(x7, a8, q); }
  }

  /** Without flux dances, a qubit of an off/on kernel is prepared, measured
      first when `initialize` is set, given the gates of its digit and then
      measured. */
  lemma OffOnKernelQubit(comb: string, qubits: seq<int>, initialize: bool, waitTime: int, j: nat)
    requires |comb| == |qubits| && DistinctQubits(qubits) && j < |qubits|
    ensures var q := qubits[j];
      On(OffOnKernel(comb, qubits, initialize, 0, waitTime).body, q)
        == [Prepz(q)] + (if initialize then [Measure(q)] else []) + PrepareState(WithIdentity, comb[j], q) + [Measure(q)]
  {
    var q := qubits[j];
    var init := if initialize then MeasureAll(qubits) + [Barrier(qubits)] else [];
    var seenInit: seq<Instr> := if initialize then [Measure(q)] else [];
    assert On(PrepzAll(qubits), q) == [Prepz(q)] && On(MeasureAll(qubits), q) == [Measure(q)] by {
      OnAll(qubits, j);
    }
    assert On([Barrier([])], q) == [] && On([Barrier(qubits)], q) == [] && On([], q) == [] by {
      OnSkip(Barrier([]), q);
      OnSkip(Barrier(qubits), q);
    }
    assert On(init, q) == seenInit by {
      if initialize {
        OnAppend(MeasureAll(qubits), [Barrier(qubits)], q);
      }
    }
    assert On(PrepareAll(WithIdentity, comb, qubits), q) == PrepareState(WithIdentity, comb[j], q) by {
      PrepareAllOn(WithIdentity, comb, qubits, j);
    }
    OnEight(PrepzAll(qubits), [Barrier([])], init, [], PrepareAll(WithIdentity, comb, qubits), [Barrier(qubits)],
      MeasureAll(qubits), [Barrier(qubits)], q,
      [Prepz(q)], seenInit, PrepareState(WithIdentity, comb[j], q), [Measure(q)]);
  }

  /** Distinct strings stay distinct behind a common prefix. */
  lemma PrefixedDistinct(prefix: string, a: string, b: string)
    requires a != b
    ensures prefix + a != prefix + b
  {
    assert (prefix + a)[|prefix|..] == a && (prefix + b)[|prefix|..] == b;
  }

  /** Kernels named "Prep_" + a combination, for distinct combinations,
      have distinct names. */
  lemma PrepNamesDistinct(combinations: seq<string>, p: seq<Kernel>)
    requires |p| == |combinations|
    requires forall i :: 0 <= i < |p| ==> p[i].name == "Prep_" + combinations[i]
    requires forall i, j :: 0 <= i < j < |combinations| ==> combinations[i] != combinations[j]
    ensures DistinctNames(p)
  {
    forall i, j | 0 <= i < j < |p| ensures p[i].name != p[j].name {
      PrefixedDistinct("Prep_", combinations[i], combinations[j]);
    }
  }

  /** The kernels of `multi_qubit_off_on` have pairwise distinct names. */
  lemma OffOnNamesDistinct(qubits: seq<int>, initialize: bool, secondExcited: bool, nrFluxDance: nat, waitTime: int, p: seq<Kernel>)
    requires |qubits| >= 1
    requires |p| == Pow(OffOnBase(secondExcited), |qubits|)
    requires forall i :: 0 <= i < |p| ==>
      p[i] == OffOnKernel(OffOnCombinations(|qubits|, secondExcited)[i], qubits, initialize, nrFluxDance, waitTime)
    ensures DistinctNames(p)
  {
    var r := OffOnCombinations(|qubits|, secondExcited);
    OffOnCombinationsDistinct(|qubits|, secondExcited);
    PrepNamesDistinct(r, p);
  }

  // ---------------------------------------------------------------------
  // single_qubit_off_on
  // ---------------------------------------------------------------------

  /** `qubits.index(q)`; None where the source raises ValueError. */
  function IndexOf(qubits: seq<int>, q: int): (r: Option<nat>)
    ensures r.None? <==> q !in qubits
    ensures r.Some? ==> r.value < |qubits| && qubits[r.value] == q
    ensures r.Some? ==> forall j :: 0 <= j < r.value ==> qubits[j] != q
  {
    if |qubits| == 0 then None
    else if qubits[0] == q then Some(0)
    else match IndexOf(qubits[1..], q)
      case None => None
      case Some(i) => Some(i + 1)
  }

  /** The two combinations of `single_qubit_off_on`: all qubits off, and
      only the target on. */
  function SingleOffOnCombinations(n: nat, idx: nat): (r: seq<string>)
    requires idx < n
    ensures |r| == 2 && |r[0]| == n && |r[1]| == n
    ensures forall j :: 0 <= j < n ==> r[0][j] == '0'
    ensures r[1][idx] == '1' && forall j :: 0 <= j < n && j != idx ==> r[1][j] == '0'
  {
    var zeros := Repeat('0', n);
    var one := zeros[..idx] + "1" + zeros[idx + 1..];
    assert forall j :: 0 <= j < n && j != idx ==> one[j] == zeros[j];
    [zeros, one]
  }

  function SingleOffOnKernel(comb: string, qubits: seq<int>, initialize: bool): (r: Kernel)
    ensures |r.name| == 5 + |comb| && r.name[..5] == "Prep_" && r.name[5..] == comb
    ensures |r.body| > 2 * |qubits| && r.body[..|qubits|] == PrepzAll(qubits)
    ensures r.body[|r.body| - |qubits| - 1..] == MeasureAll(qubits) + [Barrier(qubits)]
  {
    var middle := (if initialize then MeasureAll(qubits) + [Barrier(qubits)] else [])
      + PrepareAll(Silent, comb, qubits)
      + [Barrier(qubits)];
    var body := PrepzAll(qubits)
      + (if initialize then MeasureAll(qubits) + [Barrier(qubits)] else [])
      + PrepareAll(Silent, comb, qubits)
      + [Barrier(qubits)] + MeasureAll(qubits) + [Barrier(qubits)];
    assert body == PrepzAll(qubits) + middle + (MeasureAll(qubits) + [Barrier(qubits)]);
    Bracketed(PrepzAll(qubits), middle, MeasureAll(qubits) + [Barrier(qubits)]);
    Kernel("Prep_" + comb, body)
  }

  /** `single_qubit_off_on`: the all-off and the target-on kernels; a
      target that is not among the qubits raises ValueError. */
  method SingleQubitOffOn(qubits: seq<int>, qTarget: int, initialize: bool) returns (r: Result<seq<Kernel>, OqlError>)
    ensures qTarget !in qubits <==> r == Failure(ValueError)
    ensures r.Success? ==> exists idx: nat :: (IndexOf(qubits, qTarget) == Some(idx) &&
      r.value == [SingleOffOnKernel(SingleOffOnCombinations(|qubits|, idx)[0], qubits, initialize),
                  SingleOffOnKernel(SingleOffOnCombinations(|qubits|, idx)[1], qubits, initialize)])
  {
    var found := IndexOf(qubits, qTarget);
    if found.None? {
      return Failure(ValueError);
    }
    var combinations := SingleOffOnCombinations(|qubits|, found.value);
    var p: seq<Kernel> := [];
    var i := 0;
    while i < 2
      invariant 0 <= i <= 2 && |p| == i
      invariant forall j :: 0 <= j < i ==> p[j] == SingleOffOnKernel(combinations[j], qubits, initialize)
    {
      p := p + [SingleOffOnKernel(combinations[i], qubits, initialize)];
      i := i + 1;
    }
    return Success(p);
  }

  /** In the second kernel of `single_qubit_off_on` (the first is
      preparation and measurement only) the target alone gets a pulse. */
  lemma SingleOffOnPulses(qubits: seq<int>, idx: nat, j: nat)
    requires DistinctQubits(qubits) && idx < |qubits| && j < |qubits|
    ensures var combs := SingleOffOnCombinations(|qubits|, idx);
      && On(PrepareAll(Silent, combs[0], qubits), qubits[j]) == []
      && On(PrepareAll(Silent, combs[1], qubits), qubits[j]) == if j == idx then [Gate("rx180", [qubits[j]])] else []
  {
    var combs := SingleOffOnCombinations(|qubits|, idx);
    var q := qubits[j];
    assert combs[0][j] == '0' && combs[1][j] == (if j == idx then '1' else '0');
    assert On(PrepareAll(Silent, combs[0], qubits), q) == PrepareState(Silent, combs[0][j], q) by {
      PrepareAllOn(Silent, combs[0], qubits, j);
    }
    assert On(PrepareAll(Silent, combs[1], qubits), q) == PrepareState(Silent, combs[1][j], q) by {
      PrepareAllOn(Silent, combs[1], qubits, j);
    }
  }

  // ---------------------------------------------------------------------
  // targeted_off_on
  // ---------------------------------------------------------------------

  /** `list.insert(idx, c)` on the characters of a string. */
  function InsertAt(s: string, idx: nat, c: char): (r: string)
    ensures |r| == |s| + 1
  {
    if idx >= |s| then s + [c] else s[..idx] + [c] + s[idx..]
  }

  /** The target's state from `pulse_comb`: '1' when it contains "on" in
      any letter case, else '0' when it contains "off", else ValueError. */
  function TargetState(pulseComb: string): (r: Result<char, OqlError>)
    ensures r.Success? ==> r.value in {'0', '1'}
    ensures r == Success('1') <==> Contains(Lower(pulseComb), "on")
    ensures r == Success('0') <==> !Contains(Lower(pulseComb), "on") && Contains(Lower(pulseComb), "off")
  {
    if Contains(Lower(pulseComb), "on") then Success('1')
    else if Contains(Lower(pulseComb), "off") then Success('0')
    else Failure(ValueError)
  }

  /** The combinations of `targeted_off_on`: every (n-1)-bit string
      (`'{:0{}b}'.format(i, n - 1)`) with the target's state inserted at the
      target's position. */
  function TargetedCombinations(n: nat, idx: nat, c: char): (r: seq<string>)
    requires 1 <= n
    ensures |r| == Pow(2, n - 1)
  {
    seq(Pow(2, n - 1), i requires 0 <= i < Pow(2, n - 1) => InsertAt(Int2Base(i, 2, n - 1), idx, c))
  }

  /** Removing the target's character gives back the other qubits' bits. */
  function Remove(s: string, idx: nat): string
    requires idx < |s|
  {
    s[..idx] + s[idx + 1..]
  }

  /** Inserting c at idx and removing it again gives back s. */
  lemma RemoveInsert(s: string, idx: nat, c: char)
    requires idx <= |s|
    ensures InsertAt(s, idx, c)[idx] == c && Remove(InsertAt(s, idx, c), idx) == s
  {
    if idx == |s| {
      assert InsertAt(s, idx, c)[..idx] == s;
    } else {
      var t := InsertAt(s, idx, c);
      assert t[..idx] == s[..idx] && t[idx + 1..] == s[idx..];
    }
  }

  /** For two or more qubits, combination i has one character per qubit,
      the target's state at the target's position, and the other positions
      spell i in binary. */
  lemma TargetedCombinationAt(n: nat, idx: nat, c: char, i: nat)
    requires n >= 2 && idx < n && i < Pow(2, n - 1)
    ensures var s := TargetedCombinations(n, idx, c)[i];
      && |s| == n && s[idx] == c
      && Remove(s, idx) == Int2Base(i, 2, n - 1)
      && ValueOf(Remove(s, idx), 2) == i
  {
    var bits := Int2Base(i, 2, n - 1);
    assert |bits| == n - 1 && ValueOf(bits, 2) == i by {
      Int2BaseValue(i, 2, n - 1);
    }
    assert TargetedCombinations(n, idx, c)[i] == InsertAt(bits, idx, c);
    RemoveInsert(bits, idx, c);
  }

  /** The combinations of `targeted_off_on` are pairwise distinct. */
  lemma TargetedCombinationsDistinct(n: nat, idx: nat, c: char)
    requires n >= 2 && idx < n
    ensures var r := TargetedCombinations(n, idx, c);
      forall i, j :: 0 <= i < j < |r| ==> r[i] != r[j]
  {
    var r := TargetedCombinations(n, idx, c);
    forall i, j | 0 <= i < j < |r| ensures r[i] != r[j] {
      TargetedCombinationAt(n, idx, c, i);
      TargetedCombinationAt(n, idx, c, j);
    }
  }

  /** With a single qubit, `'{:00b}'.format(0)` is "0", so the one
      combination has two characters; the second is never used, since the
      preparation zips the combination with the one qubit. */
  lemma TargetedSingleQubit(c: char)
    ensures TargetedCombinations(1, 0, c) == [[c, '0']]
  {
    assert Digits(0, 2) == "0";
    assert Int2Base(0, 2, 0) == "0";
    assert InsertAt("0", 0, c) == [c, '0'];
    assert Pow(2, 0) == 1;
  }

  function TargetedKernel(comb: string, qubits: seq<int>): (r: Kernel)
    ensures |r.name| == 5 + |comb| && r.name[..5] == "Prep_" && r.name[5..] == comb
    ensures |r.body| > 2 * |qubits| && r.body[..|qubits|] == PrepzAll(qubits)
    ensures r.body[|r.body| - |qubits| - 1..] == MeasureAll(qubits) + [Barrier(qubits)]
  {
    var middle := PrepareAll(OnlyExcited, comb, qubits) + [Barrier(qubits)];
    var body := PrepzAll(qubits)
      + PrepareAll(OnlyExcited, comb, qubits)
      + [Barrier(qubits)] + MeasureAll(qubits) + [Barrier(qubits)];
    assert body == PrepzAll(qubits) + middle + (MeasureAll(qubits) + [Barrier(qubits)]);
    Bracketed(PrepzAll(qubits), middle, MeasureAll(qubits) + [Barrier(qubits)]);
    Kernel("Prep_" + comb, body)
  }

  /** For two or more qubits the kernels of `targeted_off_on` have
      pairwise distinct names. */
  lemma TargetedNamesDistinct(qubits: seq<int>, idx: nat, c: char, p: seq<Kernel>)
    requires |qubits| >= 2 && idx < |qubits|
    requires |p| == Pow(2, |qubits| - 1)
    requires forall i :: 0 <= i < |p| ==> p[i] == TargetedKernel(TargetedCombinations(|qubits|, idx, c)[i], qubits)
    ensures DistinctNames(p)
  {
    TargetedCombinationsDistinct(|qubits|, idx, c);
    PrepNamesDistinct(TargetedCombinations(|qubits|, idx, c), p);
  }

  /** The loop of `targeted_off_on` over the combinations. */
  method TargetedKernels(combinations: seq<string>, qubits: seq<int>) returns (p: seq<Kernel>)
    ensures |p| == |combinations|
    ensures forall i :: 0 <= i < |p| ==> p[i] == TargetedKernel(combinations[i], qubits)
  {
    p := [];
    var i := 0;
    while i < |combinations|
      invariant 0 <= i <= |combinations| && |p| == i
      invariant forall j :: 0 <= j < i ==> p[j] == TargetedKernel(combinations[j], qubits)
    {
      p := p + [TargetedKernel(combinations[i], qubits)];
      i := i + 1;
    }
  }

  /** The loop of `targeted_off_on` rewrites every (n-1)-bit string into a
      targeted combination. */
  lemma InsertedEverywhere(bits: seq<string>, combs: seq<string>, n: nat, idx: nat, c: char)
    requires 1 <= n && bits == seq(Pow(2, n - 1), i requires 0 <= i < Pow(2, n - 1) => Int2Base(i, 2, n - 1))
    requires |combs| == |bits|
    requires forall j :: 0 <= j < |combs| ==> combs[j] == InsertAt(bits[j], idx, c)
    ensures combs == TargetedCombinations(n, idx, c)
  {
  }

  /** `targeted_off_on`: a target outside the qubits, or a `pulse_comb`
      naming neither on nor off, raises ValueError; otherwise each binary
      combination is rewritten in place with the target's state inserted,
      and there is one kernel per combination, in order. */
  method TargetedOffOn(qubits: seq<int>, qTarget: int, pulseComb: string) returns (r: Result<seq<Kernel>, OqlError>)
    ensures r.Failure? <==> qTarget !in qubits || TargetState(pulseComb).Failure?
    ensures r.Failure? ==> r.error == ValueError
    ensures r.Success? ==>
      var idx := IndexOf(qubits, qTarget).value;
      var combs := TargetedCombinations(|qubits|, idx, TargetState(pulseComb).value);
      |r.value| == |combs| && forall i :: 0 <= i < |combs| ==> r.value[i] == TargetedKernel(combs[i], qubits)
  {
    var found := IndexOf(qubits, qTarget);
    if found.None? {
      return Failure(ValueError);
    }
    var n, idx := |qubits|, found.value;
    var bits := seq(Pow(2, n - 1), i requires 0 <= i < Pow(2, n - 1) => Int2Base(i, 2, n - 1));
    var combinations := bits;
    var i := 0;
    while i < |combinations|
      invariant 0 <= i <= |combinations| == |bits|
      invariant i > 0 ==> TargetState(pulseComb).Success?
      invariant forall j :: 0 <= j < i ==> combinations[j] == InsertAt(bits[j], idx, TargetState(pulseComb).value)
      invariant forall j :: i <= j < |combinations| ==> combinations[j] == bits[j]
    {
      var state := TargetState(pulseComb);
      if state.Failure? {
        return Failure(ValueError);
      }
      combinations := combinations[i := InsertAt(combinations[i], idx, state.value)];
      i := i + 1;
    }
    InsertedEverywhere(bits, combinations, n, idx, TargetState(pulseComb).value);
    var p := TargetedKernels(combinations, qubits);
    return Success(p);
  }
}
