/** The pure string and dictionary helpers of the utility module:
    boolean strings, fixed-width binary strings, the printable hex form of a
    byte string and two dictionary reshapers. */
module General {
  import opened Wrappers
  import opened Numerals

  // ---------------------------------------------------------------------
  // Boolean strings
  // ---------------------------------------------------------------------

  /** The exception `str_to_bool` raises for a string it does not know. */
  datatype KeyError = KeyError(message: string)

  /** `str.lower` on the characters that matter here: ASCII upper-case letters.
      No other character lowers to one of the accepted spellings. */
  function LowerChar(c: char): char
  {
    if 'A' <= c <= 'Z' then (c as int - 'A' as int + 'a' as int) as char else c
  }

  function Lower(s: string): (r: string)
    ensures |r| == |s|
    ensures forall i :: 0 <= i < |s| ==> r[i] == LowerChar(s[i])
  {
    if s == [] then [] else [LowerChar(s[0])] + Lower(s[1..])
  }

  const TrueSpellings: set<string> := {"true", "t", "1"}
  const FalseSpellings: set<string> := {"false", "f", "0"}

  /** Parse a boolean written as true/t/1 or false/f/0 in any letter case;
      any other string raises a KeyError naming the string. */
  function StrToBool(s: string): (r: Result<bool, KeyError>)
    ensures r == Success(true) <==> Lower(s) in TrueSpellings
    ensures r == Success(false) <==> Lower(s) in FalseSpellings
    ensures r.Failure? <==> Lower(s) !in TrueSpellings + FalseSpellings
    ensures r.Failure? ==> r.error == KeyError(s + " not a valid boolean string")
  {
    var valid := map["true" := true, "t" := true, "1" := true,
                     "false" := false, "f" := false, "0" := false];
    if Lower(s) !in valid then Failure(KeyError(s + " not a valid boolean string"))
    else Success(valid[Lower(s)])
  }

  lemma LowerIdempotent(s: string)
    ensures Lower(Lower(s)) == Lower(s)
  {
  }

  /** Letter case never matters: a string parses exactly as its lower-case form. */
  lemma StrToBoolIgnoresCase(s: string)
    ensures StrToBool(s).Success? <==> StrToBool(Lower(s)).Success?
    ensures StrToBool(s).Success? ==> StrToBool(s) == StrToBool(Lower(s))
  {
    LowerIdempotent(s);
  }

  /** '1' for a true value and '0' for a false one; it parses back to the same boolean. */
  function BoolToIntStr(b: bool): (r: string)
    ensures StrToBool(r) == Success(b)
    ensures |r| == 1
  {
    assert Lower("1") == "1" && Lower("0") == "0";
    if b then "1" else "0"
  }

  // ---------------------------------------------------------------------
  // Fixed-width binary strings
  // ---------------------------------------------------------------------

  /** `int_to_bin(x, w, lsb_last)`: `(x + 2^w) % 2^w` written in binary and
      zero-filled to width w; reversed when lsb_last is false. A width of 0
      still prints the single digit "0". */
  function IntToBin(x: int, w: nat, lsbLast: bool): (r: string)
    ensures |r| == if w == 0 then 1 else w
    ensures lsbLast ==> (forall i :: 0 <= i < |r| ==> r[i] == '0' || r[i] == '1') && ValueOf(r, 2) == x % Pow(2, w)
    ensures !lsbLast ==> r == Reverse(IntToBin(x, w, true))
    decreases if lsbLast then 0 else 1
  {
    var binStr := BinStr(x, w);
    if lsbLast then binStr else Reverse(binStr)
  }

  /** The zero-filled binary digits of `(x + 2^w) % 2^w`, before any reversal. */
  function BinStr(x: int, w: nat): (r: string)
    ensures |r| == if w == 0 then 1 else w
    ensures forall i :: 0 <= i < |r| ==> r[i] == '0' || r[i] == '1'
    ensures ValueOf(r, 2) == x % Pow(2, w)
  {
    var v := Shifted(x, Pow(2, w));
    BinaryDigits(v, w);
    ZFill(Digits(v, 2), w)
  }

  /** `(x + m) % m`, which equals x modulo m and lies in [0, m). */
  function Shifted(x: int, m: nat): (v: nat)
    requires m >= 1
    ensures v < m && v == x % m
  {
    ShiftMod(x, m);
    (x + m) % m
  }

  lemma BinaryDigits(v: nat, w: nat)
    requires v < Pow(2, w)
    ensures var r := ZFill(Digits(v, 2), w);
      && |r| == (if w == 0 then 1 else w)
      && (forall i :: 0 <= i < |r| ==> r[i] == '0' || r[i] == '1')
      && ValueOf(r, 2) == v
  {
    var digits := Digits(v, 2);
    DigitsValue(v, 2);
    ZFillValue(digits, w, 2);
    BinaryLength(v, w);
    DigitsAreDigits(v, 2);
    ZFillDigits(digits, w, 2);
    BinaryChars(ZFill(digits, w));
  }

  lemma BinaryLength(v: nat, w: nat)
    requires v < Pow(2, w)
    ensures |ZFill(Digits(v, 2), w)| == if w == 0 then 1 else w
  {
    if w >= 1 { DigitsFit(v, 2, w); }
  }

  lemma BinaryChars(r: string)
    requires AllDigits(r, 2)
    ensures forall i :: 0 <= i < |r| ==> r[i] == '0' || r[i] == '1'
  {
    forall i | 0 <= i < |r| ensures r[i] == '0' || r[i] == '1' {
      assert DigitValue(r[i]) < 2;
    }
  }

  /** Adding the modulus first (as the source does) changes nothing. */
  lemma ShiftMod(x: int, m: int)
    requires m >= 1
    ensures 0 <= (x + m) % m < m && (x + m) % m == x % m
  {
    var q, r := x / m, x % m;
    assert x + m == (q + 1) * m + r;
    ModUnique(x + m, m, q + 1, r);
  }

  /** The two's-complement reading of a binary string: the leading bit weighs -2^(n-1). */
  function SignedValue(s: string): int
    requires |s| >= 1
  {
    ValueOf(s, 2) - (if s[0] == '1' then Pow(2, |s|) else 0)
  }

  /** For every x representable in w bits, the w-bit string read as a
      two's-complement number gives x back. */
  lemma IntToBinTwosComplement(x: int, w: nat)
    requires w >= 1
    requires -(Pow(2, w - 1) as int) <= x < Pow(2, w - 1)
    ensures SignedValue(IntToBin(x, w, true)) == x
  {
    var r := IntToBin(x, w, true);
    SignedOfBits(r, x, w);
  }

  /** A binary string whose value is x modulo 2^n reads back as x, for x
      in two's-complement range. */
  lemma SignedOfBits(r: string, x: int, w: nat)
    requires w >= 1 && |r| == w && forall i :: 0 <= i < |r| ==> r[i] == '0' || r[i] == '1'
    requires -(Pow(2, w - 1) as int) <= x < Pow(2, w - 1)
    requires ValueOf(r, 2) == x % Pow(2, w)
    ensures SignedValue(r) == x
  {
    var half := Pow(2, w - 1);
    assert Pow(2, w) == 2 * half;
    ModInRange(x, 2 * half);
    LeadingBit(r);
    TwosComplementBit(x, half, r[0] == '1', ValueOf(r[1..], 2));
  }

  /** The arithmetic of the leading bit: a value below 2^w that equals x
      modulo 2^w has its top bit set exactly when x is negative. */
  lemma TwosComplementBit(x: int, half: int, top: bool, rest: int)
    requires half >= 1 && -half <= x < half && 0 <= rest < half
    requires (if top then half else 0) + rest == if x >= 0 then x else x + 2 * half
    ensures (if top then half else 0) + rest - (if top then 2 * half else 0) == x
  {
  }

  lemma ModInRange(x: int, m: int)
    requires m >= 1 && -m <= x < m
    ensures x % m == if x >= 0 then x else x + m
  {
  }

  /** The leading bit of a binary string weighs 2^(n-1), the rest weighs less. */
  lemma LeadingBit(r: string)
    requires |r| >= 1
    requires forall i :: 0 <= i < |r| ==> r[i] == '0' || r[i] == '1'
    ensures ValueOf(r, 2) == (if r[0] == '1' then Pow(2, |r| - 1) else 0) + ValueOf(r[1..], 2)
    ensures ValueOf(r[1..], 2) < Pow(2, |r| - 1)
  {
    var t := r[1..];
    assert AllDigits(r, 2);
    assert AllDigits(t, 2) by {
      forall i | 0 <= i < |t| ensures DigitValue(t[i]) < 2 { assert t[i] == r[i + 1]; }
    }
    ValueFront(r, 2);
    ValueBelowPow(t, 2);
    BitWeight(DigitValue(r[0]), Pow(2, |r| - 1));
  }

  lemma BitWeight(d: int, p: int)
    requires d == 0 || d == 1
    ensures d * p == if d == 1 then p else 0
  {
  }

  /** With lsb_last false the first character is the least significant bit. */
  lemma IntToBinLsbFirst(x: int, w: nat)
    ensures ValueOf(Reverse(IntToBin(x, w, false)), 2) == x % Pow(2, w)
  {
    var r := IntToBin(x, w, true);
    assert Reverse(Reverse(r)) == r;
  }

  // ---------------------------------------------------------------------
  // Printable hex form of a byte string
  // ---------------------------------------------------------------------

  type Byte = x: nat | x < 256

  /** One byte as `\xHH` with two lower-case hex digits. */
  function HexByte(b: Byte): (r: string)
    ensures |r| == 4 && r[0] == '\\' && r[1] == 'x'
    ensures DigitValue(r[2]) < 16 && DigitValue(r[3]) < 16
    ensures 16 * DigitValue(r[2]) + DigitValue(r[3]) == b
  {
    DigitRoundTrip(b / 16);
    DigitRoundTrip(b % 16);
    "\\x" + [DigitChar(b / 16), DigitChar(b % 16)]
  }

  /** The two digits are what `'{:02x}'.format(b)` prints: the minimal
      hex digits of b, zero-filled to width 2. */
  lemma HexByteIsFormat(b: Byte)
    ensures HexByte(b) == "\\x" + ZFill(Digits(b, 16), 2)
  {
    var hi, lo := b / 16, b % 16;
    if b < 16 {
      assert hi == 0 && lo == b;
      assert Digits(b, 16) == [DigitChar(b)];
      assert Repeat('0', 1) == ['0'];
      assert ZFill(Digits(b, 16), 2) == [DigitChar(0), DigitChar(b)];
    } else {
      assert Digits(hi, 16) == [DigitChar(hi)];
      assert Digits(b, 16) == [DigitChar(hi), DigitChar(lo)];
    }
  }

  function HexBody(bs: seq<Byte>): (r: string)
    ensures |r| == 4 * |bs|
  {
    if bs == [] then "" else HexByte(bs[0]) + HexBody(bs[1..])
  }

  /** `to_hex_string(bs)`: "b'", then `\xHH` per byte in order, then "'". */
  function ToHexString(bs: seq<Byte>): (r: string)
    ensures |r| == 3 + 4 * |bs|
    ensures r[..2] == "b'" && r[|r| - 1] == '\''
  {
    "b'" + HexBody(bs) + "'"
  }

  /** Byte i is printed in the i-th group of four characters after "b'". */
  lemma ToHexStringAt(bs: seq<Byte>, i: nat)
    requires i < |bs|
    ensures ToHexString(bs)[2 + 4 * i..6 + 4 * i] == HexByte(bs[i])
  {
    var a, body := "b'", HexBody(bs);
    assert |a| == 2;
    var g := body[4 * i..4 * i + 4];
    Enclosed(a, body, "'", 4 * i, 4);
    assert ToHexString(bs)[2 + 4 * i..6 + 4 * i] == g;
    HexBodyAt(bs, i);
  }

  lemma Enclosed(a: string, b: string, c: string, j: nat, n: nat)
    requires j + n <= |b|
    ensures (a + b + c)[|a| + j..|a| + j + n] == b[j..j + n]
  {
    assert a + b + c == a + (b + c);
    SliceRight(a, b + c, j, n);
    assert (b + c)[j..j + n] == b[j..j + n];
  }

  lemma {:induction false} HexBodyAt(bs: seq<Byte>, i: nat)
    requires i < |bs|
    ensures HexBody(bs)[4 * i..4 * i + 4] == HexByte(bs[i])
    decreases i
  {
    var h, rest := HexByte(bs[0]), HexBody(bs[1..]);
    assert HexBody(bs) == h + rest;
    if i > 0 {
      HexBodyAt(bs[1..], i - 1);
      SliceRight(h, rest, 4 * (i - 1), 4);
    }
  }

  lemma SliceRight(a: string, b: string, j: nat, n: nat)
    requires j + n <= |b|
    ensures (a + b)[|a| + j..|a| + j + n] == b[j..j + n]
  {
  }

  /** Reads one `\xHH` group back. */
  function ParseHexByte(g: string): (r: Option<Byte>)
    requires |g| == 4
  {
    if g[0] == '\\' && g[1] == 'x' && DigitValue(g[2]) < 16 && DigitValue(g[3]) < 16
    then Some(16 * DigitValue(g[2]) + DigitValue(g[3]))
    else None
  }

  function ParseHexBody(s: string): (r: Option<seq<Byte>>)
    decreases |s|
  {
    if s == [] then Some([])
    else if |s| < 4 then None
    else match (ParseHexByte(s[..4]), ParseHexBody(s[4..]))
      case (Some(b), Some(rest)) => Some([b] + rest)
      case _ => None
  }

  /** The inverse of `to_hex_string`: None for text it cannot produce. */
  function ParseHexString(s: string): (r: Option<seq<Byte>>)
  {
    if |s| >= 3 && s[..2] == "b'" && s[|s| - 1] == '\'' then ParseHexBody(s[2..|s| - 1]) else None
  }

  lemma {:induction false} HexBodyRoundTrip(bs: seq<Byte>)
    ensures ParseHexBody(HexBody(bs)) == Some(bs)
  {
    if bs != [] {
      var h, rest := HexByte(bs[0]), HexBody(bs[1..]);
      var body := h + rest;
      assert HexBody(bs) == body;
      assert body[..4] == h;
      assert body[4..] == rest;
      HexByteRoundTrip(bs[0]);
      HexBodyRoundTrip(bs[1..]);
      assert ParseHexBody(body) == Some([bs[0]] + bs[1..]);
      assert [bs[0]] + bs[1..] == bs;
    }
  }

  lemma HexByteRoundTrip(b: Byte)
    ensures ParseHexByte(HexByte(b)) == Some(b)
  {
  }

  /** Parsing the printed form gives the bytes back, in order. */
  lemma HexStringRoundTrip(bs: seq<Byte>)
    ensures ParseHexString(ToHexString(bs)) == Some(bs)
  {
    var r := ToHexString(bs);
    assert r[2..|r| - 1] == HexBody(bs);
    HexBodyRoundTrip(bs);
  }

  // ---------------------------------------------------------------------
  // Dictionaries
  // ---------------------------------------------------------------------

  /** A Python dict: its keys in insertion order and its key-to-value mapping. */
  datatype Dict<K(==,!new), V> = Dict(keys: seq<K>, entries: map<K, V>)

  ghost predicate WellFormed<K(!new), V>(d: Dict<K, V>)
  {
    && (forall i, j :: 0 <= i < j < |d.keys| ==> d.keys[i] != d.keys[j])
    && (forall k :: k in d.entries <==> k in d.keys)
  }

  /** `d[k] = v`: a new key goes to the end, an existing key keeps its place. */
  function Insert<K(==,!new), V>(d: Dict<K, V>, k: K, v: V): (r: Dict<K, V>)
    requires WellFormed(d)
    ensures WellFormed(r)
    ensures r.entries == d.entries[k := v]
    ensures r.keys == if k in d.entries then d.keys else d.keys + [k]
  {
    if k in d.entries then Dict(d.keys, d.entries[k := v]) else Dict(d.keys + [k], d.entries[k := v])
  }

  /** `dict(pairs)`: the pairs inserted one after another. */
  function FromPairs<K(==,!new), V>(ps: seq<(K, V)>): (r: Dict<K, V>)
    ensures WellFormed(r)
  {
    if ps == [] then Dict([], map[]) else Insert(FromPairs(ps[..|ps| - 1]), ps[|ps| - 1].0, ps[|ps| - 1].1)
  }

  /** `dict_to_ordered_tuples`: [] for None, otherwise the (key, value) pairs in
      the dict's own insertion order (nothing is sorted). */
  function DictToOrderedTuples<K(==,!new), V>(d: Option<Dict<K, V>>): (r: seq<(K, V)>)
    requires d.Some? ==> WellFormed(d.value)
    ensures d.None? ==> r == []
    ensures d.Some? ==> |r| == |d.value.keys|
    ensures d.Some? ==> forall i :: 0 <= i < |r| ==> r[i].0 == d.value.keys[i] && r[i].0 in d.value.entries
    ensures d.Some? ==> forall i :: 0 <= i < |r| ==> r[i].1 == d.value.entries[r[i].0]
  {
    match d
    case None => []
    case Some(dict) => seq(|dict.keys|, i requires 0 <= i < |dict.keys| => (dict.keys[i], dict.entries[dict.keys[i]]))
  }

  /** Rebuilding a dict from its tuples gives the same dict back. */
  lemma OrderedTuplesRoundTrip<K(!new), V>(d: Dict<K, V>)
    requires WellFormed(d)
    ensures FromPairs(DictToOrderedTuples(Some(d))) == d
  {
    var ps := DictToOrderedTuples(Some(d));
    var n := |ps|;
    PrefixRoundTrip(d, ps, n);
    assert ps[..n] == ps;
    assert d.keys[..n] == d.keys;
    var r := FromPairs(ps);
    assert forall k :: k in r.entries <==> k in d.entries by {
      forall k ensures k in r.entries <==> k in d.entries {
        assert k in r.entries <==> k in r.keys;
      }
    }
    SameMap(r.entries, d.entries);
  }

  lemma SameMap<K, V>(m: map<K, V>, m': map<K, V>)
    requires forall k :: k in m <==> k in m'
    requires forall k :: k in m ==> m[k] == m'[k]
    ensures m == m'
  {
  }

  lemma {:induction false} PrefixRoundTrip<K(!new), V>(d: Dict<K, V>, ps: seq<(K, V)>, n: nat)
    requires WellFormed(d) && ps == DictToOrderedTuples(Some(d)) && n <= |ps|
    ensures FromPairs(ps[..n]).keys == d.keys[..n]
    ensures forall k :: k in FromPairs(ps[..n]).entries ==> FromPairs(ps[..n]).entries[k] == d.entries[k]
  {
    if n > 0 {
      PrefixRoundTrip(d, ps, n - 1);
      assert ps[..n][..n - 1] == ps[..n - 1];
      var k := d.keys[n - 1];
      assert ps[n - 1] == (k, d.entries[k]);
      InsertStep(d, FromPairs(ps[..n - 1]), n);
    }
  }

  /** Inserting the next key of d into a dict that agrees with d on the
      keys before it. */
  lemma InsertStep<K(!new), V>(d: Dict<K, V>, prev: Dict<K, V>, n: nat)
    requires WellFormed(d) && 0 < n <= |d.keys|
    requires WellFormed(prev) && prev.keys == d.keys[..n - 1]
    requires forall k :: k in prev.entries ==> prev.entries[k] == d.entries[k]
    ensures var k := d.keys[n - 1]; var r := Insert(prev, k, d.entries[k]);
      && r.keys == d.keys[..n]
      && forall k' :: k' in r.entries ==> r.entries[k'] == d.entries[k']
  {
    var k := d.keys[n - 1];
    assert k !in d.keys[..n - 1];
    assert d.keys[..n] == d.keys[..n - 1] + [k];
  }

  /** The fold behind `add_suffix_to_dict_keys` over the first n keys: each
      renamed key is inserted in turn, as a dict comprehension does. */
  function SuffixPrefix<K(==,!new), V>(d: Dict<K, V>, suffix: string, str: K -> string, n: nat): (r: Dict<string, V>)
    requires WellFormed(d) && n <= |d.keys|
    ensures WellFormed(r) && |r.keys| <= n
  {
    if n == 0 then Dict([], map[])
    else
      var k := d.keys[n - 1];
      Insert(SuffixPrefix(d, suffix, str, n - 1), str(k) + suffix, d.entries[k])
  }

  lemma {:induction false} SuffixPrefixEntries<K(!new), V>(d: Dict<K, V>, suffix: string, str: K -> string, n: nat)
    requires WellFormed(d) && n <= |d.keys|
    ensures forall s :: s in SuffixPrefix(d, suffix, str, n).entries <==> exists i :: 0 <= i < n && s == str(d.keys[i]) + suffix
  {
    if n > 0 {
      SuffixPrefixEntries(d, suffix, str, n - 1);
      var prev := SuffixPrefix(d, suffix, str, n - 1);
      var k := d.keys[n - 1];
      assert SuffixPrefix(d, suffix, str, n).entries == prev.entries[str(k) + suffix := d.entries[k]];
    }
  }

  lemma {:induction false} SuffixPrefixValues<K(!new), V>(d: Dict<K, V>, suffix: string, str: K -> string, n: nat, i: nat)
    requires WellFormed(d) && i < n <= |d.keys|
    requires forall j :: i < j < n ==> str(d.keys[j]) != str(d.keys[i])
    ensures str(d.keys[i]) + suffix in SuffixPrefix(d, suffix, str, n).entries
    ensures SuffixPrefix(d, suffix, str, n).entries[str(d.keys[i]) + suffix] == d.entries[d.keys[i]]
  {
    var k := d.keys[n - 1];
    if i < n - 1 {
      SuffixPrefixValues(d, suffix, str, n - 1, i);
      assert str(k) != str(d.keys[i]);
      if str(k) + suffix == str(d.keys[i]) + suffix {
        SuffixCancel(str(k), str(d.keys[i]), suffix);
      }
    }
  }

  /** A name that differs from every earlier name is not among their
      renamed forms. */
  lemma NotRenamedBefore(ks: seq<string>, names: seq<string>, suffix: string, x: string)
    requires |ks| == |names|
    requires forall i :: 0 <= i < |ks| ==> ks[i] == names[i] + suffix
    requires forall i :: 0 <= i < |names| ==> names[i] != x
    ensures x + suffix !in ks
  {
    if x + suffix in ks {
      var j :| 0 <= j < |ks| && ks[j] == x + suffix;
      SuffixCancel(x, names[j], suffix);
    }
  }

  lemma SuffixCancel(a: string, b: string, suffix: string)
    requires a + suffix == b + suffix
    ensures a == b
  {
    assert a == (a + suffix)[..|a|];
  }

  /** `add_suffix_to_dict_keys(d, suffix)`: every key k becomes str(k) + suffix
      with its value unchanged. */
  function AddSuffixToDictKeys<K(==,!new), V>(d: Dict<K, V>, suffix: string, str: K -> string): (r: Dict<string, V>)
    requires WellFormed(d)
    ensures WellFormed(r) && |r.keys| <= |d.keys|
  {
    SuffixPrefix(d, suffix, str, |d.keys|)
  }

  /** The new keys are exactly the renamed old keys; when two keys print
      alike, the value of the later one wins. */
  lemma AddSuffixEntries<K(!new), V>(d: Dict<K, V>, suffix: string, str: K -> string)
    requires WellFormed(d)
    ensures forall s :: s in AddSuffixToDictKeys(d, suffix, str).entries <==>
              exists i :: 0 <= i < |d.keys| && s == str(d.keys[i]) + suffix
    ensures forall i :: 0 <= i < |d.keys| && (forall j :: i < j < |d.keys| ==> str(d.keys[j]) != str(d.keys[i])) ==>
              AddSuffixToDictKeys(d, suffix, str).entries[str(d.keys[i]) + suffix] == d.entries[d.keys[i]]
  {
    SuffixPrefixEntries(d, suffix, str, |d.keys|);
    forall i | 0 <= i < |d.keys| && (forall j :: i < j < |d.keys| ==> str(d.keys[j]) != str(d.keys[i]))
      ensures AddSuffixToDictKeys(d, suffix, str).entries[str(d.keys[i]) + suffix] == d.entries[d.keys[i]]
    {
      SuffixPrefixValues(d, suffix, str, |d.keys|, i);
    }
  }

  /** When keys print distinctly, the new dict has one entry per old key, in
      the same order, each holding the old key's value. */
  lemma AddSuffixInjective<K(!new), V>(d: Dict<K, V>, suffix: string, str: K -> string)
    requires WellFormed(d)
    requires forall i, j :: 0 <= i < j < |d.keys| ==> str(d.keys[i]) != str(d.keys[j])
    ensures |AddSuffixToDictKeys(d, suffix, str).keys| == |d.keys|
    ensures forall i :: 0 <= i < |d.keys| ==> AddSuffixToDictKeys(d, suffix, str).keys[i] == str(d.keys[i]) + suffix
    ensures forall i :: 0 <= i < |d.keys| ==> AddSuffixToDictKeys(d, suffix, str).entries[str(d.keys[i]) + suffix] == d.entries[d.keys[i]]
  {
    SuffixPrefixKeys(d, suffix, str, |d.keys|);
    AddSuffixEntries(d, suffix, str);
  }

  lemma {:induction false} SuffixPrefixKeys<K(!new), V>(d: Dict<K, V>, suffix: string, str: K -> string, n: nat)
    requires WellFormed(d) && n <= |d.keys|
    requires forall i, j :: 0 <= i < j < |d.keys| ==> str(d.keys[i]) != str(d.keys[j])
    ensures |SuffixPrefix(d, suffix, str, n).keys| == n
    ensures forall i :: 0 <= i < n ==> SuffixPrefix(d, suffix, str, n).keys[i] == str(d.keys[i]) + suffix
  {
    if n > 0 {
      var prev := SuffixPrefix(d, suffix, str, n - 1);
      var x := str(d.keys[n - 1]);
      assert |prev.keys| == n - 1 && forall i :: 0 <= i < n - 1 ==> prev.keys[i] == str(d.keys[i]) + suffix by {
        SuffixPrefixKeys(d, suffix, str, n - 1);
      }
      assert x + suffix !in prev.entries by {
        var names := seq(n - 1, i requires 0 <= i < n - 1 => str(d.keys[i]));
        assert forall i :: 0 <= i < n - 1 ==> names[i] != x;
        NotRenamedBefore(prev.keys, names, suffix, x);
      }
      assert SuffixPrefix(d, suffix, str, n).keys == prev.keys + [x + suffix];
    }
  }
}
