/** base64.c: the encoding of section 6.8 of RFC 2045 into a fixed buffer, and a decoder that skips other characters. */
module Base64 {
  import opened Bytes

  const RESULT_SZ := 8192
  const PAD: Byte := 61

  type Six = v: int | 0 <= v < 64

  /** base64_code. */
  function Code(v: Six): Byte {
    if v < 26 then v + 65 else if v < 52 then v + 71 else if v < 62 then v - 4 else if v == 62 then 43 else 47
  }

  /** The place of a character in base64_code, or -1. */
  function Place(c: Byte): int {
    if 65 <= c <= 90 then c - 65
    else if 97 <= c <= 122 then c - 71
    else if 48 <= c <= 57 then c + 4
    else if c == 43 then 62
    else if c == 47 then 63
    else -1
  }

  /** base64_value: the padding counts as zero. */
  function Value(c: Byte): int {
    if c == PAD then 0 else Place(c)
  }

  lemma PlaceOfCode(v: Six)
    ensures Place(Code(v)) == v && Code(v) != PAD && Code(v) != 0 && Value(Code(v)) == v
  {
  }

  lemma CodeOfPlace(c: Byte)
    requires Place(c) >= 0
    ensures Place(c) < 64 && Code(Place(c)) == c
  {
  }

  method Init(table: array<int>)
    requires table.Length == 256
    modifies table
    ensures forall c: Byte {:trigger table[c]} :: table[c] == Value(c)
  {
    for i := 0 to 256
      invariant forall c {:trigger table[c]} :: 0 <= c < i ==> table[c] == -1
    {
      table[i] := -1;
    }
    for i := 0 to 64
      invariant forall c: Byte {:trigger table[c]} :: table[c] == if Place(c) < i then Place(c) else -1
    {
      PlaceOfCode(i);
      table[Code(i)] := i;
      forall c: Byte {:trigger table[c]} | Place(c) == i
        ensures c == Code(i)
      {
        CodeOfPlace(c);
      }
    }
    table[PAD] := 0;
  }

  // ---- what is meant ----

  /** Three octets as one number of 24 bits. */
  function Bits(a: Byte, b: Byte, c: Byte): (v: int)
    ensures 0 <= v < 0x100_0000
  {
    (a as int) * 0x1_0000 + (b as int) * 0x100 + c
  }

  function Quantum(v: int): (q: seq<Byte>)
    requires 0 <= v < 0x100_0000
    ensures |q| == 4
  {
    [Code(v / 0x4_0000), Code(v / 0x1000 % 64), Code(v / 64 % 64), Code(v % 64)]
  }

  function Encoded(s: seq<Byte>): seq<Byte> {
    if s == [] then []
    else if |s| == 1 then Quantum(Bits(s[0], 0, 0))[..2] + [PAD, PAD]
    else if |s| == 2 then Quantum(Bits(s[0], s[1], 0))[..3] + [PAD]
    else Quantum(Bits(s[0], s[1], s[2])) + Encoded(s[3..])
  }

  /** The values of the characters that have one. */
  function Values(s: seq<Byte>): seq<Six> {
    if s == [] then []
    else if Value(s[0]) < 0 then Values(s[1..])
    else [Value(s[0])] + Values(s[1..])
  }

  function Number(v: seq<Six>): int {
    if v == [] then 0 else Number(v[..|v| - 1]) * 64 + v[|v| - 1]
  }

  function Triple(v: int): (t: seq<Byte>)
    requires 0 <= v < 0x100_0000
    ensures |t| == 3
  {
    [v / 0x1_0000, v / 0x100 % 256, v % 256]
  }

  function Four(v: seq<Six>): (n: int)
    requires |v| == 4
    ensures 0 <= n < 0x100_0000
  {
    (v[0] as int) * 0x4_0000 + (v[1] as int) * 0x1000 + (v[2] as int) * 64 + v[3]
  }

  /** Whole quanta; up to three values at the end are dropped. */
  function Quanta(v: seq<Six>): seq<Byte> {
    if |v| < 4 then [] else Triple(Four(v[..4])) + Quanta(v[4..])
  }

  /** What fits in the result buffer. */
  function Decoded(s: seq<Byte>): seq<Byte> {
    var v := Values(s);
    Quanta(if |v| > 4 * MOST_QUANTA then v[..4 * MOST_QUANTA] else v)
  }

  lemma SixesOf(v: int)
    requires 0 <= v < 0x100_0000
    ensures v == v / 0x4_0000 * 0x4_0000 + v / 0x1000 % 64 * 0x1000 + v / 64 % 64 * 64 + v % 64
    ensures v / 0x4_0000 < 64
  {
    assert v == v / 64 * 64 + v % 64;
    assert v / 64 / 64 == v / 0x1000;
    assert v / 64 == v / 0x1000 * 64 + v / 64 % 64;
    assert v / 0x1000 / 64 == v / 0x4_0000;
    assert v / 0x1000 == v / 0x4_0000 * 64 + v / 0x1000 % 64;
  }

  lemma TripleOfBits(a: Byte, b: Byte, c: Byte)
    ensures Triple(Bits(a, b, c)) == [a, b, c]
  {
    var v := Bits(a, b, c);
    assert v / 0x100 == (a as int) * 0x100 + b;
    assert v / 0x1_0000 == a;
  }

  lemma FourOfQuantum(v: int)
    requires 0 <= v < 0x100_0000
    ensures var q := Quantum(v); Values(q) == [Value(q[0]), Value(q[1]), Value(q[2]), Value(q[3])] && Four(Values(q)) == v
  {
    hide Code, Value, Place;
    SixesOf(v);
    PlaceOfCode(v / 0x4_0000);
    PlaceOfCode(v / 0x1000 % 64);
    PlaceOfCode(v / 64 % 64);
    PlaceOfCode(v % 64);
    var q := Quantum(v);
    AllValued(q);
  }

  lemma AllValued(q: seq<Byte>)
    requires |q| == 4 && Value(q[0]) >= 0 && Value(q[1]) >= 0 && Value(q[2]) >= 0 && Value(q[3]) >= 0
    ensures Value(q[0]) < 64 && Value(q[1]) < 64 && Value(q[2]) < 64 && Value(q[3]) < 64
    ensures Values(q) == [Value(q[0]), Value(q[1]), Value(q[2]), Value(q[3])]
  {
    ValueRange(q[0]);
    ValueRange(q[1]);
    ValueRange(q[2]);
    ValueRange(q[3]);
    ValuesFirst(q);
    ValuesFirst(q[1..]);
    ValuesFirst(q[2..]);
    ValuesFirst(q[3..]);
    assert q[1..][1..] == q[2..] && q[2..][1..] == q[3..] && q[3..][1..] == [];
  }

  lemma ValueRange(c: Byte)
    ensures -1 <= Value(c) < 64
  {
  }

  lemma ValuesFirst(s: seq<Byte>)
    requires s != []
    ensures Values(s) == (if Value(s[0]) < 0 then [] else [Value(s[0])]) + Values(s[1..])
  {
  }

  lemma {:induction false} ValuesOfBoth(s: seq<Byte>, t: seq<Byte>)
    ensures Values(s + t) == Values(s) + Values(t)
  {
    if s == [] {
      assert s + t == t;
    } else {
      hide Value;
      assert (s + t)[0] == s[0] && (s + t)[1..] == s[1..] + t;
      ValuesFirst(s);
      ValuesFirst(s + t);
      ValuesOfBoth(s[1..], t);
    }
  }

  /** Characters without a value may be put in anywhere. */
  lemma JunkIsSkipped(s: seq<Byte>, junk: seq<Byte>, t: seq<Byte>)
    requires forall c {:trigger c in junk} :: c in junk ==> Value(c) < 0
    ensures Decoded(s + junk + t) == Decoded(s + t)
  {
    hide Value, Quanta;
    ValuesOfBoth(s + junk, t);
    ValuesOfBoth(s, junk);
    ValuesOfBoth(s, t);
    NoValues(junk);
    assert Values(s) + [] == Values(s);
  }

  lemma {:induction false} NoValues(junk: seq<Byte>)
    requires forall c {:trigger c in junk} :: c in junk ==> Value(c) < 0
    ensures Values(junk) == []
  {
    if junk != [] {
      assert junk[0] in junk;
      forall c {:trigger c in junk[1..]} | c in junk[1..]
        ensures Value(c) < 0
      {
        assert c in junk;
      }
      NoValues(junk[1..]);
    }
  }

  // ---- decoding undoes encoding ----

  /** How many octets of padding the last quantum carries. */
  function Padding(n: nat): nat {
    (3 - n % 3) % 3
  }

  lemma QuantaFirst(v: seq<Six>, w: seq<Six>)
    requires |v| == 4
    ensures Quanta(v + w) == Triple(Four(v)) + Quanta(w)
  {
    assert (v + w)[..4] == v && (v + w)[4..] == w;
  }

  lemma FourValues(v: seq<Six>)
    requires |v| == 4
    ensures Quanta(v) == Triple(Four(v))
  {
    hide Four, Triple;
    assert v + [] == v;
    QuantaFirst(v, []);
  }

  /** The encoding of one or two octets has the values of the quantum that zeros complete. */
  lemma PaddedValues(s: seq<Byte>, v: int)
    requires (|s| == 1 && v == Bits(s[0], 0, 0)) || (|s| == 2 && v == Bits(s[0], s[1], 0))
    ensures Values(Encoded(s)) == Values(Quantum(v)) && |Encoded(s)| == 4
  {
    hide Values, Code, Place, Bits, Quantum;
    var q, e := Quantum(v), Encoded(s);
    LastIsZero(s[0], if |s| == 2 then s[1] else 0);
    PlaceOfCode(0);
    assert e == if |s| == 1 then [q[0], q[1], PAD, PAD] else [q[0], q[1], q[2], PAD];
    AllValued(q);
    AllValued(e);
  }

  lemma PaddedQuantum(s: seq<Byte>)
    requires |s| == 1 || |s| == 2
    ensures |Values(Encoded(s))| == 4 && Quanta(Values(Encoded(s))) == s + Zeros(Padding(|s|))
  {
    hide *;
    var a, b := s[0], if |s| == 2 then s[1] else 0;
    var v := Bits(a, b, 0);
    PaddedValues(s, v);
    FourOfQuantum(v);
    TripleOfBits(a, b, 0);
    FourValues(Values(Quantum(v)));
    PaddingOf(s);
  }

  lemma PaddingOf(s: seq<Byte>)
    requires |s| == 1 || |s| == 2
    ensures s + Zeros(Padding(|s|)) == [s[0], if |s| == 2 then s[1] else 0, 0]
  {
    assert Zeros(1) == [0] + Zeros(0) && Zeros(2) == [0] + Zeros(1);
  }

  lemma LowZero(a: Byte, b: Byte)
    ensures Bits(a, b, 0) % 64 == 0 && (b == 0 ==> Bits(a, b, 0) / 64 % 64 == 0)
  {
    assert Bits(a, b, 0) == 64 * ((a as int) * 0x400 + (b as int) * 4);
  }

  lemma QuantumValued(v: int)
    requires 0 <= v < 0x100_0000
    ensures var q := Quantum(v); Value(q[0]) >= 0 && Value(q[1]) >= 0 && Value(q[2]) >= 0 && Value(q[3]) >= 0
    ensures v % 64 == 0 ==> Quantum(v)[3] == Code(0)
    ensures v / 64 % 64 == 0 ==> Quantum(v)[2] == Code(0)
  {
    hide Code, Value, Place;
    SixesOf(v);
    PlaceOfCode(v / 0x4_0000);
    PlaceOfCode(v / 0x1000 % 64);
    PlaceOfCode(v / 64 % 64);
    PlaceOfCode(v % 64);
  }

  lemma LastIsZero(a: Byte, b: Byte)
    ensures var q := Quantum(Bits(a, b, 0)); q[3] == Code(0) && (b == 0 ==> q[2] == Code(0))
    ensures var q := Quantum(Bits(a, b, 0)); Value(q[0]) >= 0 && Value(q[1]) >= 0 && Value(q[2]) >= 0 && Value(q[3]) >= 0
  {
    hide *;
    LowZero(a, b);
    QuantumValued(Bits(a, b, 0));
  }

  lemma EncodedFirst(s: seq<Byte>)
    requires |s| >= 3
    ensures Encoded(s) == Quantum(Bits(s[0], s[1], s[2])) + Encoded(s[3..])
  {
    hide Quantum, Bits;
  }

  lemma ThreeFewer(n: nat)
    requires n >= 3
    ensures Padding(n) == Padding(n - 3) && (n + 2) / 3 * 4 == (n - 1) / 3 * 4 + 4 && (n % 3 == 0 ==> (n - 3) % 3 == 0)
  {
    assert (n + 2) / 3 == (n - 1) / 3 + 1;
  }

  /** All octets come back, then a NUL for each octet of padding. */
  lemma {:induction false} DecodeEncode(s: seq<Byte>)
    ensures Quanta(Values(Encoded(s))) == s + Zeros(Padding(|s|)) && |Values(Encoded(s))| == (|s| + 2) / 3 * 4
    decreases |s|
  {
    hide *;
    if s == [] {
      NothingDecoded();
    } else if |s| < 3 {
      PaddedQuantum(s);
    } else {
      var v := Bits(s[0], s[1], s[2]);
      FourOfQuantum(v);
      TripleOfBits(s[0], s[1], s[2]);
      EncodedFirst(s);
      ThreeFewer(|s|);
      DecodeEncode(s[3..]);
      ValuesOfBoth(Quantum(v), Encoded(s[3..]));
      QuantaFirst(Values(Quantum(v)), Values(Encoded(s[3..])));
      assert s == [s[0], s[1], s[2]] + s[3..];
    }
  }

  lemma NothingDecoded()
    ensures Encoded([]) == [] && Quanta(Values([])) == [] && Values([]) == [] && Zeros(Padding(0)) == []
  {
  }

  // ---- the encoder ----

  const MOST := 6141

  /** What the encoder takes: whole quanta as long as the buffer has room for five more characters. */
  function Taken(s: seq<Byte>): (t: seq<Byte>)
    ensures |t| == if |s| <= MOST then |s| else MOST
  {
    if |s| <= MOST then s else s[..MOST]
  }

  lemma {:induction false} EncodedMore(s: seq<Byte>, t: seq<Byte>)
    requires |s| % 3 == 0
    ensures Encoded(s + t) == Encoded(s) + Encoded(t)
    decreases |s|
  {
    hide Quantum, Bits;
    if s == [] {
      assert s + t == t;
    } else {
      assert (s + t)[..3] == s[..3] && (s + t)[3..] == s[3..] + t;
      assert (s + t)[0] == s[0] && (s + t)[1] == s[1] && (s + t)[2] == s[2];
      EncodedFirst(s);
      EncodedFirst(s + t);
      EncodedMore(s[3..], t);
    }
  }

  lemma {:induction false} EncodedLength(s: seq<Byte>)
    ensures |Encoded(s)| == (|s| + 2) / 3 * 4
    decreases |s|
  {
    hide Quantum, Bits;
    if |s| >= 3 {
      EncodedFirst(s);
      ThreeFewer(|s|);
      EncodedLength(s[3..]);
    }
  }

  /** The octets of the quantum begun, shifted as the loop leaves them. */
  function Shifted(pend: seq<Byte>): int
    requires |pend| < 3
  {
    if |pend| == 0 then 0 else if |pend| == 1 then (pend[0] as int) * 0x100 else ((pend[0] as int) * 0x100 + pend[1]) * 0x100
  }

  /** The buffer begins with the encoding of the quanta done. */
  ghost predicate Filled(r: seq<Byte>, done: seq<Byte>, out: nat) {
    |r| == RESULT_SZ && |done| % 3 == 0 && out == |Encoded(done)| && out <= |r| && r[..out] == Encoded(done)
  }

  lemma FilledIs(r: seq<Byte>, done: seq<Byte>, out: nat)
    requires Filled(r, done, out)
    ensures |r| == RESULT_SZ && out == |done| / 3 * 4 && |done| % 3 == 0 && out <= RESULT_SZ && r[..out] == Encoded(done)
  {
    hide Encoded;
    EncodedLength(done);
  }

  lemma FilledMore(r: seq<Byte>, r': seq<Byte>, done: seq<Byte>, out: nat, a: Byte, b: Byte, c: Byte)
    requires Filled(r, done, out) && out + 4 <= RESULT_SZ && |r'| == |r|
    requires r'[..out] == r[..out] && r'[out..out + 4] == Quantum(Bits(a, b, c))
    ensures Filled(r', done + [a, b, c], out + 4)
  {
    hide Encoded, Quantum, Bits;
    EncodedMore(done, [a, b, c]);
    EncodedFirst([a, b, c]);
    NothingDecoded();
    assert [a, b, c][3..] == [];
    assert r'[..out + 4] == r'[..out] + r'[out..out + 4];
  }

  lemma FilledLast(r: seq<Byte>, r': seq<Byte>, done: seq<Byte>, pend: seq<Byte>, out: nat)
    requires Filled(r, done, out) && out + 4 <= RESULT_SZ && |r'| == |r| && 0 < |pend| < 3
    requires r'[..out] == r[..out]
    requires r'[out..out + 4] == Encoded(pend)
    ensures |Encoded(done + pend)| == out + 4 && r'[..out + 4] == Encoded(done + pend)
  {
    hide Encoded;
    EncodedMore(done, pend);
    assert r'[..out + 4] == r'[..out] + r'[out..out + 4];
  }

  /** Four characters of the quantum, the last ones replaced by padding. */
  method PutFour(result: array<Byte>, out: nat, v: int, n: nat)
    requires 0 <= v < 0x100_0000 && 2 <= n <= 4 && result.Length == RESULT_SZ && out + 4 <= RESULT_SZ
    modifies result
    ensures result[..out] == old(result[..out])
    ensures result[out..out + 4] == Quantum(v)[..n] + [PAD, PAD, PAD, PAD][n..]
  {
    hide Code;
    result[out] := Code(v / 0x4_0000);
    result[out + 1] := Code(v / 0x1000 % 64);
    result[out + 2] := if n > 2 then Code(v / 64 % 64) else PAD;
    result[out + 3] := if n > 3 then Code(v % 64) else PAD;
  }

  /** One round of the loop that both encoders have. */
  method Feed(result: array<Byte>, c: Byte, bits: int, count: nat, out: nat, ghost done: seq<Byte>, ghost pend: seq<Byte>)
      returns (bits': int, count': nat, out': nat, ghost done': seq<Byte>, ghost pend': seq<Byte>)
    requires result.Length == RESULT_SZ && Filled(result[..], done, out) && out + 4 <= RESULT_SZ
    requires count == |pend| < 3 && bits == Shifted(pend)
    modifies result
    ensures Filled(result[..], done', out') && count' == |pend'| < 3 && bits' == Shifted(pend')
    ensures done' + pend' == done + pend + [c]
  {
    hide *;
    ghost var r := result[..];
    FilledIs(r, done, out);
    ShiftedMore(pend, c);
    bits', count', out', done', pend' := bits + c, count + 1, out, done, pend + [c];
    if count' == 3 {
      PutFour(result, out, bits', 4);
      WholeQuantum(bits');
      FilledMore(r, result[..], done, out, pend[0], pend[1], c);
      bits', count', out' := 0, 0, out + 4;
      done', pend' := done + [pend[0], pend[1], c], [];
    } else {
      bits' := bits' * 0x100;
    }
  }

  lemma ShiftedMore(pend: seq<Byte>, c: Byte)
    requires |pend| < 3
    ensures |pend| == 2 ==> Shifted(pend) + c == Bits(pend[0], pend[1], c)
    ensures |pend| < 2 ==> (Shifted(pend) + c) * 0x100 == Shifted(pend + [c])
    ensures Shifted([]) == 0
  {
  }

  lemma WholeQuantum(v: int)
    requires 0 <= v < 0x100_0000
    ensures Quantum(v)[..4] + [PAD, PAD, PAD, PAD][4..] == Quantum(v)
  {
    hide Code;
  }

  lemma LastQuantum(pend: seq<Byte>)
    requires 0 < |pend| < 3
    ensures |pend| == 1 ==> Shifted(pend) * 0x100 == Bits(pend[0], 0, 0)
    ensures |pend| == 2 ==> Shifted(pend) == Bits(pend[0], pend[1], 0)
    ensures var v := Bits(pend[0], if |pend| == 1 then 0 else pend[1], 0);
      Quantum(v)[..|pend| + 1] + [PAD, PAD, PAD, PAD][|pend| + 1..] == Encoded(pend)
  {
    hide Code, Quantum;
  }

  method Flush(result: array<Byte>, bits: int, count: nat, out: nat, ghost done: seq<Byte>, ghost pend: seq<Byte>)
    requires result.Length == RESULT_SZ && Filled(result[..], done, out) && |done| + |pend| <= MOST
    requires count == |pend| < 3 && bits == Shifted(pend)
    modifies result
    ensures Ends(result[..], Encoded(done + pend))
  {
    hide *;
    ghost var r := result[..];
    FilledIs(r, done, out);
    TakenIs([]);
    var last := out;
    assert done + [] == done;
    if count != 0 {
      LastQuantum(pend);
      PutFour(result, out, if count == 1 then bits * 0x100 else bits, count + 1);
      FilledLast(r, result[..], done, pend, out);
      last := out + 4;
    }
    ghost var r' := result[..];
    result[last] := 0;
    EndsAt(r', result[..], last, Encoded(done + pend));
  }

  lemma EndsAt(r: seq<Byte>, r': seq<Byte>, last: nat, text: seq<Byte>)
    requires last < |r| == |r'| && last == |text| && r[..last] == text && r'[..last] == r[..last] && r'[last] == 0
    ensures Ends(r', text)
  {
  }

  lemma TakenIs(s: seq<Byte>)
    ensures Taken(s) == if |s| <= MOST then s else s[..MOST]
    ensures MOST == 6141 && RESULT_SZ == 8192
  {
  }

  /** Empty so far. */
  lemma FilledFirst(r: seq<Byte>)
    requires |r| == RESULT_SZ
    ensures Filled(r, [], 0)
  {
  }

  /** A string from C. */
  method Encode(decoded: seq<Byte>, result: array<Byte>)
    requires 0 in decoded && result.Length == RESULT_SZ
    modifies result
    ensures Ends(result[..], Encoded(Taken(CString(decoded))))
  {
    hide *;
    ghost var t, done, pend := CString(decoded), [], [];
    var bits, count, out, i := 0, 0, 0, 0;
    TakenIs(t);
    FilledFirst(result[..]);
    ShiftedMore([], 0);
    while decoded[i] != 0 && out < RESULT_SZ - 5
      invariant 0 <= out && 0 <= i <= |t| && i <= MOST && done + pend == t[..i]
      invariant Filled(result[..], done, out) && count == |pend| < 3 && bits == Shifted(pend) && |done| <= MOST
      decreases |t| - i
    {
      FilledIs(result[..], done, out);
      CharAt(decoded, t, i);
      bits, count, out, done, pend := Feed(result, decoded[i], bits, count, out, done, pend);
      i := i + 1;
      assert t[..i] == t[..i - 1] + [t[i - 1]];
    }
    FilledIs(result[..], done, out);
    CharAt(decoded, t, i);
    assert |done + pend| == i;
    assert t[..|t|] == t;
    Flush(result, bits, count, out, done, pend);
  }

  /** Octets of a given number. */
  method EncodeBin(data: seq<Byte>, result: array<Byte>)
    requires result.Length == RESULT_SZ
    modifies result
    ensures Ends(result[..], Encoded(Taken(data)))
  {
    hide *;
    ghost var done, pend := [], [];
    var bits, count, out, i := 0, 0, 0, 0;
    TakenIs(data);
    FilledFirst(result[..]);
    ShiftedMore([], 0);
    while i < |data| && out < RESULT_SZ - 5
      invariant 0 <= out && 0 <= i <= |data| && i <= MOST && done + pend == data[..i]
      invariant Filled(result[..], done, out) && count == |pend| < 3 && bits == Shifted(pend) && |done| <= MOST
      decreases |data| - i
    {
      FilledIs(result[..], done, out);
      bits, count, out, done, pend := Feed(result, data[i], bits, count, out, done, pend);
      i := i + 1;
      assert data[..i] == data[..i - 1] + [data[i - 1]];
    }
    FilledIs(result[..], done, out);
    assert |done + pend| == i && data[..|data|] == data;
    Flush(result, bits, count, out, done, pend);
  }

  // ---- the decoder ----

  const MOST_QUANTA := 2730

  lemma {:induction false} QuantaMore(v: seq<Six>, w: seq<Six>)
    requires |v| % 4 == 0
    ensures Quanta(v + w) == Quanta(v) + Quanta(w)
    decreases |v|
  {
    hide Four, Triple;
    if v == [] {
      assert v + w == w;
    } else {
      assert v == v[..4] + v[4..] && v + w == v[..4] + (v[4..] + w);
      QuantaFirst(v[..4], v[4..]);
      QuantaFirst(v[..4], v[4..] + w);
      QuantaMore(v[4..], w);
    }
  }

  /** The buffer begins with the octets of the quanta done. */
  ghost predicate Turned(r: seq<Byte>, done: seq<Six>, j: nat) {
    |r| == RESULT_SZ && |done| % 4 == 0 && j == |done| / 4 * 3 && j < |r| && r[..j] == Quanta(done)
  }

  lemma TurnedFirst(r: seq<Byte>)
    requires |r| == RESULT_SZ
    ensures Turned(r, [], 0) && Values([]) == [] && Number([]) == 0
  {
  }

  lemma TurnedIs(r: seq<Byte>, done: seq<Six>, pend: seq<Six>, j: nat)
    requires Turned(r, done, j) && |pend| < 4
    ensures RESULT_SZ == 8192 && |r| == RESULT_SZ && j == |done| / 4 * 3 && |done| % 4 == 0 && j < |r|
    ensures r[..j] == Quanta(done + pend)
  {
    hide Quanta;
    QuantaMore(done, pend);
    FewValues(pend);
    assert Quanta(done) + [] == Quanta(done);
  }

  lemma FewValues(pend: seq<Six>)
    requires |pend| < 4
    ensures Quanta(pend) == []
  {
  }

  lemma NumberMore(pend: seq<Six>, k: Six)
    ensures Number(pend + [k]) == Number(pend) * 64 + k
  {
    assert (pend + [k])[..|pend|] == pend;
  }

  lemma NumberFour(v: seq<Six>)
    requires |v| == 4
    ensures Number(v) == Four(v)
  {
    NumberMore([], v[0]);
    NumberMore([v[0]], v[1]);
    NumberMore([v[0], v[1]], v[2]);
    NumberMore([v[0], v[1], v[2]], v[3]);
    assert v == [v[0], v[1], v[2]] + [v[3]] && [v[0], v[1], v[2]] == [v[0], v[1]] + [v[2]] && [v[0], v[1]] == [v[0]] + [v[1]] && [v[0]] == [] + [v[0]];
  }

  method PutThree(result: array<Byte>, j: nat, val: int)
    requires 0 <= val < 0x100_0000 && j + 3 < result.Length
    modifies result
    ensures result[..j] == old(result[..j]) && result[j..j + 3] == Triple(val)
  {
    result[j] := val / 0x1_0000;
    result[j + 1] := val / 0x100 % 256;
    result[j + 2] := val % 256;
  }

  lemma TurnedMore(r: seq<Byte>, r': seq<Byte>, done: seq<Six>, four: seq<Six>, j: nat)
    requires Turned(r, done, j) && |four| == 4 && |r'| == |r| && j + 3 < |r|
    requires r'[..j] == r[..j] && r'[j..j + 3] == Triple(Four(four))
    ensures Turned(r', done + four, j + 3)
  {
    hide Quanta, Triple, Four;
    QuantaMore(done, four);
    FourValues(four);
    assert r'[..j + 3] == r'[..j] + r'[j..j + 3];
  }

  /** One character with a value. */
  method Take(result: array<Byte>, k: Six, val: int, c: nat, j: nat, ghost done: seq<Six>, ghost pend: seq<Six>)
      returns (val': int, c': nat, j': nat, ghost done': seq<Six>, ghost pend': seq<Six>)
    requires result.Length == RESULT_SZ && Turned(result[..], done, j) && j + 4 < RESULT_SZ
    requires c == |pend| < 4 && val == Number(pend)
    modifies result
    ensures Turned(result[..], done', j') && c' == |pend'| < 4 && val' == Number(pend')
    ensures done' + pend' == done + pend + [k]
  {
    hide *;
    ghost var r, four := result[..], pend + [k];
    NumberMore(pend, k);
    val', c', j', done', pend' := val * 64 + k, c + 1, j, done, four;
    if c' == 4 {
      NumberFour(four);
      PutThree(result, j, val');
      TurnedMore(r, result[..], done, four, j);
      TurnedFirst(r);
      val', c', j' := 0, 0, j + 3;
      done', pend' := done + four, [];
    }
  }

  lemma ValuesNext(t: seq<Byte>, i: nat)
    requires i < |t|
    ensures Values(t[..i + 1]) == Values(t[..i]) + (if Value(t[i]) < 0 then [] else [Value(t[i])])
    ensures -1 <= Value(t[i]) < 64
  {
    hide Values, Value;
    assert t[..i + 1] == t[..i] + [t[i]];
    ValuesOfBoth(t[..i], [t[i]]);
    ValuesFirst([t[i]]);
    ValueRange(t[i]);
    NothingDecoded();
    assert [t[i]][1..] == [];
  }

  /** The loop stops at the end of the string or when the buffer is full. */
  lemma DecodedIs(t: seq<Byte>, i: nat, v: seq<Six>)
    requires i <= |t| && v == Values(t[..i]) && |v| <= 4 * MOST_QUANTA && (i == |t| || |v| == 4 * MOST_QUANTA)
    ensures Decoded(t) == Quanta(v)
  {
    hide Values, Quanta;
    assert t == t[..i] + t[i..];
    ValuesOfBoth(t[..i], t[i..]);
    if i == |t| {
      assert t[..i] == t;
    } else {
      assert Values(t)[..4 * MOST_QUANTA] == v;
      assert |Values(t)| == 4 * MOST_QUANTA ==> Values(t) == v;
    }
  }

  method Decode(table: array<int>, p: seq<Byte>, result: array<Byte>)
    requires table.Length == 256 && result.Length == RESULT_SZ && 0 in p
    requires forall c: Byte {:trigger table[c]} :: table[c] == Value(c)
    modifies result
    ensures Ends(result[..], Decoded(CString(p)))
  {
    hide *;
    ghost var t, done, pend := CString(p), [], [];
    var val, c, j, i := 0, 0, 0, 0;
    TurnedFirst(result[..]);
    MostIs();
    assert t[..0] == [];
    while p[i] != 0 && j + 4 < RESULT_SZ
      invariant 0 <= j && 0 <= c && 0 <= i <= |t|
      invariant done + pend == Values(t[..i]) && |done + pend| <= 4 * MOST_QUANTA
      invariant Turned(result[..], done, j) && c == |pend| < 4 && val == Number(pend)
      decreases |t| - i
    {
      CharAt(p, t, i);
      TurnedIs(result[..], done, pend, j);
      ValuesNext(t, i);
      var k := table[p[i]];
      i := i + 1;
      if k < 0 { continue; }
      val, c, j, done, pend := Take(result, k, val, c, j, done, pend);
    }
    CharAt(p, t, i);
    TurnedIs(result[..], done, pend, j);
    DecodedIs(t, i, done + pend);
    ghost var r := result[..];
    result[j] := 0;
    EndsAt(r, result[..], j, Decoded(t));
  }

  lemma MostIs()
    ensures MOST_QUANTA == 2730 && RESULT_SZ == 8192
  {
  }

  // ---- there and back ----

  lemma {:induction false} ZerosAre(n: nat)
    ensures |Zeros(n)| == n && forall i {:trigger Zeros(n)[i]} :: 0 <= i < n ==> Zeros(n)[i] == 0
  {
    if n > 0 {
      ZerosAre(n - 1);
    }
  }

  lemma DecodedEncoded(s: seq<Byte>)
    requires |s| <= MOST
    ensures Decoded(Encoded(s)) == s + Zeros(Padding(|s|))
  {
    hide Values, Quanta, Encoded, Zeros, Padding;
    DecodeEncode(s);
  }

  /** A string of at most 6141 characters is encoded and decoded to itself; of a longer one so many characters are left. */
  lemma StringRoundTrip(s: seq<Byte>, m: seq<Byte>)
    requires 0 !in s && Ends(m, Decoded(Encoded(Taken(s))))
    ensures 0 in m && CString(m) == Taken(s)
  {
    hide Values, Quanta, Encoded, Zeros, Padding, Decoded, Ends, CString;
    var t := Taken(s);
    DecodedEncoded(t);
    ZerosAre(Padding(|t|));
    forall c {:trigger c in t} | c in t
      ensures c != 0
    {
      assert c in s;
    }
    EndsEarlier(m, t, Padding(|t|));
    CStringIs(m, t);
  }

  lemma EndsEarlier(m: seq<Byte>, t: seq<Byte>, k: nat)
    requires Ends(m, t + Zeros(k)) && |Zeros(k)| == k && (k > 0 ==> Zeros(k)[0] == 0)
    ensures Ends(m, t)
  {
    hide Zeros;
    var u := t + Zeros(k);
    assert m[..|t|] == m[..|u|][..|t|];
    if k > 0 {
      assert m[..|u|][|t|] == m[|t|];
    } else {
      assert u == t;
    }
  }
}
