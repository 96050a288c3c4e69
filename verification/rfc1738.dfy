/** rfc1738.c: percent escapes as section 2.2 of RFC 1738 has them, in a buffer kept between calls, and their removal in place. */
module Rfc1738 {
  import opened Bytes
  import opened Wrappers

  const PERCENT: Byte := 37

  /** The values of encode_reserved: rfc1738_escape_unescaped, rfc1738_escape and rfc1738_escape_part. */
  datatype Mode = Unescaped | Whole | Part

  // ---- escaping ----

  function UnsafeChars(): seq<Byte> {
    [0x3C, 0x3E, 0x22, 0x23, 0x7B, 0x7D, 0x7C, 0x5C, 0x5E, 0x7E, 0x5B, 0x5D, 0x60, 0x27, 0x20]
  }

  function ReservedChars(): seq<Byte> {
    [0x3b, 0x2f, 0x3f, 0x3a, 0x40, 0x3d, 0x26]
  }

  predicate MustEscape(c: Byte, mode: Mode) {
    || c in UnsafeChars()
    || (mode != Unescaped && c == PERCENT)
    || (mode == Part && c in ReservedChars())
    || c <= 0x1f || c == 0x7f || c >= 0x80
  }

  /** A digit as printf's %x prints it. */
  function Digit(d: int): Byte
    requires 0 <= d < 16
  {
    if d < 10 then 48 + d else 87 + d
  }

  function Escaped(c: Byte): (t: seq<Byte>)
    ensures |t| == 3
  {
    [PERCENT, Digit(c / 16), Digit(c % 16)]
  }

  function Escape(s: seq<Byte>, mode: Mode): (t: seq<Byte>)
    ensures |s| <= |t| <= 3 * |s|
  {
    if s == [] then []
    else (if MustEscape(s[0], mode) then Escaped(s[0]) else [s[0]]) + Escape(s[1..], mode)
  }

  // ---- unescaping ----

  /** sscanf with %x on two characters, of which only what it does to two hexadecimal digits is known. */
  type Scanner = (Byte, Byte) -> Option<int>

  function HexValue(c: Byte): int {
    if 48 <= c <= 57 then c - 48 else if 97 <= c <= 102 then c - 87 else if 65 <= c <= 70 then c - 55 else -1
  }

  ghost predicate Scans(scan: Scanner) {
    forall a: Byte, b: Byte {:trigger scan(a, b)} :: HexValue(a) >= 0 && HexValue(b) >= 0 ==> scan(a, b) == Some(16 * HexValue(a) + HexValue(b))
  }

  /** What one round of the loop puts down, and how many characters it reads. */
  function Step(scan: Scanner, s: seq<Byte>): (r: (Byte, nat))
    requires s != []
    ensures 1 <= r.1 <= |s| && r.1 <= 3
  {
    if s[0] != PERCENT then (s[0], 1)
    else if |s| > 1 && s[1] == PERCENT then (PERCENT, 2)
    else if |s| > 2 then
      if s[1] == 48 && s[2] == 48 then (PERCENT, 3)
      else if scan(s[1], s[2]).Some? then (scan(s[1], s[2]).value % 256, 3)
      else (PERCENT, 1)
    else (PERCENT, 1)
  }

  function Unescape(scan: Scanner, s: seq<Byte>): (t: seq<Byte>)
    ensures |t| <= |s|
    decreases |s|
  {
    if s == [] then [] else [Step(scan, s).0] + Unescape(scan, s[Step(scan, s).1..])
  }

  // ---- what they do to each other ----

  lemma EscapedBack(scan: Scanner, c: Byte, rest: seq<Byte>)
    requires Scans(scan) && c != 0
    ensures Step(scan, Escaped(c) + rest) == (c, 3)
  {
    var a, b := Digit(c / 16), Digit(c % 16);
    assert HexValue(a) == c / 16 && HexValue(b) == c % 16;
    assert scan(a, b) == Some(16 * HexValue(a) + HexValue(b));
    var u := Escaped(c) + rest;
    assert u[0] == PERCENT && u[1] == a && u[2] == b;
    assert c / 16 * 16 + c % 16 == c;
  }

  /** Unescaping gives back every string that was escaped with its percent signs. */
  lemma {:induction false} UnescapeEscape(scan: Scanner, s: seq<Byte>, mode: Mode)
    requires Scans(scan) && 0 !in s && mode != Unescaped
    ensures Unescape(scan, Escape(s, mode)) == s
  {
    hide UnsafeChars, ReservedChars, Scans, Escaped;
    if s != [] {
      assert s[0] in s && 0 !in s[1..];
      UnescapeEscape(scan, s[1..], mode);
      var rest, e := Escape(s[1..], mode), Escape(s, mode);
      if MustEscape(s[0], mode) {
        EscapedBack(scan, s[0], rest);
        assert e == Escaped(s[0]) + rest && e[3..] == rest;
      } else {
        assert e == [s[0]] + rest && e[1..] == rest;
      }
    }
  }

  ghost predicate Clean(t: seq<Byte>) {
    forall c {:trigger c in t} :: c in t ==> !MustEscape(c, Unescaped)
  }

  lemma EscapedClean(c: Byte)
    ensures Clean(Escaped(c))
  {
    DigitClean(c / 16);
    DigitClean(c % 16);
  }

  lemma DigitClean(d: int)
    requires 0 <= d < 16
    ensures !MustEscape(Digit(d), Unescaped)
  {
  }

  lemma {:induction false} EscapeClean(s: seq<Byte>, mode: Mode)
    ensures Clean(Escape(s, mode))
  {
    hide Escaped, MustEscape;
    if s != [] {
      EscapeClean(s[1..], mode);
      if MustEscape(s[0], mode) {
        EscapedClean(s[0]);
      } else {
        LessEscaped(s[0], mode);
      }
    }
  }

  lemma LessEscaped(c: Byte, mode: Mode)
    ensures MustEscape(c, Unescaped) ==> MustEscape(c, mode)
  {
  }

  lemma CleanFirst(t: seq<Byte>)
    requires t != []
    ensures Clean(t) <==> !MustEscape(t[0], Unescaped) && Clean(t[1..])
  {
    hide MustEscape;
    assert t[0] in t && forall c {:trigger c in t[1..]} :: c in t[1..] ==> c in t;
    assert forall c {:trigger c in t} :: c in t ==> c == t[0] || c in t[1..];
  }

  lemma {:induction false} CleanStays(t: seq<Byte>)
    ensures Clean(t) <==> Escape(t, Unescaped) == t
  {
    hide MustEscape, Escaped;
    if t != [] {
      var rest := Escape(t[1..], Unescaped);
      CleanStays(t[1..]);
      CleanFirst(t);
      assert t == [t[0]] + t[1..];
      if !MustEscape(t[0], Unescaped) {
        assert Escape(t, Unescaped) == [t[0]] + rest && Escape(t, Unescaped)[1..] == rest;
      }
    }
  }

  /** rfc1738_escape_unescaped changes nothing that was escaped already, in whichever way. */
  lemma EscapedOnce(s: seq<Byte>, mode: Mode)
    ensures Escape(Escape(s, mode), Unescaped) == Escape(s, mode)
  {
    hide *;
    EscapeClean(s, mode);
    CleanStays(Escape(s, mode));
  }

  // ---- the kept buffer ----

  lemma {:induction false} EscapeMore(s: seq<Byte>, c: Byte, mode: Mode)
    ensures Escape(s + [c], mode) == Escape(s, mode) + (if MustEscape(c, mode) then Escaped(c) else [c])
  {
    hide MustEscape, Escaped;
    if s == [] {
      assert s + [c] == [c] && [c][1..] == [];
      assert Escape([c], mode) == (if MustEscape(c, mode) then Escaped(c) else [c]) + Escape([], mode);
    } else {
      assert (s + [c])[0] == s[0] && (s + [c])[1..] == s[1..] + [c];
      EscapeMore(s[1..], c, mode);
    }
  }

  /** The static variables of rfc1738_do_escape. */
  class Escaper {
    var buf: array?<Byte>
    var bufsize: nat

    /** The buffer was made for some longest string; its size is one more than a multiple of three. */
    ghost predicate Valid()
      reads this, buf
    {
      if buf == null then bufsize == 0 else bufsize % 3 == 1 && buf.Length == bufsize
    }

    constructor ()
      ensures Valid() && buf == null
    {
      buf, bufsize := null, 0;
    }

    /** A longer string gets a new buffer; any other fits the old one with its NUL, for 3n is never 3m + 1. */
    method DoEscape(url: seq<Byte>, mode: Mode) returns (result: array<Byte>)
      requires Valid() && 0 in url
      modifies this, buf
      ensures Valid() && result == buf && (result == old(buf) || fresh(result))
      ensures Ends(result[..], Escape(CString(url), mode))
    {
      ghost var t := CString(url);
      var length := StrLen(url);
      if buf == null || length * 3 > bufsize {
        bufsize := length * 3 + 1;
        buf := new Byte[bufsize](i => 0);
      }
      result := buf;
      Fits(length, bufsize);
      Fill(url, mode, result, t);
    }
  }

  lemma Fits(n: nat, size: nat)
    requires size % 3 == 1 && n * 3 <= size
    ensures n * 3 + 1 <= size
  {
  }

  method StrLen(s: seq<Byte>) returns (n: nat)
    requires 0 in s
    ensures n == |CString(s)|
  {
    hide CString;
    ghost var t := CString(s);
    n := 0;
    while s[n] != 0
      invariant 0 <= n <= |t|
      decreases |t| - n
    {
      CharAt(s, t, n);
      n := n + 1;
    }
    CharAt(s, t, n);
  }

  /** The loop over the characters. */
  method Fill(url: seq<Byte>, mode: Mode, buf: array<Byte>, ghost t: seq<Byte>)
    requires 0 in url && t == CString(url) && 3 * |t| + 1 <= buf.Length
    modifies buf
    ensures Ends(buf[..], Escape(t, mode))
  {
    hide CString, Escape, MustEscape, Escaped;
    var p, q := 0, 0;
    assert t[..0] == [];
    NothingEscaped(mode);
    while url[p] != 0
      invariant 0 <= p <= |t| && 0 <= q <= 3 * p
      invariant q == |Escape(t[..p], mode)| && buf[..q] == Escape(t[..p], mode)
      decreases |t| - p
    {
      CharAt(url, t, p);
      EscapeMore(t[..p], t[p], mode);
      assert t[..p + 1] == t[..p] + [t[p]];
      var c := url[p];
      ghost var was := buf[..q];
      if MustEscape(c, mode) {
        PutEscaped(buf, q, c);
        q := q + 2;
      } else {
        buf[q] := c;
      }
      p, q := p + 1, q + 1;
      assert buf[..q] == was + (if MustEscape(c, mode) then Escaped(c) else [c]);
    }
    CharAt(url, t, p);
    assert t[..|t|] == t;
    ghost var was := buf[..q];
    buf[q] := 0;
    assert buf[..q] == was;
  }

  lemma NothingEscaped(mode: Mode)
    ensures Escape([], mode) == []
  {
  }

  /** sprintf writes its NUL too. */
  method PutEscaped(buf: array<Byte>, q: nat, c: Byte)
    requires q + 4 <= buf.Length
    modifies buf
    ensures buf[..q] == old(buf[..q]) && buf[q..q + 3] == Escaped(c)
  {
    hide Digit;
    buf[q] := PERCENT;
    buf[q + 1] := Digit(c / 16);
    buf[q + 2] := Digit(c % 16);
    buf[q + 3] := 0;
  }

  // ---- in place ----

  lemma StepIs(scan: Scanner, s: seq<Byte>)
    requires s != []
    ensures Unescape(scan, s) == [Step(scan, s).0] + Unescape(scan, s[Step(scan, s).1..])
  {
    hide Step;
  }

  lemma StepAt(scan: Scanner, t: seq<Byte>, j: nat)
    requires j < |t|
    ensures t[j] != PERCENT ==> Step(scan, t[j..]) == (t[j], 1)
    ensures t[j] == PERCENT && j + 1 < |t| && t[j + 1] == PERCENT ==> Step(scan, t[j..]) == (PERCENT, 2)
    ensures t[j] == PERCENT && j + 1 < |t| && t[j + 1] != PERCENT && j + 2 < |t| && t[j + 1] == 48 && t[j + 2] == 48
      ==> Step(scan, t[j..]) == (PERCENT, 3)
    ensures t[j] == PERCENT && j + 1 < |t| && t[j + 1] != PERCENT && j + 2 < |t| && !(t[j + 1] == 48 && t[j + 2] == 48)
      ==> Step(scan, t[j..]) == if scan(t[j + 1], t[j + 2]).Some? then (scan(t[j + 1], t[j + 2]).value % 256, 3) else (PERCENT, 1)
    ensures t[j] == PERCENT && j + 1 < |t| && t[j + 1] != PERCENT && j + 2 == |t| ==> Step(scan, t[j..]) == (PERCENT, 1)
    ensures t[j] == PERCENT && j + 1 == |t| ==> Step(scan, t[j..]) == (PERCENT, 1)
  {
    var u := t[j..];
    assert u[0] == t[j] && (j + 1 < |t| ==> u[1] == t[j + 1]) && (j + 2 < |t| ==> u[2] == t[j + 2]);
  }

  /** i is where characters go, j where they come from; what is not yet read has not been written. */
  ghost predicate Between(scan: Scanner, s: seq<Byte>, was: seq<Byte>, t: seq<Byte>, i: nat, j: nat) {
    && |s| == |was| && i <= j <= |t| < |s|
    && s[..i] + Unescape(scan, t[j..]) == Unescape(scan, t) && s[j..] == was[j..]
  }

  lemma BetweenFirst(scan: Scanner, s: seq<Byte>, t: seq<Byte>)
    requires |t| < |s|
    ensures Between(scan, s, s, t, 0, 0)
  {
    hide Unescape;
    assert t[0..] == t && s[..0] == [];
  }

  lemma BetweenNext(scan: Scanner, s: seq<Byte>, s': seq<Byte>, was: seq<Byte>, t: seq<Byte>, i: nat, j: nat)
    requires Between(scan, s, was, t, i, j) && j < |t| && s' == s[i := Step(scan, t[j..]).0]
    ensures Between(scan, s', was, t, i + 1, j + Step(scan, t[j..]).1)
  {
    hide Unescape, Step;
    var u := t[j..];
    var k := Step(scan, u).1;
    StepIs(scan, u);
    assert u[k..] == t[j + k..];
    assert s'[..i + 1] == s[..i] + [Step(scan, u).0];
    assert s[..i] + ([Step(scan, u).0] + Unescape(scan, u[k..])) == s'[..i + 1] + Unescape(scan, u[k..]);
    assert s'[j + k..] == s[j..][k..] && was[j + k..] == was[j..][k..];
  }

  lemma BetweenIs(scan: Scanner, s: seq<Byte>, was: seq<Byte>, t: seq<Byte>, i: nat, j: nat)
    requires Between(scan, s, was, t, i, j)
    ensures |s| == |was| && i <= j <= |t| < |s|
    ensures forall k {:trigger s[k]} :: j <= k < |s| ==> s[k] == was[k]
    ensures j == |t| ==> s[..i] == Unescape(scan, t)
  {
    forall k {:trigger s[k]} | j <= k < |s|
      ensures s[k] == was[k]
    {
      assert s[j..][k - j] == was[j..][k - j];
    }
    if j == |t| {
      assert t[j..] == [] && s[..i] + [] == s[..i];
    }
  }

  /** What the memory holds at j and the two places after it. */
  lemma Ahead(scan: Scanner, s: seq<Byte>, was: seq<Byte>, t: seq<Byte>, i: nat, j: nat)
    requires Between(scan, s, was, t, i, j) && 0 in was && t == CString(was)
    ensures i <= j < |s| == |was| && |t| < |s| && (s[j] == 0 <==> j == |t|)
    ensures j < |t| ==> s[j] == t[j] && j + 1 < |s| && (s[j + 1] == 0 <==> j + 1 == |t|)
    ensures j + 1 < |t| ==> s[j + 1] == t[j + 1] && j + 2 < |s| && (s[j + 2] == 0 <==> j + 2 == |t|)
    ensures j + 2 < |t| ==> s[j + 2] == t[j + 2]
  {
    hide *;
    BetweenIs(scan, s, was, t, i, j);
    CharAt(was, t, j);
    if j < |t| { CharAt(was, t, j + 1); }
    if j + 1 < |t| { CharAt(was, t, j + 2); }
    if j + 2 < |t| { CharAt(was, t, j + 2); }
  }

  /** One round of the loop. */
  method UnescapeNext(scan: Scanner, s: array<Byte>, i: nat, j: nat, ghost was: seq<Byte>, ghost t: seq<Byte>) returns (j': nat)
    requires 0 in was && t == CString(was) && Between(scan, s[..], was, t, i, j) && j < |t|
    modifies s
    ensures j < j' && Between(scan, s[..], was, t, i + 1, j')
  {
    hide *;
    ghost var before := s[..];
    Ahead(scan, before, was, t, i, j);
    StepAt(scan, t, j);
    j' := j + 1;
    s[i] := s[j];
    if s[i] == PERCENT {
      if s[j + 1] == PERCENT {
        j' := j + 2;
      } else if s[j + 1] != 0 && s[j + 2] != 0 {
        if s[j + 1] == 48 && s[j + 2] == 48 {
          j' := j + 3;
        } else {
          var x := scan(s[j + 1], s[j + 2]);
          if x.Some? {
            s[i] := x.value % 256;
            j' := j + 3;
          }
        }
      }
    }
    assert s[..] == before[i := s[i]];
    BetweenNext(scan, before, s[..], was, t, i, j);
  }

  /** The string is unescaped where it is; from its old NUL on nothing is changed. */
  method UnescapeInPlace(scan: Scanner, s: array<Byte>)
    requires 0 in s[..]
    modifies s
    ensures Ends(s[..], Unescape(scan, CString(old(s[..]))))
    ensures s[|CString(old(s[..]))|..] == old(s[..])[|CString(old(s[..]))|..]
  {
    hide *;
    ghost var was := s[..];
    ghost var t := CString(was);
    var i, j := 0, 0;
    CharAt(was, t, |t|);
    BetweenFirst(scan, was, t);
    Ahead(scan, was, was, t, 0, 0);
    while s[j] != 0
      invariant 0 <= i && 0 <= j <= |t| < s.Length && Between(scan, s[..], was, t, i, j) && (s[j] == 0 <==> j == |t|)
      decreases |t| - j
    {
      j := UnescapeNext(scan, s, i, j, was, t);
      i := i + 1;
      BetweenIs(scan, s[..], was, t, i, j);
      Ahead(scan, s[..], was, t, i, j);
    }
    BetweenIs(scan, s[..], was, t, i, j);
    ghost var last := s[..];
    s[i] := 0;
    EndsFrom(last, s[..], was, i, |t|, Unescape(scan, t));
  }

  lemma EndsFrom(last: seq<Byte>, s: seq<Byte>, was: seq<Byte>, i: nat, n: nat, text: seq<Byte>)
    requires i <= n < |s| && |last| == |s| == |was| && s == last[i := 0] && last[..i] == text && was[n] == 0
    requires forall k {:trigger last[k]} :: n <= k < |s| ==> last[k] == was[k]
    ensures Ends(s, text) && s[n..] == was[n..]
  {
    assert s[..i] == last[..i];
  }
}
