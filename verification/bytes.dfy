/** Octets, and the copying of them. */
module Bytes {

  type Byte = b: int | 0 <= b < 256

  function Zeros(n: nat): (s: seq<Byte>)
    ensures |s| == n
  {
    if n == 0 then [] else [0] + Zeros(n - 1)
  }

  method MemCpy(to: array<Byte>, at: nat, from: seq<Byte>)
    requires at + |from| <= to.Length
    modifies to
    ensures to[..] == old(to[..at]) + from + old(to[at + |from|..])
  {
    var i := 0;
    ghost var was := to[..];
    while i < |from|
      invariant 0 <= i <= |from|
      invariant to[..] == was[..at] + from[..i] + was[at + i..]
    {
      to[at + i] := from[i];
      assert to[..] == was[..at] + (from[..i] + [from[i]]) + was[at + i + 1..];
      assert from[..i + 1] == from[..i] + [from[i]];
      i := i + 1;
    }
    assert from[..i] == from;
  }

  /** A text and its NUL come first. */
  ghost predicate Ends(s: seq<Byte>, text: seq<Byte>) {
    |text| < |s| && s[..|text|] == text && s[|text|] == 0
  }

  /** What C sees as the string at the beginning of some memory. */
  function CString(m: seq<Byte>): (t: seq<Byte>)
    requires 0 in m
    ensures |t| < |m| && 0 !in t && m[..|t|] == t && m[|t|] == 0
  {
    if m[0] == 0 then []
    else
      assert m == [m[0]] + m[1..];
      [m[0]] + CString(m[1..])
  }

  /** A string before a NUL is that string. */
  lemma {:induction false} CStringIs(m: seq<Byte>, text: seq<Byte>)
    requires Ends(m, text) && 0 !in text
    ensures 0 in m && CString(m) == text
  {
    assert m[|text|] in m;
    if text != [] {
      assert m[..|text|][0] == m[0] && m[0] in text;
      assert m[1..][..|text| - 1] == m[..|text|][1..];
      CStringIs(m[1..], text[1..]);
    }
  }

  /** The characters of a string, and the NUL after them. */
  lemma CharAt(m: seq<Byte>, t: seq<Byte>, i: nat)
    requires 0 in m && t == CString(m) && i <= |t|
    ensures i < |m| && (m[i] == 0 <==> i == |t|) && (i < |t| ==> m[i] == t[i])
  {
    if i < |t| {
      assert m[..|t|][i] == t[i] && t[i] in t;
    }
  }
}
