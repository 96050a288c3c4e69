/** Where the pieces of an unfinished program stand, and that each edit of the compiler leaves
    every other piece, with all its jumps, as it was. */
module RegexLayout {
  import opened Wrappers
  import opened RegexLanguage
  import opened RegexCode

  /** One open level: its finished alternatives, the pieces of the branch being laid out, and the
      last piece, which an operator would wrap. */
  datatype Draft = Draft(front: Front, before: Frag, last: Option<Frag>) {
    function Branch(): Frag {
      if last.Some? then Then(before, last.value) else before
    }

    function Piece(f: Frag): Draft {
      Draft(front, Branch(), Some(f))
    }

    function All(): Alts {
      Alts(front, Branch())
    }
  }

  const BLANK := Draft(Front.None, Nothing, Option.None)

  /** The finished alternatives, with the three bytes kept for the jump behind them. */
  function OpenSize(front: Front): nat {
    if front.None? then 0 else |FrontBytes(front)| + 3
  }

  function End(base: nat, l: Draft): nat {
    base + OpenSize(l.front) + |Bytes(l.Branch())|
  }

  ghost predicate Laid(c: Code, base: nat, l: Draft) {
    && End(base, l) <= |c|
    && (l.front.More? ==> At(c, base, FrontBytes(l.front)))
    && At(c, base + OpenSize(l.front), Bytes(l.Branch()))
  }

  lemma BranchSize(l: Draft)
    ensures |Bytes(l.Branch())| == |Bytes(l.before)| + (if l.last.Some? then |Bytes(l.last.value)| else 0)
    ensures l.last.Some? ==> Bytes(l.Branch()) == Bytes(l.before) + Bytes(l.last.value)
  {
  }

  /** An entry of the compile stack. */
  datatype CompileStackElt = CompileStackElt(begalt: nat, fixup: Option<nat>, laststart: nat, innerGroup: nat, regnum: nat)

  /** A level interrupted by a group: its code, its record on the stack, and the group's mark. */
  ghost predicate Suspended(c: Code, base: nat, l: Draft, elt: CompileStackElt, next: nat) {
    && Laid(c, base, l)
    && elt.begalt == base + OpenSize(l.front)
    && elt.fixup == (if l.front.None? then Option.None else Some(elt.begalt - 3))
    && elt.laststart == End(base, l)
    && At(c, elt.laststart, Memory(START_MEMORY, elt.regnum, 0))
    && next == elt.laststart + |Memory(START_MEMORY, elt.regnum, 0)|
    && (elt.regnum <= MAX_REGNUM ==> elt.innerGroup == elt.laststart + 2)
  }

  // ---- edits ----

  ghost predicate SameBelow(c: Code, c': Code, k: nat) {
    k <= |c| && k <= |c'| && c[..k] == c'[..k]
  }

  lemma AtFrame(c: Code, c': Code, k: nat, o: int, bs: Code)
    requires SameBelow(c, c', k) && At(c, o, bs) && o + |bs| <= k
    ensures At(c', o, bs)
  {
    assert c[..k][o..o + |bs|] == c[o..o + |bs|];
    assert c'[..k][o..o + |bs|] == c'[o..o + |bs|];
  }

  lemma LaidFrame(c: Code, c': Code, k: nat, base: nat, l: Draft)
    requires SameBelow(c, c', k) && Laid(c, base, l) && End(base, l) <= k
    ensures Laid(c', base, l)
  {
    hide At, SameBelow, FrontBytes, Bytes;
    if l.front.More? {
      AtFrame(c, c', k, base, FrontBytes(l.front));
    }
    AtFrame(c, c', k, base + OpenSize(l.front), Bytes(l.Branch()));
    AboveIsLonger(c, c', k);
  }

  lemma AboveIsLonger(c: Code, c': Code, k: nat)
    requires SameBelow(c, c', k)
    ensures k <= |c'|
  {
  }

  lemma SuspendedFrame(c: Code, c': Code, k: nat, base: nat, l: Draft, elt: CompileStackElt, next: nat)
    requires SameBelow(c, c', k) && Suspended(c, base, l, elt, next) && next <= k
    ensures Suspended(c', base, l, elt, next)
  {
    hide At, SameBelow, Laid, End;
    LaidFrame(c, c', k, base, l);
    AtFrame(c, c', k, elt.laststart, Memory(START_MEMORY, elt.regnum, 0));
  }

  lemma AtJoin(c: Code, o: int, u: Code, v: Code)
    requires At(c, o, u) && At(c, o + |u|, v)
    ensures At(c, o, u + v)
  {
    assert c[o..o + |u + v|] == c[o..o + |u|] + c[o + |u|..o + |u| + |v|];
  }

  lemma AtAppended(c: Code, bs: Code)
    ensures At(c + bs, |c|, bs) && SameBelow(c, c + bs, |c|)
  {
  }

  lemma AtEmpty(c: Code, o: nat)
    requires o <= |c|
    ensures At(c, o, [])
  {
  }

  /** Three bytes are opened at loc: what was above stands three places higher. */
  lemma AtInserted(c: Code, loc: nat, j: Code, bs: Code)
    requires loc <= |c| && |j| == 3
    ensures var c' := c[..loc] + j + c[loc..];
      SameBelow(c, c', loc) && At(c', loc, j) && (At(c, loc, bs) ==> At(c', loc + 3, bs))
  {
    var c' := c[..loc] + j + c[loc..];
    assert c'[..loc] == c[..loc];
    assert c'[loc..loc + 3] == j;
    if At(c, loc, bs) {
      assert c'[loc + 3..loc + 3 + |bs|] == c[loc..loc + |bs|];
    }
  }

  /** Three bytes are overwritten at loc. */
  lemma AtStored(c: Code, loc: nat, j: Code, o: int, bs: Code)
    requires loc + 3 <= |c| && |j| == 3
    ensures var c' := c[..loc] + j + c[loc + 3..];
      SameBelow(c, c', loc) && At(c', loc, j) && (loc + 3 <= o && At(c, o, bs) ==> At(c', o, bs))
  {
    var c' := c[..loc] + j + c[loc + 3..];
    assert c'[..loc] == c[..loc];
    assert c'[loc..loc + 3] == j;
    if loc + 3 <= o && At(c, o, bs) {
      assert c'[o..o + |bs|] == c[o..o + |bs|];
    }
  }

  // ---- one level grows ----

  /** A new piece behind the code of a level. */
  lemma LaidPiece(c: Code, c': Code, base: nat, l: Draft, f: Frag)
    requires Laid(c, base, l) && SameBelow(c, c', End(base, l)) && At(c', End(base, l), Bytes(f))
    ensures Laid(c', base, l.Piece(f)) && End(base, l.Piece(f)) == End(base, l) + |Bytes(f)|
  {
    var o := base + OpenSize(l.front);
    hide At, SameBelow, FrontBytes;
    AtFrame(c, c', End(base, l), o, Bytes(l.Branch()));
    if l.front.More? {
      AtFrame(c, c', End(base, l), base, FrontBytes(l.front));
    }
    AtJoin(c', o, Bytes(l.Branch()), Bytes(f));
    AtLength(c', End(base, l), Bytes(f));
  }

  lemma AtLength(c: Code, o: int, bs: Code)
    requires At(c, o, bs)
    ensures 0 <= o && o + |bs| <= |c|
  {
  }

  /** The last piece is replaced. */
  lemma LaidReplaced(c: Code, c': Code, base: nat, l: Draft, f: Frag)
    requires Laid(c, base, l) && l.last.Some?
    requires var ls := base + OpenSize(l.front) + |Bytes(l.before)|;
      SameBelow(c, c', ls) && At(c', ls, Bytes(f))
    ensures var l' := Draft(l.front, l.before, Some(f));
      Laid(c', base, l') && End(base, l') == base + OpenSize(l.front) + |Bytes(l.before)| + |Bytes(f)|
  {
    var o := base + OpenSize(l.front);
    var ls := o + |Bytes(l.before)|;
    BranchSize(l);
    AtParts(c, o, Bytes(l.before), Bytes(l.last.value));
    hide At, SameBelow, FrontBytes;
    AtFrame(c, c', ls, o, Bytes(l.before));
    if l.front.More? {
      AtFrame(c, c', ls, base, FrontBytes(l.front));
    }
    AtJoin(c', o, Bytes(l.before), Bytes(f));
    AtLength(c', ls, Bytes(f));
  }

  lemma LastAt(c: Code, base: nat, l: Draft)
    requires Laid(c, base, l) && l.last.Some?
    ensures At(c, base + OpenSize(l.front) + |Bytes(l.before)|, Bytes(l.last.value))
    ensures End(base, l) == base + OpenSize(l.front) + |Bytes(l.before)| + |Bytes(l.last.value)|
  {
    BranchSize(l);
    AtParts(c, base + OpenSize(l.front), Bytes(l.before), Bytes(l.last.value));
  }

  /** An alternative is closed: its failure jump goes in before it, the jump behind the one before
      it is filled in, and three bytes are kept behind it. */
  lemma LaidAlternative(c: Code, c': Code, base: nat, l: Draft)
    requires Laid(c, base, l)
    requires var begalt, L := base + OpenSize(l.front), |Bytes(l.Branch())|;
      && (l.front.More? ==> SameBelow(c, c', begalt - 3) && At(c', begalt - 3, Jump(JUMP_PAST_ALT, L + 3)))
      && (l.front.None? ==> SameBelow(c, c', begalt))
      && At(c', begalt, Jump(ON_FAILURE_JUMP, L + 3)) && At(c', begalt + 3, Bytes(l.Branch())) && begalt + 3 + L + 3 <= |c'|
    ensures Laid(c', base, Draft(More(l.front, l.Branch()), Nothing, Option.None))
    ensures End(base, Draft(More(l.front, l.Branch()), Nothing, Option.None)) == base + OpenSize(l.front) + 3 + |Bytes(l.Branch())| + 3
  {
    var l' := Draft(More(l.front, l.Branch()), Nothing, Option.None);
    var begalt, a := base + OpenSize(l.front), Bytes(l.Branch());
    assert l'.Branch() == Nothing && Bytes(Nothing) == [] && l'.front.More?;
    assert l.front.More? ==> At(c, base, FrontBytes(l.front)) && base + |FrontBytes(l.front)| == begalt - 3;
    hide *;
    FrontSize(l.front, l.Branch());
    AlternativeAt(c, c', base, begalt, l.front, l.Branch());
    AtEmpty(c', begalt + 3 + |a| + 3);
    LaidBlank(c', base, l');
  }

  lemma LaidBlank(c: Code, base: nat, l: Draft)
    requires l.front.More? && At(c, base, FrontBytes(l.front)) && l.before == Nothing && l.last.None?
    requires At(c, base + |FrontBytes(l.front)| + 3, [])
    ensures Laid(c, base, l) && End(base, l) == base + |FrontBytes(l.front)| + 3
  {
    AtLength(c, base + |FrontBytes(l.front)| + 3, []);
  }

  lemma FrontSize(front: Front, branch: Frag)
    ensures OpenSize(front) == if front.None? then 0 else |FrontBytes(front)| + 3
    ensures |FrontBytes(More(front, branch))| == OpenSize(front) + 3 + |Bytes(branch)|
  {
  }

  lemma AlternativeAt(c: Code, c': Code, base: nat, begalt: nat, front: Front, branch: Frag)
    requires var a := Bytes(branch);
      && (front.None? ==> begalt == base)
      && (front.More? ==>
          && At(c, base, FrontBytes(front)) && begalt - 3 == base + |FrontBytes(front)|
          && SameBelow(c, c', begalt - 3) && At(c', begalt - 3, Jump(JUMP_PAST_ALT, |a| + 3)))
      && At(c', begalt, Jump(ON_FAILURE_JUMP, |a| + 3)) && At(c', begalt + 3, a)
    ensures At(c', base, FrontBytes(More(front, branch)))
  {
    hide *;
    var a := Bytes(branch);
    var u, j, v := FrontBytes(front), Jump(JUMP_PAST_ALT, |a| + 3), Jump(ON_FAILURE_JUMP, |a| + 3);
    MoreBytes(front, branch);
    AtJoin(c', begalt, v, a);
    if front.More? {
      AtFrame(c, c', begalt - 3, base, u);
      AtJoin(c', base, u, j);
      AtJoin(c', base, u + j, v + a);
    }
  }

  lemma MoreBytes(front: Front, branch: Frag)
    ensures var a := Bytes(branch);
      var u, j, v := FrontBytes(front), Jump(JUMP_PAST_ALT, |a| + 3), Jump(ON_FAILURE_JUMP, |a| + 3);
      FrontBytes(More(front, branch)) == (if front.None? then v + a else (u + j) + (v + a))
  {
    var a := Bytes(branch);
    var u, j, v := FrontBytes(front), Jump(JUMP_PAST_ALT, |a| + 3), Jump(ON_FAILURE_JUMP, |a| + 3);
    assert FrontBytes(More(front, branch)) == (if front.None? then [] else u + j) + v + a;
    hide *;
    Reassociate(if front.None? then [] else u + j, v, a);
    if front.None? {
      assert [] + (v + a) == v + a;
    }
  }

  /** All alternatives of a level, once the last jump has been filled in. */
  lemma LaidAll(c: Code, base: nat, l: Draft)
    requires Laid(c, base, l)
    requires l.front.More? ==> At(c, base + OpenSize(l.front) - 3, Jump(JUMP_PAST_ALT, |Bytes(l.Branch())|))
    ensures At(c, base, AltBytes(l.All())) && End(base, l) == base + |AltBytes(l.All())|
  {
    if l.front.More? {
      var u, j, a := FrontBytes(l.front), Jump(JUMP_PAST_ALT, |Bytes(l.Branch())|), Bytes(l.Branch());
      AtJoin(c, base, u, j);
      AtJoin(c, base, u + j, a);
    }
  }
}
