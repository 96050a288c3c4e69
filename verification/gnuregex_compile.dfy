/** `regex_compile` for the fragment: one pass over the pattern, with jumps inserted in place. */
module RegexCompile {
  import opened Wrappers
  import opened RegexLanguage
  import opened RegexText
  import opened RegexCode
  import opened RegexBuffer
  import opened RegexLayout

  datatype Error = NoError | EParen | ESize

  // ---- the state between two characters ----

  ghost predicate Outer(c: Code, bases: seq<nat>, drafts: seq<Draft>, stack: seq<CompileStackElt>) {
    && |drafts| == |bases| == |stack| + 1 && bases[0] == 0
    && forall i {:trigger Link(c, bases, drafts, stack, i)} :: 0 <= i < |stack| ==> Link(c, bases, drafts, stack, i)
  }

  /** Level i is suspended right below level i + 1. */
  ghost predicate Link(c: Code, bases: seq<nat>, drafts: seq<Draft>, stack: seq<CompileStackElt>, i: nat)
    requires |drafts| == |bases| == |stack| + 1 && i < |stack|
  {
    Suspended(c, bases[i], drafts[i], stack[i], bases[i + 1]) && bases[i + 1] <= bases[|stack|]
  }

  ghost predicate Current(c: Code, base: nat, l: Draft, begalt: nat, fixup: Option<nat>, laststart: Option<nat>) {
    && Laid(c, base, l) && |c| == End(base, l)
    && begalt == base + OpenSize(l.front)
    && fixup == (if l.front.None? then Option.None else Some(begalt - 3))
    && laststart == (if l.last.None? then Option.None else Some(begalt + |Bytes(l.before)|))
  }

  /** The count byte of an `exactn`: of the last piece, or of an earlier one that has ended. */
  ghost predicate PendingOk(c: Code, l: Draft, begalt: nat, laststart: Option<nat>, pending: Option<nat>) {
    pending.Some? ==>
      var i := pending.value;
      && begalt <= i < |c| && i + 1 + c[i] <= |c|
      && (i + 1 + c[i] == |c| ==> l.last.Some? && l.last.value.Exact? && laststart == Some(i - 1)
                                  && WellFormed(l.last.value) && c[i] == |l.last.value.chars|)
  }

  lemma OuterAt(c: Code, bases: seq<nat>, drafts: seq<Draft>, stack: seq<CompileStackElt>, i: nat)
    requires Outer(c, bases, drafts, stack) && i < |stack|
    ensures |drafts| == |bases| == |stack| + 1
    ensures Suspended(c, bases[i], drafts[i], stack[i], bases[i + 1]) && bases[i + 1] <= bases[|stack|]
  {
    assert Link(c, bases, drafts, stack, i);
  }

  lemma OuterFrame(c: Code, c': Code, k: nat, bases: seq<nat>, drafts: seq<Draft>, stack: seq<CompileStackElt>)
    requires Outer(c, bases, drafts, stack) && SameBelow(c, c', k) && bases[|stack|] <= k
    ensures Outer(c', bases, drafts, stack)
  {
    hide SameBelow, Suspended;
    forall i {:trigger Link(c', bases, drafts, stack, i)} | 0 <= i < |stack|
      ensures Link(c', bases, drafts, stack, i)
    {
      OuterAt(c, bases, drafts, stack, i);
      SuspendedFrame(c, c', k, bases[i], drafts[i], stack[i], bases[i + 1]);
    }
  }

  /** Only the innermost level changes. */
  lemma OuterTop(c: Code, bases: seq<nat>, drafts: seq<Draft>, stack: seq<CompileStackElt>, l: Draft)
    requires Outer(c, bases, drafts, stack)
    ensures Outer(c, bases, drafts[|stack| := l], stack)
  {
    hide Suspended;
    var drafts' := drafts[|stack| := l];
    forall i {:trigger Link(c, bases, drafts', stack, i)} | 0 <= i < |stack|
      ensures Link(c, bases, drafts', stack, i)
    {
      OuterAt(c, bases, drafts, stack, i);
    }
  }

  lemma OuterPush(c: Code, bases: seq<nat>, drafts: seq<Draft>, stack: seq<CompileStackElt>, elt: CompileStackElt, next: nat, l: Draft)
    requires Outer(c, bases, drafts, stack) && Suspended(c, bases[|stack|], drafts[|stack|], elt, next) && bases[|stack|] <= next
    ensures Outer(c, bases + [next], drafts + [l], stack + [elt])
  {
    hide Suspended;
    var s, b, d := stack + [elt], bases + [next], drafts + [l];
    forall i {:trigger Link(c, b, d, s, i)} | 0 <= i < |s|
      ensures Link(c, b, d, s, i)
    {
      if i < |stack| {
        OuterAt(c, bases, drafts, stack, i);
      }
    }
  }

  lemma OuterPop(c: Code, bases: seq<nat>, drafts: seq<Draft>, stack: seq<CompileStackElt>)
    requires Outer(c, bases, drafts, stack) && |stack| > 0
    ensures var n := |stack| - 1;
      && Outer(c, bases[..n + 1], drafts[..n + 1], stack[..n])
      && Suspended(c, bases[n], drafts[n], stack[n], bases[n + 1])
  {
    hide Suspended;
    var n := |stack| - 1;
    var s, b, d := stack[..n], bases[..n + 1], drafts[..n + 1];
    forall i {:trigger Link(c, b, d, s, i)} | 0 <= i < n
      ensures Link(c, b, d, s, i)
    {
      OuterAt(c, bases, drafts, stack, i);
      BasesGrow(c, bases, drafts, stack, i + 1, n);
    }
    OuterAt(c, bases, drafts, stack, n);
  }

  lemma {:induction false} BasesGrow(c: Code, bases: seq<nat>, drafts: seq<Draft>, stack: seq<CompileStackElt>, i: nat, j: nat)
    requires Outer(c, bases, drafts, stack) && i <= j <= |stack|
    ensures bases[i] <= bases[j]
    decreases j - i
  {
    if i < j {
      OuterAt(c, bases, drafts, stack, i);
      BasesGrow(c, bases, drafts, stack, i + 1, j);
    }
  }

  class Compiler {
    const out: PatternBuffer
    var begalt: nat
    var laststart: Option<nat>
    var pending: Option<nat>
    var fixup: Option<nat>
    var stack: seq<CompileStackElt>
    var regnum: nat
    ghost var bases: seq<nat>
    ghost var drafts: seq<Draft>

    ghost predicate Valid()
      reads this, out, out.buffer
    {
      ValidBut(laststart)
    }

    /** Valid as if the last piece started at ls. */
    ghost predicate ValidBut(ls: Option<nat>)
      reads this, out, out.buffer
    {
      && out.Ready() && |drafts| == |bases| == |stack| + 1 && Outer(out.Contents(), bases, drafts, stack)
      && Current(out.Contents(), bases[|stack|], drafts[|stack|], begalt, fixup, ls)
      && PendingOk(out.Contents(), drafts[|stack|], begalt, ls, pending)
    }

    constructor ()
      ensures Valid() && drafts == [BLANK] && stack == [] && regnum == 0 && out.b == 0 && fresh(out) && fresh(out.buffer)
    {
      out := new PatternBuffer();
      begalt, laststart, pending, fixup, stack, regnum := 0, Option.None, Option.None, Option.None, [], 0;
      bases, drafts := [0], [BLANK];
    }

    /** `.` */
    method Dot() returns (ok: bool)
      requires Valid()
      modifies this, out, out.buffer
      ensures fresh({out.buffer} - {old(out.buffer)}) && stack == old(stack) && regnum == old(regnum)
      ensures ok ==> Valid() && drafts == old(drafts)[|stack| := old(drafts[|stack|]).Piece(AnyChar)]
      ensures out.Ready() && out.b <= old(out.b) + 1 && (!ok ==> old(out.b) + 1 > MAX_BUF_SIZE)
    {
      hide *;
      ValidIs();
      BeforeChar(laststart);
      AnyBytes();
      ok := out.GetSpace(1);
      if ok {
        ghost var c, n := out.Contents(), |stack|;
        laststart := Some(out.b);
        out.Push(ANYCHAR);
        AppendPiece(c, [ANYCHAR], bases, drafts, stack, begalt, fixup, old(laststart), AnyChar);
        drafts := drafts[n := drafts[n].Piece(AnyChar)];
        PendingStale(c, [ANYCHAR], old(drafts[n]), drafts[n], begalt, old(laststart), laststart, pending);
        AfterChar(laststart);
      }
    }

    /** `normal_char`: the character joins the open `exactn`, or starts a new one.  The last piece
        may be taken to start at ls. */
    method PlainChar(c: Byte, next: Option<Byte>, ghost ls: Option<nat>) returns (ok: bool, ghost joined: bool)
      requires ValidBut(ls) && (ls == laststart || ls.None?)
      modifies this, out, out.buffer
      ensures fresh({out.buffer} - {old(out.buffer)}) && stack == old(stack) && regnum == old(regnum)
      ensures ok ==> Valid()
      ensures ok && !joined ==> drafts == old(drafts)[|stack| := old(drafts[|stack|]).Piece(Exact([c]))]
      ensures ok && joined ==>
        var l := old(drafts[|stack|]);
        && l.last.Some? && l.last.value.Exact? && 1 <= |l.last.value.chars| < 255 && !(next.Some? && IsOperator(next.value))
        && drafts == old(drafts)[|stack| := Draft(l.front, l.before, Some(Exact(l.last.value.chars + [c])))]
      ensures out.Ready() && out.b <= old(out.b) + 3 && (!ok ==> old(out.b) + 3 > MAX_BUF_SIZE)
    {
      hide *;
      BeforeChar(ls);
      ghost var n, c0 := |stack|, out.Contents();
      var starts := StartsExact(next, ls);
      joined := !starts;
      ghost var l := drafts[n];
      if starts {
        ok := BeginExact();
        if !ok {
          return;
        }
        ok := PushPending(c);
        if !ok {
          return;
        }
        NewExact(c0, c, l);
        AppendPiece(c0, [EXACTN, 1, c], bases, drafts, stack, begalt, fixup, ls, Exact([c]));
        drafts := drafts[n := l.Piece(Exact([c]))];
        PendingNew(c0, c, drafts[n], begalt);
      } else {
        ghost var i := pending.value;
        PendingFacts(c0, l, begalt, ls, pending);
        ok := PushPending(c);
        if !ok {
          return;
        }
        JoinExact(c0, bases, drafts, stack, begalt, fixup, ls, i, c);
        drafts := drafts[n := Draft(l.front, l.before, Some(Exact(l.last.value.chars + [c])))];
      }
      AfterChar(laststart);
    }

    lemma ValidIs()
      requires Valid()
      ensures ValidBut(laststart)
    {
    }

    lemma BeforeChar(ls: Option<nat>)
      requires ValidBut(ls)
      ensures out.Ready() && |drafts| == |bases| == |stack| + 1 && Outer(out.Contents(), bases, drafts, stack)
      ensures Current(out.Contents(), bases[|stack|], drafts[|stack|], begalt, fixup, ls)
      ensures PendingOk(out.Contents(), drafts[|stack|], begalt, ls, pending)
      ensures begalt <= out.b == |out.Contents()|
    {
      CurrentBase(out.Contents(), bases[|stack|], drafts[|stack|], begalt, fixup, ls);
    }

    lemma AfterChar(ls: Option<nat>)
      requires out.Ready() && |drafts| == |bases| == |stack| + 1 && Outer(out.Contents(), bases, drafts, stack)
      requires Current(out.Contents(), bases[|stack|], drafts[|stack|], begalt, fixup, ls)
      requires PendingOk(out.Contents(), drafts[|stack|], begalt, ls, pending)
      ensures ValidBut(ls)
      ensures ls == laststart ==> Valid()
    {
    }

    method BeginExact() returns (ok: bool)
      requires out.Ready()
      modifies this`laststart, this`pending, out, out.buffer
      ensures out.Ready() && fresh({out.buffer} - {old(out.buffer)})
      ensures ok ==> out.Contents() == old(out.Contents()) + [EXACTN] + [0]
      ensures ok ==> laststart == Some(old(out.b)) && pending == Some(old(out.b) + 1) && out.b == old(out.b) + 2
      ensures ok ==> out.Contents()[old(out.b) + 1] == 0
      ensures out.Ready() && out.b <= old(out.b) + 2 && (!ok ==> old(out.b) + 2 > MAX_BUF_SIZE)
    {
      laststart := Some(out.b);
      ok := out.GetSpace(2);
      if ok {
        out.Push(EXACTN);
        out.Push(0);
        pending := Some(out.b - 1);
      }
    }

    /** The character is appended, and counted. */
    method PushPending(c: Byte) returns (ok: bool)
      requires out.Ready() && pending.Some? && pending.value < out.b && out.Contents()[pending.value] < 255
      modifies out, out.buffer
      ensures out.Ready() && fresh({out.buffer} - {old(out.buffer)})
      ensures ok ==> out.Contents() == (old(out.Contents()) + [c])[pending.value := old(out.Contents()[pending.value]) + 1]
      ensures out.Ready() && out.b <= old(out.b) + 1 && (!ok ==> old(out.b) + 1 > MAX_BUF_SIZE)
    {
      ok := out.GetSpace(1);
      if ok {
        assert out.buffer[pending.value] == out.Contents()[pending.value];
        out.Push(c);
        assert out.buffer[pending.value] == out.Contents()[pending.value];
        out.SetByte(pending.value, out.buffer[pending.value] + 1);
      }
    }

    /** Whether a new `exactn` is needed: none is open at the end of the code, the open one is
        full, or an operator is to apply to the new character alone. */
    method StartsExact(next: Option<Byte>, ghost ls: Option<nat>) returns (starts: bool)
      requires ValidBut(ls)
      ensures !starts ==>
        && pending.Some? && pending.value < out.b && pending.value + 1 + out.Contents()[pending.value] == out.b
        && out.Contents()[pending.value] < 255 && !(next.Some? && IsOperator(next.value))
    {
      hide Outer, Current, Laid, SameBelow, At, Bytes, Suspended;
      starts := pending.None?
        || pending.value + out.buffer[pending.value] + 1 != out.b
        || out.buffer[pending.value] == 255
        || (next.Some? && (IsOperator(next.value) || next.value == '^' as int || next.value == '{' as int));
    }

    /** `*`, `+` or `?`, or a run of them, behind a piece. */
    method Operator(zero: bool, many: bool) returns (ok: bool)
      requires Valid() && laststart.Some? && (zero || many)
      modifies this, out, out.buffer
      ensures fresh({out.buffer} - {old(out.buffer)}) && stack == old(stack) && regnum == old(regnum)
      ensures ok ==> old(drafts[|stack|]).last.Some? && Valid()
      ensures ok ==>
        var l := old(drafts[|stack|]);
        drafts == old(drafts)[|stack| := Draft(l.front, l.before, Some(Again(l.last.value, zero, many)))]
      ensures out.Ready() && out.b <= old(out.b) + 9 && (!ok ==> old(out.b) + 9 > MAX_BUF_SIZE)
    {
      hide *;
      ValidIs();
      BeforeChar(laststart);
      ghost var n := |stack|;
      ghost var c0 := out.Contents();
      var at := laststart.value;
      CurrentBase(c0, bases[n], drafts[n], begalt, fixup, laststart);
      out.Length();
      ghost var c1, c2;
      ok, c1, c2 := Wrap(at, zero, many);
      if !ok {
        return;
      }
      WrapPiece(c0, c1, c2, out.Contents(), bases, drafts, stack, begalt, fixup, at, zero, many);
      drafts := drafts[n := Draft(drafts[n].front, drafts[n].before, Some(Again(drafts[n].last.value, zero, many)))];
      PendingNone(out.Contents(), drafts[n], begalt, laststart);
      AfterChar(laststart);
    }

    /** The jumps of an operator around the code from at on: the jump back behind it, the failure
        jump in front, and the dummy failure jump over that. */
    method Wrap(at: nat, zero: bool, many: bool) returns (ok: bool, ghost c1: Code, ghost c2: Code)
      requires out.Ready() && at <= out.b
      modifies this`pending, out, out.buffer
      ensures fresh({out.buffer} - {old(out.buffer)}) && out.Ready()
      ensures ok ==>
        var c := old(out.Contents());
        && pending == Option.None
        && c1 == (if many then c + Jump(MAYBE_POP_JUMP, at - 3 - |c| - 3) else c)
        && c2 == c1[..at] + Jump(ON_FAILURE_JUMP, |c1| + 3 - at - 3) + c1[at..]
        && out.Contents() == if zero then c2 else c2[..at] + Jump(DUMMY_FAILURE_JUMP, 3) + c2[at..]
      ensures out.b <= old(out.b) + 9 && (!ok ==> old(out.b) + 9 > MAX_BUF_SIZE)
    {
      hide Jump;
      c1, c2 := out.Contents(), [];
      if many {
        ok := out.GetSpace(3);
        if !ok {
          return;
        }
        out.AppendJump(MAYBE_POP_JUMP, at as int - 3);
      }
      ok := out.GetSpace(3);
      if !ok {
        return;
      }
      c1 := out.Contents();
      out.InsertJump(ON_FAILURE_JUMP, at, out.b + 3);
      pending := Option.None;
      c2 := out.Contents();
      if !zero {
        ok := out.GetSpace(3);
        if !ok {
          return;
        }
        out.InsertJump(DUMMY_FAILURE_JUMP, at, at + 6);
      }
    }

    /** `(` */
    method Open() returns (ok: bool)
      requires Valid()
      modifies this, out, out.buffer
      ensures fresh({out.buffer} - {old(out.buffer)})
      ensures ok ==> Valid() && drafts == old(drafts) + [BLANK]
      ensures regnum == old(regnum) + 1 && |stack| == |old(stack)| + 1 && stack == old(stack) + [stack[|old(stack)|]] && stack[|old(stack)|].regnum == regnum
      ensures out.Ready() && out.b <= old(out.b) + 3 && (!ok ==> old(out.b) + 3 > MAX_BUF_SIZE)
    {
      hide *;
      ValidIs();
      BeforeChar(laststart);
      ghost var n := |stack|;
      ghost var c0 := out.Contents();
      regnum := regnum + 1;
      var elt := CompileStackElt(begalt, fixup, out.b, if regnum <= MAX_REGNUM then out.b + 2 else 0, regnum);
      stack := stack + [elt];
      ok := out.PushMark(START_MEMORY, regnum, 0);
      if !ok {
        return;
      }
      out.Length();
      OpenLevel(c0, out.Contents(), bases, drafts, old(stack), elt, old(laststart));
      fixup, laststart, begalt, pending := Option.None, Option.None, out.b, Option.None;
      PendingNone(out.Contents(), BLANK, begalt, laststart);
      bases, drafts := bases + [out.b], drafts + [BLANK];
      AfterChar(laststart);
      ok := true;
    }

    /** `|` */
    method Alternative() returns (ok: bool)
      requires Valid()
      modifies this, out, out.buffer
      ensures fresh({out.buffer} - {old(out.buffer)}) && stack == old(stack) && regnum == old(regnum)
      ensures ok ==> Valid()
      ensures ok ==>
        var l := old(drafts[|stack|]);
        drafts == old(drafts)[|stack| := Draft(More(l.front, l.Branch()), Nothing, Option.None)]
      ensures out.Ready() && out.b <= old(out.b) + 6 && (!ok ==> old(out.b) + 6 > MAX_BUF_SIZE)
    {
      hide *;
      ValidIs();
      BeforeChar(laststart);
      ghost var n := |stack|;
      ghost var c0 := out.Contents();
      CurrentBase(c0, bases[n], drafts[n], begalt, fixup, laststart);
      ghost var c1, c2;
      ok, c1, c2 := SplitBranch();
      if !ok {
        return;
      }
      CloseAlternative(c0, c1, c2, out.Contents(), bases, drafts, stack, begalt, old(fixup), old(laststart));
      out.Length();
      laststart := Option.None;
      begalt := out.b;
      drafts := drafts[n := Draft(More(drafts[n].front, drafts[n].Branch()), Nothing, Option.None)];
      PendingNone(out.Contents(), drafts[n], begalt, laststart);
      AfterChar(laststart);
    }

    /** The failure jump before the alternative, the jump of the one before it, and three bytes
        behind it. */
    method SplitBranch() returns (ok: bool, ghost c1: Code, ghost c2: Code)
      requires out.Ready() && begalt <= out.b && (fixup.Some? ==> fixup.value + 3 <= out.b)
      modifies this`fixup, this`pending, out, out.buffer
      ensures fresh({out.buffer} - {old(out.buffer)}) && out.Ready()
      ensures ok ==> pending.None? && fixup == Some(|c2|)
      ensures ok ==>
        var c := old(out.Contents());
        && c1 == c[..begalt] + Jump(ON_FAILURE_JUMP, |c| + 6 - begalt - 3) + c[begalt..]
        && Filled(c1, c2, old(fixup), |c1|)
        && |out.Contents()| == |c2| + 3 && out.Contents()[..|c2|] == c2
      ensures out.Ready() && out.b <= old(out.b) + 6 && (!ok ==> old(out.b) + 6 > MAX_BUF_SIZE)
    {
      hide Jump, Filled;
      c1, c2 := [], [];
      ok := out.GetSpace(3);
      if !ok {
        return;
      }
      out.InsertJump(ON_FAILURE_JUMP, begalt, out.b + 6);
      pending := Option.None;
      c1 := out.Contents();
      FillFixup(out.b);
      fixup := Some(out.b);
      c2 := out.Contents();
      ok := out.GetSpace(3);
      if !ok {
        return;
      }
      out.Reserve();
    }

    /** The jump kept behind the alternative before, if there is one, is filled in. */
    method FillFixup(to: int)
      requires out.Ready() && (fixup.Some? ==> fixup.value + 3 <= out.b)
      modifies out.buffer
      ensures out.Ready() && Filled(old(out.Contents()), out.Contents(), fixup, to)
    {
      if fixup.Some? {
        out.StoreJump(JUMP_PAST_ALT, fixup.value, to);
      }
    }

    /** The first half of `)`: the last alternative ends with a dummy failure point, and the jump
        behind the one before is filled in. */
    method EndAlternatives() returns (ok: bool)
      requires Valid()
      modifies out, out.buffer
      ensures fresh({out.buffer} - {old(out.buffer)})
      ensures ok ==> out.Ready() && Ended(old(out.Contents()), out.Contents(), old(drafts[|stack|]), begalt)
      ensures out.Ready() && out.b <= old(out.b) + 1 && (!ok ==> old(out.b) + 1 > MAX_BUF_SIZE)
    {
      hide Outer, Laid, At, Bytes, Jump, Suspended, FrontBytes;
      ok := true;
      ghost var n := |stack|;
      CurrentBase(out.Contents(), bases[n], drafts[n], begalt, fixup, laststart);
      if fixup.Some? {
        ok := out.GetSpace(1);
        if !ok {
          return;
        }
        out.Push(PUSH_DUMMY_FAILURE);
        FillFixup(out.b - 1);
      }
    }

    /** A `)` with no group open: an ordinary character. */
    method StrayClose(next: Option<Byte>) returns (ok: bool, ghost joined: bool)
      requires Valid() && stack == []
      modifies this, out, out.buffer
      ensures fresh({out.buffer} - {old(out.buffer)}) && stack == old(stack) && regnum == old(regnum)
      ensures ok ==> Valid()
      ensures ok && !joined ==>
        var l := old(drafts[0]);
        drafts == [if l.front.None? then l.Piece(Exact([CLOSE])) else Draft(l.front, Then(l.Branch(), Dummy), Option.None).Piece(Exact([CLOSE]))]
      ensures ok && joined ==>
        var l := old(drafts[0]);
        && l.last.Some? && l.last.value.Exact? && 1 <= |l.last.value.chars| < 255 && !(next.Some? && IsOperator(next.value))
        && drafts == [Draft(l.front, l.before, Some(Exact(l.last.value.chars + [CLOSE])))]
      ensures out.Ready() && out.b <= old(out.b) + 4 && (!ok ==> old(out.b) + 4 > MAX_BUF_SIZE)
    {
      hide *;
      ValidIs();
      BeforeChar(laststart);
      joined := false;
      ghost var c0 := out.Contents();
      ghost var l := drafts[0];
      ok := EndAlternatives();
      if !ok {
        return;
      }
      EndedSingle(c0, out.Contents(), bases, drafts, begalt, fixup, laststart);
      ghost var ls := laststart;
      if l.front.More? {
        DummyPiece(c0, out.Contents(), bases, drafts, begalt, fixup, laststart, pending);
        drafts := [Draft(l.front, Then(l.Branch(), Dummy), Option.None)];
        ls := Option.None;
      }
      AfterChar(ls);
      ok, joined := PlainChar(CLOSE, next, ls);
    }

    /** `)` of the innermost group. */
    method Close() returns (ok: bool)
      requires Valid() && stack != []
      modifies this, out, out.buffer
      ensures fresh({out.buffer} - {old(out.buffer)}) && stack == old(stack)[..|old(stack)| - 1] && regnum == old(regnum)
      ensures ok ==> Valid()
      ensures ok ==>
        var n := |stack|;
        var elt := old(stack)[n];
        drafts == old(drafts)[..n] + [old(drafts)[n].Piece(Group(elt.regnum, (regnum - elt.regnum) % 256, old(drafts)[n + 1].All()))]
      ensures out.Ready() && out.b <= old(out.b) + 4 && (!ok ==> old(out.b) + 4 > MAX_BUF_SIZE)
    {
      hide *;
      ValidIs();
      BeforeChar(laststart);
      ghost var c0 := out.Contents();
      var n := |stack| - 1;
      ok := EndAlternatives();
      var elt := stack[n];
      stack := stack[..n];
      if !ok {
        return;
      }
      ghost var c1 := out.Contents();
      GroupPlaces(c0, c1, bases, drafts, old(stack), begalt, fixup, laststart);
      begalt, fixup, laststart, pending := elt.begalt, elt.fixup, Some(elt.laststart), Option.None;
      var inner: Byte := (regnum - elt.regnum) % 256;
      out.Length();
      if elt.regnum <= MAX_REGNUM {
        out.SetByte(elt.innerGroup, inner);
      }
      ok := out.PushMark(STOP_MEMORY, elt.regnum, inner);
      if !ok {
        return;
      }
      Unmarked(c1, elt.regnum, inner);
      CloseLevel(c0, c1, out.Contents(), bases, drafts, old(stack), old(begalt), old(fixup), old(laststart), inner);
      bases := bases[..n + 1];
      drafts := drafts[..n] + [drafts[n].Piece(Group(elt.regnum, inner, drafts[n + 1].All()))];
      PendingNone(out.Contents(), drafts[n], begalt, laststart);
      AfterChar(laststart);
    }
  }

  /** A piece laid out at the end. */
  lemma AppendPiece(c: Code, bs: Code, bases: seq<nat>, drafts: seq<Draft>, stack: seq<CompileStackElt>,
                    begalt: nat, fixup: Option<nat>, laststart: Option<nat>, f: Frag)
    requires Outer(c, bases, drafts, stack) && Current(c, bases[|stack|], drafts[|stack|], begalt, fixup, laststart)
    requires bs == Bytes(f)
    ensures var l := drafts[|stack|].Piece(f);
      && Outer(c + bs, bases, drafts[|stack| := l], stack)
      && Current(c + bs, bases[|stack|], l, begalt, fixup, Some(|c|))
  {
    var n := |stack|;
    AtAppended(c, bs);
    CurrentBase(c, bases[n], drafts[n], begalt, fixup, laststart);
    hide Suspended, Laid, SameBelow, At;
    OuterFrame(c, c + bs, |c|, bases, drafts, stack);
    OuterTop(c + bs, bases, drafts, stack, drafts[n].Piece(f));
    LaidPiece(c, c + bs, bases[n], drafts[n], f);
  }

  lemma CurrentBase(c: Code, base: nat, l: Draft, begalt: nat, fixup: Option<nat>, laststart: Option<nat>)
    requires Current(c, base, l, begalt, fixup, laststart)
    ensures base <= begalt <= |c| && (fixup.Some? ==> base <= fixup.value && fixup.value + 3 == begalt)
    ensures laststart.Some? ==> begalt <= laststart.value <= |c|
  {
  }

  /** With code behind it, no `exactn` is still open. */
  lemma PendingStale(c: Code, bs: Code, l: Draft, l': Draft, begalt: nat, laststart: Option<nat>, laststart': Option<nat>, pending: Option<nat>)
    requires PendingOk(c, l, begalt, laststart, pending) && bs != []
    ensures PendingOk(c + bs, l', begalt, laststart', pending)
  {
  }

  lemma Unmarked(c: Code, reg: nat, inner: Byte)
    ensures reg > MAX_REGNUM ==> c + Memory(STOP_MEMORY, reg, inner) == c
  {
  }

  lemma PendingFacts(c: Code, l: Draft, begalt: nat, laststart: Option<nat>, pending: Option<nat>)
    requires PendingOk(c, l, begalt, laststart, pending) && pending.Some?
    ensures pending.value < |c|
    ensures pending.value + 1 + c[pending.value] == |c| ==>
      && l.last.Some? && l.last.value.Exact? && laststart == Some(pending.value - 1)
      && WellFormed(l.last.value) && c[pending.value] == |l.last.value.chars|
  {
  }

  lemma PendingNone(c: Code, l: Draft, begalt: nat, laststart: Option<nat>)
    ensures PendingOk(c, l, begalt, laststart, Option.None)
  {
  }

  lemma AnyBytes()
    ensures Bytes(AnyChar) == [ANYCHAR]
  {
  }

  lemma NewExact(c: Code, x: Byte, l: Draft)
    ensures l.Piece(Exact([x])).last == Some(Exact([x]))
    ensures ((c + [EXACTN]) + [0] + [x])[|c| + 1 := 1] == c + [EXACTN, 1, x] && Bytes(Exact([x])) == [EXACTN, 1, x]
  {
  }

  lemma PendingNew(c: Code, x: Byte, l: Draft, begalt: nat)
    requires l.last == Some(Exact([x])) && begalt <= |c|
    ensures PendingOk(c + [EXACTN, 1, x], l, begalt, Some(|c|), Some(|c| + 1))
  {
  }

  /** One more character in the open `exactn`. */
  lemma JoinExact(c: Code, bases: seq<nat>, drafts: seq<Draft>, stack: seq<CompileStackElt>,
                  begalt: nat, fixup: Option<nat>, laststart: Option<nat>, i: nat, x: Byte)
    requires Outer(c, bases, drafts, stack) && Current(c, bases[|stack|], drafts[|stack|], begalt, fixup, laststart)
    requires i < |c| && i + 1 + c[i] == |c| && c[i] < 255 && PendingOk(c, drafts[|stack|], begalt, laststart, Some(i))
    ensures var l := drafts[|stack|];
      && l.last.Some? && l.last.value.Exact? && 1 <= |l.last.value.chars| < 255
      && var c' := (c + [x])[i := c[i] + 1];
         var l' := Draft(l.front, l.before, Some(Exact(l.last.value.chars + [x])));
         && Outer(c', bases, drafts[|stack| := l'], stack) && Current(c', bases[|stack|], l', begalt, fixup, laststart)
         && PendingOk(c', l', begalt, laststart, Some(i))
  {
    hide *;
    OuterCounts(c, bases, drafts, stack);
    var n := |stack|;
    var l := drafts[n];
    PendingFacts(c, l, begalt, laststart, Some(i));
    ExactSize(l.last.value);
    var chars := l.last.value.chars;
    var c' := (c + [x])[i := c[i] + 1];
    var ls := laststart.value;
    var l' := Draft(l.front, l.before, Some(Exact(chars + [x])));
    CurrentFacts(c, bases[n], l, begalt, fixup, laststart);
    LastAt(c, bases[n], l);
    ExactGrows(c, ls, chars, x);
    OuterFrame(c, c', ls, bases, drafts, stack);
    OuterTop(c', bases, drafts, stack, l');
    LaidReplaced(c, c', bases[n], l, Exact(chars + [x]));
    ExactSize(Exact(chars + [x]));
    CurrentFrom(c', bases[n], l', begalt, fixup, laststart);
    PendingJoined(c', l', begalt, laststart, i);
  }

  lemma ExactSize(f: Frag)
    requires f.Exact? && (WellFormed(f) || 1 <= |f.chars| <= 255)
    ensures |Bytes(f)| == 2 + |f.chars| && 1 <= |f.chars| <= 255
  {
  }

  lemma PendingJoined(c: Code, l: Draft, begalt: nat, laststart: Option<nat>, i: nat)
    requires begalt <= i < |c| && i + 1 + c[i] == |c| && l.last.Some? && l.last.value.Exact? && laststart == Some(i - 1)
    requires 1 <= |l.last.value.chars| <= 255 && c[i] == |l.last.value.chars|
    ensures PendingOk(c, l, begalt, laststart, Some(i))
  {
  }

  lemma ExactGrows(c: Code, ls: nat, chars: Text, x: Byte)
    requires At(c, ls, Bytes(Exact(chars))) && |chars| < 255 && |c| == ls + 2 + |chars|
    ensures var c' := (c + [x])[ls + 1 := |chars| + 1];
      c[ls + 1] == |chars| && SameBelow(c, c', ls) && At(c', ls, Bytes(Exact(chars + [x])))
  {
    var c' := (c + [x])[ls + 1 := |chars| + 1];
    AtByte(c, ls, Bytes(Exact(chars)), 1);
    AtByte(c, ls, Bytes(Exact(chars)), 0);
    AtParts(c, ls, [EXACTN, |chars|], chars);
    assert c'[ls..ls + |chars| + 3] == [EXACTN, |chars| + 1] + (chars + [x]);
    assert c'[..ls] == c[..ls];
  }

  /** The last piece becomes a repetition. */
  lemma WrapPiece(c: Code, c1: Code, c2: Code, c3: Code, bases: seq<nat>, drafts: seq<Draft>, stack: seq<CompileStackElt>,
                  begalt: nat, fixup: Option<nat>, ls: nat, zero: bool, many: bool)
    requires Outer(c, bases, drafts, stack) && Current(c, bases[|stack|], drafts[|stack|], begalt, fixup, Some(ls)) && ls <= |c|
    requires c1 == if many then c + Jump(MAYBE_POP_JUMP, ls - 3 - |c| - 3) else c
    requires c2 == c1[..ls] + Jump(ON_FAILURE_JUMP, |c1| + 3 - ls - 3) + c1[ls..]
    requires c3 == if zero then c2 else c2[..ls] + Jump(DUMMY_FAILURE_JUMP, 3) + c2[ls..]
    ensures var l := drafts[|stack|];
      && l.last.Some?
      && var l' := Draft(l.front, l.before, Some(Again(l.last.value, zero, many)));
         Outer(c3, bases, drafts[|stack| := l'], stack) && Current(c3, bases[|stack|], l', begalt, fixup, Some(ls))
  {
    hide *;
    OuterCounts(c, bases, drafts, stack);
    var n := |stack|;
    var l := drafts[n];
    CurrentFacts(c, bases[n], l, begalt, fixup, Some(ls));
    var f := l.last.value;
    var body := Bytes(f);
    var l' := Draft(l.front, l.before, Some(Again(f, zero, many)));
    LastAt(c, bases[n], l);
    AgainBytes(f, zero, many);
    LoopWrapped(c, c1, c2, ls, body, many);
    AtInserted(c2, ls, Jump(DUMMY_FAILURE_JUMP, 3), LoopBytes(body, many));
    if !zero {
      AtJoin(c3, ls, Jump(DUMMY_FAILURE_JUMP, 3), LoopBytes(body, many));
      SameBelowTrans(c, c2, c3, ls);
    }
    OuterFrame(c, c3, ls, bases, drafts, stack);
    OuterTop(c3, bases, drafts, stack, l');
    LaidReplaced(c, c3, bases[n], l, Again(f, zero, many));
    CurrentFrom(c3, bases[n], l', begalt, fixup, Some(ls));
  }

  lemma OuterCounts(c: Code, bases: seq<nat>, drafts: seq<Draft>, stack: seq<CompileStackElt>)
    requires Outer(c, bases, drafts, stack)
    ensures |drafts| == |bases| == |stack| + 1 && bases[0] == 0
  {
  }

  lemma CurrentFacts(c: Code, base: nat, l: Draft, begalt: nat, fixup: Option<nat>, laststart: Option<nat>)
    requires Current(c, base, l, begalt, fixup, laststart)
    ensures Laid(c, base, l) && |c| == End(base, l) == begalt + |Bytes(l.Branch())| && base <= begalt == base + OpenSize(l.front)
    ensures fixup == (if l.front.None? then Option.None else Some(begalt - 3)) && (l.front.More? ==> base <= begalt - 3)
    ensures laststart == (if l.last.None? then Option.None else Some(begalt + |Bytes(l.before)|))
    ensures At(c, begalt, Bytes(l.Branch()))
  {
  }

  lemma CurrentFrom(c: Code, base: nat, l: Draft, begalt: nat, fixup: Option<nat>, laststart: Option<nat>)
    requires Laid(c, base, l) && |c| == End(base, l) && begalt == base + OpenSize(l.front)
    requires fixup == (if l.front.None? then Option.None else Some(begalt - 3))
    requires laststart == (if l.last.None? then Option.None else Some(begalt + |Bytes(l.before)|))
    ensures Current(c, base, l, begalt, fixup, laststart)
  {
  }

  lemma AgainBytes(f: Frag, zero: bool, many: bool)
    ensures Bytes(Again(f, zero, many)) ==
      if zero then LoopBytes(Bytes(f), many) else Jump(DUMMY_FAILURE_JUMP, 3) + LoopBytes(Bytes(f), many)
    ensures |LoopBytes(Bytes(f), many)| == |Bytes(f)| + (if many then 6 else 3)
    ensures |Bytes(Again(f, zero, many))| == |Bytes(f)| + (if many then 6 else 3) + (if zero then 0 else 3)
  {
    var u := LoopBytes(Bytes(f), many);
    assert [] + u == u;
  }

  lemma SameBelowTrans(c: Code, c1: Code, c2: Code, k: nat)
    requires SameBelow(c, c1, k) && SameBelow(c1, c2, k)
    ensures SameBelow(c, c2, k)
  {
  }

  lemma LoopWrapped(c: Code, c1: Code, c2: Code, ls: nat, body: Code, many: bool)
    requires At(c, ls, body) && |c| == ls + |body|
    requires c1 == if many then c + Jump(MAYBE_POP_JUMP, ls - 3 - |c| - 3) else c
    requires c2 == c1[..ls] + Jump(ON_FAILURE_JUMP, |c1| + 3 - ls - 3) + c1[ls..]
    ensures SameBelow(c, c2, ls) && At(c2, ls, LoopBytes(body, many)) && |c2| == |c| + (if many then 6 else 3)
  {
    hide At, Jump, SameBelow;
    var j := Jump(ON_FAILURE_JUMP, |c1| - ls);
    var k := Jump(MAYBE_POP_JUMP, -(|body| + 6));
    if many {
      AtAppended(c, k);
      AtFrame(c, c1, |c|, ls, body);
      AtJoin(c1, ls, body, k);
      AtInserted(c1, ls, j, body + k);
      AtJoin(c2, ls, j, body + k);
      Reassociate(j, body, k);
      SameBelowLess(c, c1, |c|, ls);
      SameBelowTrans(c, c1, c2, ls);
    } else {
      AtInserted(c1, ls, j, body);
      AtJoin(c2, ls, j, body);
    }
  }

  lemma SameBelowLess(c: Code, c': Code, k: nat, i: nat)
    requires SameBelow(c, c', k) && i <= k
    ensures SameBelow(c, c', i)
  {
    assert c[..i] == c[..k][..i];
    assert c'[..i] == c'[..k][..i];
  }

  lemma OpenLevel(c: Code, c': Code, bases: seq<nat>, drafts: seq<Draft>, stack: seq<CompileStackElt>, elt: CompileStackElt, laststart: Option<nat>)
    requires Outer(c, bases, drafts, stack) && Current(c, bases[|stack|], drafts[|stack|], elt.begalt, elt.fixup, laststart)
    requires elt.laststart == |c| && (elt.regnum <= MAX_REGNUM ==> elt.innerGroup == |c| + 2)
    requires c' == c + Memory(START_MEMORY, elt.regnum, 0)
    ensures Outer(c', bases + [|c'|], drafts + [BLANK], stack + [elt])
    ensures Current(c', |c'|, BLANK, |c'|, Option.None, Option.None)
  {
    var n := |stack|;
    AtAppended(c, Memory(START_MEMORY, elt.regnum, 0));
    CurrentBase(c, bases[n], drafts[n], elt.begalt, elt.fixup, laststart);
    AtEmpty(c', |c'|);
    hide Laid, SameBelow, At, Memory;
    OuterFrame(c, c', |c|, bases, drafts, stack);
    LaidFrame(c, c', |c|, bases[n], drafts[n]);
    OuterPush(c', bases, drafts, stack, elt, |c'|, BLANK);
    LaidStart(c');
  }

  lemma LaidStart(c: Code)
    ensures Laid(c, |c|, BLANK) && End(|c|, BLANK) == |c|
  {
    AtEmpty(c, |c|);
  }

  /** What stands where once an alternative has been split off: below, everything as before. */
  lemma SplitAt(c: Code, c1: Code, c2: Code, c3: Code, begalt: nat, fixup: Option<nat>, a: Code)
    requires |c| == begalt + |a| && At(c, begalt, a) && (fixup.Some? ==> fixup.value + 3 == begalt)
    requires c1 == c[..begalt] + Jump(ON_FAILURE_JUMP, |c| + 6 - begalt - 3) + c[begalt..]
    requires Filled(c1, c2, fixup, |c1|)
    requires |c3| == |c2| + 3 && c3[..|c2|] == c2
    ensures var low := if fixup.Some? then begalt - 3 else begalt;
      && |c2| == begalt + 3 + |a| && SameBelow(c, c3, low)
      && At(c3, begalt, Jump(ON_FAILURE_JUMP, |a| + 3)) && At(c3, begalt + 3, a)
      && (fixup.Some? ==> At(c3, begalt - 3, Jump(JUMP_PAST_ALT, |a| + 3)))
  {
    hide *;
    var low := if fixup.Some? then begalt - 3 else begalt;
    var j, k := Jump(ON_FAILURE_JUMP, |a| + 3), Jump(JUMP_PAST_ALT, |a| + 3);
    SameAppended(c2, c3);
    AtInserted(c, begalt, j, a);
    FilledFacts(c1, c2, fixup, |c1|);
    if fixup.Some? {
      AtStored(c1, begalt - 3, k, begalt, j);
      AtStored(c1, begalt - 3, k, begalt + 3, a);
      SameBelowLess(c, c1, begalt, low);
      SameBelowTrans(c, c1, c2, low);
      AtFrame(c2, c3, |c2|, low, k);
    }
    AtFrame(c2, c3, |c2|, begalt, j);
    AtFrame(c2, c3, |c2|, begalt + 3, a);
    SameBelowLess(c2, c3, |c2|, low);
    SameBelowTrans(c, c2, c3, low);
  }

  lemma CloseAlternative(c: Code, c1: Code, c2: Code, c3: Code, bases: seq<nat>, drafts: seq<Draft>, stack: seq<CompileStackElt>,
                         begalt: nat, fixup: Option<nat>, laststart: Option<nat>)
    requires Outer(c, bases, drafts, stack) && Current(c, bases[|stack|], drafts[|stack|], begalt, fixup, laststart) && begalt <= |c|
    requires c1 == c[..begalt] + Jump(ON_FAILURE_JUMP, |c| + 6 - begalt - 3) + c[begalt..]
    requires Filled(c1, c2, fixup, |c1|)
    requires |c3| == |c2| + 3 && c3[..|c2|] == c2
    ensures var l := drafts[|stack|];
      var l' := Draft(More(l.front, l.Branch()), Nothing, Option.None);
      Outer(c3, bases, drafts[|stack| := l'], stack) && Current(c3, bases[|stack|], l', |c3|, Some(|c2|), Option.None)
  {
    hide *;
    OuterCounts(c, bases, drafts, stack);
    var n := |stack|;
    var l := drafts[n];
    var l' := Draft(More(l.front, l.Branch()), Nothing, Option.None);
    var a := Bytes(l.Branch());
    CurrentFacts(c, bases[n], l, begalt, fixup, laststart);
    FrontSize(l.front, l.Branch());
    var low := if fixup.Some? then begalt - 3 else begalt;
    SplitAt(c, c1, c2, c3, begalt, fixup, a);
    OuterFrame(c, c3, low, bases, drafts, stack);
    OuterTop(c3, bases, drafts, stack, l');
    LaidAlternative(c, c3, bases[n], l);
    FrontSize(l'.front, Nothing);
    CurrentFrom(c3, bases[n], l', |c3|, Some(|c2|), Option.None);
  }

  ghost predicate Filled(c: Code, c': Code, fixup: Option<nat>, to: int) {
    if fixup.None? then c' == c
    else
      && fixup.value + 3 <= |c|
      && c' == c[..fixup.value] + Jump(JUMP_PAST_ALT, to - fixup.value - 3) + c[fixup.value + 3..]
  }

  lemma FilledFacts(c: Code, c': Code, fixup: Option<nat>, to: int)
    requires Filled(c, c', fixup, to)
    ensures |c'| == |c| && (fixup.None? ==> c' == c)
    ensures fixup.Some? ==>
      && fixup.value + 3 <= |c|
      && c' == c[..fixup.value] + Jump(JUMP_PAST_ALT, to - fixup.value - 3) + c[fixup.value + 3..]
  {
  }

  lemma SameAppended(c: Code, c': Code)
    requires |c| <= |c'| && c'[..|c|] == c
    ensures SameBelow(c, c', |c|)
  {
    assert c[..|c|] == c;
  }

  /** The code of a level whose last alternative has been ended. */
  ghost predicate Ended(c: Code, c': Code, l: Draft, begalt: nat) {
    if l.front.None? then c' == c
    else
      && 3 <= begalt <= |c|
      && c' == (c + [PUSH_DUMMY_FAILURE])[..begalt - 3] + Jump(JUMP_PAST_ALT, |c| - begalt) + (c + [PUSH_DUMMY_FAILURE])[begalt..]
  }

  lemma EndedSingle(c: Code, c': Code, bases: seq<nat>, drafts: seq<Draft>, begalt: nat, fixup: Option<nat>, laststart: Option<nat>)
    requires |drafts| == |bases| == 1 && Current(c, bases[0], drafts[0], begalt, fixup, laststart) && Ended(c, c', drafts[0], begalt)
    ensures drafts[0].front.None? ==> c' == c
  {
  }

  /** What ending the alternatives leaves: every alternative in place, and the dummy behind. */
  lemma EndedLaid(c: Code, c': Code, base: nat, l: Draft, begalt: nat, fixup: Option<nat>, laststart: Option<nat>)
    requires Current(c, base, l, begalt, fixup, laststart) && Ended(c, c', l, begalt)
    ensures SameBelow(c, c', base) && Laid(c', base, l) && End(base, l) == |c|
    ensures l.front.More? ==>
      && At(c', |c|, [PUSH_DUMMY_FAILURE]) && |c'| == |c| + 1
      && At(c', base + OpenSize(l.front) - 3, Jump(JUMP_PAST_ALT, |Bytes(l.Branch())|))
  {
    CurrentBase(c, base, l, begalt, fixup, laststart);
    var a := Bytes(l.Branch());
    if l.front.More? {
      var d := c + [PUSH_DUMMY_FAILURE];
      var j := Jump(JUMP_PAST_ALT, |a|);
      hide At, SameBelow, Bytes, FrontBytes, Jump;
      AtAppended(c, [PUSH_DUMMY_FAILURE]);
      AtFrame(c, d, |c|, begalt, a);
      AtStored(d, begalt - 3, j, begalt, a);
      AtStored(d, begalt - 3, j, |c|, [PUSH_DUMMY_FAILURE]);
      SameBelowLess(c, d, |c|, begalt - 3);
      SameBelowTrans(c, d, c', begalt - 3);
      AtFrame(c, c', begalt - 3, base, FrontBytes(l.front));
      SameBelowLess(c, c', begalt - 3, base);
    } else {
      SameSelf(c, base);
    }
  }

  lemma SameSelf(c: Code, k: nat)
    requires k <= |c|
    ensures SameBelow(c, c, k)
  {
  }

  /** The dummy that a stray `)` leaves behind is a piece of its own. */
  lemma DummyPiece(c: Code, c': Code, bases: seq<nat>, drafts: seq<Draft>, begalt: nat, fixup: Option<nat>, laststart: Option<nat>, pending: Option<nat>)
    requires Outer(c, bases, drafts, []) && Current(c, bases[0], drafts[0], begalt, fixup, laststart)
    requires Ended(c, c', drafts[0], begalt) && drafts[0].front.More? && PendingOk(c, drafts[0], begalt, laststart, pending)
    ensures var l := Draft(drafts[0].front, Then(drafts[0].Branch(), Dummy), Option.None);
      && Outer(c', bases, [l], []) && Current(c', bases[0], l, begalt, fixup, Option.None) && PendingOk(c', l, begalt, Option.None, pending)
  {
    var l := drafts[0];
    var l' := Draft(l.front, Then(l.Branch(), Dummy), Option.None);
    CurrentBase(c, bases[0], l, begalt, fixup, laststart);
    EndedLaid(c, c', bases[0], l, begalt, fixup, laststart);
    DummyLaid(c', bases[0], l);
    assert c'[begalt..|c|] == c[begalt..];
    if pending.Some? {
      assert c'[pending.value] == c[begalt..][pending.value - begalt];
    }
  }

  lemma DummyLaid(c: Code, base: nat, l: Draft)
    requires Laid(c, base, l) && l.front.More? && At(c, End(base, l), [PUSH_DUMMY_FAILURE]) && |c| == End(base, l) + 1
    ensures var l' := Draft(l.front, Then(l.Branch(), Dummy), Option.None);
      Laid(c, base, l') && End(base, l') == |c|
  {
    assert Bytes(Then(l.Branch(), Dummy)) == Bytes(l.Branch()) + [PUSH_DUMMY_FAILURE];
    hide At, Bytes, FrontBytes;
    AtJoin(c, base + OpenSize(l.front), Bytes(l.Branch()), [PUSH_DUMMY_FAILURE]);
  }

  /** The records that `)` takes from the stack point into the code. */
  lemma GroupPlaces(c: Code, c1: Code, bases: seq<nat>, drafts: seq<Draft>, stack: seq<CompileStackElt>,
                    begalt: nat, fixup: Option<nat>, laststart: Option<nat>)
    requires |stack| > 0 && Outer(c, bases, drafts, stack)
    requires Current(c, bases[|stack|], drafts[|stack|], begalt, fixup, laststart) && Ended(c, c1, drafts[|stack|], begalt)
    ensures var elt := stack[|stack| - 1]; elt.regnum <= MAX_REGNUM ==> elt.innerGroup < |c1|
  {
    var n := |stack| - 1;
    OuterAt(c, bases, drafts, stack, n);
    CurrentBase(c, bases[n + 1], drafts[n + 1], begalt, fixup, laststart);
  }

  lemma CloseLevel(c: Code, c1: Code, c3: Code, bases: seq<nat>, drafts: seq<Draft>, stack: seq<CompileStackElt>,
                   begalt: nat, fixup: Option<nat>, laststart: Option<nat>, inner: Byte)
    requires |stack| > 0 && Outer(c, bases, drafts, stack)
    requires Current(c, bases[|stack|], drafts[|stack|], begalt, fixup, laststart) && Ended(c, c1, drafts[|stack|], begalt)
    requires var elt := stack[|stack| - 1];
      if elt.regnum <= MAX_REGNUM then
        elt.innerGroup < |c1| && c3 == c1[elt.innerGroup := inner] + Memory(STOP_MEMORY, elt.regnum, inner)
      else c3 == c1
    ensures var n := |stack| - 1;
      var elt := stack[n];
      var l := drafts[n].Piece(Group(elt.regnum, inner, drafts[n + 1].All()));
      Outer(c3, bases[..n + 1], drafts[..n] + [l], stack[..n]) && Current(c3, bases[n], l, elt.begalt, elt.fixup, Some(elt.laststart))
  {
    var n := |stack| - 1;
    var elt := stack[n];
    var base, top := bases[n + 1], drafts[n + 1];
    var f := Group(elt.regnum, inner, top.All());
    OuterPop(c, bases, drafts, stack);
    EndedLaid(c, c1, base, top, begalt, fixup, laststart);
    hide Laid, SameBelow, At, Memory, GroupEnd, AltBytes, Bytes, Jump, Outer, Current;
    LaidAll(c1, base, top);
    SuspendedFrame(c, c1, base, bases[n], drafts[n], elt, base);
    OuterFrameBelow(c, c1, base, bases, drafts, stack);
    GroupLaid(c, c1, c3, base, top, elt, inner);
    SuspendedEnd(c1, bases[n], drafts[n], elt, base);
    LaidPiece(c1, c3, bases[n], drafts[n], f);
    OuterClosed(c1, c3, bases, drafts, stack, f);
    CurrentAfterClose(c3, bases[n], drafts[n], elt, f);
  }

  lemma SuspendedEnd(c: Code, base: nat, l: Draft, elt: CompileStackElt, next: nat)
    requires Suspended(c, base, l, elt, next)
    ensures Laid(c, base, l) && End(base, l) == elt.laststart && elt.begalt == base + OpenSize(l.front)
    ensures elt.fixup == (if l.front.None? then Option.None else Some(elt.begalt - 3))
    ensures elt.laststart == elt.begalt + |Bytes(l.Branch())| && base <= elt.laststart
  {
  }

  lemma OuterFrameBelow(c: Code, c': Code, k: nat, bases: seq<nat>, drafts: seq<Draft>, stack: seq<CompileStackElt>)
    requires Outer(c, bases, drafts, stack) && SameBelow(c, c', k) && bases[|stack|] <= k
    ensures Outer(c', bases, drafts, stack)
  {
    OuterFrame(c, c', k, bases, drafts, stack);
  }

  lemma OuterClosed(c1: Code, c3: Code, bases: seq<nat>, drafts: seq<Draft>, stack: seq<CompileStackElt>, f: Frag)
    requires |stack| > 0 && Outer(c1, bases, drafts, stack)
    requires SameBelow(c1, c3, stack[|stack| - 1].laststart)
    ensures var n := |stack| - 1; Outer(c3, bases[..n + 1], drafts[..n] + [drafts[n].Piece(f)], stack[..n])
  {
    var n := |stack| - 1;
    OuterPop(c1, bases, drafts, stack);
    SuspendedEnd(c1, bases[n], drafts[n], stack[n], bases[n + 1]);
    hide Suspended, Laid, SameBelow, At;
    OuterFrame(c1, c3, stack[n].laststart, bases[..n + 1], drafts[..n + 1], stack[..n]);
    OuterTop(c3, bases[..n + 1], drafts[..n + 1], stack[..n], drafts[n].Piece(f));
    assert drafts[..n + 1][n := drafts[n].Piece(f)] == drafts[..n] + [drafts[n].Piece(f)];
  }

  lemma CurrentAfterClose(c: Code, base: nat, l: Draft, elt: CompileStackElt, f: Frag)
    requires Laid(c, base, l.Piece(f)) && |c| == End(base, l.Piece(f))
    requires elt.begalt == base + OpenSize(l.front) && elt.laststart == elt.begalt + |Bytes(l.Branch())|
    requires elt.fixup == (if l.front.None? then Option.None else Some(elt.begalt - 3))
    ensures Current(c, base, l.Piece(f), elt.begalt, elt.fixup, Some(elt.laststart))
  {
  }

  /** The group's own code, with its marks around the alternatives. */
  lemma GroupLaid(c: Code, c1: Code, c3: Code, base: nat, l: Draft, elt: CompileStackElt, inner: Byte)
    requires At(c1, elt.laststart, Memory(START_MEMORY, elt.regnum, 0))
    requires base == elt.laststart + |Memory(START_MEMORY, elt.regnum, 0)|
    requires elt.regnum <= MAX_REGNUM ==> elt.innerGroup == elt.laststart + 2
    requires At(c1, base, AltBytes(l.All())) && base + |AltBytes(l.All())| == |c|
    requires if l.front.More? then At(c1, |c|, [PUSH_DUMMY_FAILURE]) && |c1| == |c| + 1 else |c1| == |c|
    requires if elt.regnum <= MAX_REGNUM then
        elt.innerGroup < |c1| && c3 == c1[elt.innerGroup := inner] + Memory(STOP_MEMORY, elt.regnum, inner)
      else c3 == c1
    ensures var f := Group(elt.regnum, inner, l.All());
      SameBelow(c1, c3, elt.laststart) && At(c3, elt.laststart, Bytes(f)) && |c3| == elt.laststart + |Bytes(f)|
  {
    hide *;
    var s, alts := elt.laststart, AltBytes(l.All());
    var f := Group(elt.regnum, inner, l.All());
    var u, w := Memory(START_MEMORY, elt.regnum, inner), GroupEnd(elt.regnum, inner, l.front.None?);
    var dummy: Code := if l.front.None? then [] else [PUSH_DUMMY_FAILURE];
    var stop := Memory(STOP_MEMORY, elt.regnum, inner);
    GroupParts(elt.regnum, inner, l);
    AtLength(c1, s, Memory(START_MEMORY, elt.regnum, 0));
    if l.front.None? {
      AtEmpty(c1, |c|);
    }
    MarkSet(c1, c3, elt, inner, base, alts, |c|, dummy);
    AtJoin(c3, |c|, dummy, stop);
    AtJoin(c3, s, u, alts);
    AtJoin(c3, s, u + alts, w);
    MarkedLength(c1, c3, elt, inner);
  }

  lemma GroupParts(reg: nat, inner: Byte, l: Draft)
    ensures var u, stop := Memory(START_MEMORY, reg, inner), Memory(STOP_MEMORY, reg, inner);
      var dummy: Code := if l.front.None? then [] else [PUSH_DUMMY_FAILURE];
      var w := GroupEnd(reg, inner, l.front.None?);
      && |u| == |Memory(START_MEMORY, reg, 0)| == |stop| && w == dummy + stop
      && Bytes(Group(reg, inner, l.All())) == u + AltBytes(l.All()) + w
  {
    hide AltBytes;
  }

  lemma MarkedLength(c1: Code, c3: Code, elt: CompileStackElt, inner: Byte)
    requires if elt.regnum <= MAX_REGNUM then
        elt.innerGroup < |c1| && c3 == c1[elt.innerGroup := inner] + Memory(STOP_MEMORY, elt.regnum, inner)
      else c3 == c1
    ensures |c3| == |c1| + |Memory(STOP_MEMORY, elt.regnum, inner)|
  {
  }

  lemma MarkSet(c1: Code, c3: Code, elt: CompileStackElt, inner: Byte, base: nat, alts: Code, e: nat, dummy: Code)
    requires At(c1, elt.laststart, Memory(START_MEMORY, elt.regnum, 0))
    requires base == elt.laststart + |Memory(START_MEMORY, elt.regnum, 0)|
    requires elt.regnum <= MAX_REGNUM ==> elt.innerGroup == elt.laststart + 2
    requires At(c1, base, alts) && e == base + |alts| && At(c1, e, dummy) && |c1| == e + |dummy|
    requires if elt.regnum <= MAX_REGNUM then
        elt.innerGroup < |c1| && c3 == c1[elt.innerGroup := inner] + Memory(STOP_MEMORY, elt.regnum, inner)
      else c3 == c1
    ensures SameBelow(c1, c3, elt.laststart) && At(c3, elt.laststart, Memory(START_MEMORY, elt.regnum, inner))
    ensures At(c3, base, alts) && At(c3, e, dummy) && At(c3, e + |dummy|, Memory(STOP_MEMORY, elt.regnum, inner))
  {
    var s := elt.laststart;
    if elt.regnum <= MAX_REGNUM {
      var mark, c2 := Memory(START_MEMORY, elt.regnum, 0), c1[elt.innerGroup := inner];
      MarkByte(c1, s, elt.regnum, inner);
      AtUpdated(c1, elt.innerGroup, inner, base, alts);
      AtUpdated(c1, elt.innerGroup, inner, e, dummy);
      AtAppended(c2, Memory(STOP_MEMORY, elt.regnum, inner));
      hide At, SameBelow;
      AtFrame(c2, c3, |c2|, s, Memory(START_MEMORY, elt.regnum, inner));
      AtFrame(c2, c3, |c2|, base, alts);
      AtFrame(c2, c3, |c2|, e, dummy);
      SameBelowLess(c2, c3, |c2|, s);
      SameBelowTrans(c1, c2, c3, s);
    } else {
      SameSelf(c1, s);
      AtEmpty(c1, e + |dummy|);
      AtEmpty(c1, s);
    }
  }

  lemma MarkByte(c: Code, s: nat, reg: nat, inner: Byte)
    requires reg <= MAX_REGNUM && At(c, s, Memory(START_MEMORY, reg, 0))
    ensures s + 2 < |c| && At(c[s + 2 := inner], s, Memory(START_MEMORY, reg, inner)) && SameBelow(c, c[s + 2 := inner], s)
  {
    AtByte(c, s, Memory(START_MEMORY, reg, 0), 0);
    AtByte(c, s, Memory(START_MEMORY, reg, 0), 1);
    AtByte(c, s, Memory(START_MEMORY, reg, 0), 2);
    assert c[s + 2 := inner][s..s + 3] == [START_MEMORY, reg, inner];
    assert c[s + 2 := inner][..s] == c[..s];
  }

  lemma AtUpdated(c: Code, i: nat, x: Byte, o: int, bs: Code)
    requires i < |c| && At(c, o, bs) && (i < o || o + |bs| <= i)
    ensures At(c[i := x], o, bs)
  {
    assert c[i := x][o..o + |bs|] == c[o..o + |bs|];
  }
}
