/** `re_match_2` on a compiled pattern and one string: a backtracking matcher that rewrites its own
    program.  It takes the course that the program as compiled prescribes, whatever has been rewritten
    before. */
module RegexMatch {
  import opened Wrappers
  import opened RegexLanguage
  import opened RegexCode
  import opened RegexMeaning
  import opened RegexEdges
  import opened RegexInstructions
  import opened RegexLoops
  import opened RegexCourse
  import opened RegexPlaces

  class Matcher {
    const buffer: array<Byte>
    const used: nat
    const text: Text
    ghost const alts: Alts
    const pos: nat
    const room: Room
    var p: nat
    var d: nat
    var stack: seq<FailurePoint>
    var low: int
    var high: int
    var regs: Registers
    var bestSet: bool
    var matchEnd: nat

    ghost predicate Coded()
      reads buffer
    {
      used <= buffer.Length && Program(alts, buffer[..used])
    }

    /** The state in which the matcher is. */
    ghost function Now(): State
      reads this
    {
      State(p, d, stack, low, high, regs, if bestSet then Some(matchEnd) else Option.None)
    }

    ghost predicate Valid()
      reads this, buffer
    {
      Coded() && Standing(alts, text, pos, Now())
    }

    constructor (buffer: array<Byte>, used: nat, text: Text, pos: nat, room: Room, ghost alts: Alts)
      requires used <= buffer.Length && Program(alts, buffer[..used]) && pos <= |text|
      ensures Valid() && this.buffer == buffer && this.used == used && this.text == text && this.pos == pos && this.alts == alts
      ensures this.room == room && Now() == Begin(pos)
    {
      this.buffer, this.used, this.text, this.pos, this.room, this.alts := buffer, used, text, pos, room, alts;
      p, d, stack, low, high, regs := 0, pos, [], NO_LOWEST_ACTIVE_REG, NO_HIGHEST_ACTIVE_REG, map[];
      bestSet, matchEnd := false, 0;
      new;
      BeginStands(alts, text, pos);
    }

    /** A look-ahead; beyond the code it sees no instruction. */
    function Look(i: int): (b: Byte)
      requires used <= buffer.Length
      reads buffer
      ensures b == Peek(buffer[..used], i)
    {
      if 0 <= i < used then buffer[i] else 0
    }

    // ---- the failure stack ----

    /** `PUSH_FAILURE_POINT` */
    method Push(place: Option<nat>, str: Option<nat>) returns (pushed: bool)
      modifies this`stack
      ensures Pushed(room, old(Now()), place, str) == if pushed then Some(Now()) else Option.None
      ensures !pushed ==> stack == old(stack)
    {
      pushed := room(stack);
      if pushed {
        stack := stack + [FailurePoint(low, high, Span(regs, low, high), place, str)];
      }
    }

    /** `fail:` goes back to the newest failure point that is no dummy and no jump back to the
        start of a loop. */
    method Fail() returns (alive: bool)
      requires Coded() && Resting(alts, text, pos, Now())
      modifies this`p, this`d, this`stack, this`low, this`high, this`regs
      ensures Back(AltBytes(alts), old(Now())) == if alive then Some(Now()) else Option.None
    {
      hide *;
      while stack != []
        invariant Coded() && Resting(alts, text, pos, Now()) && bestSet == old(bestSet) && matchEnd == old(matchEnd)
        invariant Back(AltBytes(alts), old(Now())) == Back(AltBytes(alts), Now())
        decreases |stack|
      {
        NowIs();
        PoppedPlace(alts, text, pos, Now());
        var n := |stack| - 1;
        var f := stack[n];
        ghost var s := Now();
        BackStep(AltBytes(alts), s);
        stack := stack[..n];
        if f.str.Some? {
          d := f.str.value;
        }
        low, high, regs := f.low, f.high, regs + f.saved;
        if f.pattern.Some? {
          p := f.pattern.value;
          BackKept(p);
          var again := p < used && LoopsBack(p);
          if !again {
            NowIs();
            return true;
          }
        }
        NowIs();
        RestingPopped(alts, text, pos, s, Now());
      }
      NowIs();
      BackEnd(AltBytes(alts), Now());
      return false;
    }

    /** A jump back is one, rewritten or not. */
    lemma BackKept(q: nat)
      requires Coded() && (IsAltStart(alts, q) || q == |AltBytes(alts)|)
      ensures used <= buffer.Length && |AltBytes(alts)| == used && (q < used ==> (LoopsBack(q) <==> JumpsBack(AltBytes(alts), q)))
    {
      hide IsAltStart, Rewritten, AltBytes, Reaches;
      var c, c0 := buffer[..used], AltBytes(alts);
      RewrittenLength(alts, c);
      if q < used {
        PeekKept(alts, c, q);
        ArgumentKept(alts, c, q);
        PeekKept(alts, c, q + 3 + Argument(c0, q + 1));
      }
    }

    /** Whether the instruction at q is a jump to an `on_failure_jump`. */
    function LoopsBack(q: nat): bool
      requires used <= buffer.Length && q < used
      reads buffer
    {
      var op := buffer[q];
      (op == MAYBE_POP_JUMP || op == POP_FAILURE_JUMP || op == JUMP) && q + 2 < used
        && Look(q + 3 + Number(buffer[..used], q + 1)) == ON_FAILURE_JUMP
    }

    // ---- what is in the program ----

    /** The command at p, and its arguments, in the program as compiled. */
    lemma CommandHere()
      requires Valid() && p < used
      ensures used <= buffer.Length && IsAltStart(alts, p) && d <= |text| && Fits(AltBytes(alts), p) && Laid(alts)
      ensures var c0 := AltBytes(alts);
        && |c0| == used && Peek(c0, p) == c0[p]
        && (buffer[p] == c0[p] || (c0[p] == MAYBE_POP_JUMP && buffer[p] == Decided(c0, p)))
        && (buffer[p] == EXACTN ==> p + 1 < used && Peek(c0, p + 1) == buffer[p + 1] && p + 2 + buffer[p + 1] <= used)
        && (buffer[p] == EXACTN ==> c0[p + 2..p + 2 + buffer[p + 1]] == buffer[..used][p + 2..p + 2 + buffer[p + 1]])
        && (buffer[p] == START_MEMORY || buffer[p] == STOP_MEMORY ==> p + 1 < used && Peek(c0, p + 1) == buffer[p + 1])
        && (buffer[p] == ON_FAILURE_JUMP || IsJump(buffer[p]) ==> p + 2 < used && Argument(c0, p + 1) == Number(buffer[..used], p + 1))
    {
      hide IsAltStart, Standing, AltBytes, Decided;
      var c, c0 := buffer[..used], AltBytes(alts);
      RewrittenLength(alts, c);
      StandingParts(alts, text, pos, Now());
      SameInstruction(alts, c, p);
      OpcodeDecided(alts, c, p);
      ArgumentKept(alts, c, p);
    }

    /** What is looked at around a `stop_memory`. */
    lemma StopKept()
      requires Coded()
      ensures Look(p - 2) == START_MEMORY <==> Peek(AltBytes(alts), p - 2) == START_MEMORY
    {
      hide IsAltStart, AltBytes;
      PeekKept(alts, buffer[..used], p - 2);
    }

    /** What is looked at behind a failure jump. */
    lemma MarkKept(q: nat)
      requires Coded() && (IsAltStart(alts, q) || q == |AltBytes(alts)|)
      ensures Look(q) == START_MEMORY <==> Peek(AltBytes(alts), q) == START_MEMORY
      ensures Look(q) == START_MEMORY ==> Look(q + 1) == Peek(AltBytes(alts), q + 1) && Look(q + 2) == Peek(AltBytes(alts), q + 2)
    {
      hide IsAltStart, AltBytes, Rewritten;
      PeekKept(alts, buffer[..used], q);
      ArgumentKept(alts, buffer[..used], q);
    }

    /** The jump behind the end of a group. */
    lemma JumpKept(q: nat)
      requires Coded() && IsAltStart(alts, q) && q < used
      ensures var c0, op := AltBytes(alts), buffer[q];
        && |c0| == used && Peek(c0, q) == c0[q]
        && (op == POP_FAILURE_JUMP || op == MAYBE_POP_JUMP || op == JUMP <==> IsLoopJump(Peek(c0, q)))
        && (op == DUMMY_FAILURE_JUMP <==> Peek(c0, q) == DUMMY_FAILURE_JUMP)
        && (IsJump(op) ==> q + 2 < used && Argument(c0, q + 1) == Number(buffer[..used], q + 1) && IsJump(c0[q]))
    {
      hide IsAltStart, AltBytes, Rewritten;
      PeekKept(alts, buffer[..used], q);
      ArgumentKept(alts, buffer[..used], q);
      SameInstruction(alts, buffer[..used], q);
    }

    /** The head of the loop that the jump leads to. */
    lemma HeadKept(t: int)
      requires Coded() && Place(alts, text, pos, t, d)
      ensures var c0 := AltBytes(alts);
        && (Look(t) == ON_FAILURE_JUMP <==> Peek(c0, t) == ON_FAILURE_JUMP)
        && (Look(t + 3) == START_MEMORY <==> Peek(c0, t + 3) == START_MEMORY)
        && (Look(t) == ON_FAILURE_JUMP ==> t + 2 < used && Argument(c0, t + 1) == Number(buffer[..used], t + 1))
        && (Look(t) == ON_FAILURE_JUMP && Look(t + 3) == START_MEMORY ==> Look(t + 4) == Peek(c0, t + 4))
    {
      hide IsAltStart, AltBytes, Rewritten, Reaches;
      var c, c0 := buffer[..used], AltBytes(alts);
      PeekKept(alts, c, t);
      PeekKept(alts, c, t + 3);
      ArgumentKept(alts, c, t);
      if Look(t) == ON_FAILURE_JUMP {
        AtAll(c0);
        NextAltStart(alts, c0, 0, t);
        MarkLength(c0, t);
        ArgumentKept(alts, c, t + 3);
      }
    }

    // ---- the commands ----

    /** `exactn` */
    method ExecExact() returns (out: Outcome)
      requires Valid() && p < used && buffer[p] == EXACTN
      modifies this`p, this`d, this`regs
      ensures Step(out, Now()) == RegexCourse.ExecExact(AltBytes(alts), text, old(Now()))
    {
      hide Standing, Program, AltBytes, IsAltStart, Decided, SetMatched, Laid;
      ghost var c := buffer[..used];
      CommandHere();
      var n: int := buffer[p + 1];
      var at, from := p + 2, d;
      var i := 0;
      while i < n
        invariant 0 <= i <= n && from + i <= |text| && 0 <= at && at + n <= |c| && Now() == old(Now())
        invariant text[from..from + i] == c[at..at + i]
      {
        if from + i == |text| || text[from + i] != buffer[at + i] {
          ExactFails(text, from, c, at, n, i);
          return Failed;
        }
        OneMore(text, from, c, at, i);
        i := i + 1;
      }
      p, d := p + 2 + n, d + n;
      regs := SetMatched(regs, low, high);
      return Go;
    }

    /** `anychar`, which a newline matches and a NUL does not. */
    method ExecAny() returns (out: Outcome)
      requires Valid() && p < used && buffer[p] == ANYCHAR
      modifies this`p, this`d, this`regs
      ensures Step(out, Now()) == RegexCourse.ExecAny(text, old(Now()))
    {
      hide Standing, Program, AltBytes, IsAltStart, Decided, SetMatched, Laid;
      CommandHere();
      if d == |text| || text[d] == 0 {
        return Failed;
      }
      regs := SetMatched(regs, low, high);
      p, d := p + 1, d + 1;
      return Go;
    }

    /** `start_memory` */
    method ExecStart() returns (out: Outcome)
      requires Valid() && p < used && buffer[p] == START_MEMORY
      modifies this`p, this`regs, this`low, this`high
      ensures Step(out, Now()) == RegexCourse.ExecStart(AltBytes(alts), old(Now()))
    {
      hide Standing, Program, AltBytes, IsAltStart, Decided, Laid;
      CommandHere();
      var reg: int := buffer[p + 1];
      regs := regs[reg := RegInfo(true, false)];
      high := reg;
      if low == NO_LOWEST_ACTIVE_REG {
        low := reg;
      }
      p := p + 3;
      return Go;
    }

    /** `stop_memory`: a group that matched nothing this time round is made to leave its loop. */
    method ExecStop() returns (out: Outcome)
      requires Valid() && p < used && buffer[p] == STOP_MEMORY
      modifies this`p, this`regs, this`low, this`high, this`stack
      ensures Step(out, Now()) == RegexCourse.ExecStop(AltBytes(alts), room, old(Now()))
    {
      hide Standing, Program, AltBytes, IsAltStart, Decided, Laid, RegexCourse.LoopExit, Left, Pushed;
      CommandHere();
      StopKept();
      var exit := Option.None;
      if p + 3 < used {
        exit := LoopExit(buffer[p + 1]);
      }
      var reg: int := buffer[p + 1];
      var matched := Info(regs, reg).matched;
      regs := regs[reg := RegInfo(false, matched)];
      LeaveGroup(reg);
      if (!matched || Look(p - 2) == START_MEMORY) && p + 3 < used {
        if exit.Some? {
          var pushed := Push(exit, Some(d));
          return if pushed then Failed else NoMemory;
        }
      }
      p := p + 3;
      return Go;
    }

    /** The registers that are still active after group reg has ended. */
    method LeaveGroup(reg: int)
      requires 0 <= reg
      modifies this`low, this`high
      ensures Now() == Left(old(Now()), reg)
    {
      if low == high {
        low, high := NO_LOWEST_ACTIVE_REG, NO_HIGHEST_ACTIVE_REG;
      } else {
        var r := if reg == 0 then 255 else reg - 1;
        while r > 0 && !Info(regs, r).active
          invariant 0 <= r && Highest(regs, r) == Highest(regs, if reg == 0 then 255 else reg - 1) && Now() == old(Now())
        {
          r := r - 1;
        }
        if r == 0 {
          low, high := NO_LOWEST_ACTIVE_REG, NO_HIGHEST_ACTIVE_REG;
        } else {
          high := r;
        }
      }
    }

    /** If the end of group reg is followed by the jump back of the group's own loop, the place
        after that loop. */
    method LoopExit(reg: Byte) returns (exit: Option<nat>)
      requires Valid() && p < used && buffer[p] == STOP_MEMORY && p + 3 < used
      ensures exit == RegexCourse.LoopExit(AltBytes(alts), p, reg)
    {
      hide *;
      CommandHere();
      ValidParts();
      StopIsStop();
      NowIs();
      ExitPlaces(alts, text, pos, Now());
      JumpKept(p + 3);
      var op := buffer[p + 3];
      if op == POP_FAILURE_JUMP || op == MAYBE_POP_JUMP || op == JUMP || op == DUMMY_FAILURE_JUMP {
        JumpOps(op);
        var mcnt := Number(buffer[..used], p + 4);
        var p1 := p + 6 + mcnt;
        HeadKept(p1);
        InProgram(p1);
        ExitIf(AltBytes(alts), p, reg);
        if mcnt < 0 && Look(p1) == ON_FAILURE_JUMP && Look(p1 + 3) == START_MEMORY && Look(p1 + 4) == reg {
          var target := p1 + 3 + Number(buffer[..used], p1 + 1);
          ExitTarget(p1);
          exit := Some(target);
          return;
        }
      }
      JumpOps(op);
      ExitIf(AltBytes(alts), p, reg);
      exit := Option.None;
    }

    lemma InProgram(t: int)
      requires Laid(alts) && Place(alts, text, pos, t, d)
      ensures 0 <= t
    {
      hide IsAltStart, AltBytes, Reaches;
      PlaceRange(alts, text, pos, t, d);
    }

    lemma StopIsStop()
      requires Valid() && p < used && buffer[p] == STOP_MEMORY
      ensures |AltBytes(alts)| == used && AltBytes(alts)[p] == STOP_MEMORY
    {
      hide Standing, AltBytes, IsAltStart, Program, Laid;
      CommandHere();
    }

    /** The exit of a failure jump is not before the program. */
    lemma ExitTarget(t: int)
      requires Coded() && Place(alts, text, pos, t, d) && Look(t) == ON_FAILURE_JUMP && t + 2 < used
      requires Argument(AltBytes(alts), t + 1) == Number(buffer[..used], t + 1) && |AltBytes(alts)| == used
      ensures t + 3 + Number(buffer[..used], t + 1) >= 0 && JumpsTo(AltBytes(alts), t) == t + 3 + Number(buffer[..used], t + 1)
    {
      hide IsAltStart, AltBytes, Reaches, Rewritten;
      PlaceRange(alts, text, pos, t, d);
      StartsInside(alts, t);
      PeekKept(alts, buffer[..used], t);
      FailureForward(alts, t);
    }

    /** `on_failure_jump` */
    method ExecFailureJump() returns (out: Outcome)
      requires Valid() && p < used && buffer[p] == ON_FAILURE_JUMP
      modifies this`p, this`low, this`high, this`stack
      ensures Step(out, Now()) == RegexCourse.ExecFailureJump(AltBytes(alts), room, old(Now()))
    {
      hide Standing, Program, AltBytes, IsAltStart, Decided, Laid, Pushed, Fits;
      CommandHere();
      DecidedIsJump(AltBytes(alts), p);
      AfterMark(alts, p);
      MarkKept(p + 3);
      FailureForward(alts, p);
      var target := p + 3 + Number(buffer[..used], p + 1);
      var p1 := p + 3;
      if Look(p1) == START_MEMORY {
        high := Look(p1 + 1) + Look(p1 + 2);
        if low == NO_LOWEST_ACTIVE_REG {
          low := Look(p1 + 1);
        }
      }
      var pushed := Push(Some(target), Some(d));
      if !pushed {
        return NoMemory;
      }
      p := p + 3;
      return Go;
    }

    /** `jump`, `jump_past_alt` and `pop_failure_jump`: the last takes off a failure point, and
        there always is one to take off. */
    method ExecJump() returns (out: Outcome)
      requires Valid() && p < used
      requires buffer[p] == JUMP || buffer[p] == JUMP_PAST_ALT || buffer[p] == POP_FAILURE_JUMP
      modifies this`p, this`stack
      ensures old(buffer[p]) == POP_FAILURE_JUMP ==> old(stack) != [] && stack == old(stack)[..|old(stack)| - 1]
      ensures Step(out, Now()) == RegexCourse.ExecJump(AltBytes(alts), old(Now()), old(buffer[p]) == POP_FAILURE_JUMP)
    {
      hide Standing, Program, AltBytes, IsAltStart, Decided, Laid, Fits, Place, Covered;
      CommandHere();
      DecidedIsJump(AltBytes(alts), p);
      JumpPlaces(alts, text, pos, Now());
      JumpInside(alts, text, pos, Now());
      var target := p + 3 + Number(buffer[..used], p + 1);
      if buffer[p] == POP_FAILURE_JUMP {
        stack := stack[..|stack| - 1];
      }
      p := target;
      return Go;
    }

    /** `dummy_failure_jump` */
    method ExecDummyJump() returns (out: Outcome)
      requires Valid() && p < used && buffer[p] == DUMMY_FAILURE_JUMP
      modifies this`p, this`stack
      ensures Step(out, Now()) == ExecDummy(room, old(Now()), JumpsTo(AltBytes(alts), old(p)))
    {
      hide Standing, Program, AltBytes, IsAltStart, Decided, Laid, Fits, Place, Covered, Pushed;
      CommandHere();
      DecidedIsJump(AltBytes(alts), p);
      JumpInside(alts, text, pos, Now());
      var target := p + 3 + Number(buffer[..used], p + 1);
      var pushed := Push(Option.None, Option.None);
      if !pushed {
        return NoMemory;
      }
      p := target;
      return Go;
    }

    /** `push_dummy_failure` */
    method ExecPushDummy() returns (out: Outcome)
      requires Valid() && p < used && buffer[p] == PUSH_DUMMY_FAILURE
      modifies this`p, this`stack
      ensures Step(out, Now()) == ExecDummy(room, old(Now()), old(p) + 1)
    {
      hide Standing, Program, Pushed;
      var pushed := Push(Option.None, Option.None);
      if !pushed {
        return NoMemory;
      }
      p := p + 1;
      return Go;
    }

    /** `maybe_pop_jump` becomes `pop_failure_jump` if what follows the loop cannot match what the
        loop starts with, and `jump` otherwise. */
    method ExecMaybePop() returns (out: Outcome)
      requires Valid() && p < used && buffer[p] == MAYBE_POP_JUMP
      modifies this`p, this`stack, buffer
      ensures Coded()
      ensures Step(out, Now()) == RegexCourse.ExecJump(AltBytes(alts), old(Now()), Pops(AltBytes(alts), old(p)))
    {
      hide Standing, Program, AltBytes, IsAltStart, Decided, Laid, Fits, RegexCourse.ExecJump;
      CommandHere();
      DecidedIsJump(AltBytes(alts), p);
      var mcnt := Number(buffer[..used], p + 1);
      var p2 := p + 3;
      while p2 + 2 < used && (buffer[p2] == STOP_MEMORY || buffer[p2] == START_MEMORY)
        invariant p + 3 <= p2 <= used && buffer[..] == old(buffer[..]) && Now() == old(Now())
        invariant PastMarks(buffer[..used], p + 3) == PastMarks(buffer[..used], p2)
        decreases used - p2
      {
        p2 := p2 + 3;
      }
      var pop := false;
      if p2 == used {
        pop := true;
      } else if buffer[p2] == EXACTN {
        var c := Look(p2 + 2);
        var p1 := p + 3 + mcnt;
        pop := Look(p1 + 3) == EXACTN && Look(p1 + 5) != c;
      }
      ghost var was := buffer[..used];
      assert pop == Pops(was, p);
      PopsKept(alts, was, p);
      DecidedIs(AltBytes(alts), p);
      buffer[p] := if pop then POP_FAILURE_JUMP else JUMP;
      RewriteStep(alts, was, buffer[..used], p);
      out := ExecJump();
    }

    /** One pattern command. */
    method Execute() returns (out: Outcome)
      requires Valid() && p < used
      modifies this`p, this`d, this`stack, this`low, this`high, this`regs, buffer
      ensures Coded() && Step(out, Now()) == Exec(AltBytes(alts), text, room, old(Now()))
    {
      hide *;
      ValidParts();
      ExecCases();
      var op := buffer[p];
      if op == EXACTN {
        out := ExecExact();
      } else if op == ANYCHAR {
        out := ExecAny();
      } else if op == START_MEMORY {
        out := ExecStart();
      } else if op == STOP_MEMORY {
        out := ExecStop();
      } else if op == ON_FAILURE_JUMP {
        out := ExecFailureJump();
      } else if op == MAYBE_POP_JUMP {
        out := ExecMaybePop();
      } else if op == DUMMY_FAILURE_JUMP {
        out := ExecDummyJump();
      } else if op == PUSH_DUMMY_FAILURE {
        out := ExecPushDummy();
      } else {
        out := ExecJump();
      }
    }

    /** What one command does, by the opcode that is found, rewritten or not; there is no other. */
    lemma ExecCases()
      requires Valid() && p < used
      ensures used <= buffer.Length
      ensures var c0, s, op := AltBytes(alts), Now(), buffer[p];
        && s.p == p
        && (op == EXACTN ==> Exec(c0, text, room, s) == RegexCourse.ExecExact(c0, text, s))
        && (op == ANYCHAR ==> Exec(c0, text, room, s) == RegexCourse.ExecAny(text, s))
        && (op == START_MEMORY ==> Exec(c0, text, room, s) == RegexCourse.ExecStart(c0, s))
        && (op == STOP_MEMORY ==> Exec(c0, text, room, s) == RegexCourse.ExecStop(c0, room, s))
        && (op == ON_FAILURE_JUMP ==> Exec(c0, text, room, s) == RegexCourse.ExecFailureJump(c0, room, s))
        && (op == MAYBE_POP_JUMP ==> Exec(c0, text, room, s) == RegexCourse.ExecJump(c0, s, Pops(c0, p)))
        && (op == DUMMY_FAILURE_JUMP ==> Exec(c0, text, room, s) == ExecDummy(room, s, JumpsTo(c0, p)))
        && (op == PUSH_DUMMY_FAILURE ==> Exec(c0, text, room, s) == ExecDummy(room, s, p + 1))
        && (op == JUMP || op == JUMP_PAST_ALT || op == POP_FAILURE_JUMP ==>
            Exec(c0, text, room, s) == RegexCourse.ExecJump(c0, s, op == POP_FAILURE_JUMP))
      ensures var op := buffer[p];
        op == EXACTN || op == ANYCHAR || op == START_MEMORY || op == STOP_MEMORY || op == ON_FAILURE_JUMP || op == MAYBE_POP_JUMP
        || op == DUMMY_FAILURE_JUMP || op == PUSH_DUMMY_FAILURE || op == JUMP || op == JUMP_PAST_ALT || op == POP_FAILURE_JUMP
    {
      hide IsAltStart, Program, Standing, AltBytes, Pops, Decided, Laid, Fits, Exec;
      CommandHere();
      DecidedIsJump(AltBytes(alts), p);
      OpcodeCases(AltBytes(alts), p);
      ExecBy(AltBytes(alts), text, room, Now());
    }

    // ---- the main loop ----

    /** The main loop, for at most so many commands. */
    method Run(steps: nat) returns (r: Result)
      requires Valid()
      modifies this`p, this`d, this`stack, this`low, this`high, this`regs, this`bestSet, this`matchEnd, buffer
      ensures Coded() && r == Course(AltBytes(alts), text, room, pos, old(Now()), steps)
    {
      hide *;
      ghost var c0, s0 := AltBytes(alts), Now();
      var left := steps;
      ValidParts();
      while left > 0
        invariant Valid() && Coded()
        invariant Course(c0, text, room, pos, s0, steps) == Course(c0, text, room, pos, Now(), left)
        decreases left
      {
        ValidParts();
        NowIs();
        ghost var s, before := Now(), left;
        left := left - 1;
        var failed := false;
        if p == used {
          CourseAtEnd(c0, text, room, pos, s, before);
          ReportSound(alts, text, pos, d);
          if d == |text| {
            return Matched(d - pos);
          }
          if stack == [] {
            if bestSet {
              ReportSound(alts, text, pos, matchEnd);
              d := matchEnd;
            }
            return Matched(d - pos);
          }
          RestingBest(alts, text, pos, s);
          if !bestSet || d > matchEnd {
            bestSet, matchEnd := true, d;
          }
          failed := true;
        } else {
          CourseAtCommand(c0, text, room, pos, s, before);
          ExecStands(alts, text, pos, s, room);
          StandsParts(alts, text, pos, Exec(c0, text, room, s));
          var out := Execute();
          if out == NoMemory {
            return OutOfMemory;
          }
          failed := out == Failed;
        }
        NowIs();
        if failed {
          CourseFails(c0, text, room, pos, Now(), left);
          BackKeepsBest(c0, Now());
          BackStands(alts, text, pos, Now());
          RestingParts(alts, text, pos, Now());
          ghost var s1 := Now();
          var alive := Fail();
          NowIs();
          if !alive {
            Reported(s1.best, pos);
            if bestSet {
              ReportSound(alts, text, pos, matchEnd);
              d := matchEnd;
              return Matched(d - pos);
            }
            return Mismatch;
          }
        }
        ValidFrom();
      }
      CourseOver(c0, text, room, pos, Now());
      r := OutOfSteps;
    }

    lemma NowIs()
      ensures Now() == State(p, d, stack, low, high, regs, if bestSet then Some(matchEnd) else Option.None)
    {
    }

    lemma ValidParts()
      requires Valid()
      ensures Coded() && Standing(alts, text, pos, Now()) && Resting(alts, text, pos, Now()) && Laid(alts)
      ensures p <= used == |AltBytes(alts)| && used <= buffer.Length && Place(alts, text, pos, p, d)
      ensures bestSet ==> Place(alts, text, pos, used, matchEnd)
    {
      hide Program, Standing, Rewritten, Place, GoodStack, Covered, AltBytes;
      StandingParts(alts, text, pos, Now());
      RestingParts(alts, text, pos, Now());
      ProgramLength(alts, buffer[..used]);
    }

    lemma ValidFrom()
      requires Coded() && Standing(alts, text, pos, Now())
      ensures Valid()
    {
    }
  }

  lemma ProgramLength(alts: Alts, c: Code)
    requires Program(alts, c)
    ensures |c| == |AltBytes(alts)|
  {
  }

  /** Where the newest failure point leads. */
  lemma PoppedPlace(alts: Alts, s: Text, pos: nat, st: State)
    requires Resting(alts, s, pos, st) && st.stack != []
    ensures var f := st.stack[|st.stack| - 1];
      f.pattern.Some? ==> IsAltStart(alts, f.pattern.value) || f.pattern.value == |AltBytes(alts)|
  {
    hide IsAltStart, Reaches, Covered, AltBytes;
    PopKeepsStack(alts, s, pos, st.stack);
  }

  /** Failure jumps go forward. */
  lemma FailureForward(alts: Alts, p: int)
    requires Laid(alts) && IsAltStart(alts, p) && 0 <= p < |AltBytes(alts)| && AltBytes(alts)[p] == ON_FAILURE_JUMP
    ensures Argument(AltBytes(alts), p + 1) >= 0
  {
    hide IsAltStart, AltBytes, IsAltLoop;
    AtAll(AltBytes(alts));
    BackwardAlts(alts, AltBytes(alts), 0, p);
  }

  lemma JumpInside(alts: Alts, s: Text, pos: nat, st: State)
    requires Standing(alts, s, pos, st) && st.p < |AltBytes(alts)| && IsJump(AltBytes(alts)[st.p])
    ensures st.p + 3 + Argument(AltBytes(alts), st.p + 1) == JumpsTo(AltBytes(alts), st.p)
  {
    hide AltBytes, IsAltStart, Reaches, Move, AltDepth, Fits, Rewritten, Standing, GoodStack;
    var c0 := AltBytes(alts);
    StandingParts(alts, s, pos, st);
    IsProgram(alts);
    FitsJump(c0, st.p);
    JumpMove(c0, s, st.p, st.d);
    var e := st.p + 3 + Argument(c0, st.p + 1);
    NextPlace(alts, c0, s, pos, st.p, st.d, e, st.d);
    PlaceRange(alts, s, pos, e, st.d);
  }

  lemma JumpOps(op: Byte)
    ensures op == POP_FAILURE_JUMP || op == MAYBE_POP_JUMP || op == JUMP || op == DUMMY_FAILURE_JUMP ==> IsJump(op)
    ensures IsLoopJump(op) <==> op == POP_FAILURE_JUMP || op == MAYBE_POP_JUMP || op == JUMP
  {
  }

  lemma ExitIf(c: Code, p: int, reg: int)
    ensures var t := p + 6 + Argument(c, p + 4);
      RegexCourse.LoopExit(c, p, reg) ==
        if (IsLoopJump(Peek(c, p + 3)) || Peek(c, p + 3) == DUMMY_FAILURE_JUMP) && Argument(c, p + 4) < 0 && Peek(c, t) == ON_FAILURE_JUMP
          && Peek(c, t + 3) == START_MEMORY && Peek(c, t + 4) == reg
        then Some(JumpsTo(c, t)) else Option.None
  {
  }

  lemma ExactFails(text: Text, d: nat, c: Code, q: nat, n: nat, i: nat)
    requires i < n && q + n <= |c| && (d + i >= |text| || text[d + i] != c[q + i])
    ensures d + n <= |text| ==> text[d..d + n] != c[q..q + n]
  {
    if d + n <= |text| {
      assert text[d..d + n][i] == text[d + i] && c[q..q + n][i] == c[q + i];
    }
  }

  lemma OneMore(s: Text, d: nat, c: Code, q: nat, i: nat)
    requires d + i < |s| && q + i < |c| && s[d..d + i] == c[q..q + i] && s[d + i] == c[q + i]
    ensures s[d..d + (i + 1)] == c[q..q + (i + 1)]
  {
    assert s[d..d + (i + 1)] == s[d..d + i] + [s[d + i]];
    assert c[q..q + (i + 1)] == c[q..q + i] + [c[q + i]];
  }

  /** `re_match_2`: the verdict that the program as compiled prescribes.  The program may be rewritten
      on the way, and stays good for further matches. */
  method ReMatch(buffer: array<Byte>, used: nat, text: Text, pos: int, room: Room, steps: nat, ghost alts: Alts) returns (r: Result)
    requires used <= buffer.Length && Program(alts, buffer[..used])
    modifies buffer
    ensures Program(alts, buffer[..used]) && r == Verdict(AltBytes(alts), text, room, pos, steps)
    ensures r.Matched? ==> 0 <= pos && pos + r.length <= |text| && Denotes(MeansAlts(alts), text[pos..pos + r.length])
  {
    hide Program, Denotes, AltBytes, Course, Verdict;
    VerdictIs(AltBytes(alts), text, room, pos, steps);
    ProgramIsLaid(alts, buffer[..used]);
    VerdictRight(alts, text, room, pos, steps);
    if pos < 0 || pos > |text| {
      return Mismatch;
    }
    var m := new Matcher(buffer, used, text, pos, room, alts);
    r := m.Run(steps);
  }

  lemma ProgramIsLaid(alts: Alts, c: Code)
    requires Program(alts, c)
    ensures Laid(alts)
  {
  }
}
