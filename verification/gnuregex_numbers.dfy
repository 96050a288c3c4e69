/** The compiler numbers groups in the order in which they are opened. */
module RegexNumbers {
  import opened Wrappers
  import opened RegexLanguage
  import opened RegexCode
  import opened RegexLayout
  import opened RegexTidy

  function GroupsDraft(l: Draft): nat {
    GroupsFront(l.front) + Groups(l.Branch())
  }

  ghost predicate TidyDraft(l: Draft, n: nat) {
    && TidyFront(l.front, n) && Tidy(l.before, n + GroupsFront(l.front))
    && (l.last.Some? ==> Tidy(l.last.value, n + GroupsFront(l.front) + Groups(l.before)))
  }

  /** So many groups have been opened before level i. */
  function Opened(stack: seq<CompileStackElt>, i: nat): nat
    requires i <= |stack|
  {
    if i == 0 then 0 else stack[i - 1].regnum
  }

  ghost predicate NumberedLevel(drafts: seq<Draft>, stack: seq<CompileStackElt>, regnum: nat, i: nat)
    requires |drafts| == |stack| + 1 && i <= |stack|
  {
    var n := Opened(stack, i);
    TidyDraft(drafts[i], n) && n + GroupsDraft(drafts[i]) == if i < |stack| then stack[i].regnum - 1 else regnum
  }

  /** The groups of all levels together are numbered up to regnum, without a gap. */
  ghost predicate Numbered(drafts: seq<Draft>, stack: seq<CompileStackElt>, regnum: nat) {
    |drafts| == |stack| + 1 && forall i {:trigger NumberedLevel(drafts, stack, regnum, i)} :: 0 <= i <= |stack| ==> NumberedLevel(drafts, stack, regnum, i)
  }

  lemma TidyPiece(l: Draft, n: nat, f: Frag)
    requires TidyDraft(l, n) && Tidy(f, n + GroupsDraft(l))
    ensures TidyDraft(l.Piece(f), n) && GroupsDraft(l.Piece(f)) == GroupsDraft(l) + Groups(f)
  {
  }

  /** Only the innermost level changes. */
  lemma NumberTop(drafts: seq<Draft>, stack: seq<CompileStackElt>, regnum: nat, l: Draft, regnum': nat)
    requires Numbered(drafts, stack, regnum)
    requires TidyDraft(l, Opened(stack, |stack|)) && Opened(stack, |stack|) + GroupsDraft(l) == regnum'
    ensures Numbered(drafts[|stack| := l], stack, regnum')
  {
    hide TidyDraft, GroupsDraft;
    var drafts' := drafts[|stack| := l];
    forall i {:trigger NumberedLevel(drafts', stack, regnum', i)} | 0 <= i <= |stack|
      ensures NumberedLevel(drafts', stack, regnum', i)
    {
      assert NumberedLevel(drafts, stack, regnum, i);
    }
  }

  lemma TopNumbered(drafts: seq<Draft>, stack: seq<CompileStackElt>, regnum: nat)
    requires Numbered(drafts, stack, regnum)
    ensures var l, n := drafts[|stack|], Opened(stack, |stack|); TidyDraft(l, n) && n + GroupsDraft(l) == regnum
  {
    assert NumberedLevel(drafts, stack, regnum, |stack|);
  }

  /** A piece without groups at the end of the innermost level. */
  lemma NumberPiece(drafts: seq<Draft>, stack: seq<CompileStackElt>, regnum: nat, f: Frag)
    requires Numbered(drafts, stack, regnum) && (f.Exact? || f.AnyChar?)
    ensures Numbered(drafts[|stack| := drafts[|stack|].Piece(f)], stack, regnum)
  {
    hide TidyDraft, GroupsDraft, NumberedLevel;
    TopNumbered(drafts, stack, regnum);
    TidyPiece(drafts[|stack|], Opened(stack, |stack|), f);
    NumberTop(drafts, stack, regnum, drafts[|stack|].Piece(f), regnum);
  }

  /** The last piece is replaced by one of the same groups. */
  lemma LastTidy(l: Draft, n: nat, f: Frag)
    requires TidyDraft(l, n) && l.last.Some?
    requires (f.Exact? && l.last.value.Exact?) || (f.Again? && f.body == l.last.value && Single(f.body))
    ensures var l' := Draft(l.front, l.before, Some(f)); TidyDraft(l', n) && GroupsDraft(l') == GroupsDraft(l)
  {
    assert Groups(f) == Groups(l.last.value);
    assert Groups(Then(l.before, f)) == Groups(l.before) + Groups(f);
  }

  lemma DummyTidy(l: Draft, n: nat)
    requires TidyDraft(l, n)
    ensures var l' := Draft(l.front, Then(l.Branch(), Dummy), Option.None); TidyDraft(l', n) && GroupsDraft(l') == GroupsDraft(l)
  {
    BranchTidy(l, n);
    assert Groups(Then(l.Branch(), Dummy)) == Groups(l.Branch()) + Groups(Dummy);
  }

  lemma NumberJoined(drafts: seq<Draft>, stack: seq<CompileStackElt>, regnum: nat, f: Frag)
    requires Numbered(drafts, stack, regnum) && f.Exact?
    requires var l := drafts[|stack|]; l.last.Some? && l.last.value.Exact?
    ensures var l := drafts[|stack|]; Numbered(drafts[|stack| := Draft(l.front, l.before, Some(f))], stack, regnum)
  {
    hide TidyDraft, GroupsDraft, NumberedLevel;
    TopNumbered(drafts, stack, regnum);
    var l := drafts[|stack|];
    LastTidy(l, Opened(stack, |stack|), f);
    NumberTop(drafts, stack, regnum, Draft(l.front, l.before, Some(f)), regnum);
  }

  lemma NumberAgain(drafts: seq<Draft>, stack: seq<CompileStackElt>, regnum: nat, zero: bool, many: bool)
    requires Numbered(drafts, stack, regnum)
    requires var l := drafts[|stack|]; l.last.Some? && Single(l.last.value)
    ensures var l := drafts[|stack|]; Numbered(drafts[|stack| := Draft(l.front, l.before, Some(Again(l.last.value, zero, many)))], stack, regnum)
  {
    hide TidyDraft, GroupsDraft, NumberedLevel;
    TopNumbered(drafts, stack, regnum);
    var l := drafts[|stack|];
    LastTidy(l, Opened(stack, |stack|), Again(l.last.value, zero, many));
    NumberTop(drafts, stack, regnum, Draft(l.front, l.before, Some(Again(l.last.value, zero, many))), regnum);
  }

  lemma NumberBar(drafts: seq<Draft>, stack: seq<CompileStackElt>, regnum: nat)
    requires Numbered(drafts, stack, regnum)
    ensures var l := drafts[|stack|]; Numbered(drafts[|stack| := Draft(More(l.front, l.Branch()), Nothing, Option.None)], stack, regnum)
  {
    hide TidyDraft, GroupsDraft, NumberedLevel;
    TopNumbered(drafts, stack, regnum);
    var l := drafts[|stack|];
    BarTidy(l, Opened(stack, |stack|));
    NumberTop(drafts, stack, regnum, Draft(More(l.front, l.Branch()), Nothing, Option.None), regnum);
  }

  lemma BarTidy(l: Draft, n: nat)
    requires TidyDraft(l, n)
    ensures var l' := Draft(More(l.front, l.Branch()), Nothing, Option.None); TidyDraft(l', n) && GroupsDraft(l') == GroupsDraft(l)
  {
    BranchTidy(l, n);
    var b := l.Branch();
    assert GroupsFront(More(l.front, b)) == GroupsFront(l.front) + Groups(b);
  }

  lemma BranchTidy(l: Draft, n: nat)
    requires TidyDraft(l, n)
    ensures Tidy(l.Branch(), n + GroupsFront(l.front))
  {
  }

  lemma NumberDummy(drafts: seq<Draft>, stack: seq<CompileStackElt>, regnum: nat)
    requires Numbered(drafts, stack, regnum)
    ensures var l := drafts[|stack|]; Numbered(drafts[|stack| := Draft(l.front, Then(l.Branch(), Dummy), Option.None)], stack, regnum)
  {
    hide TidyDraft, GroupsDraft, NumberedLevel;
    TopNumbered(drafts, stack, regnum);
    var l := drafts[|stack|];
    DummyTidy(l, Opened(stack, |stack|));
    NumberTop(drafts, stack, regnum, Draft(l.front, Then(l.Branch(), Dummy), Option.None), regnum);
  }

  lemma NumberOpen(drafts: seq<Draft>, stack: seq<CompileStackElt>, regnum: nat, elt: CompileStackElt)
    requires Numbered(drafts, stack, regnum) && elt.regnum == regnum + 1
    ensures Numbered(drafts + [BLANK], stack + [elt], regnum + 1)
  {
    hide TidyDraft, GroupsDraft;
    BlankTidy(regnum + 1);
    var d, s := drafts + [BLANK], stack + [elt];
    forall i {:trigger NumberedLevel(d, s, regnum + 1, i)} | 0 <= i <= |s|
      ensures NumberedLevel(d, s, regnum + 1, i)
    {
      if i <= |stack| {
        assert NumberedLevel(drafts, stack, regnum, i);
      }
    }
  }

  lemma BlankTidy(n: nat)
    ensures TidyDraft(BLANK, n) && GroupsDraft(BLANK) == 0
  {
  }

  lemma NumberStart()
    ensures Numbered([BLANK], [], 0)
  {
    BlankTidy(0);
  }

  lemma NumberClose(drafts: seq<Draft>, stack: seq<CompileStackElt>, regnum: nat, inner: Byte)
    requires Numbered(drafts, stack, regnum) && stack != []
    ensures var n := |stack| - 1;
      Numbered(drafts[..n] + [drafts[n].Piece(Group(stack[n].regnum, inner, drafts[n + 1].All()))], stack[..n], regnum)
  {
    hide TidyDraft, GroupsDraft;
    var n := |stack| - 1;
    var f := Group(stack[n].regnum, inner, drafts[n + 1].All());
    var d, s := drafts[..n] + [drafts[n].Piece(f)], stack[..n];
    TopNumbered(drafts, stack, regnum);
    assert NumberedLevel(drafts, stack, regnum, n);
    GroupTidy(drafts[n + 1], stack[n].regnum, inner);
    TidyPiece(drafts[n], Opened(stack, n), f);
    forall i {:trigger NumberedLevel(d, s, regnum, i)} | 0 <= i <= n
      ensures NumberedLevel(d, s, regnum, i)
    {
      assert NumberedLevel(drafts, stack, regnum, i);
    }
  }

  lemma GroupTidy(l: Draft, reg: nat, inner: Byte)
    requires TidyDraft(l, reg) && reg > 0
    ensures var f := Group(reg, inner, l.All()); Tidy(f, reg - 1) && Groups(f) == 1 + GroupsDraft(l)
  {
  }

  lemma NumberEnd(drafts: seq<Draft>, regnum: nat)
    requires Numbered(drafts, [], regnum)
    ensures TidyAlts(drafts[0].All(), 0) && GroupsAlts(drafts[0].All()) == regnum
  {
    TopNumbered(drafts, [], regnum);
  }
}
