/** The strings that the matcher takes for a pattern.  They are those that the pattern denotes, but for
    loops around groups whose end it confuses with the end of an empty group: it leaves these after one
    round. */
module RegexTakes {
  import opened RegexLanguage
  import opened RegexCode

  /** The byte two places before the end mark of a group with this code. */
  function Suspect(bs: Code): Byte {
    if |bs| >= 5 then bs[|bs| - 5] else 0
  }

  /** A group whose end looks like that of an empty group. */
  predicate Disturbed(f: Frag) {
    f.Group? && Suspect(Bytes(f)) == START_MEMORY
  }

  function Takes(f: Frag): Regex
    decreases f, 1
  {
    match f
    case Nothing => Empty
    case Exact(chars) => Word(chars)
    case AnyChar => Any
    case Dummy => Empty
    case Then(a, b) => Cat(Takes(a), Takes(b))
    case Again(b, zero, many) => Rep(Takes(b), zero, many && !Disturbed(b))
    case Group(_, _, alts) => TakesAlts(alts)
  }

  function TakesFront(front: Front): Regex
    decreases front, 1
  {
    match front
    case None => Empty
    case More(before, branch) => if before.None? then Takes(branch) else Or(TakesFront(before), Takes(branch))
  }

  function TakesAlts(alts: Alts): Regex
    decreases alts, 1
  {
    if alts.front.None? then Takes(alts.last) else Or(TakesFront(alts.front), Takes(alts.last))
  }

  /** No loop of f is around such a group. */
  predicate Calm(f: Frag)
    decreases f, 1
  {
    match f
    case Then(a, b) => Calm(a) && Calm(b)
    case Again(b, _, many) => Calm(b) && !(many && Disturbed(b))
    case Group(_, _, alts) => CalmAlts(alts)
    case _ => true
  }

  predicate CalmFront(front: Front)
    decreases front, 1
  {
    front.None? || (CalmFront(front.before) && Calm(front.branch))
  }

  predicate CalmAlts(alts: Alts)
    decreases alts, 1
  {
    CalmFront(alts.front) && Calm(alts.last)
  }

  lemma {:induction false} CalmTakes(f: Frag)
    requires Calm(f)
    ensures Takes(f) == Means(f)
    decreases f, 1
  {
    match f
    case Then(a, b) =>
      CalmTakes(a);
      CalmTakes(b);
    case Again(b, zero, many) => CalmTakes(b);
    case Group(_, _, alts) => CalmTakesAlts(alts);
    case _ =>
  }

  lemma {:induction false} CalmTakesFront(front: Front)
    requires CalmFront(front)
    ensures TakesFront(front) == MeansFront(front)
    decreases front, 1
  {
    if front.More? {
      CalmTakesFront(front.before);
      CalmTakes(front.branch);
    }
  }

  /** Without such loops the strings taken are those denoted. */
  lemma {:induction false} CalmTakesAlts(alts: Alts)
    requires CalmAlts(alts)
    ensures TakesAlts(alts) == MeansAlts(alts)
    decreases alts, 1
  {
    CalmTakesFront(alts.front);
    CalmTakes(alts.last);
  }

  // ---- shapes ----

  lemma TakesParts(f: Frag)
    ensures f.Nothing? || f.Dummy? ==> Takes(f) == Empty
    ensures f.Exact? ==> Takes(f) == Word(f.chars)
    ensures f.AnyChar? ==> Takes(f) == Any
    ensures f.Then? ==> Takes(f) == Cat(Takes(f.first), Takes(f.second))
    ensures f.Again? ==> Takes(f) == Rep(Takes(f.body), f.zero, f.many && !Disturbed(f.body))
    ensures f.Group? ==> Takes(f) == TakesAlts(f.alts)
  {
  }

  lemma TakesFrontParts(front: Front, w: Text)
    requires front.More?
    ensures Denotes(TakesFront(front), w) <==> (front.before.More? && Denotes(TakesFront(front.before), w)) || Denotes(Takes(front.branch), w)
  {
    hide Takes;
  }

  lemma TakesAltParts(alts: Alts, w: Text)
    ensures Denotes(TakesAlts(alts), w) <==> (alts.front.More? && Denotes(TakesFront(alts.front), w)) || Denotes(Takes(alts.last), w)
  {
    hide Takes, TakesFront;
  }
}
