/** Laid-out patterns as the compiler makes them: groups numbered in the order of their opening, and
    loops only around single pieces. */
module RegexTidy {
  import opened RegexCode

  function Groups(f: Frag): nat
    decreases f, 1
  {
    match f
    case Then(a, b) => Groups(a) + Groups(b)
    case Again(b, _, _) => Groups(b)
    case Group(_, _, alts) => 1 + GroupsAlts(alts)
    case _ => 0
  }

  function GroupsFront(front: Front): nat
    decreases front, 1
  {
    if front.None? then 0 else GroupsFront(front.before) + Groups(front.branch)
  }

  function GroupsAlts(alts: Alts): nat
    decreases alts, 1
  {
    GroupsFront(alts.front) + Groups(alts.last)
  }

  /** What an operator applies to. */
  predicate Single(f: Frag) {
    f.Exact? || f.AnyChar? || f.Group?
  }

  /** After n groups that have been opened before. */
  predicate Tidy(f: Frag, n: nat)
    decreases f, 1
  {
    match f
    case Then(a, b) => Tidy(a, n) && Tidy(b, n + Groups(a))
    case Again(b, _, _) => Single(b) && Tidy(b, n)
    case Group(reg, _, alts) => reg == n + 1 && TidyAlts(alts, n + 1)
    case _ => true
  }

  predicate TidyFront(front: Front, n: nat)
    decreases front, 1
  {
    front.None? || (TidyFront(front.before, n) && Tidy(front.branch, n + GroupsFront(front.before)))
  }

  predicate TidyAlts(alts: Alts, n: nat)
    decreases alts, 1
  {
    TidyFront(alts.front, n) && Tidy(alts.last, n + GroupsFront(alts.front))
  }
}
