/** Groups that the matcher takes for empty ones at their end, and what becomes of a loop around one. */
module RegexDisturbed {
  import opened RegexLanguage
  import opened RegexCode
  import opened RegexCourse
  import opened RegexTidy
  import RegexBudget
  import opened RegexTakes
  import opened RegexDecides

  /** A group that ends with the fifth group. */
  lemma FifthGroupDisturbs(reg: nat, inner: Byte, x: Frag, i: Byte, alts: Alts)
    requires reg <= MAX_REGNUM
    ensures Disturbed(Group(reg, inner, Alts(Front.None, Then(x, Group(5, i, alts)))))
  {
    hide AltBytes;
    var fifth := Group(5, i, alts);
    var u, front, stop := Bytes(x), Memory(START_MEMORY, 5, i) + AltBytes(alts) + (if alts.front.None? then [] else [PUSH_DUMMY_FAILURE]), [STOP_MEMORY, 5, i];
    assert Bytes(fifth) == front + stop;
    EndsWith(reg, inner, Then(x, fifth), u + front, stop);
  }

  /** A group that ends with characters of which the last but one has the code 5. */
  lemma FifthCharacterDisturbs(reg: nat, inner: Byte, x: Frag, chars: Text)
    requires reg <= MAX_REGNUM && 2 <= |chars| < 256 && chars[|chars| - 2] == 5
    ensures Disturbed(Group(reg, inner, Alts(Front.None, Then(x, Exact(chars)))))
  {
    var n := |chars| - 2;
    assert chars == chars[..n] + [5, chars[n + 1]];
    var front := [EXACTN, |chars|] + chars[..n];
    assert Bytes(Exact(chars)) == front + [5, chars[n + 1]];
    EndsWith(reg, inner, Then(x, Exact(chars)), Bytes(x) + front, [5, chars[n + 1]]);
  }

  lemma EndsWith(reg: nat, inner: Byte, f: Frag, u: Code, v: Code)
    requires reg <= MAX_REGNUM && Bytes(f) == u + v && |v| >= 2 && v[|v| - 2] == 5
    ensures Disturbed(Group(reg, inner, Alts(Front.None, f)))
  {
    var bs := Bytes(Group(reg, inner, Alts(Front.None, f)));
    assert AltBytes(Alts(Front.None, f)) == u + v;
    assert bs == [START_MEMORY, reg, inner] + (u + v) + [STOP_MEMORY, reg, inner];
    assert bs[|bs| - 5] == v[|v| - 2];
  }

  // ---- one such pattern ----

  function Hollow(reg: nat): Frag {
    Group(reg, 0, Alts(Front.None, Nothing))
  }

  /** `()()()`, as the groups 2, 3 and 4. */
  const HOLLOWS: Frag := Then(Then(Then(Nothing, Hollow(2)), Hollow(3)), Hollow(4))
  /** `(()()()(a))` */
  const ROUND: Frag := Group(1, 4, Alts(Front.None, Then(HOLLOWS, Group(5, 0, Alts(Front.None, Then(Nothing, Exact([97])))))))
  /** `(()()()(a))*b` */
  const FIFTH: Alts := Alts(Front.None, Then(Then(Nothing, Again(ROUND, true, true)), Exact([98])))
  /** `aab` */
  const TWICE: Text := [97, 97, 98]

  lemma EmptyFirst(r: Regex, w: Text)
    ensures Denotes(Cat(Empty, r), w) <==> Denotes(r, w)
    ensures Denotes(Cat(r, Empty), w) <==> Denotes(r, w)
  {
    hide Denotes;
    EmptyIsUnit(r);
    SameText(Cat(Empty, r), r, w);
    SameText(Cat(r, Empty), r, w);
  }

  lemma SameText(r: Regex, q: Regex, w: Text)
    requires Same(r, q)
    ensures Denotes(r, w) <==> Denotes(q, w)
  {
  }

  lemma CatWithEmpty(r: Regex, q: Regex, w: Text)
    requires forall u: Text {:trigger Denotes(r, u)} :: Denotes(r, u) <==> u == []
    ensures Denotes(Cat(r, q), w) <==> Denotes(q, w)
  {
    hide Denotes;
    if Denotes(Cat(r, q), w) {
      var i := CatSplit(r, q, w);
      assert w[..i] == [] && w[i..] == w;
    }
    if Denotes(q, w) {
      CatOf(r, q, [], w);
      assert [] + w == w;
    }
  }

  /** A round reads one character. */
  lemma RoundTakes(w: Text)
    ensures Denotes(Takes(ROUND), w) <==> w == [97]
  {
    var hollows, last := Takes(HOLLOWS), Cat(Empty, Word([97]));
    assert Takes(Hollow(2)) == Empty && Takes(Hollow(3)) == Empty && Takes(Hollow(4)) == Empty;
    assert hollows == Cat(Cat(Cat(Empty, Empty), Empty), Empty);
    assert Takes(ROUND) == Cat(hollows, last);
    hide Denotes, Takes;
    forall u: Text {:trigger Denotes(hollows, u)}
      ensures Denotes(hollows, u) <==> u == []
    {
      EmptyFirst(Cat(Cat(Empty, Empty), Empty), u);
      EmptyFirst(Cat(Empty, Empty), u);
      EmptyFirst(Empty, u);
      EmptyOnly(u);
    }
    CatWithEmpty(hollows, last, w);
    EmptyFirst(Word([97]), w);
    WordDenotes([97], w);
  }

  lemma EmptyOnly(u: Text)
    ensures Denotes(Empty, u) <==> u == []
  {
  }

  lemma FifthShapes()
    ensures Disturbed(ROUND)
    ensures TakesAlts(FIFTH) == Cat(Cat(Empty, Or(Empty, Takes(ROUND))), Word([98]))
    ensures MeansAlts(FIFTH) == Cat(Cat(Empty, Star(Takes(ROUND))), Word([98]))
  {
    FifthGroupDisturbs(1, 4, HOLLOWS, 0, Alts(Front.None, Then(Nothing, Exact([97]))));
    assert Calm(ROUND);
    CalmTakes(ROUND);
    var loop := Again(ROUND, true, true);
    assert Takes(loop) == Or(Empty, Takes(ROUND)) && Means(loop) == Star(Means(ROUND));
    hide Disturbed;
    assert Takes(Then(Nothing, loop)) == Cat(Empty, Takes(loop)) && Means(Then(Nothing, loop)) == Cat(Empty, Means(loop));
  }

  /** The pattern denotes the whole string... */
  lemma TwiceIsDenoted()
    ensures BeginsAt(MeansAlts(FIFTH), TWICE, 0)
  {
    FifthShapes();
    hide Denotes, Takes, MeansAlts, TakesAlts;
    var r := Takes(ROUND);
    RoundTakes([97]);
    StarEmpty(r);
    StarOf(r, [97], []);
    StarOf(r, [97], [97] + []);
    var aa: Text := [97] + ([97] + []);
    EmptyFirst(Star(r), aa);
    WordDenotes([98], [98]);
    CatOf(Cat(Empty, Star(r)), Word([98]), aa, [98]);
    assert Prefix(TWICE, 0, 3) == aa + [98];
  }

  lemma StarEmpty(r: Regex)
    ensures Denotes(Star(r), [])
  {
  }

  /** ... but takes no string there: the loop is left after one round. */
  lemma TwiceIsNotTaken()
    ensures !BeginsAt(TakesAlts(FIFTH), TWICE, 0)
  {
    FifthShapes();
    hide Denotes, Takes, MeansAlts, TakesAlts;
    var r := Takes(ROUND);
    var loop := Cat(Empty, Or(Empty, r));
    forall n: nat | n <= |TWICE|
      ensures !Denotes(Cat(loop, Word([98])), Prefix(TWICE, 0, n))
    {
      var w := Prefix(TWICE, 0, n);
      if Denotes(Cat(loop, Word([98])), w) {
        var i := CatSplit(loop, Word([98]), w);
        WordDenotes([98], w[i..]);
        EmptyFirst(Or(Empty, r), w[..i]);
        OrParts(Empty, r, w[..i]);
        EmptyOnly(w[..i]);
        RoundTakes(w[..i]);
        NotTwice(n, i);
      }
    }
  }

  lemma NotTwice(n: nat, i: nat)
    requires i <= n <= 3
    ensures var w := Prefix(TWICE, 0, n); !((w[..i] == [] || w[..i] == [97]) && w[i..] == [98])
  {
    var w := Prefix(TWICE, 0, n);
    assert w == TWICE[..n];
    if w[i..] == [98] {
      assert w[n - 1] == 98 && w[n - 1] == TWICE[n - 1];
    }
  }

  lemma OrParts(a: Regex, b: Regex, w: Text)
    ensures Denotes(Or(a, b), w) <==> Denotes(a, w) || Denotes(b, w)
  {
  }

  // ---- the pattern is one that the matcher comes to an end with ----

  /** Laid out in order behind n groups, with so many bytes and groups of its own. */
  predicate Sized(f: Frag, n: nat, size: nat, groups: nat) {
    WellFormed(f) && Tidy(f, n) && |Bytes(f)| == size && Groups(f) == groups
  }

  lemma SizedLeaf(f: Frag, n: nat)
    requires f.Nothing? || (f.Exact? && |f.chars| == 1)
    ensures Sized(f, n, if f.Nothing? then 0 else 3, 0)
  {
  }

  lemma SizedThen(a: Frag, b: Frag, n: nat, s: nat, g: nat, s': nat, g': nat)
    requires Sized(a, n, s, g) && Sized(b, n + g, s', g')
    ensures Sized(Then(a, b), n, s + s', g + g')
  {
  }

  lemma SizedGroup(f: Frag, n: nat, inner: Byte, s: nat, g: nat)
    requires Sized(f, n + 1, s, g) && n < MAX_REGNUM
    ensures Sized(Group(n + 1, inner, Alts(Front.None, f)), n, s + 6, g + 1)
  {
    var alts := Alts(Front.None, f);
    assert GroupsFront(alts.front) == 0 && n + 1 + GroupsFront(alts.front) == n + 1;
    assert AltBytes(alts) == Bytes(f) && GroupsAlts(alts) == Groups(f) && WellFormedAlts(alts) && TidyAlts(alts, n + 1);
    hide AltBytes, TidyAlts, GroupsAlts, WellFormedAlts;
  }

  lemma SizedLoop(f: Frag, n: nat, s: nat, g: nat)
    requires Sized(f, n, s, g) && Single(f)
    ensures Sized(Again(f, true, true), n, s + 6, g)
  {
  }

  lemma SizedHollow(n: nat)
    requires n < MAX_REGNUM
    ensures Sized(Hollow(n + 1), n, 6, 1)
  {
    hide Sized;
    SizedLeaf(Nothing, n + 1);
    SizedGroup(Nothing, n, 0, 0, 0);
  }

  lemma SizedHollows()
    ensures Sized(HOLLOWS, 1, 18, 3)
  {
    hide Sized, Hollow;
    SizedLeaf(Nothing, 1);
    SizedHollow(1);
    SizedHollow(2);
    SizedHollow(3);
    SizedThen(Nothing, Hollow(2), 1, 0, 0, 6, 1);
    SizedThen(Then(Nothing, Hollow(2)), Hollow(3), 1, 6, 1, 6, 1);
    SizedThen(Then(Then(Nothing, Hollow(2)), Hollow(3)), Hollow(4), 1, 12, 2, 6, 1);
  }

  lemma SizedRound()
    ensures Sized(ROUND, 0, 33, 5)
  {
    hide Sized;
    SizedHollows();
    var last := Then(Nothing, Exact([97]));
    SizedLeaf(Nothing, 5);
    SizedLeaf(Exact([97]), 5);
    SizedThen(Nothing, Exact([97]), 5, 0, 0, 3, 0);
    SizedGroup(last, 4, 0, 3, 0);
    var fifth := Group(5, 0, Alts(Front.None, last));
    SizedThen(HOLLOWS, fifth, 1, 18, 3, 9, 1);
    SizedGroup(Then(HOLLOWS, fifth), 0, 4, 27, 4);
  }

  lemma FifthIsTame()
    ensures RegexBudget.Tame(FIFTH)
  {
    hide Sized, ROUND;
    SizedRound();
    var loop := Again(ROUND, true, true);
    RoundIsSingle();
    SizedLoop(ROUND, 0, 33, 5);
    SizedLeaf(Nothing, 0);
    SizedThen(Nothing, loop, 0, 0, 0, 39, 5);
    SizedLeaf(Exact([98]), 5);
    SizedThen(Then(Nothing, loop), Exact([98]), 0, 39, 5, 3, 0);
    SizedIsTame(FIFTH.last, 42, 5);
  }

  lemma RoundIsSingle()
    ensures Single(ROUND)
  {
  }

  lemma SizedIsTame(f: Frag, s: nat, g: nat)
    requires Sized(f, 0, s, g) && s < REACH && g <= MAX_REGNUM
    ensures RegexBudget.Tame(Alts(Front.None, f))
  {
    var alts := Alts(Front.None, f);
    assert AltBytes(alts) == Bytes(f) && GroupsAlts(alts) == Groups(f) && WellFormedAlts(alts) && TidyAlts(alts, 0);
    hide AltBytes, TidyAlts, GroupsAlts, WellFormedAlts, Sized;
  }

  /** However much memory and however many steps the matcher has, it finds no match at the beginning
      of `aab`. */
  lemma FifthGroupEndsTheLoop(room: Room, steps: nat)
    requires RegexBudget.Budget(FIFTH, TWICE) <= steps && forall stack :: room(stack)
    ensures BeginsAt(MeansAlts(FIFTH), TWICE, 0) && Verdict(AltBytes(FIFTH), TWICE, room, 0, steps) == Mismatch
  {
    TwiceIsDenoted();
    TwiceIsNotTaken();
    FifthIsTame();
    hide *;
    MatchesWhatItTakes(FIFTH, TWICE, room, 0, steps);
  }
}
