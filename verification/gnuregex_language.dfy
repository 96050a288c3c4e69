/** What a regular expression means: the strings it denotes, with no reference to any matcher. */
module RegexLanguage {
  type Byte = x: int | 0 <= x < 256
  type Text = seq<Byte>

  datatype Regex =
    | Empty
    | Lit(c: Byte)
    | Any
    | Cat(first: Regex, second: Regex)
    | Or(left: Regex, right: Regex)
    | Star(body: Regex)

  /** Text w is denoted by r.  A dot stands for any byte but NUL. */
  ghost predicate Denotes(r: Regex, w: Text)
    decreases r, |w|
  {
    match r
    case Empty => w == []
    case Lit(c) => w == [c]
    case Any => |w| == 1 && w[0] != 0
    case Cat(a, b) => exists i :: 0 <= i <= |w| && Denotes(a, w[..i]) && Denotes(b, w[i..])
    case Or(a, b) => Denotes(a, w) || Denotes(b, w)
    case Star(a) => w == [] || exists i :: 0 < i <= |w| && Denotes(a, w[..i]) && Denotes(Star(a), w[i..])
  }

  function Prefix(text: Text, start: int, n: nat): Text {
    if 0 <= start && start + n <= |text| then text[start..start + n] else []
  }

  /** A string that r denotes begins at start. */
  ghost predicate BeginsAt(r: Regex, text: Text, start: int) {
    0 <= start <= |text| && exists n: nat {:trigger Prefix(text, start, n)} :: start + n <= |text| && Denotes(r, Prefix(text, start, n))
  }

  ghost predicate Same(r: Regex, q: Regex) {
    forall w: Text {:trigger Denotes(q, w)} :: Denotes(r, w) <==> Denotes(q, w)
  }

  lemma CatOf(a: Regex, b: Regex, u: Text, v: Text)
    requires Denotes(a, u) && Denotes(b, v)
    ensures Denotes(Cat(a, b), u + v)
  {
    assert (u + v)[..|u|] == u && (u + v)[|u|..] == v;
  }

  lemma StarOf(a: Regex, u: Text, v: Text)
    requires Denotes(a, u) && Denotes(Star(a), v)
    ensures Denotes(Star(a), u + v)
  {
    if u == [] {
      assert u + v == v;
    } else {
      assert (u + v)[..|u|] == u && (u + v)[|u|..] == v;
    }
  }

  lemma CatSplit(a: Regex, b: Regex, w: Text) returns (i: nat)
    requires Denotes(Cat(a, b), w)
    ensures i <= |w| && Denotes(a, w[..i]) && Denotes(b, w[i..])
  {
    i :| 0 <= i <= |w| && Denotes(a, w[..i]) && Denotes(b, w[i..]);
  }

  lemma Pieces(w: Text, i: nat)
    requires i <= |w|
    ensures w[..i] + w[i..] == w
  {
  }

  lemma Reassociate(u: Text, v: Text, x: Text)
    ensures (u + v) + x == u + (v + x)
  {
  }

  lemma CatRightward(a: Regex, b: Regex, c: Regex, w: Text)
    requires Denotes(Cat(Cat(a, b), c), w)
    ensures Denotes(Cat(a, Cat(b, c)), w)
  {
    hide *;
    var j := CatSplit(Cat(a, b), c, w);
    Pieces(w, j);
    var front, x := w[..j], w[j..];
    var i := CatSplit(a, b, front);
    Pieces(front, i);
    var u, v := front[..i], front[i..];
    Reassociate(u, v, x);
    CatOf(b, c, v, x);
    CatOf(a, Cat(b, c), u, v + x);
  }

  lemma CatLeftward(a: Regex, b: Regex, c: Regex, w: Text)
    requires Denotes(Cat(a, Cat(b, c)), w)
    ensures Denotes(Cat(Cat(a, b), c), w)
  {
    hide *;
    var i := CatSplit(a, Cat(b, c), w);
    Pieces(w, i);
    var u, back := w[..i], w[i..];
    var j := CatSplit(b, c, back);
    Pieces(back, j);
    var v, x := back[..j], back[j..];
    Reassociate(u, v, x);
    CatOf(a, b, u, v);
    CatOf(Cat(a, b), c, u + v, x);
  }

  lemma CatAssociates(a: Regex, b: Regex, c: Regex)
    ensures Same(Cat(Cat(a, b), c), Cat(a, Cat(b, c)))
  {
    hide Denotes;
    forall w: Text {:trigger Denotes(Cat(a, Cat(b, c)), w)}
      ensures Denotes(Cat(Cat(a, b), c), w) <==> Denotes(Cat(a, Cat(b, c)), w)
    {
      if Denotes(Cat(Cat(a, b), c), w) {
        CatRightward(a, b, c, w);
      }
      if Denotes(Cat(a, Cat(b, c)), w) {
        CatLeftward(a, b, c, w);
      }
    }
  }

  lemma EmptyIsUnit(a: Regex)
    ensures Same(Cat(Empty, a), a) && Same(Cat(a, Empty), a)
  {
    forall w: Text {:trigger Denotes(a, w)}
      ensures Denotes(Cat(Empty, a), w) <==> Denotes(a, w)
      ensures Denotes(Cat(a, Empty), w) <==> Denotes(a, w)
    {
      if Denotes(Cat(Empty, a), w) {
        var i := CatSplit(Empty, a, w);
        assert w[i..] == w;
      }
      if Denotes(Cat(a, Empty), w) {
        var i := CatSplit(a, Empty, w);
        assert w[..i] == w;
      }
      if Denotes(a, w) {
        CatOf(Empty, a, [], w);
        CatOf(a, Empty, w, []);
        assert [] + w == w && w + [] == w;
      }
    }
  }

  // Equivalence is kept by every constructor.

  lemma SameTransitive(a: Regex, b: Regex, c: Regex)
    requires Same(a, b) && Same(b, c)
    ensures Same(a, c)
  {
    forall w: Text {:trigger Denotes(c, w)}
      ensures Denotes(a, w) <==> Denotes(c, w)
    {
      assert Denotes(b, w) <==> Denotes(c, w);
    }
  }

  lemma CatMonotone(a: Regex, b: Regex, a': Regex, b': Regex, w: Text)
    requires Same(a, a') && Same(b, b') && Denotes(Cat(a, b), w)
    ensures Denotes(Cat(a', b'), w)
  {
    var i := CatSplit(a, b, w);
    assert Denotes(a', w[..i]) && Denotes(b', w[i..]);
  }

  lemma SameSymmetric(a: Regex, b: Regex)
    requires Same(a, b)
    ensures Same(b, a)
  {
    forall w: Text {:trigger Denotes(a, w)}
      ensures Denotes(b, w) <==> Denotes(a, w)
    {
      assert Denotes(a, w) <==> Denotes(b, w);
    }
  }

  lemma CatCongruence(a: Regex, b: Regex, a': Regex, b': Regex)
    requires Same(a, a') && Same(b, b')
    ensures Same(Cat(a, b), Cat(a', b'))
  {
    SameSymmetric(a, a');
    SameSymmetric(b, b');
    forall w: Text {:trigger Denotes(Cat(a', b'), w)}
      ensures Denotes(Cat(a, b), w) <==> Denotes(Cat(a', b'), w)
    {
      if Denotes(Cat(a, b), w) {
        CatMonotone(a, b, a', b', w);
      }
      if Denotes(Cat(a', b'), w) {
        CatMonotone(a', b', a, b, w);
      }
    }
  }

  lemma OrCongruence(a: Regex, b: Regex, a': Regex, b': Regex)
    requires Same(a, a') && Same(b, b')
    ensures Same(Or(a, b), Or(a', b'))
  {
    forall w: Text {:trigger Denotes(Or(a', b'), w)}
      ensures Denotes(Or(a, b), w) <==> Denotes(Or(a', b'), w)
    {
      assert Denotes(a, w) <==> Denotes(a', w);
      assert Denotes(b, w) <==> Denotes(b', w);
    }
  }

  lemma {:induction false} StarMonotone(a: Regex, b: Regex, w: Text)
    requires Same(a, b) && Denotes(Star(a), w)
    ensures Denotes(Star(b), w)
    decreases |w|
  {
    if w != [] {
      var i :| 0 < i <= |w| && Denotes(a, w[..i]) && Denotes(Star(a), w[i..]);
      assert Denotes(b, w[..i]);
      StarMonotone(a, b, w[i..]);
    }
  }

  lemma StarCongruence(a: Regex, b: Regex)
    requires Same(a, b)
    ensures Same(Star(a), Star(b))
  {
    SameSymmetric(a, b);
    forall w: Text {:trigger Denotes(Star(b), w)}
      ensures Denotes(Star(a), w) <==> Denotes(Star(b), w)
    {
      if Denotes(Star(a), w) {
        StarMonotone(a, b, w);
      }
      if Denotes(Star(b), w) {
        StarMonotone(b, a, w);
      }
    }
  }

  // ---- repetition ----

  /** What the operators `*`, `+` and `?` make of r: zero times allowed, many times allowed. */
  function Rep(r: Regex, zero: bool, many: bool): Regex {
    if zero && many then Star(r)
    else if many then Cat(r, Star(r))
    else if zero then Or(Empty, r)
    else r
  }

  lemma StarSplit(a: Regex, w: Text) returns (i: nat)
    requires Denotes(Star(a), w) && w != []
    ensures 0 < i <= |w| && Denotes(a, w[..i]) && Denotes(Star(a), w[i..])
  {
    i :| 0 < i <= |w| && Denotes(a, w[..i]) && Denotes(Star(a), w[i..]);
  }

  lemma {:induction false} StarConcat(a: Regex, u: Text, v: Text)
    requires Denotes(Star(a), u) && Denotes(Star(a), v)
    ensures Denotes(Star(a), u + v)
    decreases |u|
  {
    hide Denotes;
    if u == [] {
      assert u + v == v;
    } else {
      var i := StarSplit(a, u);
      StarConcat(a, u[i..], v);
      StarOf(a, u[..i], u[i..] + v);
      assert u[..i] + (u[i..] + v) == u + v;
    }
  }

  lemma OnceIsStar(a: Regex, w: Text)
    requires Denotes(a, w)
    ensures Denotes(Star(a), w)
  {
    StarOf(a, w, []);
    assert w + [] == w;
  }

  /** The plus of r, one round or more. */
  lemma PlusIsStar(a: Regex, w: Text)
    requires Denotes(Cat(a, Star(a)), w)
    ensures Denotes(Star(a), w)
  {
    hide Denotes;
    var i := CatSplit(a, Star(a), w);
    StarOf(a, w[..i], w[i..]);
    assert w[..i] + w[i..] == w;
  }

  lemma StarIsPlus(a: Regex, w: Text)
    requires Denotes(Star(a), w) && w != []
    ensures Denotes(Cat(a, Star(a)), w)
  {
    var i :| 0 < i <= |w| && Denotes(a, w[..i]) && Denotes(Star(a), w[i..]);
    CatOf(a, Star(a), w[..i], w[i..]);
    assert w[..i] + w[i..] == w;
  }

  lemma RepIsStar(r: Regex, zero: bool, many: bool, w: Text)
    requires Denotes(Rep(r, zero, many), w)
    ensures Denotes(Star(r), w)
  {
    if !(zero && many) && many {
      PlusIsStar(r, w);
    } else if w != [] && !many {
      OnceIsStar(r, w);
    } else if !many {
      assert Denotes(Star(r), []);
    }
  }

  /** Rounds that are themselves rounds of r add up to rounds of r. */
  lemma {:induction false} StarOfReps(r: Regex, zero: bool, many: bool, w: Text)
    requires Denotes(Star(Rep(r, zero, many)), w)
    ensures Denotes(Star(r), w)
    decreases |w|
  {
    if w != [] {
      var i :| 0 < i <= |w| && Denotes(Rep(r, zero, many), w[..i]) && Denotes(Star(Rep(r, zero, many)), w[i..]);
      RepIsStar(r, zero, many, w[..i]);
      StarOfReps(r, zero, many, w[i..]);
      StarConcat(r, w[..i], w[i..]);
      assert w[..i] + w[i..] == w;
    }
  }

  lemma RepHasOnce(r: Regex, zero: bool, many: bool, w: Text)
    requires Denotes(r, w)
    ensures Denotes(Rep(r, zero, many), w)
  {
    OnceIsStar(r, w);
    if many && !zero {
      CatOf(r, Star(r), w, []);
      assert w + [] == w;
    }
  }

  lemma {:induction false} StarIntoReps(r: Regex, zero: bool, many: bool, w: Text)
    requires Denotes(Star(r), w)
    ensures Denotes(Star(Rep(r, zero, many)), w)
    decreases |w|
  {
    if w != [] {
      var i :| 0 < i <= |w| && Denotes(r, w[..i]) && Denotes(Star(r), w[i..]);
      RepHasOnce(r, zero, many, w[..i]);
      StarIntoReps(r, zero, many, w[i..]);
    }
  }

  /** A nonempty text of Rep(r) is one round or a plus of rounds; an empty one needs the permission
      to be empty, or an empty round. */
  lemma RepMeans(r: Regex, zero: bool, many: bool, w: Text)
    ensures Denotes(Rep(r, zero, many), w) <==>
      (zero && w == []) || Denotes(r, w) || (many && w != [] && Denotes(Star(r), w))
  {
    if Denotes(r, w) {
      RepHasOnce(r, zero, many, w);
    }
    if many && !zero {
      if w != [] && Denotes(Star(r), w) {
        StarIsPlus(r, w);
      }
      if Denotes(Cat(r, Star(r)), w) {
        PlusIsStar(r, w);
        if w == [] {
          var i := CatSplit(r, Star(r), w);
          assert w[..i] == [];
        }
      }
    }
  }

  /** A second repetition operator only adds its permissions to the first: a run of operators may
      be collapsed into one. */
  lemma RepCollapses(r: Regex, zero: bool, many: bool, zero': bool, many': bool)
    ensures Same(Rep(Rep(r, zero, many), zero', many'), Rep(r, zero || zero', many || many'))
  {
    hide Denotes, Rep;
    var all := Rep(r, zero || zero', many || many');
    forall w: Text {:trigger Denotes(all, w)}
      ensures Denotes(Rep(Rep(r, zero, many), zero', many'), w) <==> Denotes(all, w)
    {
      RepMeans(Rep(r, zero, many), zero', many', w);
      RepMeans(r, zero, many, w);
      RepMeans(r, zero || zero', many || many', w);
      if Denotes(Star(Rep(r, zero, many)), w) {
        StarOfReps(r, zero, many, w);
      }
      if Denotes(Star(r), w) {
        StarIntoReps(r, zero, many, w);
      }
    }
  }

  lemma RepCongruence(a: Regex, b: Regex, zero: bool, many: bool)
    requires Same(a, b)
    ensures Same(Rep(a, zero, many), Rep(b, zero, many))
  {
    StarCongruence(a, b);
    CatCongruence(a, Star(a), b, Star(b));
    OrCongruence(Empty, a, Empty, b);
  }
}
