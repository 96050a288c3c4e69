/** The tree that the nodes of radix.c stand for: leaves with keys, branches that test one bit, and a
    place in the tree as what is around it. */
module RadixTrie {
  import opened RadixKeys

  /** Every node has the address of its struct. */
  datatype Trie =
    | Leaf(id: int, key: Key)
    | Branch(id: int, bit: nat, left: Trie, right: Trie)

  /** The rest of a tree around a place in it. */
  datatype Context =
    | Hole
    | InLeft(id: int, bit: nat, other: Trie, up: Context)
    | InRight(id: int, bit: nat, other: Trie, up: Context)

  function Plug(x: Context, t: Trie): Trie
    decreases x
  {
    match x
    case Hole => t
    case InLeft(id, bit, other, up) => Plug(up, Branch(id, bit, t, other))
    case InRight(id, bit, other, up) => Plug(up, Branch(id, bit, other, t))
  }

  // ---- keys and leaves ----

  predicate HasKey(t: Trie, k: Key) {
    match t
    case Leaf(_, key) => k == key
    case Branch(_, _, l, r) => HasKey(l, k) || HasKey(r, k)
  }

  /** The leaves from left to right. */
  function Leaves(t: Trie): (s: seq<Trie>)
    ensures s != []
  {
    match t
    case Leaf(_, _) => [t]
    case Branch(_, _, l, r) => Leaves(l) + Leaves(r)
  }

  // ---- the order of the tree ----

  /** Key k belongs into the place: at every branch above it goes to that side, and agrees with the
      keys of the other side on all bits before. */
  ghost predicate Fits(x: Context, k: Key, lo: nat) {
    match x
    case Hole => true
    case InLeft(_, bit, other, up) =>
      (forall c {:trigger HasKey(other, c)} :: HasKey(other, c) ==> Before(k, c, lo, bit)) && Fits(up, k, lo)
    case InRight(_, bit, other, up) =>
      (forall c {:trigger HasKey(other, c)} :: HasKey(other, c) ==> Before(c, k, lo, bit)) && Fits(up, k, lo)
  }

  /** The tests below a branch are of later bits. */
  predicate Deeper(t: Trie, bit: int) {
    t.Branch? ==> bit < t.bit
  }

  /** The keys of a tree agree up to the bit its root tests, and part there. */
  ghost predicate Patricia(t: Trie, lo: nat) {
    match t
    case Leaf(_, _) => true
    case Branch(_, bit, l, r) =>
      && Patricia(l, lo) && Patricia(r, lo) && Deeper(l, bit) && Deeper(r, bit)
      && forall a, c {:trigger HasKey(l, a), HasKey(r, c)} :: HasKey(l, a) && HasKey(r, c) ==> Before(a, c, lo, bit)
  }

  function UpBit(x: Context): int {
    if x.Hole? then -1 else x.bit
  }

  ghost predicate PatriciaAround(x: Context, lo: nat) {
    match x
    case Hole => true
    case _ =>
      && Patricia(x.other, lo) && Deeper(x.other, x.bit) && UpBit(x.up) < x.bit && PatriciaAround(x.up, lo)
      && forall k {:trigger HasKey(x.other, k)} :: HasKey(x.other, k) ==> Fits(x.up, k, lo)
  }

  /** A tree in order, seen from a place in it. */
  ghost predicate Ordered(x: Context, t: Trie, lo: nat) {
    && Patricia(t, lo) && PatriciaAround(x, lo) && Deeper(t, UpBit(x))
    && forall k {:trigger HasKey(t, k)} :: HasKey(t, k) ==> Fits(x, k, lo)
  }

  lemma OrderedDownLeft(x: Context, t: Trie, lo: nat)
    requires Ordered(x, t, lo) && t.Branch?
    ensures Ordered(InLeft(t.id, t.bit, t.right, x), t.left, lo)
  {
    forall k {:trigger HasKey(t.left, k)} | HasKey(t.left, k)
      ensures Fits(InLeft(t.id, t.bit, t.right, x), k, lo)
    {
      assert HasKey(t, k);
    }
    forall k {:trigger HasKey(t.right, k)} | HasKey(t.right, k)
      ensures Fits(x, k, lo)
    {
      assert HasKey(t, k);
    }
  }

  lemma OrderedDownRight(x: Context, t: Trie, lo: nat)
    requires Ordered(x, t, lo) && t.Branch?
    ensures Ordered(InRight(t.id, t.bit, t.left, x), t.right, lo)
  {
    forall k {:trigger HasKey(t.right, k)} | HasKey(t.right, k)
      ensures Fits(InRight(t.id, t.bit, t.left, x), k, lo)
    {
      assert HasKey(t, k);
    }
    forall k {:trigger HasKey(t.left, k)} | HasKey(t.left, k)
      ensures Fits(x, k, lo)
    {
      assert HasKey(t, k);
    }
  }

  lemma OrderedUp(x: Context, t: Trie, lo: nat)
    requires Ordered(x, t, lo) && !x.Hole?
    ensures x.InLeft? ==> Ordered(x.up, Branch(x.id, x.bit, t, x.other), lo)
    ensures x.InRight? ==> Ordered(x.up, Branch(x.id, x.bit, x.other, t), lo)
  {
  }

  lemma {:induction false} OrderedTop(x: Context, t: Trie, lo: nat)
    requires Ordered(x, t, lo)
    ensures Ordered(Hole, Plug(x, t), lo)
    decreases x
  {
    hide Patricia, PatriciaAround, Fits, HasKey;
    if !x.Hole? {
      OrderedUp(x, t, lo);
      if x.InLeft? {
        OrderedTop(x.up, Branch(x.id, x.bit, t, x.other), lo);
      } else {
        OrderedTop(x.up, Branch(x.id, x.bit, x.other, t), lo);
      }
    } else {
      TopFits(t, lo);
    }
  }

  lemma TopFits(t: Trie, lo: nat)
    requires Patricia(t, lo)
    ensures Ordered(Hole, t, lo)
  {
  }

  /** In an ordered tree the keys of a subtree agree on the bits before the one its root tests. */
  lemma {:induction false} KeysAgree(t: Trie, a: Key, c: Key, lo: nat, n: int)
    requires Patricia(t, lo) && HasKey(t, a) && HasKey(t, c) && (t.Branch? ==> n <= t.bit)
    ensures SameBits(a, c, lo, n)
    decreases t
  {
    if t.Branch? {
      var l, r := t.left, t.right;
      if HasKey(l, a) && HasKey(l, c) {
        KeysAgree(l, a, c, lo, n);
      } else if HasKey(r, a) && HasKey(r, c) {
        KeysAgree(r, a, c, lo, n);
      } else if HasKey(l, a) {
        assert Before(a, c, lo, t.bit);
      } else {
        assert Before(c, a, lo, t.bit);
      }
    }
  }

  // ---- going down ----

  /** The search for v has come to this place. */
  predicate OnPath(x: Context, v: Key) {
    match x
    case Hole => true
    case InLeft(_, bit, _, up) => !BitAt(v, bit) && OnPath(up, v)
    case InRight(_, bit, _, up) => BitAt(v, bit) && OnPath(up, v)
  }

  function Find(t: Trie, v: Key): (leaf: Trie)
    ensures leaf.Leaf?
  {
    if t.Leaf? then t else Find(if BitAt(v, t.bit) then t.right else t.left, v)
  }

  lemma {:induction false} FindHasKey(t: Trie, v: Key)
    ensures HasKey(t, Find(t, v).key)
  {
    if t.Branch? {
      FindHasKey(if BitAt(v, t.bit) then t.right else t.left, v);
    }
  }

  lemma {:induction false} FindOnPath(x: Context, t: Trie, v: Key)
    requires OnPath(x, v)
    ensures Find(Plug(x, t), v) == Find(t, v)
    decreases x
  {
    match x
    case Hole =>
    case InLeft(id, bit, other, up) => FindOnPath(up, Branch(id, bit, t, other), v);
    case InRight(id, bit, other, up) => FindOnPath(up, Branch(id, bit, other, t), v);
  }

  /** A key that is in the tree is where the search for it ends. */
  lemma {:induction false} KeyIsFound(t: Trie, k: Key, lo: nat)
    requires Patricia(t, lo) && HasKey(t, k)
    ensures Find(t, k).key == k
    decreases t
  {
    if t.Branch? {
      FindHasKey(t.left, k);
      FindHasKey(t.right, k);
      if HasKey(t.left, k) {
        assert Before(k, Find(t.right, k).key, lo, t.bit);
        KeyIsFound(t.left, k, lo);
      } else {
        assert Before(Find(t.left, k).key, k, lo, t.bit);
        KeyIsFound(t.right, k, lo);
      }
    }
  }

  /** The key found goes the way of v at every test. */
  lemma FoundSide(t: Trie, v: Key, lo: nat)
    requires Patricia(t, lo) && t.Branch?
    ensures BitAt(Find(t, v).key, t.bit) == BitAt(v, t.bit)
  {
    FindHasKey(t.left, v);
    FindHasKey(t.right, v);
    assert Before(Find(t.left, v).key, Find(t.right, v).key, lo, t.bit);
  }

  // ---- insertion ----

  /** v is new, and parts from the keys here at bit b; below, b is not tested. */
  ghost predicate PartsAt(t: Trie, v: Key, lo: nat, b: nat) {
    forall k {:trigger HasKey(t, k)} :: HasKey(t, k) ==> SameBits(v, k, lo, b) && BitAt(v, b) != BitAt(k, b)
  }

  lemma PlaceParts(t: Trie, v: Key, f: Key, lo: nat, b: nat)
    requires Patricia(t, lo) && Deeper(t, b) && HasKey(t, f) && lo <= b && SameBits(v, f, lo, b) && BitAt(v, b) != BitAt(f, b)
    ensures PartsAt(t, v, lo, b)
  {
    forall k {:trigger HasKey(t, k)} | HasKey(t, k)
      ensures SameBits(v, k, lo, b) && BitAt(v, b) != BitAt(k, b)
    {
      if k != f {
        OneLeafOneKey(t, f, k);
        KeysAgree(t, f, k, lo, b + 1);
        assert BitAt(f, b) == BitAt(k, b);
        SameBitsPrefix(f, k, lo, b + 1, b);
        SameBitsTransitive(v, f, k, lo, b);
      }
    }
  }

  lemma OneLeafOneKey(t: Trie, f: Key, k: Key)
    requires HasKey(t, f) && HasKey(t, k) && f != k
    ensures t.Branch?
  {
  }

  lemma SameBitsPrefix(a: Key, b: Key, lo: nat, hi: int, n: int)
    requires SameBits(a, b, lo, hi) && n <= hi
    ensures SameBits(a, b, lo, n)
  {
  }

  /** The new pair of nodes takes the place, with what was there below it. */
  function NewPair(t: Trie, v: Key, b: nat, leaf: int, branch: int): Trie {
    if BitAt(v, b) then Branch(branch, b, t, Leaf(leaf, v)) else Branch(branch, b, Leaf(leaf, v), t)
  }

  lemma {:induction false} NewKeyFits(x: Context, v: Key, f: Key, lo: nat, b: nat)
    requires OnPath(x, v) && Fits(x, f, lo) && SameBits(v, f, lo, b) && UpBit(x) < b && PatriciaAround(x, lo)
    ensures Fits(x, v, lo)
    decreases x
  {
    match x
    case Hole =>
    case InLeft(_, bit, other, up) =>
      NewKeyFits(up, v, f, lo, b);
      forall c {:trigger HasKey(other, c)} | HasKey(other, c)
        ensures Before(v, c, lo, bit)
      {
        assert Before(f, c, lo, bit);
        SameBitsPrefix(v, f, lo, b, bit);
        SameBitsTransitive(v, f, c, lo, bit);
      }
    case InRight(_, bit, other, up) =>
      NewKeyFits(up, v, f, lo, b);
      forall c {:trigger HasKey(other, c)} | HasKey(other, c)
        ensures Before(c, v, lo, bit)
      {
        assert Before(c, f, lo, bit);
        SameBitsPrefix(v, f, lo, b, bit);
        SameBitsBack(v, f, c, lo, bit);
      }
  }

  lemma SameBitsBack(v: Key, f: Key, c: Key, lo: nat, bit: int)
    requires SameBits(v, f, lo, bit) && SameBits(c, f, lo, bit)
    ensures SameBits(c, v, lo, bit)
  {
    forall i: nat {:trigger BitAt(c, i)} {:trigger BitAt(v, i)} | lo <= i < bit
      ensures BitAt(c, i) == BitAt(v, i)
    {
      assert BitAt(v, i) == BitAt(f, i);
    }
  }

  lemma NewPairOrdered(x: Context, t: Trie, v: Key, lo: nat, b: nat, leaf: int, branch: int)
    requires Ordered(x, t, lo) && OnPath(x, v) && UpBit(x) < b && lo <= b && Deeper(t, b) && PartsAt(t, v, lo, b)
    ensures Ordered(x, NewPair(t, v, b, leaf, branch), lo)
  {
    var f := Find(t, v).key;
    FindHasKey(t, v);
    NewKeyFits(x, v, f, lo, b);
    forall k {:trigger HasKey(t, k)} | HasKey(t, k)
      ensures if BitAt(v, b) then Before(k, v, lo, b) else Before(v, k, lo, b)
    {
      SameBitsFlip(v, k, lo, b);
    }
  }

  lemma SameBitsFlip(a: Key, c: Key, lo: nat, b: int)
    requires SameBits(a, c, lo, b)
    ensures SameBits(c, a, lo, b)
  {
  }

  // ---- deletion ----

  /** The sibling takes the place of the branch above a leaf. */
  lemma SiblingOrdered(x: Context, t: Trie, lo: nat)
    requires Ordered(x, t, lo) && !x.Hole?
    ensures Ordered(x.up, x.other, lo)
  {
    DeeperStill(x.other, x.bit, UpBit(x.up));
  }

  lemma DeeperStill(t: Trie, bit: int, bit': int)
    requires Deeper(t, bit) && bit' <= bit
    ensures Deeper(t, bit')
  {
  }

  // ---- the order of the leaves ----

  /** The keys come in ascending order of their bits. */
  ghost predicate Ascending(s: seq<Trie>, lo: nat) {
    && (forall i :: 0 <= i < |s| ==> s[i].Leaf?)
    && forall i, j :: 0 <= i < j < |s| ==> Precedes(s[i], s[j], lo)
  }

  ghost predicate Precedes(a: Trie, c: Trie, lo: nat) {
    a.Leaf? && c.Leaf? && exists b :: Before(a.key, c.key, lo, b)
  }

  lemma {:induction false} LeavesAreKeys(t: Trie, i: nat)
    requires i < |Leaves(t)|
    ensures Leaves(t)[i].Leaf? && HasKey(t, Leaves(t)[i].key)
    decreases t
  {
    if t.Branch? {
      var n := |Leaves(t.left)|;
      if i < n {
        LeavesAreKeys(t.left, i);
      } else {
        LeavesAreKeys(t.right, i - n);
      }
    }
  }

  lemma {:induction false} LeavesAscend(t: Trie, lo: nat)
    requires Patricia(t, lo)
    ensures Ascending(Leaves(t), lo)
    decreases t
  {
    var s := Leaves(t);
    forall i | 0 <= i < |s|
      ensures s[i].Leaf?
    {
      LeavesAreKeys(t, i);
    }
    if t.Branch? {
      var l, r := Leaves(t.left), Leaves(t.right);
      LeavesAscend(t.left, lo);
      LeavesAscend(t.right, lo);
      forall i, j | 0 <= i < j < |s|
        ensures Precedes(s[i], s[j], lo)
      {
        if j < |l| {
          assert Precedes(l[i], l[j], lo);
        } else if i >= |l| {
          assert Precedes(r[i - |l|], r[j - |l|], lo);
        } else {
          LeavesAreKeys(t.left, i);
          LeavesAreKeys(t.right, j - |l|);
          assert Before(l[i].key, r[j - |l|].key, lo, t.bit);
        }
      }
    }
  }
}
