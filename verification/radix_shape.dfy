/** The tree of radix.c between the head's own nodes, the descents in it, and what the insertion of a
    new leaf keeps. */
module RadixShape {
  import opened RadixKeys
  import opened RadixTrie
  import opened RadixNodes

  // The three nodes inside the head: the leaf of all zeros, the top, the leaf of all ones.
  const ZEROS := 0
  const TOP := 1
  const ONES := 2
  /** The null pointer. */
  const NONE := -1

  function Zeros(len: nat): Key { seq(len, i => 0) }
  function Ones(len: nat): Key { seq(len, i => 255) }

  /** A key of the tree's length, which its first byte tells. */
  predicate WellKeyed(k: Key, len: nat) {
    |k| == len && 0 < len && k[0] == len
  }

  /** All that is compared of a key. */
  predicate SameKey(a: Key, b: Key, off: nat, len: nat)
    requires off <= len <= |a| && len <= |b|
  {
    a[off..len] == b[off..len]
  }

  /** The outer leaves are the head's own; all others are routes. */
  ghost predicate Sentinels(t: Trie, len: nat) {
    BetweenSentinels(Leaves(t), len)
  }

  ghost predicate BetweenSentinels(s: seq<Trie>, len: nat) {
    && |s| >= 2 && s[0] == Leaf(ZEROS, Zeros(len)) && s[|s| - 1] == Leaf(ONES, Ones(len))
    && forall i {:trigger s[i]} :: 0 < i < |s| - 1 ==> s[i].Leaf? && WellKeyed(s[i].key, len) && s[i].id > ONES
  }

  ghost predicate BitsBelow(t: Trie, n: nat) {
    match t
    case Leaf(_, _) => true
    case Branch(_, bit, l, r) => bit < n && BitsBelow(l, n) && BitsBelow(r, n)
  }

  ghost predicate BitsBelowAround(x: Context, n: nat) {
    match x
    case Hole => true
    case _ => x.bit < n && BitsBelow(x.other, n) && BitsBelowAround(x.up, n)
  }

  lemma {:induction false} PlugBits(x: Context, t: Trie, n: nat)
    ensures BitsBelow(Plug(x, t), n) <==> BitsBelow(t, n) && BitsBelowAround(x, n)
    decreases x
  {
    match x
    case Hole =>
    case InLeft(id, bit, other, up) => PlugBits(up, Branch(id, bit, t, other), n);
    case InRight(id, bit, other, up) => PlugBits(up, Branch(id, bit, other, t), n);
  }

  /** The root flag marks the head's own nodes. */
  ghost predicate Flagged(m: Nodes, t: Trie) {
    forall i {:trigger m[i]} :: i in Ids(t) && i in m ==> (m[i].root <==> i <= ONES) && m[i].active
  }

  /** A tree between the head's own nodes. */
  ghost predicate Shape(m: Nodes, t: Trie, off: nat, len: nat) {
    && t.Branch? && t.id == TOP && t.bit == 8 * off && 0 < off < len < 256
    && Formed(m, Hole, t) && Distinct(t) && Ordered(Hole, t, 8 * off)
    && Sentinels(t, len) && BitsBelow(t, 8 * len) && Flagged(m, t)
  }

  // ---- finding a place ----

  /** `squid_rn_search` */
  method Search(nodes: Nodes, ghost tree: Trie, off: nat, len: nat, v: Key) returns (x: int, ghost c: Context, ghost t: Trie)
    requires Shape(nodes, tree, off, len) && len <= |v|
    ensures t.Leaf? && x == t.id && Plug(c, t) == tree && OnPath(c, v) && t == Find(tree, v)
    ensures Formed(nodes, c, t) && Apart(c, t) && Ordered(c, t, 8 * off)
  {
    hide Patricia, PatriciaAround, Fits, Sentinels, Flagged, Distinct, DistinctAround, HasKey, Ids, IdsAround, Ordered, BitAt;
    x := TOP;
    c, t := Hole, tree;
    while nodes[x].b >= 0
      invariant x == t.id && Formed(nodes, c, t) && Plug(c, t) == tree && OnPath(c, v) && BitsBelow(t, 8 * len)
      invariant Ordered(c, t, 8 * off)
      decreases t
    {
      BitTested(v, t.bit, len);
      if HasBit(v[nodes[x].off], nodes[x].mask) {
        x := nodes[x].r;
        OrderedDownRight(c, t, 8 * off);
        c, t := InRight(t.id, t.bit, t.left, c), t.right;
      } else {
        x := nodes[x].l;
        OrderedDownLeft(c, t, 8 * off);
        c, t := InLeft(t.id, t.bit, t.right, c), t.left;
      }
    }
    FindOnPath(c, t, v);
    PlugIds(c, t);
  }

  /** The comparison in `squid_rn_insert`: whether a is v's key, and if not the first bit at which
      they differ. */
  method FirstBit(off: nat, len: nat, v: Key, a: Key) returns (dup: bool, b: nat)
    requires off < len <= |v| && len <= |a|
    ensures dup <==> SameKey(v, a, off, len)
    ensures !dup ==> 8 * off <= b < 8 * len && SameBits(v, a, 8 * off, b) && BitAt(v, b) != BitAt(a, b)
  {
    var cp := off;
    while cp < len && a[cp] == v[cp]
      invariant off <= cp <= len && v[off..cp] == a[off..cp]
    {
      OneMoreByte(v, a, off, cp);
      cp := cp + 1;
    }
    if cp == len {
      return true, 0;
    }
    var cmp := Xor(v[cp], a[cp]);
    FirstDifference(v, a, off, cp);
    ByteDiffers(v, a, off, len, cp);
    b := 8 * (cp + 1);
    while cmp != 0
      invariant b == 8 * (cp + 1) - BitLength(Xor(v[cp], a[cp])) + BitLength(cmp)
      decreases cmp
    {
      cmp := cmp / 2;
      b := b - 1;
    }
    dup := false;
  }

  /** The second descent of `squid_rn_insert`: to the first node on the way of v that does not
      test a bit before b. */
  method Place(nodes: Nodes, ghost tree: Trie, off: nat, len: nat, v: Key, b: nat, ghost f: Trie) returns (p: int, x: int, ghost c: Context, ghost t: Trie)
    requires Shape(nodes, tree, off, len) && len <= |v| && f == Find(tree, v) && 8 * off <= b < 8 * len
    requires SameBits(v, f.key, 8 * off, b) && BitAt(v, b) != BitAt(f.key, b)
    ensures Plug(c, t) == tree && x == t.id && !c.Hole? && p == c.id && UpBit(c) < b && Deeper(t, b) && OnPath(c, v)
    ensures Formed(nodes, c, t) && Apart(c, t) && Ordered(c, t, 8 * off) && HasKey(t, f.key) && f == Find(t, v)
    ensures p in nodes && x in nodes && nodes[p].off < |v| && (HasBit(v[nodes[p].off], nodes[p].mask) <==> c.InRight?)
  {
    hide Patricia, PatriciaAround, Fits, Sentinels, Flagged, Distinct, DistinctAround, HasKey, Ids, IdsAround, BitAt, SameBits;
    p, x := TOP, TOP;
    c, t := Hole, tree;
    TestedEarlier(c, t, v, f, 8 * off, b);
    var go := true;
    while go
      invariant x == t.id && Formed(nodes, c, t) && Plug(c, t) == tree && OnPath(c, v) && BitsBelow(t, 8 * len)
      invariant Ordered(c, t, 8 * off) && f == Find(t, v) && UpBit(c) < b
      invariant go ==> t.Branch? && t.bit < b
      invariant !go ==> !c.Hole? && p == c.id && Deeper(t, b) && p in nodes && nodes[p].off < |v|
      invariant !go ==> (HasBit(v[nodes[p].off], nodes[p].mask) <==> c.InRight?)
      decreases t, go
    {
      p := x;
      BitTested(v, t.bit, len);
      if HasBit(v[nodes[x].off], nodes[x].mask) {
        x := nodes[x].r;
        OrderedDownRight(c, t, 8 * off);
        c, t := InRight(t.id, t.bit, t.left, c), t.right;
      } else {
        x := nodes[x].l;
        OrderedDownLeft(c, t, 8 * off);
        c, t := InLeft(t.id, t.bit, t.right, c), t.left;
      }
      TestedEarlier(c, t, v, f, 8 * off, b);
      assert Laid(nodes, t, UpId(c, t.id));
      go := nodes[x].b >= 0 && b > nodes[x].b;
    }
    FindHasKey(t, v);
    PlugIds(c, t);
  }

  lemma NewLeafAbsent(nodes: Nodes, tree: Trie, off: nat, len: nat, v: Key, f: Trie, b: nat)
    requires Shape(nodes, tree, off, len) && len <= |v| && f == Find(tree, v) && 8 * off <= b < 8 * len
    requires SameBits(v, f.key, 8 * off, b) && BitAt(v, b) != BitAt(f.key, b)
    ensures Absent(tree, v, off, len)
  {
    hide Patricia, Ordered, Flagged, Distinct, BitsBelow, Formed, Sentinels, BitAt, SameBits;
    var i := FindIsLeaf(tree, v);
    LengthOf(tree, len, i);
    NotSameKey(f.key, v, off, len, b);
    ShapeParts(nodes, tree, off, len);
    AbsentKey(tree, v, off, len);
  }

  lemma LeafFacts(nodes: Nodes, tree: Trie, off: nat, len: nat, c: Context, f: Trie)
    requires Shape(nodes, tree, off, len) && Plug(c, f) == tree && f.Leaf? && Formed(nodes, c, f)
    ensures f.id in nodes && nodes[f.id].key == f.key && len <= |f.key| && f in Leaves(tree)
  {
    hide Patricia, Ordered, Flagged, Distinct;
    PlugLeaves(c, f);
    var s := Leaves(tree);
    var i := |LeavesBefore(c)|;
    assert s[i] == f;
    LengthOf(tree, len, i);
  }

  lemma NotSameKey(a: Key, v: Key, off: nat, len: nat, b: nat)
    requires off <= len <= |a| && len <= |v| && 8 * off <= b < 8 * len && BitAt(v, b) != BitAt(a, b)
    ensures !SameKey(a, v, off, len)
  {
    hide BitAt;
    if SameKey(a, v, off, len) {
      SameBytesSameBits(a, v, off, len);
      assert false;
    }
  }

  lemma {:induction false} FindIsLeaf(t: Trie, v: Key) returns (i: nat)
    ensures i < |Leaves(t)| && Leaves(t)[i] == Find(t, v)
    decreases t
  {
    if t.Leaf? {
      i := 0;
    } else if BitAt(v, t.bit) {
      var j := FindIsLeaf(t.right, v);
      i := |Leaves(t.left)| + j;
    } else {
      i := FindIsLeaf(t.left, v);
    }
  }

  lemma OneMoreByte(v: Key, a: Key, off: nat, cp: nat)
    requires off <= cp < |v| && cp < |a| && v[off..cp] == a[off..cp] && a[cp] == v[cp]
    ensures v[off..cp + 1] == a[off..cp + 1]
  {
    assert v[off..cp + 1] == v[off..cp] + [v[cp]];
    assert a[off..cp + 1] == a[off..cp] + [a[cp]];
  }

  lemma ByteDiffers(v: Key, a: Key, off: nat, len: nat, cp: nat)
    requires off <= cp < len <= |v| && len <= |a| && v[cp] != a[cp]
    ensures !SameKey(v, a, off, len)
  {
    assert v[off..len][cp - off] != a[off..len][cp - off];
  }

  lemma SameKeySym(a: Key, b: Key, off: nat, len: nat)
    requires off <= len <= |a| && len <= |b| && SameKey(a, b, off, len)
    ensures SameKey(b, a, off, len)
  {
  }

  // ---- the routes of a tree ----

  /** A leaf at address id has the key v. */
  ghost predicate HasRoute(t: Trie, id: int, v: Key, off: nat, len: nat)
    requires off <= len <= |v|
  {
    exists k {:trigger Leaf(id, k)} :: Leaf(id, k) in Leaves(t) && len <= |k| && SameKey(k, v, off, len)
  }

  /** No leaf has the key v. */
  ghost predicate Absent(t: Trie, v: Key, off: nat, len: nat)
    requires off <= len <= |v|
  {
    forall l {:trigger l in Leaves(t)} :: l in Leaves(t) ==> l.Leaf? && len <= |l.key| && !SameKey(l.key, v, off, len)
  }

  /** The leaves are those of before and a new one. */
  ghost predicate Added(t: Trie, t': Trie, leaf: Trie) {
    exists a, b :: Leaves(t) == a + b && Leaves(t') == a + [leaf] + b
  }

  lemma LengthOf(t: Trie, len: nat, i: nat)
    requires Sentinels(t, len) && i < |Leaves(t)|
    ensures Leaves(t)[i].Leaf? && |Leaves(t)[i].key| == len
  {
  }

  /** In an ordered tree, a key is where its search ends or it is nowhere. */
  lemma AbsentKey(t: Trie, v: Key, off: nat, len: nat)
    requires Patricia(t, 8 * off) && Sentinels(t, len) && BitsBelow(t, 8 * len) && off < len <= |v|
    requires len <= |Find(t, v).key| && !SameKey(Find(t, v).key, v, off, len)
    ensures Absent(t, v, off, len)
  {
    hide Patricia, BitsBelow, Sentinels, SameKey;
    var s := Leaves(t);
    forall l {:trigger l in s} | l in s
      ensures l.Leaf? && len <= |l.key| && !SameKey(l.key, v, off, len)
    {
      var i :| 0 <= i < |s| && s[i] == l;
      LengthOf(t, len, i);
      LeavesAreKeys(t, i);
      SameKeyFound(t, l.key, v, off, len);
    }
  }

  lemma SameKeyFound(t: Trie, k: Key, v: Key, off: nat, len: nat)
    requires Patricia(t, 8 * off) && BitsBelow(t, 8 * len) && off < len <= |v| && len <= |k| && HasKey(t, k)
    ensures SameKey(k, v, off, len) ==> Find(t, v).key == k
  {
    hide Patricia, BitsBelow;
    if SameKey(k, v, off, len) {
      SameBytesSameBits(k, v, off, len);
      FindSame(t, k, v, 8 * off, 8 * len);
      KeyIsFound(t, k, 8 * off);
    }
  }

  lemma {:induction false} FindSame(t: Trie, a: Key, v: Key, lo: nat, n: nat)
    requires Patricia(t, lo) && BitsBelow(t, n) && SameBits(a, v, lo, n)
    ensures Find(t, a) == Find(t, v)
    decreases t
  {
    if t.Branch? {
      FindHasKey(t.left, a);
      FindHasKey(t.right, a);
      assert Before(Find(t.left, a).key, Find(t.right, a).key, lo, t.bit);
      FindSame(t.left, a, v, lo, n);
      FindSame(t.right, a, v, lo, n);
    }
  }

  /** Going down, the tests are of bits at which v and the key to be found do not differ. */
  lemma TestedEarlier(x: Context, t: Trie, v: Key, f: Trie, lo: nat, b: nat)
    requires Ordered(x, t, lo) && f == Find(t, v) && BitAt(v, b) != BitAt(f.key, b)
    ensures t.Branch? ==> t.bit != b
  {
    if t.Branch? {
      FoundSide(t, v, lo);
    }
  }

  lemma BitTested(v: Key, bit: nat, len: nat)
    requires bit < 8 * len && len <= |v|
    ensures bit / 8 < |v| && (BitAt(v, bit) <==> HasBit(v[bit / 8], MaskBit(bit)))
  {
  }

  lemma {:induction false} ZeroShift(k: nat)
    ensures Shift(0, k) == 0
  {
    if k > 0 {
      ZeroShift(k - 1);
    }
  }

  lemma OnesShift(k: nat)
    requires k < 8
    ensures Shift(255, k) % 2 == 1
  {
    assert Shift(255, 0) == 255 && Shift(127, 0) == 127 && Shift(63, 0) == 63 && Shift(31, 0) == 31;
    assert Shift(15, 0) == 15 && Shift(7, 0) == 7 && Shift(3, 0) == 3 && Shift(1, 0) == 1;
    OnesShiftFrom(255, k);
  }

  lemma {:induction false} OnesShiftFrom(x: nat, k: nat)
    requires x == 255 || x == 127 || x == 63 || x == 31 || x == 15 || x == 7 || x == 3 || x == 1
    requires x == 1 ==> k < 1
    requires x == 3 ==> k < 2
    requires x == 7 ==> k < 3
    requires x == 15 ==> k < 4
    requires x == 31 ==> k < 5
    requires x == 63 ==> k < 6
    requires x == 127 ==> k < 7
    requires x == 255 ==> k < 8
    ensures Shift(x, k) % 2 == 1
    decreases k
  {
    if k > 0 {
      OnesShiftFrom(x / 2, k - 1);
    }
  }

  /** Every bit of the outer keys is zero and one. */
  lemma SentinelBits(off: nat, len: nat)
    ensures forall i: nat {:trigger BitAt(Zeros(len), i)} :: !BitAt(Zeros(len), i)
    ensures forall i: nat {:trigger BitAt(Ones(len), i)} :: i < 8 * len ==> BitAt(Ones(len), i)
  {
    forall i: nat {:trigger BitAt(Zeros(len), i)}
      ensures !BitAt(Zeros(len), i)
    {
      ZeroShift(MaskBit(i));
    }
    forall i: nat {:trigger BitAt(Ones(len), i)} | i < 8 * len
      ensures BitAt(Ones(len), i)
    {
      OnesShift(MaskBit(i));
    }
  }

  lemma InitialTree(m: Nodes, t: Trie, off: nat, len: nat)
    requires 0 < off < len < 256
    requires t == Branch(TOP, 8 * off, Leaf(ZEROS, Zeros(len)), Leaf(ONES, Ones(len)))
    requires ZEROS in m && TOP in m && ONES in m
    requires m[ZEROS] == Node(-1 - 8 * off, 0, 0, true, true, TOP, 0, 0, Zeros(len))
    requires m[ONES] == Node(-1 - 8 * off, 0, 0, true, true, TOP, 0, 0, Ones(len))
    requires m[TOP] == Node(8 * off, MaskBit(8 * off), off, true, true, TOP, ZEROS, ONES, [])
    ensures Shape(m, t, off, len) && LeafIds(t) == {ZEROS, ONES} && BranchIds(t) == {TOP}
  {
    SentinelBits(off, len);
    assert Before(Zeros(len), Ones(len), 8 * off, 8 * off);
    assert Laid(m, t.left, TOP) && Laid(m, t.right, TOP) && Patricia(t.left, 8 * off) && Patricia(t.right, 8 * off);
    assert Laid(m, t, UpId(Hole, t.id)) && LaidAround(m, Hole, t.id);
    assert forall a :: HasKey(t.left, a) ==> a == Zeros(len);
    assert forall a :: HasKey(t.right, a) ==> a == Ones(len);
    assert Patricia(t, 8 * off);
    assert Leaves(t) == [t.left, t.right];
    assert Ids(t) == {ZEROS, TOP, ONES};
    assert LeafIds(t) == {ZEROS, ONES};
  }

  // ---- what an insertion keeps ----

  lemma InsertKeepsShape(m: Nodes, m': Nodes, t0: Trie, c: Context, s: Trie, v: Key, b: nat, node: int, off: nat, len: nat)
    requires Shape(m, t0, off, len) && t0 == Plug(c, s) && WellKeyed(v, len) && ONES < node && node !in Ids(t0) && node + 1 !in Ids(t0)
    requires Formed(m, c, s) && Apart(c, s) && Ordered(c, s, 8 * off) && !c.Hole? && UpBit(c) < b && Deeper(s, b) && OnPath(c, v)
    requires 8 * off <= b < 8 * len && PartsAt(s, v, 8 * off, b)
    requires Neighbours(m, c, s, node) && m' == Spliced(m, c, s, v, b, node)
    ensures Shape(m', Plug(c, NewPair(s, v, b, node, node + 1)), off, len)
    ensures Added(t0, Plug(c, NewPair(s, v, b, node, node + 1)), Leaf(node, v))
    ensures Ids(Plug(c, NewPair(s, v, b, node, node + 1))) == Ids(t0) + {node, node + 1}
  {
    hide *;
    var t := NewPair(s, v, b, node, node + 1);
    ShapeParts(m, t0, off, len);
    AreNeighbours(m, c, s, node);
    SplicedFormed(m, m', c, s, v, b, node);
    FormedTop(m', c, t);
    NewPairOrdered(c, s, v, 8 * off, b, node, node + 1);
    OrderedTop(c, t, 8 * off);
    NewPairDistinct(c, s, v, b, node);
    NewPairLeaves(c, s, v, b, node);
    SentinelsStay(t0, c, s, v, b, node, off, len);
    NewPairBits(c, s, v, b, node, 8 * len);
    NewPairFlagged(m, m', c, s, v, b, node);
    TopStays(c, s, t);
    ShapeFrom(m', Plug(c, t), off, len);
  }

  /** The two nodes on either side of the new pair, and the pair, are four. */
  predicate Neighbours(m: Nodes, c: Context, s: Trie, node: int) {
    !c.Hole? && c.id in m && s.id in m && c.id != node && c.id != node + 1 && s.id != node && s.id != node + 1 && s.id != c.id
  }

  lemma AreNeighbours(m: Nodes, c: Context, s: Trie, node: int)
    requires Formed(m, c, s) && Apart(c, s) && !c.Hole? && node !in Ids(Plug(c, s)) && node + 1 !in Ids(Plug(c, s))
    ensures Neighbours(m, c, s, node) && node !in Ids(s) + IdsAround(c) && node + 1 !in Ids(s) + IdsAround(c)
  {
    PlugIds(c, s);
    IdsSplit(s);
    assert c.id in IdsAround(c);
  }

  lemma SplicedBy(m: Nodes, m': Nodes, c: Context, s: Trie, v: Key, b: nat, node: int, len: nat)
    requires Neighbours(m, c, s, node) && b < 8 * len && len <= |v|
    requires var bit := HasBit(v[b / 8], MaskBit(b));
      var m1 := m[node + 1 := Node(b, MaskBit(b), b / 8, false, true, c.id, if bit then s.id else node, if bit then node else s.id, [])];
      var m2 := m1[node := Node(-1, 0, 0, false, true, node + 1, 0, 0, v)];
      var m3 := m2[c.id := if c.InLeft? then m2[c.id].(l := node + 1) else m2[c.id].(r := node + 1)];
      m' == m3[s.id := m3[s.id].(p := node + 1)]
    ensures m' == Spliced(m, c, s, v, b, node)
  {
    BitTested(v, b, len);
  }

  /** The stores of `squid_rn_newpair` and `squid_rn_insert`. */
  function Spliced(m: Nodes, c: Context, s: Trie, v: Key, b: nat, node: int): Nodes
    requires Neighbours(m, c, s, node)
  {
    var bit := BitAt(v, b);
    var m1 := m[node + 1 := Node(b, MaskBit(b), b / 8, false, true, c.id, if bit then s.id else node, if bit then node else s.id, [])];
    var m2 := m1[node := Node(-1, 0, 0, false, true, node + 1, 0, 0, v)];
    var m3 := m2[c.id := if c.InLeft? then m2[c.id].(l := node + 1) else m2[c.id].(r := node + 1)];
    m3[s.id := m3[s.id].(p := node + 1)]
  }

  lemma ShapeParts(m: Nodes, t: Trie, off: nat, len: nat)
    requires Shape(m, t, off, len)
    ensures t.Branch? && t.id == TOP && t.bit == 8 * off && 0 < off < len < 256
    ensures Formed(m, Hole, t) && Distinct(t) && Ordered(Hole, t, 8 * off) && Patricia(t, 8 * off)
    ensures Sentinels(t, len) && BitsBelow(t, 8 * len) && Flagged(m, t)
  {
  }

  lemma ShapeFrom(m: Nodes, t: Trie, off: nat, len: nat)
    requires t.Branch? && t.id == TOP && t.bit == 8 * off && 0 < off < len < 256
    requires Formed(m, Hole, t) && Distinct(t) && Ordered(Hole, t, 8 * off)
    requires Sentinels(t, len) && BitsBelow(t, 8 * len) && Flagged(m, t)
    ensures Shape(m, t, off, len)
  {
  }

  lemma SentinelsUnfold(t: Trie, len: nat)
    requires Sentinels(t, len)
    ensures BetweenSentinels(Leaves(t), len)
  {
  }

  lemma SplicedFormed(m: Nodes, m': Nodes, c: Context, s: Trie, v: Key, b: nat, node: int)
    requires Formed(m, c, s) && Apart(c, s) && !c.Hole? && node !in Ids(s) + IdsAround(c) && node + 1 !in Ids(s) + IdsAround(c)
    requires Neighbours(m, c, s, node) && m' == Spliced(m, c, s, v, b, node)
    ensures Formed(m', c, NewPair(s, v, b, node, node + 1))
  {
    var t := NewPair(s, v, b, node, node + 1);
    IdsSplit(s);
    assert Agree(m, m', Ids(s) - {s.id}) && Agree(m, m', Ids(c.other) + IdsAround(c.up));
    LaidReparented(m, m', s, c.id, node + 1);
    assert Laid(m', Leaf(node, v), node + 1);
    assert Laid(m', t, c.id);
    FormedRelinked(m, m', c, s, t);
  }

  lemma NewPairDistinct(c: Context, s: Trie, v: Key, b: nat, node: int)
    requires Apart(c, s) && node !in Ids(s) + IdsAround(c) && node + 1 !in Ids(s) + IdsAround(c)
    ensures Distinct(Plug(c, NewPair(s, v, b, node, node + 1)))
    ensures Ids(Plug(c, NewPair(s, v, b, node, node + 1))) == Ids(Plug(c, s)) + {node, node + 1}
  {
    PlugIds(c, s);
    PlugIds(c, NewPair(s, v, b, node, node + 1));
    NewPairIds(s, v, b, node);
  }

  lemma NewPairIds(s: Trie, v: Key, b: nat, node: int)
    ensures Ids(NewPair(s, v, b, node, node + 1)) == Ids(s) + {node, node + 1}
    ensures Distinct(s) && node !in Ids(s) && node + 1 !in Ids(s) ==> Distinct(NewPair(s, v, b, node, node + 1))
  {
    var leaf := Leaf(node, v);
    assert Ids(leaf) == {node} && Distinct(leaf);
  }

  lemma NewPairSets(c: Context, s: Trie, v: Key, b: nat, node: int)
    ensures var p, p' := Plug(c, s), Plug(c, NewPair(s, v, b, node, node + 1));
      LeafIds(p') == LeafIds(p) + {node} && BranchIds(p') == BranchIds(p) + {node + 1}
  {
    var t, n := NewPair(s, v, b, node, node + 1), Leaf(node, v);
    PlugSets(c, s);
    PlugSets(c, t);
    assert LeafIds(n) == {node} && BranchIds(n) == {};
    assert LeafIds(t) == LeafIds(s) + {node} && BranchIds(t) == {node + 1} + BranchIds(s);
  }

  lemma NewPairLeaves(c: Context, s: Trie, v: Key, b: nat, node: int)
    ensures Added(Plug(c, s), Plug(c, NewPair(s, v, b, node, node + 1)), Leaf(node, v))
  {
    var t := NewPair(s, v, b, node, node + 1);
    PlugLeaves(c, s);
    PlugLeaves(c, t);
    var l, x, y, n := Leaves(s), LeavesBefore(c), LeavesAfter(c), Leaf(node, v);
    var s0, s1 := Leaves(Plug(c, s)), Leaves(Plug(c, t));
    if BitAt(v, b) {
      assert Leaves(t) == l + [n];
      Regroup(x, l, [n], y);
      AddedAt(Plug(c, s), Plug(c, t), x + l, y, n);
    } else {
      assert Leaves(t) == [n] + l;
      Regroup(x, [n], l, y);
      Associate(x, l, y);
      AddedAt(Plug(c, s), Plug(c, t), x, l + y, n);
    }
  }

  lemma AddedAt(t: Trie, t': Trie, a: seq<Trie>, b: seq<Trie>, leaf: Trie)
    requires Leaves(t) == a + b && Leaves(t') == a + [leaf] + b
    ensures Added(t, t', leaf)
  {
  }

  /** A new route comes between the outer leaves, for no key lies beyond theirs. */
  lemma SentinelsStay(t0: Trie, c: Context, s: Trie, v: Key, b: nat, node: int, off: nat, len: nat)
    requires Sentinels(t0, len) && t0 == Plug(c, s) && WellKeyed(v, len) && ONES < node && 8 * off <= b < 8 * len && PartsAt(s, v, 8 * off, b)
    ensures Sentinels(Plug(c, NewPair(s, v, b, node, node + 1)), len)
  {
    hide PartsAt, BetweenSentinels, BitAt;
    var t := NewPair(s, v, b, node, node + 1);
    PlugLeaves(c, s);
    PlugLeaves(c, t);
    var s0 := Leaves(t0);
    var l, x, y, n := Leaves(s), LeavesBefore(c), LeavesAfter(c), Leaf(node, v);
    OuterLeaves(s0, len);
    SentinelBits(off, len);
    if BitAt(v, b) {
      assert Leaves(t) == l + [n];
      Regroup(x, l, [n], y);
      if y == [] {
        LastOf(x + l, y, l, s0);
        LeavesAreKeys(s, |l| - 1);
        PartsFrom(s, v, 8 * off, b, Ones(len));
      }
      InsertBetween(x + l, y, n, len);
    } else {
      assert Leaves(t) == [n] + l;
      Regroup(x, [n], l, y);
      Associate(x, l, y);
      if x == [] {
        assert l[0] == s0[0];
        LeavesAreKeys(s, 0);
        PartsFrom(s, v, 8 * off, b, Zeros(len));
      }
      InsertBetween(x, l + y, n, len);
    }
  }

  lemma Associate(a: seq<Trie>, b: seq<Trie>, c: seq<Trie>)
    ensures a + (b + c) == a + b + c
  {
  }

  lemma LastOf(a: seq<Trie>, b: seq<Trie>, l: seq<Trie>, s: seq<Trie>)
    requires s == a + b && b == [] && l != [] && exists x :: a == x + l
    ensures s != [] && s[|s| - 1] == l[|l| - 1]
  {
  }

  lemma OuterLeaves(s: seq<Trie>, len: nat)
    requires BetweenSentinels(s, len)
    ensures |s| >= 2 && s[0] == Leaf(ZEROS, Zeros(len)) && s[|s| - 1] == Leaf(ONES, Ones(len))
  {
  }

  lemma InsertBetween(a: seq<Trie>, b: seq<Trie>, n: Trie, len: nat)
    requires BetweenSentinels(a + b, len) && a != [] && b != [] && n.Leaf? && WellKeyed(n.key, len) && n.id > ONES
    ensures BetweenSentinels(a + [n] + b, len)
  {
    var s, s' := a + b, a + [n] + b;
    forall j {:trigger s'[j]} | 0 < j < |s'| - 1
      ensures s'[j].Leaf? && WellKeyed(s'[j].key, len) && s'[j].id > ONES
    {
      if j < |a| {
        assert s'[j] == s[j];
      } else if j > |a| {
        assert s'[j] == s[j - 1];
      }
    }
  }

  lemma PartsFrom(s: Trie, v: Key, lo: nat, b: nat, k: Key)
    requires PartsAt(s, v, lo, b) && HasKey(s, k)
    ensures BitAt(v, b) != BitAt(k, b)
  {
  }

  lemma NewPairBits(c: Context, s: Trie, v: Key, b: nat, node: int, n: nat)
    requires BitsBelow(Plug(c, s), n) && b < n
    ensures BitsBelow(Plug(c, NewPair(s, v, b, node, node + 1)), n)
  {
    PlugBits(c, s, n);
    PlugBits(c, NewPair(s, v, b, node, node + 1), n);
  }

  lemma NewPairFlagged(m: Nodes, m': Nodes, c: Context, s: Trie, v: Key, b: nat, node: int)
    requires Flagged(m, Plug(c, s)) && ONES < node && Apart(c, s) && node !in Ids(s) + IdsAround(c) && node + 1 !in Ids(s) + IdsAround(c)
    requires Neighbours(m, c, s, node)
    requires m' == Spliced(m, c, s, v, b, node)
    ensures Flagged(m', Plug(c, NewPair(s, v, b, node, node + 1)))
  {
    NewPairDistinct(c, s, v, b, node);
    PlugIds(c, s);
    IdsSplit(s);
    var t := Plug(c, NewPair(s, v, b, node, node + 1));
    forall i {:trigger m'[i]} | i in Ids(t) && i in m'
      ensures (m'[i].root <==> i <= ONES) && m'[i].active
    {
      if i != node && i != node + 1 {
        assert i in m && m'[i].root == m[i].root && m'[i].active == m[i].active;
      }
    }
  }

  /** The top is still the top. */
  lemma TopStays(c: Context, s: Trie, t: Trie)
    requires !c.Hole?
    ensures Plug(c, s).Branch? && Plug(c, t).Branch? && Plug(c, t).id == Plug(c, s).id && Plug(c, t).bit == Plug(c, s).bit
  {
    PlugTop(c, s, t);
  }

  lemma {:induction false} PlugTop(c: Context, s: Trie, t: Trie)
    requires !c.Hole? || (s.Branch? && t.Branch? && s.id == t.id && s.bit == t.bit)
    ensures Plug(c, s).Branch? && Plug(c, t).Branch? && Plug(c, t).id == Plug(c, s).id && Plug(c, t).bit == Plug(c, s).bit
    decreases c
  {
    match c
    case Hole =>
    case InLeft(id, bit, other, up) => PlugTop(up, Branch(id, bit, s, other), Branch(id, bit, t, other));
    case InRight(id, bit, other, up) => PlugTop(up, Branch(id, bit, other, s), Branch(id, bit, other, t));
  }

  // ---- moving about ----

  /** The node at the place, and the one above it, say on which side it lies. */
  lemma PlaceSide(m: Nodes, c: Context, t: Trie)
    requires Formed(m, c, t) && Apart(c, t)
    ensures t.id in m && m[t.id].p in m && m[t.id].p == UpId(c, t.id)
    ensures !c.Hole? ==> (m[m[t.id].p].r == t.id <==> c.InRight?) && (c.InLeft? ==> m[m[t.id].p].r == c.other.id)
  {
    IdsSplit(t);
    if !c.Hole? {
      IdsSplit(c.other);
    }
  }

  lemma FormedUp(m: Nodes, c: Context, t: Trie)
    requires Formed(m, c, t) && Apart(c, t) && !c.Hole?
    ensures var t' := if c.InLeft? then Branch(c.id, c.bit, t, c.other) else Branch(c.id, c.bit, c.other, t);
      Formed(m, c.up, t') && Apart(c.up, t') && Plug(c.up, t') == Plug(c, t)
  {
  }

  lemma FormedAcross(m: Nodes, c: Context, t: Trie)
    requires Formed(m, c, t) && Apart(c, t) && c.InLeft?
    ensures var c' := InRight(c.id, c.bit, t, c.up);
      Formed(m, c', c.other) && Apart(c', c.other) && Plug(c', c.other) == Plug(c, t) && LeavesBefore(c') == LeavesBefore(c) + Leaves(t)
  {
  }

  lemma FormedLeft(m: Nodes, c: Context, t: Trie)
    requires Formed(m, c, t) && Apart(c, t) && t.Branch?
    ensures var c' := InLeft(t.id, t.bit, t.right, c);
      Formed(m, c', t.left) && Apart(c', t.left) && Plug(c', t.left) == Plug(c, t) && LeavesBefore(c') == LeavesBefore(c)
      && m[t.id].l == t.left.id
  {
  }

  lemma {:induction false} TopAround(c: Context, t: Trie, t0: Trie)
    requires Plug(c, t) == t0 && !c.Hole? && Apart(c, t)
    ensures t0.id in IdsAround(c) && t0.id != t.id
    decreases c
  {
    IdsSplit(t);
    var t' := if c.InLeft? then Branch(c.id, c.bit, t, c.other) else Branch(c.id, c.bit, c.other, t);
    if !c.up.Hole? {
      TopAround(c.up, t', t0);
    }
  }

  // ---- a leaf in the place of another with the same key ----

  lemma FormedFrame(m: Nodes, m': Nodes, c: Context, s: Trie)
    requires Formed(m, c, s) && Agree(m, m', Ids(s)) && Agree(m, m', IdsAround(c))
    ensures Formed(m', c, s)
  {
    LaidFrame(m, m', s, UpId(c, s.id));
    AroundFrame(m, m', c, s.id);
  }

  lemma ShapeFrame(m: Nodes, m': Nodes, t: Trie, off: nat, len: nat)
    requires Shape(m, t, off, len) && Agree(m, m', Ids(t))
    ensures Shape(m', t, off, len)
  {
    hide Ordered, Distinct, Sentinels, BitsBelow, Laid;
    LaidFrame(m, m', t, t.id);
    forall i {:trigger m'[i]} | i in Ids(t) && i in m'
      ensures (m'[i].root <==> i <= ONES) && m'[i].active
    {
      assert i in m && m'[i] == m[i];
    }
  }

  /** The stores that put a new first route before the others of its key. */
  function Reheaded(m: Nodes, c: Context, v: Key, node: int): Nodes
    requires !c.Hole? && c.id in m && c.id != node
  {
    var m1 := m[node := Node(-1, 0, 0, false, true, c.id, 0, 0, v)];
    m1[c.id := if c.InLeft? then m1[c.id].(l := node) else m1[c.id].(r := node)]
  }

  lemma ReheadedShape(m: Nodes, t0: Trie, c: Context, f: Trie, v: Key, node: int, off: nat, len: nat)
    requires Shape(m, t0, off, len) && Plug(c, f) == t0 && f.Leaf? && ONES < f.id && Formed(m, c, f) && Apart(c, f) && Ordered(c, f, 8 * off)
    requires !c.Hole? && WellKeyed(v, len) && SameBits(v, f.key, 8 * off, 8 * len) && OnPath(c, v) && UpBit(c) < 8 * len
    requires ONES < node && node !in Ids(t0) && c.id in m && c.id != node
    ensures var m', f' := Reheaded(m, c, v, node), Leaf(node, v);
      Shape(m', Plug(c, f'), off, len) && Formed(m', c, f') && Apart(c, f') && Ordered(c, f', 8 * off)
  {
    hide *;
    var m', f' := Reheaded(m, c, v, node), Leaf(node, v);
    ShapeParts(m, t0, off, len);
    PlugIds(c, f);
    PlugIds(c, f');
    ReheadedFormed(m, c, f, v, node);
    FormedTop(m', c, f');
    ReheadedOrdered(c, f, v, node, 8 * off, len);
    OrderedTop(c, f', 8 * off);
    ReheadedSentinels(t0, c, f, v, node, len);
    PlugBits(c, f, 8 * len);
    PlugBits(c, f', 8 * len);
    LeafBits(f', 8 * len);
    TopStays(c, f, f');
    ReheadedFlags(m, t0, c, f, v, node);
    ShapeFrom(m', Plug(c, f'), off, len);
  }

  lemma LeafBits(f: Trie, n: nat)
    requires f.Leaf?
    ensures BitsBelow(f, n)
  {
  }

  lemma ReheadedFormed(m: Nodes, c: Context, f: Trie, v: Key, node: int)
    requires Formed(m, c, f) && Apart(c, f) && f.Leaf? && !c.Hole? && c.id in m && node !in Ids(f) + IdsAround(c) && c.id != node
    ensures Formed(Reheaded(m, c, v, node), c, Leaf(node, v)) && Apart(c, Leaf(node, v))
  {
    var m', f' := Reheaded(m, c, v, node), Leaf(node, v);
    assert Ids(f') == {node};
    assert Agree(m, m', Ids(c.other) + IdsAround(c.up));
    assert Laid(m', f', c.id);
    FormedRelinked(m, m', c, f, f');
  }

  lemma ReheadedOrdered(c: Context, f: Trie, v: Key, node: int, lo: nat, len: nat)
    requires Ordered(c, f, lo) && f.Leaf? && SameBits(v, f.key, lo, 8 * len) && OnPath(c, v) && UpBit(c) < 8 * len
    ensures Ordered(c, Leaf(node, v), lo)
  {
    hide BitAt, SameBits;
    assert HasKey(f, f.key);
    NewKeyFits(c, v, f.key, lo, 8 * len);
    forall k {:trigger HasKey(Leaf(node, v), k)} | HasKey(Leaf(node, v), k)
      ensures Fits(c, k, lo)
    {
    }
  }

  lemma ReheadedSentinels(t0: Trie, c: Context, f: Trie, v: Key, node: int, len: nat)
    requires Sentinels(t0, len) && Plug(c, f) == t0 && f.Leaf? && ONES < f.id && ONES < node && WellKeyed(v, len)
    ensures Sentinels(Plug(c, Leaf(node, v)), len)
  {
    hide BetweenSentinels;
    PlugLeaves(c, f);
    PlugLeaves(c, Leaf(node, v));
    assert Leaves(f) == [f] && Leaves(Leaf(node, v)) == [Leaf(node, v)];
    ReplaceBetween(LeavesBefore(c), LeavesAfter(c), f, Leaf(node, v), len);
  }

  lemma ReplaceBetween(a: seq<Trie>, b: seq<Trie>, f: Trie, n: Trie, len: nat)
    requires BetweenSentinels(a + [f] + b, len) && ONES < f.id && n.Leaf? && ONES < n.id && WellKeyed(n.key, len)
    ensures BetweenSentinels(a + [n] + b, len)
  {
    var s, s' := a + [f] + b, a + [n] + b;
    assert s[|a|] == f && s'[|a|] == n;
    forall i | 0 <= i < |s| && i != |a|
      ensures s'[i] == s[i]
    {
    }
  }

  lemma ReheadedFlags(m: Nodes, t0: Trie, c: Context, f: Trie, v: Key, node: int)
    requires Flagged(m, t0) && Plug(c, f) == t0 && !c.Hole? && c.id in m && c.id != node && ONES < node && f.Leaf?
    ensures Flagged(Reheaded(m, c, v, node), Plug(c, Leaf(node, v)))
  {
    var m', t1 := Reheaded(m, c, v, node), Plug(c, Leaf(node, v));
    PlugIds(c, f);
    PlugIds(c, Leaf(node, v));
    forall i {:trigger m'[i]} | i in Ids(t1) && i in m'
      ensures (m'[i].root <==> i <= ONES) && m'[i].active
    {
      if i != node {
        assert i in m && m'[i].root == m[i].root && m'[i].active == m[i].active;
      }
    }
  }
}
