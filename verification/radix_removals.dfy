/** Taking a leaf with its branch out of a tree, and letting one branch take the place of another. */
module RadixRemovals {
  import opened RadixKeys
  import opened RadixTrie
  import opened RadixNodes
  import opened RadixShape

  // ---- a leaf and its branch are unlinked ----

  /** The nodes around a route's leaf: its parent, its sibling, and the parent's parent, which is
      there since the outer leaves are in the tree. */
  lemma UnlinkPlaces(m: Nodes, t0: Trie, c: Context, f: Trie, off: nat, len: nat)
    requires Shape(m, t0, off, len) && Plug(c, f) == t0 && f.Leaf? && ONES < f.id && Formed(m, c, f) && Apart(c, f)
    ensures !c.Hole? && !c.up.Hole? && Unlinkable(m, c, f)
  {
    hide Patricia, Ordered, Flagged, Fits, PatriciaAround, BitsBelow;
    PlugLeaves(c, f);
    var s := Leaves(t0);
    OuterLeaves(s, len);
    var i := |LeavesBefore(c)|;
    assert s[i] == f;
    if !c.Hole? && !c.up.Hole? {
      IdsSplit(c.other);
      IdsSplit(c.up.other);
      assert LaidAround(m, c.up, c.id) && Laid(m, c.other, c.id);
      assert {c.up.id, c.up.other.id} <= IdsAround(c.up);
    }
  }

  lemma UnlinkFacts(m: Nodes, c: Context, f: Trie)
    requires !c.Hole? && !c.up.Hole? && Unlinkable(m, c, f)
    ensures f.id in m && c.id in m && c.up.id in m && c.other.id in m
    ensures m[f.id].p == c.id && m[c.id].p == c.up.id
    ensures (m[c.id].l == f.id <==> c.InLeft?) && (c.InLeft? ==> m[c.id].r == c.other.id) && (c.InRight? ==> m[c.id].l == c.other.id)
    ensures c.up.id != c.other.id && c.up.id != c.id && c.id != c.other.id && f.id != c.id && f.id != c.up.id && f.id != c.other.id
  {
  }

  ghost predicate Unlinkable(m: Nodes, c: Context, f: Trie)
    requires !c.Hole? && !c.up.Hole?
  {
    && f.id in m && c.id in m && c.up.id in m && c.other.id in m
    && m[f.id].p == c.id && m[c.id].p == c.up.id
    && (m[c.id].l == f.id <==> c.InLeft?) && (c.InLeft? ==> m[c.id].r == c.other.id) && (c.InRight? ==> m[c.id].l == c.other.id)
    && (m[c.up.id].r == c.id <==> c.up.InRight?)
    && c.up.id != c.other.id && c.up.id != c.id && c.id != c.other.id && f.id != c.id && f.id != c.up.id && f.id != c.other.id
  }

  /** After the unlinking the tree is the one without the leaf and its parent. */
  lemma UnlinkedShape(m: Nodes, m1: Nodes, t0: Trie, c: Context, f: Trie, off: nat, len: nat)
    requires Shape(m, t0, off, len) && Plug(c, f) == t0 && f.Leaf? && ONES < f.id && Formed(m, c, f) && Apart(c, f) && Ordered(c, f, 8 * off)
    requires !c.Hole? && !c.up.Hole? && Unlinkable(m, c, f)
    requires var x, p := c.other.id, c.up.id;
      var m' := m[p := if m[p].r == c.id then m[p].(r := x) else m[p].(l := x)];
      m1 == m'[x := m'[x].(p := p)]
    ensures var t1 := Plug(c.up, c.other);
      && Shape(m1, t1, off, len) && Formed(m1, c.up, c.other) && Apart(c.up, c.other) && Ordered(c.up, c.other, 8 * off)
      && Added(t1, t0, f) && LeafIds(t1) == LeafIds(t0) - {f.id} && BranchIds(t1) == BranchIds(t0) - {c.id}
      && f.id in LeafIds(t0) && c.id in BranchIds(t0) && c.id !in Ids(t1) && c.id != TOP && KeepsFlags(m, m1)
  {
    hide *;
    var t1 := Plug(c.up, c.other);
    ShapeParts(m, t0, off, len);
    UnlinkedFormed(m, m1, c, f);
    FormedTop(m1, c.up, c.other);
    SiblingOrdered(c, f, 8 * off);
    OrderedTop(c.up, c.other, 8 * off);
    UnlinkedIds(t0, c, f);
    PlugIds(c.up, c.other);
    SentinelsUnfold(t0, len);
    UnlinkedLeaves(t0, c, f, len);
    SentinelsFold(t1, len);
    UnlinkedBits(c, f, 8 * len);
    UnlinkedTop(c, f);
    UnlinkedFlags(m, m1, c, f);
    SmallerIds(t0, t1, c.id, f.id);
    FormedInMemory(m, t0);
    FlaggedStays(m, m1, t0, t1);
    ShapeFrom(m1, t1, off, len);
  }

  lemma SmallerIds(t0: Trie, t1: Trie, branch: int, leaf: int)
    requires LeafIds(t1) == LeafIds(t0) - {leaf} && BranchIds(t1) == BranchIds(t0) - {branch} && branch in BranchIds(t0) && Distinct(t0)
    requires t1.Branch? && t0.Branch? && t1.id == t0.id
    ensures branch !in Ids(t1) && branch != t0.id && Ids(t1) <= Ids(t0)
  {
    IdsSplit(t0);
    IdsSplit(t1);
    assert t1.id in BranchIds(t1);
  }

  lemma FormedInMemory(m: Nodes, t: Trie)
    requires Formed(m, Hole, t)
    ensures forall i :: i in Ids(t) ==> i in m
  {
    AllInMemory(m, t, t.id);
  }

  ghost predicate KeepsFlags(m: Nodes, m1: Nodes) {
    forall i {:trigger i in m} {:trigger i in m1} :: i in m ==> i in m1 && m1[i].root == m[i].root && m1[i].active == m[i].active
  }

  lemma UnlinkedFormed(m: Nodes, m1: Nodes, c: Context, f: Trie)
    requires !c.Hole? && !c.up.Hole? && Unlinkable(m, c, f) && Formed(m, c, f) && Apart(c, f)
    requires var x, p := c.other.id, c.up.id;
      var m' := m[p := if m[p].r == c.id then m[p].(r := x) else m[p].(l := x)];
      m1 == m'[x := m'[x].(p := p)]
    ensures Formed(m1, c.up, c.other)
  {
    var t := if c.InLeft? then Branch(c.id, c.bit, f, c.other) else Branch(c.id, c.bit, c.other, f);
    IdsSplit(c.other);
    assert Formed(m, c.up, t) && Apart(c.up, t);
    assert Agree(m, m1, Ids(c.other) - {c.other.id}) && Agree(m, m1, Ids(c.up.other) + IdsAround(c.up.up));
    LaidReparented(m, m1, c.other, c.id, c.up.id);
    FormedRelinked(m, m1, c.up, t, c.other);
  }

  lemma UnlinkedIds(t0: Trie, c: Context, f: Trie)
    requires Plug(c, f) == t0 && f.Leaf? && !c.Hole? && Distinct(t0)
    ensures Distinct(Plug(c.up, c.other))
    ensures LeafIds(Plug(c.up, c.other)) == LeafIds(t0) - {f.id} && BranchIds(Plug(c.up, c.other)) == BranchIds(t0) - {c.id}
    ensures f.id in LeafIds(t0) && c.id in BranchIds(t0)
  {
    PlugIds(c, f);
    PlugIds(c.up, c.other);
    PlugSets(c, f);
    PlugSets(c.up, c.other);
    IdsSplit(c.other);
    UnlinkedSets(c, f);
  }

  lemma UnlinkedSets(c: Context, f: Trie)
    requires f.Leaf? && !c.Hole? && Apart(c, f)
    ensures LeafIds(c.other) + LeafIdsAround(c.up) == (LeafIds(f) + LeafIdsAround(c)) - {f.id}
    ensures BranchIds(c.other) + BranchIdsAround(c.up) == (BranchIds(f) + BranchIdsAround(c)) - {c.id}
    ensures f.id in LeafIds(f) + LeafIdsAround(c) && c.id in BranchIds(f) + BranchIdsAround(c)
  {
    IdsSplit(c.other);
    PlugSets(c.up, f);
    assert LeafIds(f) == {f.id} && BranchIds(f) == {} && Ids(f) == {f.id};
    assert LeafIdsAround(c) == LeafIds(c.other) + LeafIdsAround(c.up);
    assert BranchIdsAround(c) == {c.id} + BranchIds(c.other) + BranchIdsAround(c.up);
    assert f.id !in IdsAround(c) && c.id !in Ids(c.other) && c.id !in IdsAround(c.up);
  }

  lemma UnlinkedLeaves(t0: Trie, c: Context, f: Trie, len: nat)
    requires Plug(c, f) == t0 && f.Leaf? && !c.Hole? && BetweenSentinels(Leaves(t0), len) && ONES < f.id
    ensures Added(Plug(c.up, c.other), t0, f) && BetweenSentinels(Leaves(Plug(c.up, c.other)), len)
  {
    hide BetweenSentinels;
    PlugLeaves(c, f);
    PlugLeaves(c.up, c.other);
    var a, b := LeavesBefore(c), LeavesAfter(c);
    assert Leaves(f) == [f];
    Associate(LeavesBefore(c.up), Leaves(c.other), LeavesAfter(c.up));
    AddedAt(Plug(c.up, c.other), t0, a, b, f);
    RemoveBetween(a, b, f, len);
  }

  lemma RemoveBetween(a: seq<Trie>, b: seq<Trie>, f: Trie, len: nat)
    requires BetweenSentinels(a + [f] + b, len) && ONES < f.id
    ensures BetweenSentinels(a + b, len)
  {
    var s, s' := a + [f] + b, a + b;
    assert s[|a|] == f;
    assert 0 < |a| < |s| - 1;
    assert s'[0] == s[0] && s'[|s'| - 1] == s[|s| - 1];
    forall j {:trigger s'[j]} | 0 < j < |s'| - 1
      ensures s'[j].Leaf? && WellKeyed(s'[j].key, len) && s'[j].id > ONES
    {
      if j < |a| {
        assert s'[j] == s[j];
      } else {
        assert s'[j] == s[j + 1];
      }
    }
  }

  lemma UnlinkedBits(c: Context, f: Trie, n: nat)
    requires BitsBelow(Plug(c, f), n) && !c.Hole?
    ensures BitsBelow(Plug(c.up, c.other), n)
  {
    PlugBits(c, f, n);
    PlugBits(c.up, c.other, n);
  }

  lemma UnlinkedTop(c: Context, f: Trie)
    requires !c.Hole? && !c.up.Hole?
    ensures Plug(c, f).Branch? && Plug(c.up, c.other).Branch?
    ensures Plug(c, f).id == Plug(c.up, c.other).id && Plug(c, f).bit == Plug(c.up, c.other).bit
  {
    var t := if c.InLeft? then Branch(c.id, c.bit, f, c.other) else Branch(c.id, c.bit, c.other, f);
    assert Plug(c, f) == Plug(c.up, t);
    PlugTop(c.up, t, c.other);
  }

  lemma UnlinkedFlags(m: Nodes, m1: Nodes, c: Context, f: Trie)
    requires !c.Hole? && !c.up.Hole? && Unlinkable(m, c, f)
    requires var x, p := c.other.id, c.up.id;
      var m' := m[p := if m[p].r == c.id then m[p].(r := x) else m[p].(l := x)];
      m1 == m'[x := m'[x].(p := p)]
    ensures KeepsFlags(m, m1)
  {
  }

  lemma SentinelsFold(t: Trie, len: nat)
    requires BetweenSentinels(Leaves(t), len)
    ensures Sentinels(t, len)
  {
  }

  lemma {:induction false} AllInMemory(m: Nodes, t: Trie, parent: int)
    requires Laid(m, t, parent)
    ensures forall i :: i in Ids(t) ==> i in m
    decreases t
  {
    if t.Branch? {
      AllInMemory(m, t.left, t.id);
      AllInMemory(m, t.right, t.id);
    }
  }

  lemma FlaggedStays(m: Nodes, m1: Nodes, t0: Trie, t1: Trie)
    requires Flagged(m, t0) && Ids(t1) <= Ids(t0) && forall i :: i in Ids(t0) ==> i in m
    requires KeepsFlags(m, m1)
    ensures Flagged(m1, t1)
  {
  }

  // ---- one branch takes the place of another ----

  ghost predicate Movable(m: Nodes, c: Context, s: Trie, y: int, t: int)
    requires s.Branch?
  {
    && !c.Hole? && y in m && c.id in m && s.left.id in m && s.right.id in m && s.id == y
    && m[y].l == s.left.id && m[y].r == s.right.id && m[y].p == c.id && m[y].b == s.bit && m[y].mask == MaskBit(s.bit) && m[y].off == s.bit / 8
    && (m[c.id].l == y <==> c.InLeft?)
    && y != t && c.id != t && c.id != y && s.left.id != y && s.right.id != y && s.left.id != t && s.right.id != t
    && s.left.id != c.id && s.right.id != c.id && s.left.id != s.right.id
  }

  lemma MovableFacts(m: Nodes, c: Context, s: Trie, y: int, t: int)
    requires s.Branch? && Movable(m, c, s, y, t)
    ensures !c.Hole? && s.id == y && y != t && c.id in m && s.left.id in m && s.right.id in m && y in m
    ensures m[y].l == s.left.id && m[y].r == s.right.id && m[y].p == c.id
    ensures c.id != t && s.left.id != t && s.right.id != t && c.id != y
  {
  }

  lemma MovePlaces(m: Nodes, t1: Trie, c: Context, s: Trie, y: int, t: int)
    requires Plug(c, s) == t1 && s.Branch? && s.id == y && Formed(m, Hole, t1) && Distinct(t1) && t !in Ids(t1) && t1.id != y
    ensures Formed(m, c, s) && Apart(c, s) && Movable(m, c, s, y, t)
  {
    FormedTop(m, c, s);
    PlugIds(c, s);
    IdsSplit(s.left);
    IdsSplit(s.right);
    assert Laid(m, s.left, y) && Laid(m, s.right, y);
    if !c.Hole? {
      IdsSplit(c.other);
      assert {c.id, c.other.id} <= IdsAround(c);
    }
  }

  /** The stores that copy the branch at y to t and link it there. */
  function Moved(m: Nodes, y: int, t: int): Nodes
    requires y in m && m[y].l in m && m[y].r in m && m[y].p in m && m[y].l != t && m[y].r != t && m[y].p != t && y != t
  {
    var n1 := m[t := m[y]];
    var n2 := n1[m[y].l := n1[m[y].l].(p := t)];
    var n3 := n2[m[y].r := n2[m[y].r].(p := t)];
    n3[m[y].p := if n3[m[y].p].l == y then n3[m[y].p].(l := t) else n3[m[y].p].(r := t)]
  }

  lemma MovedShape(m: Nodes, t1: Trie, c: Context, s: Trie, y: int, t: int, off: nat, len: nat)
    requires Shape(m, t1, off, len) && Plug(c, s) == t1 && s.Branch? && s.id == y && ONES < y && ONES < t && t !in Ids(t1)
    requires Formed(m, c, s) && Apart(c, s) && Movable(m, c, s, y, t)
    ensures Movable(m, c, s, y, t) && m[y].l in m && m[y].r in m && m[y].p in m && m[y].l != t && m[y].r != t && m[y].p != t && y != t
    ensures var t2 := Plug(c, Branch(t, s.bit, s.left, s.right));
      && Shape(Moved(m, y, t), t2, off, len) && Leaves(t2) == Leaves(t1)
      && LeafIds(t2) == LeafIds(t1) && BranchIds(t2) == BranchIds(t1) - {y} + {t} && Ids(t2) == Ids(t1) - {y} + {t}
  {
    hide *;
    var s' := Branch(t, s.bit, s.left, s.right);
    var t2 := Plug(c, s');
    ShapeParts(m, t1, off, len);
    SentinelsUnfold(t1, len);
    MovableFacts(m, c, s, y, t);
    PlugIds(c, s);
    IdsSplit(s);
    MovedBy(m, c, s, y, t);
    var m2 := Moved(m, y, t);
    MovedFormed(m, m2, c, s, y, t);
    FormedTop(m2, c, s');
    MovedIds(c, s, t);
    OrderedDown(c, s, 8 * off);
    MovedOrdered(c, s, t, 8 * off);
    OrderedTop(c, s', 8 * off);
    MovedLeaves(c, s, t);
    SentinelsFold(t2, len);
    MovedBits(c, s, t, 8 * len);
    MovedTop(c, s, t, y, m);
    MovedFields(m, m2, c, s, y, t);
    FormedInMemory(m, t1);
    MovedFlags(m, m2, t1, t2, y, t);
    ShapeFrom(m2, t2, off, len);
  }

  lemma MovedBy(m: Nodes, c: Context, s: Trie, y: int, t: int)
    requires s.Branch? && Movable(m, c, s, y, t)
    ensures m[y].l in m && m[y].r in m && m[y].p in m && m[y].l != t && m[y].r != t && m[y].p != t && y != t
    ensures var n1 := m[t := m[y]];
      var n2 := n1[s.left.id := n1[s.left.id].(p := t)];
      var n3 := n2[s.right.id := n2[s.right.id].(p := t)];
      Moved(m, y, t) == n3[c.id := if n3[c.id].l == y then n3[c.id].(l := t) else n3[c.id].(r := t)]
  {
  }

  /** The two orders in which `squid_rn_delete` does the stores. */
  lemma MovedStores(m: Nodes, c: Context, s: Trie, y: int, t: int)
    requires s.Branch? && Movable(m, c, s, y, t)
    ensures y in m && y != t && m[y].l in m && m[y].r in m && m[y].p in m && m[y].l != t && m[y].r != t && m[y].p != t
    ensures Moved(m, y, t) == (var n1 := m[t := m[y]];
      var n2 := n1[n1[t].l := n1[n1[t].l].(p := t)];
      var n3 := n2[n2[t].r := n2[n2[t].r].(p := t)];
      n3[n3[y].p := if n3[n3[y].p].l == y then n3[n3[y].p].(l := t) else n3[n3[y].p].(r := t)])
    ensures Moved(m, y, t) == (var n1 := m[t := m[y]];
      var n2 := n1[n1[y].p := if n1[n1[y].p].l == y then n1[n1[y].p].(l := t) else n1[n1[y].p].(r := t)];
      var n3 := n2[n2[t].l := n2[n2[t].l].(p := t)];
      n3[n3[t].r := n3[n3[t].r].(p := t)])
    ensures Moved(m, y, t).Keys == m.Keys + {t}
  {
  }

  /** Flags after the move: those of the freed branch are the moved one's. */
  lemma MovedFlags(m: Nodes, m2: Nodes, t1: Trie, t2: Trie, y: int, t: int)
    requires Flagged(m, t1) && y in Ids(t1) && ONES < y && ONES < t && Ids(t2) == Ids(t1) - {y} + {t}
    requires forall i :: i in Ids(t1) ==> i in m
    requires forall i {:trigger m2[i]} :: i in m2 ==>
      var j := if i == t then y else i; j in m && m2[i].root == m[j].root && m2[i].active == m[j].active
    ensures Flagged(m2, t2)
  {
    hide Ids;
    forall i {:trigger m2[i]} | i in Ids(t2) && i in m2
      ensures (m2[i].root <==> i <= ONES) && m2[i].active
    {
      var j := if i == t then y else i;
      assert j in Ids(t1) && j in m;
      assert m[j].root <==> j <= ONES;
    }
  }

  lemma MovedFormed(m: Nodes, m': Nodes, c: Context, s: Trie, y: int, t: int)
    requires s.Branch? && Movable(m, c, s, y, t) && Formed(m, c, s) && Apart(c, s) && t !in Ids(s) + IdsAround(c)
    requires var m1 := m[t := m[y]];
      var m2 := m1[s.left.id := m1[s.left.id].(p := t)];
      var m3 := m2[s.right.id := m2[s.right.id].(p := t)];
      m' == m3[c.id := if m3[c.id].l == y then m3[c.id].(l := t) else m3[c.id].(r := t)]
    ensures Formed(m', c, Branch(t, s.bit, s.left, s.right))
  {
    var s' := Branch(t, s.bit, s.left, s.right);
    IdsSplit(s.left);
    IdsSplit(s.right);
    assert Agree(m, m', Ids(s.left) - {s.left.id}) && Agree(m, m', Ids(s.right) - {s.right.id});
    assert Agree(m, m', Ids(c.other) + IdsAround(c.up));
    LaidReparented(m, m', s.left, y, t);
    LaidReparented(m, m', s.right, y, t);
    FormedRelinked(m, m', c, s, s');
  }

  lemma MovedOrdered(c: Context, s: Trie, t: int, lo: nat)
    requires s.Branch? && Ordered(c, s, lo)
    ensures Ordered(c, Branch(t, s.bit, s.left, s.right), lo)
  {
    var s' := Branch(t, s.bit, s.left, s.right);
    forall k {:trigger HasKey(s', k)} | HasKey(s', k)
      ensures Fits(c, k, lo)
    {
      assert HasKey(s, k);
    }
  }

  lemma {:induction false} OrderedDown(c: Context, s: Trie, lo: nat)
    requires Ordered(Hole, Plug(c, s), lo)
    ensures Ordered(c, s, lo)
    decreases c
  {
    hide Patricia, PatriciaAround, Fits, HasKey, Ordered;
    match c
    case Hole =>
    case InLeft(id, bit, other, up) =>
      var b := Branch(id, bit, s, other);
      OrderedDown(up, b, lo);
      OrderedDownLeft(up, b, lo);
    case InRight(id, bit, other, up) =>
      var b := Branch(id, bit, other, s);
      OrderedDown(up, b, lo);
      OrderedDownRight(up, b, lo);
  }

  lemma MovedIds(c: Context, s: Trie, t: int)
    requires s.Branch? && Apart(c, s) && t !in Ids(s) + IdsAround(c)
    ensures var t2 := Plug(c, Branch(t, s.bit, s.left, s.right));
      && Distinct(t2) && LeafIds(t2) == LeafIds(Plug(c, s)) && BranchIds(t2) == BranchIds(Plug(c, s)) - {s.id} + {t}
      && Ids(t2) == Ids(Plug(c, s)) - {s.id} + {t}
  {
    var s' := Branch(t, s.bit, s.left, s.right);
    PlugIds(c, s);
    PlugIds(c, s');
    MovedDistinct(c, s, t);
    MovedBranches(c, s, t);
  }

  lemma MovedDistinct(c: Context, s: Trie, t: int)
    requires s.Branch? && Apart(c, s) && t !in Ids(s) + IdsAround(c)
    ensures Apart(c, Branch(t, s.bit, s.left, s.right)) && s.id !in IdsAround(c) && s.id in Ids(s)
    ensures Ids(Branch(t, s.bit, s.left, s.right)) == Ids(s) - {s.id} + {t}
  {
    IdsSplit(s);
  }

  lemma MovedBranches(c: Context, s: Trie, t: int)
    requires s.Branch? && Apart(c, s)
    ensures var t2 := Plug(c, Branch(t, s.bit, s.left, s.right));
      LeafIds(t2) == LeafIds(Plug(c, s)) && BranchIds(t2) == BranchIds(Plug(c, s)) - {s.id} + {t}
  {
    PlugSets(c, s);
    PlugSets(c, Branch(t, s.bit, s.left, s.right));
    IdsSplit(s);
    IdsSplit(s.left);
    IdsSplit(s.right);
    assert s.id !in BranchIds(s.left) && s.id !in BranchIds(s.right) && s.id !in BranchIdsAround(c);
  }

  lemma MovedLeaves(c: Context, s: Trie, t: int)
    requires s.Branch?
    ensures Leaves(Plug(c, Branch(t, s.bit, s.left, s.right))) == Leaves(Plug(c, s))
  {
    PlugLeaves(c, s);
    PlugLeaves(c, Branch(t, s.bit, s.left, s.right));
  }

  lemma MovedBits(c: Context, s: Trie, t: int, n: nat)
    requires s.Branch? && BitsBelow(Plug(c, s), n)
    ensures BitsBelow(Plug(c, Branch(t, s.bit, s.left, s.right)), n)
  {
    PlugBits(c, s, n);
    PlugBits(c, Branch(t, s.bit, s.left, s.right), n);
  }

  lemma MovedTop(c: Context, s: Trie, t: int, y: int, m: Nodes)
    requires s.Branch? && Movable(m, c, s, y, t)
    ensures var t2 := Plug(c, Branch(t, s.bit, s.left, s.right));
      t2.Branch? && Plug(c, s).Branch? && t2.id == Plug(c, s).id && t2.bit == Plug(c, s).bit
  {
    PlugTop(c, s, Branch(t, s.bit, s.left, s.right));
  }

  /** Flags after the move: those of the freed branch are the moved one's. */
  lemma MovedFields(m: Nodes, m': Nodes, c: Context, s: Trie, y: int, t: int)
    requires s.Branch? && Movable(m, c, s, y, t)
    requires var n1 := m[t := m[y]];
      var n2 := n1[s.left.id := n1[s.left.id].(p := t)];
      var n3 := n2[s.right.id := n2[s.right.id].(p := t)];
      m' == n3[c.id := if n3[c.id].l == y then n3[c.id].(l := t) else n3[c.id].(r := t)]
    ensures forall i {:trigger m'[i]} :: i in m' ==>
      var j := if i == t then y else i; j in m && m'[i].root == m[j].root && m'[i].active == m[j].active
    ensures forall i {:trigger i in m'} :: i in m ==> i in m'
  {
  }

  lemma AddedSame(t1: Trie, t2: Trie, t0: Trie, f: Trie)
    requires Added(t1, t0, f) && Leaves(t2) == Leaves(t1)
    ensures Added(t2, t0, f)
  {
  }

  lemma PlugHole(t: Trie)
    ensures Plug(Hole, t) == t
  {
  }
}
