/** What the walk over a table needs: routes in the order of their keys and, with the same key, of their
    masks, and where they are found again after some of them have been deleted. */
module RadixVisits {
  import opened RadixKeys
  import opened RadixTrie
  import opened RadixNodes
  import opened RadixShape
  import opened RadixRemovals
  import opened RadixWalks
  import opened RadixLists
  import opened RadixAdds
  import opened RadixTables
  import opened RadixLookups
  import opened RadixPairs
  import opened RadixDeletes

  // ---- the order of keys ----

  lemma BelowTransitive(a: Key, b: Key, c: Key, lo: nat)
    requires KeyBelow(a, b, lo) && KeyBelow(b, c, lo)
    ensures KeyBelow(a, c, lo)
  {
    hide BitAt;
    var i :| Before(a, b, lo, i);
    var j :| Before(b, c, lo, j);
    var k := if i < j then i else j;
    assert BitAt(a, k) == (if i <= j then BitAt(a, i) else BitAt(b, j));
    assert SameBits(a, c, lo, k);
    assert Before(a, c, lo, k);
  }

  lemma NotBelowItself(a: Key, lo: nat)
    ensures !KeyBelow(a, a, lo)
  {
    hide BitAt;
  }

  lemma BelowFrom(a: Key, b: Key, lo: nat, i: nat)
    requires Before(a, b, lo, i)
    ensures KeyBelow(a, b, lo)
  {
  }

  /** The order is one of addresses. */
  lemma BelowSame(a: Key, a': Key, b: Key, lo: nat, len: nat)
    requires |a| == |a'| == len && SameBits(a, a', lo, 8 * len)
    ensures KeyBelow(a, b, lo) ==> KeyBelow(a', b, lo)
    ensures KeyBelow(b, a, lo) ==> KeyBelow(b, a', lo)
  {
    forall i: nat {:trigger BitAt(a, i)} {:trigger BitAt(a', i)} | lo <= i
      ensures BitAt(a, i) == BitAt(a', i)
    {
      BeyondKey(a, a', i, len);
    }
    hide BitAt;
    if KeyBelow(a, b, lo) {
      var i :| Before(a, b, lo, i);
      BelowFrom(a', b, lo, i);
    }
    if KeyBelow(b, a, lo) {
      var i :| Before(b, a, lo, i);
      BelowFrom(b, a', lo, i);
    }
  }

  lemma BeyondKey(a: Key, a': Key, i: nat, len: nat)
    requires |a| == |a'| == len
    ensures i >= 8 * len ==> !BitAt(a, i) && !BitAt(a', i)
  {
  }

  lemma SameNotBelow(a: Key, b: Key, lo: nat, len: nat)
    requires |a| == |b| == len && SameBits(a, b, lo, 8 * len)
    ensures !KeyBelow(a, b, lo) && !KeyBelow(b, a, lo)
  {
    hide BitAt, SameBits, KeyBelow;
    BelowSame(a, b, b, lo, len);
    NotBelowItself(b, lo);
  }

  // ---- where a route is ----

  lemma TableIsWalkable(m: Nodes, e: Env, t: Trie, off: nat, len: nat)
    requires Routing(m, e, t, off, len) && PairedIn(m, e, t, len)
    ensures Walkable(m, t, off, len)
  {
    hide Shape, Kept, PairAt, ChainAt, BranchIds, LeafIds;
  }

  lemma {:induction false} LocateIn(m: Nodes, e: Env, c0: Context, t0: Trie, r: int, off: nat) returns (c: Context, f: Trie)
    requires Formed(m, c0, t0) && Apart(c0, t0) && Ordered(c0, t0, 8 * off) && Has(e, t0, r)
    ensures f.Leaf? && Plug(c, f) == Plug(c0, t0) && Formed(m, c, f) && Apart(c, f) && Ordered(c, f, 8 * off)
    ensures f.id in e.chains && r in e.chains[f.id]
    decreases t0
  {
    hide Ordered;
    if t0.Leaf? {
      c, f := c0, t0;
    } else if Has(e, t0.left, r) {
      OrderedDownLeft(c0, t0, 8 * off);
      c, f := LocateIn(m, e, InLeft(t0.id, t0.bit, t0.right, c0), t0.left, r, off);
    } else {
      OrderedDownRight(c0, t0, 8 * off);
      c, f := LocateIn(m, e, InRight(t0.id, t0.bit, t0.left, c0), t0.right, r, off);
    }
  }

  lemma Locate(m: Nodes, e: Env, t: Trie, r: int, off: nat, len: nat) returns (c: Context, f: Trie)
    requires Routing(m, e, t, off, len) && r in e.masks
    ensures AtLeaf(m, e, t, c, f, off, len) && f.id in e.chains && r in e.chains[f.id]
  {
    hide *;
    RoutingHas(m, e, t, r, off, len);
    PlugHole(t);
    c, f := LocateIn(m, e, Hole, t, r, off);
    FoundLeaf(m, e, t, c, f, f.key, off, len);
  }

  lemma RoutingHas(m: Nodes, e: Env, t: Trie, r: int, off: nat, len: nat)
    requires Routing(m, e, t, off, len) && r in e.masks
    ensures Has(e, t, r) && Formed(m, Hole, t) && Apart(Hole, t) && Ordered(Hole, t, 8 * off)
  {
    hide Kept, Formed, Ordered, OwnLeaf, Sentinels, Has;
  }

  /** The same address, as far as it is compared. */
  ghost predicate Same(a: Key, b: Key, off: nat, len: nat) {
    |a| == len && |b| == len && SameBits(a, b, 8 * off, 8 * len)
  }

  lemma SameFlip(a: Key, b: Key, off: nat, len: nat)
    requires Same(a, b, off, len)
    ensures Same(b, a, off, len)
  {
    hide BitAt;
  }

  lemma SameJoin(a: Key, b: Key, c: Key, off: nat, len: nat)
    requires Same(a, b, off, len) && Same(b, c, off, len)
    ensures Same(a, c, off, len)
  {
    hide SameBits;
    SameBitsTransitive(a, b, c, 8 * off, 8 * len);
  }

  /** The chain of a leaf: the routes with its address, the most specific first. */
  ghost predicate ChainOf(m: Nodes, e: Env, ch: seq<int>, k: Key, off: nat, len: nat) {
    && |k| == len && ch != [] && Ranked(e, ch, len)
    && (forall r {:trigger r in ch} :: r in ch ==> r in m && r in e.masks && Same(m[r].key, k, off, len))
    && forall r {:trigger r in ch} :: r in e.masks && r in m && Same(m[r].key, k, off, len) ==> r in ch
  }

  lemma ChainAtLeaf(m: Nodes, e: Env, t: Trie, c: Context, f: Trie, off: nat, len: nat)
    requires AtLeaf(m, e, t, c, f, off, len)
    ensures f.id in e.chains && ChainOf(m, e, e.chains[f.id], f.key, off, len) && e.chains[f.id][0] == f.id && f.id in m && m[f.id].key == f.key
    ensures m[f.id].root <==> f.id <= ONES
  {
    hide *;
    ChainFacts(m, e, t, c, f, off, len);
    AtLeafFacts(m, e, t, c, f, off, len);
    var ch := e.chains[f.id];
    ChainedParts(m, e, ch, f.id, f.key, off, len);
    assert f.id in ch;
    MemberIs(m, e, f.id, f.key, off, len);
    forall r {:trigger r in ch} | r in ch
      ensures r in m && r in e.masks && Same(m[r].key, f.key, off, len)
    {
      MemberIs(m, e, r, f.key, off, len);
    }
    forall r {:trigger r in ch} | r in e.masks && r in m && Same(m[r].key, f.key, off, len)
      ensures r in ch
    {
      SelfSame(m[r].key, f.key, off, len);
      AddressIs(m, r, f.key, off, len);
      AddressInChain(m, e, t, c, f, f.key, r, off, len);
    }
    ChainOfFrom(m, e, ch, f.key, off, len);
  }

  lemma MemberIs(m: Nodes, e: Env, r: int, k: Key, off: nat, len: nat)
    requires Member(m, e, r, k, off, len)
    ensures r in m && r in e.masks && |m[r].key| == len && (|k| == len ==> Same(m[r].key, k, off, len))
    ensures e.masks[r].Net? ==> e.masks[r].index <= 8 * len
  {
    hide SameBits, BitAt;
  }

  lemma SelfSame(a: Key, k: Key, off: nat, len: nat)
    ensures Same(a, k, off, len) ==> SameBits(a, k, 8 * off, 8 * len)
    ensures SameBits(k, k, 8 * off, 8 * len)
  {
    hide BitAt;
  }

  lemma ChainOfFrom(m: Nodes, e: Env, ch: seq<int>, k: Key, off: nat, len: nat)
    requires |k| == len && ch != [] && Ranked(e, ch, len)
    requires forall r {:trigger r in ch} :: r in ch ==> r in m && r in e.masks && Same(m[r].key, k, off, len)
    requires forall r {:trigger r in ch} :: r in e.masks && r in m && Same(m[r].key, k, off, len) ==> r in ch
    ensures ChainOf(m, e, ch, k, off, len)
  {
    hide Same, Ranked;
  }

  // ---- chains from which routes have gone ----

  /** `rn_dupedkey`: what comes after r. */
  function Duped(ch: seq<int>, r: int): int {
    if |ch| < 2 then NONE else if ch[0] == r then ch[1] else Duped(ch[1..], r)
  }

  lemma {:induction false} DupedAt(ch: seq<int>, j: nat)
    requires j < |ch| && ch[j] !in ch[..j]
    ensures Duped(ch, ch[j]) == if j + 1 < |ch| then ch[j + 1] else NONE
    decreases j
  {
    if j > 0 {
      assert ch[0] in ch[..j];
      assert ch[1..][..j - 1] == ch[..j][1..];
      DupedAt(ch[1..], j - 1);
    }
  }

  lemma RankedDistinct(e: Env, ch: seq<int>, i: nat, j: nat, len: nat)
    requires Ranked(e, ch, len) && i < |ch| && j < |ch|
    ensures i < j <==> RankOf(e, ch[i], len) > RankOf(e, ch[j], len)
    ensures i == j <==> RankOf(e, ch[i], len) == RankOf(e, ch[j], len)
  {
    hide RankOf;
  }

  /** Of the chain ch0 some routes before place i have gone; what comes after the route there is the same. */
  lemma NextStays(e: Env, ch0: seq<int>, i: nat, ch: seq<int>, len: nat)
    requires Ranked(e, ch0, len) && Ranked(e, ch, len) && i < |ch0|
    requires forall r {:trigger r in ch} :: r in ch ==> r in ch0
    requires forall k {:trigger ch0[k]} :: i <= k < |ch0| ==> ch0[k] in ch
    ensures Duped(ch, ch0[i]) == if i + 1 < |ch0| then ch0[i + 1] else NONE
  {
    hide Duped, Ranked, RankOf;
    var j :| 0 <= j < |ch| && ch[j] == ch0[i];
    forall k | 0 <= k < j
      ensures ch[k] != ch[j]
    {
      RankedDistinct(e, ch, k, j, len);
    }
    DupedAt(ch, j);
    if j + 1 < |ch| {
      RankedDistinct(e, ch, j, j + 1, len);
      assert ch[j + 1] in ch;
      var l :| 0 <= l < |ch0| && ch0[l] == ch[j + 1];
      RankedDistinct(e, ch0, i, l, len);
      if i + 1 < l {
        assert ch0[i + 1] in ch;
        var k :| 0 <= k < |ch| && ch[k] == ch0[i + 1];
        RankedDistinct(e, ch0, i, i + 1, len);
        RankedDistinct(e, ch0, i + 1, l, len);
        RankedDistinct(e, ch, j, k, len);
        RankedDistinct(e, ch, k, j + 1, len);
      }
    } else if i + 1 < |ch0| {
      assert ch0[i + 1] in ch;
      var k :| 0 <= k < |ch| && ch[k] == ch0[i + 1];
      RankedDistinct(e, ch0, i, i + 1, len);
      RankedDistinct(e, ch, j, k, len);
    }
  }

  /** The first of a chain is the one of the highest rank. */
  lemma FirstOf(e: Env, ch: seq<int>, r: int, len: nat)
    requires Ranked(e, ch, len) && r in ch
    ensures ch != [] && RankOf(e, r, len) <= RankOf(e, ch[0], len)
    ensures RankOf(e, r, len) == RankOf(e, ch[0], len) ==> r == ch[0]
  {
    hide RankOf, Ranked;
    var j :| 0 <= j < |ch| && ch[j] == r;
    RankedDistinct(e, ch, 0, j, len);
  }

  /** After r has gone, the chain begins as before, or behind r. */
  lemma NewFirst(e: Env, ch: seq<int>, r: int, ch': seq<int>, len: nat)
    requires Ranked(e, ch, len) && Ranked(e, ch', len) && r in ch && ch' != []
    requires forall x {:trigger x in ch'} :: x in ch' <==> x in ch && x != r
    ensures ch'[0] == if ch[0] == r then Duped(ch, r) else ch[0]
  {
    hide RankOf, Ranked, Duped;
    assert ch'[0] in ch';
    FirstOf(e, ch, ch'[0], len);
    if ch[0] == r {
      assert ch[..0] == [];
      DupedAt(ch, 0);
      var j :| 0 <= j < |ch| && ch[j] == ch'[0];
      assert ch[1] in ch;
      RankedDistinct(e, ch, 0, 1, len);
      assert ch[1] in ch';
      FirstOf(e, ch', ch[1], len);
      RankedDistinct(e, ch, 1, j, len);
    } else {
      assert ch[0] in ch';
      FirstOf(e, ch', ch[0], len);
    }
  }

  /** Ranks are those of the masks, which stay. */
  lemma RankedStill(e: Env, e': Env, ch: seq<int>, len: nat)
    requires Ranked(e, ch, len) && forall r {:trigger r in ch} :: r in ch ==> r in e.masks && r in e'.masks && e'.masks[r] == e.masks[r]
    ensures Ranked(e', ch, len)
  {
    forall i, j {:trigger ch[i], ch[j]} | 0 <= i < j < |ch|
      ensures RankOf(e', ch[i], len) > RankOf(e', ch[j], len)
    {
      assert ch[i] in ch && ch[j] in ch;
    }
  }

  // ---- deleting a route that is visited ----

  lemma RankAtMost(m: Nodes, e: Env, t: Trie, c: Context, f: Trie, r: int, off: nat, len: nat)
    requires AtLeaf(m, e, t, c, f, off, len) && f.id in e.chains && r in e.chains[f.id]
    ensures RankOf(e, r, len) <= 8 * len + 1 && (r in e.masks && e.masks[r].Host? ==> RankOf(e, r, len) == 8 * len + 1)
  {
    hide Chained, AtLeaf, KeptAround, Ranked;
    AtLeafFacts(m, e, t, c, f, off, len);
    ChainFacts(m, e, t, c, f, off, len);
    ChainedParts(m, e, e.chains[f.id], f.id, f.key, off, len);
    MemberIs(m, e, r, f.key, off, len);
  }

  /** With its own address and mask, a route is the one that a deletion takes. */
  lemma TargetsItself(m: Nodes, e: Env, t: Trie, c: Context, f: Trie, r: int, off: nat, len: nat)
    requires AtLeaf(m, e, t, c, f, off, len) && f.id in e.chains && r in e.chains[f.id] && IsRoute(e, r) && r in m
    ensures !NoTarget(m, e, m[r].key, e.masks[r], off, len)
    ensures forall x {:trigger Target(m, e, x, m[r].key, e.masks[r], off, len)} :: Target(m, e, x, m[r].key, e.masks[r], off, len) ==> x == r
  {
    hide *;
    RouteIs(e, r);
    AtLeafFacts(m, e, t, c, f, off, len);
    var ch, v, mask := e.chains[f.id], m[r].key, e.masks[r];
    ChainAtLeaf(m, e, t, c, f, off, len);
    ChainOfParts(m, e, ch, f.key, r, off, len);
    var i :| 0 <= i < |ch| && ch[i] == r;
    assert ch[0] in ch;
    RankAtMost(m, e, t, c, f, r, off, len);
    RankAtMost(m, e, t, c, f, ch[0], off, len);
    FirstOf(e, ch, r, len);
    RankedDistinct(e, ch, 0, i, len);
    SelfSame(v, f.key, off, len);
    TargetInChain(m, e, t, c, f, v, mask, i, off, len);
    forall x {:trigger Target(m, e, x, v, mask, off, len)} | Target(m, e, x, v, mask, off, len)
      ensures x == r
    {
      TargetParts(m, e, x, v, mask, r, off, len);
      AddressInChain(m, e, t, c, f, v, x, off, len);
      var j :| 0 <= j < |ch| && ch[j] == x;
      RankAtMost(m, e, t, c, f, x, off, len);
      RankedDistinct(e, ch, i, j, len);
    }
  }

  lemma RouteIs(e: Env, r: int)
    ensures IsRoute(e, r) == (r in e.masks && r > ONES)
  {
  }

  lemma ChainOfParts(m: Nodes, e: Env, ch: seq<int>, k: Key, r: int, off: nat, len: nat)
    requires ChainOf(m, e, ch, k, off, len)
    ensures |k| == len && ch != [] && Ranked(e, ch, len)
    ensures r in ch ==> r in m && r in e.masks && Same(m[r].key, k, off, len)
    ensures r in e.masks && r in m && Same(m[r].key, k, off, len) ==> r in ch
  {
    hide Same, Ranked;
  }

  lemma TargetParts(m: Nodes, e: Env, x: int, v: Key, mask: Mask, r: int, off: nat, len: nat)
    requires Target(m, e, x, v, mask, off, len) && IsRoute(e, r) && r in m && m[r].key == v && e.masks[r] == mask
    ensures x in e.masks && x > ONES && SameAddress(m, x, v, off, len)
    ensures mask.Net? ==> RankOf(e, x, len) == RankOf(e, r, len)
    ensures mask.Host? ==> RankOf(e, x, len) >= RankOf(e, r, len)
  {
    SelfSame(v, v, off, len);
    AddressIs(m, r, v, off, len);
  }

  // ---- from leaf to leaf ----

  /** A route in the table has the address of a leaf, or lies before it, or not before the next leaf. */
  lemma BesideLeaves(m: Nodes, e: Env, tree: Trie, c: Context, t: Trie, c2: Context, t2: Trie, r: int, off: nat, len: nat)
    requires AtLeaf(m, e, tree, c, t, off, len) && AtLeaf(m, e, tree, c2, t2, off, len) && LeavesBefore(c2) == LeavesBefore(c) + [t] && r in e.masks
    ensures r in m && |m[r].key| == |t.key| == |t2.key| == len && KeyBelow(t.key, t2.key, 8 * off)
    ensures KeyBelow(m[r].key, t.key, 8 * off) || Same(m[r].key, t.key, off, len) || !KeyBelow(m[r].key, t2.key, 8 * off)
  {
    hide *;
    AtLeafFacts(m, e, tree, c, t, off, len);
    AtLeafFacts(m, e, tree, c2, t2, off, len);
    var cr, f := Locate(m, e, tree, r, off, len);
    AtLeafFacts(m, e, tree, cr, f, off, len);
    ChainAtLeaf(m, e, tree, cr, f, off, len);
    ChainAtLeaf(m, e, tree, c, t, off, len);
    ChainAtLeaf(m, e, tree, c2, t2, off, len);
    ChainOfParts(m, e, e.chains[f.id], f.key, r, off, len);
    ChainOfParts(m, e, e.chains[t.id], t.key, r, off, len);
    ChainOfParts(m, e, e.chains[t2.id], t2.key, r, off, len);
    var s := Leaves(tree);
    var n, i := |LeavesBefore(c)|, |LeavesBefore(cr)|;
    PlaceOfLeaf(tree, c, t, off);
    PlaceOfLeaf(tree, c2, t2, off);
    PlaceOfLeaf(tree, cr, f, off);
    SameLength(m[r].key, f.key, off, len);
    LeafAscends(tree, n, n + 1, off);
    if i < n {
      LeafAscends(tree, i, n, off);
      SameFlip(m[r].key, f.key, off, len);
      SameLength(f.key, m[r].key, off, len);
      BelowSame(f.key, m[r].key, t.key, 8 * off, len);
    } else if i == n + 1 {
      SameNotBelow(m[r].key, t2.key, 8 * off, len);
    } else if i > n + 1 {
      LeafAscends(tree, n + 1, i, off);
      if KeyBelow(m[r].key, t2.key, 8 * off) {
        BelowSame(m[r].key, f.key, t2.key, 8 * off, len);
        BelowTransitive(f.key, t2.key, f.key, 8 * off);
        NotBelowItself(f.key, 8 * off);
      }
    }
  }

  lemma SameLength(a: Key, b: Key, off: nat, len: nat)
    requires Same(a, b, off, len)
    ensures |a| == |b| == len && SameBits(a, b, 8 * off, 8 * len)
  {
  }

  lemma PlaceOfLeaf(tree: Trie, c: Context, t: Trie, off: nat)
    requires Plug(c, t) == tree && t.Leaf?
    ensures var i := |LeavesBefore(c)|; i < |Leaves(tree)| && Leaves(tree)[i] == t && Leaves(tree) == (LeavesBefore(c) + [t]) + LeavesAfter(c)
  {
    hide LeavesBefore, LeavesAfter, Plug;
    LeafLeaves(tree, c, t);
  }

  lemma LeafAscends(tree: Trie, i: nat, j: nat, off: nat)
    requires Patricia(tree, 8 * off) && i < j < |Leaves(tree)|
    ensures Leaves(tree)[i].Leaf? && Leaves(tree)[j].Leaf? && KeyBelow(Leaves(tree)[i].key, Leaves(tree)[j].key, 8 * off)
  {
    hide Patricia, Before;
    LeavesAscend(tree, 8 * off);
    assert Precedes(Leaves(tree)[i], Leaves(tree)[j], 8 * off);
    var b :| Before(Leaves(tree)[i].key, Leaves(tree)[j].key, 8 * off, b);
    BelowFrom(Leaves(tree)[i].key, Leaves(tree)[j].key, 8 * off, b);
  }

  /** A route that is not before the last leaf has its address. */
  lemma AtTheEnd(m: Nodes, e: Env, tree: Trie, c: Context, t: Trie, r: int, off: nat, len: nat)
    requires AtLeaf(m, e, tree, c, t, off, len) && LeavesAfter(c) == [] && r in e.masks
    ensures r in m && |m[r].key| == len && (KeyBelow(m[r].key, t.key, 8 * off) || Same(m[r].key, t.key, off, len))
  {
    hide *;
    AtLeafFacts(m, e, tree, c, t, off, len);
    var cr, f := Locate(m, e, tree, r, off, len);
    AtLeafFacts(m, e, tree, cr, f, off, len);
    ChainAtLeaf(m, e, tree, cr, f, off, len);
    ChainAtLeaf(m, e, tree, c, t, off, len);
    ChainOfParts(m, e, e.chains[f.id], f.key, r, off, len);
    ChainOfParts(m, e, e.chains[t.id], t.key, r, off, len);
    PlaceOfLeaf(tree, c, t, off);
    PlaceOfLeaf(tree, cr, f, off);
    SameLength(m[r].key, f.key, off, len);
    var n, i := |LeavesBefore(c)|, |LeavesBefore(cr)|;
    if i < n {
      LeafAscends(tree, i, n, off);
      SameFlip(m[r].key, f.key, off, len);
      SameLength(f.key, m[r].key, off, len);
      BelowSame(f.key, m[r].key, t.key, 8 * off, len);
    }
  }

  // ---- how far the walk has come ----

  /** The routes that the function has deleted. */
  function Doomed(visited: seq<int>, doomed: set<int>): set<int> {
    set r | r in visited && r in doomed
  }

  /** Nothing but the deletions has changed the routes. */
  ghost predicate Since(m0: Nodes, e0: Env, m: Nodes, e: Env, visited: seq<int>, doomed: set<int>) {
    && e.masks == e0.masks - Doomed(visited, doomed)
    && forall r {:trigger r in e.masks} :: r in e.masks ==> r in m && r in m0 && m[r].key == m0[r].key
  }

  /** All routes before the address k have been visited, and no others. */
  ghost predicate Passed(m0: Nodes, e0: Env, visited: seq<int>, k: Key, off: nat, len: nat) {
    forall r {:trigger IsRoute(e0, r)} {:trigger r in visited} ::
      (r in visited ==> IsRoute(e0, r)) && (IsRoute(e0, r) ==> r in m0 && |m0[r].key| == len && (r in visited <==> KeyBelow(m0[r].key, k, 8 * off)))
  }

  ghost predicate Earlier(m0: Nodes, e0: Env, a: int, b: int, off: nat, len: nat) {
    a in m0 && b in m0
    && (KeyBelow(m0[a].key, m0[b].key, 8 * off) || (Same(m0[a].key, m0[b].key, off, len) && RankOf(e0, a, len) > RankOf(e0, b, len)))
  }

  /** By ascending address, and for the same address the more specific first; so none comes twice. */
  ghost predicate InTurn(m0: Nodes, e0: Env, visited: seq<int>, off: nat, len: nat) {
    forall i, j {:trigger visited[i], visited[j]} :: 0 <= i < j < |visited| ==> Earlier(m0, e0, visited[i], visited[j], off, len)
  }

  /** The routes of a chain, without one of the head's own leaves. */
  function RoutesOf(ch: seq<int>): seq<int> {
    if ch == [] then [] else RoutesOf(ch[..|ch| - 1]) + if ch[|ch| - 1] > ONES then [ch[|ch| - 1]] else []
  }

  lemma RoutesOfSnoc(ch: seq<int>, i: nat)
    requires i < |ch|
    ensures RoutesOf(ch[..i + 1]) == RoutesOf(ch[..i]) + if ch[i] > ONES then [ch[i]] else []
  {
    assert ch[..i + 1][..i] == ch[..i];
  }

  lemma {:induction false} RoutesOfIn(ch: seq<int>, r: int)
    ensures r in RoutesOf(ch) <==> r in ch && r > ONES
  {
    if ch != [] {
      var n := |ch| - 1;
      RoutesOfIn(ch[..n], r);
      assert ch == ch[..n] + [ch[n]];
    }
  }

  lemma SinceVisited(m0: Nodes, e0: Env, m: Nodes, e: Env, visited: seq<int>, doomed: set<int>, r: int)
    requires Since(m0, e0, m, e, visited, doomed) && r !in doomed
    ensures Since(m0, e0, m, e, visited + [r], doomed)
  {
    assert Doomed(visited + [r], doomed) == Doomed(visited, doomed);
  }

  lemma SinceDeleted(m0: Nodes, e0: Env, m: Nodes, e: Env, m': Nodes, e': Env, visited: seq<int>, doomed: set<int>, r: int)
    requires Since(m0, e0, m, e, visited, doomed) && r in doomed && Lessened(m, m', e, e', r)
    ensures Since(m0, e0, m', e', visited + [r], doomed)
  {
    assert Doomed(visited + [r], doomed) == Doomed(visited, doomed) + {r};
    assert e'.masks == e0.masks - Doomed(visited + [r], doomed);
  }

  lemma SinceParts(m0: Nodes, e0: Env, m: Nodes, e: Env, visited: seq<int>, doomed: set<int>, r: int)
    requires Since(m0, e0, m, e, visited, doomed)
    ensures r in e.masks <==> r in e0.masks && !(r in visited && r in doomed)
    ensures r in e.masks ==> r in m && r in m0 && m[r].key == m0[r].key && e.masks[r] == e0.masks[r]
  {
  }

  /** What is left of the chain ch0 when its first i routes have been visited. */
  lemma Remaining(m0: Nodes, e0: Env, ms: Nodes, es: Env, m: Nodes, e: Env, before: seq<int>, doomed: set<int>, ch0: seq<int>, k: Key, i: nat,
                  ch: seq<int>, k': Key, off: nat, len: nat)
    requires ChainOf(ms, es, ch0, k, off, len) && Since(m0, e0, ms, es, before, doomed) && i <= |ch0|
    requires Since(m0, e0, m, e, before + RoutesOf(ch0[..i]), doomed) && ChainOf(m, e, ch, k', off, len) && Same(k', k, off, len)
    requires forall r {:trigger r in ch0} :: r in ch0 ==> r !in before
    ensures Ranked(es, ch0, len) && Ranked(es, ch, len)
    ensures forall r {:trigger r in ch} :: r in ch ==> r in ch0
    ensures forall j {:trigger ch0[j]} :: i <= j < |ch0| ==> ch0[j] in ch
  {
    hide *;
    var visited := before + RoutesOf(ch0[..i]);
    SameFlip(k', k, off, len);
    ChainOfParts(ms, es, ch0, k, 0, off, len);
    ChainOfParts(m, e, ch, k', 0, off, len);
    forall r {:trigger r in ch} | r in ch
      ensures r in ch0 && r in e.masks && r in es.masks && es.masks[r] == e.masks[r]
    {
      ChainOfParts(m, e, ch, k', r, off, len);
      SinceParts(m0, e0, m, e, visited, doomed, r);
      SinceParts(m0, e0, ms, es, before, doomed, r);
      SameJoin(m[r].key, k', k, off, len);
      ChainOfParts(ms, es, ch0, k, r, off, len);
    }
    RankedStill(e, es, ch, len);
    forall j {:trigger ch0[j]} | i <= j < |ch0|
      ensures ch0[j] in ch
    {
      var r := ch0[j];
      assert r in ch0;
      ChainOfParts(ms, es, ch0, k, r, off, len);
      SinceParts(m0, e0, ms, es, before, doomed, r);
      RoutesOfIn(ch0[..i], r);
      FreshIn(es, ch0, i, j, len);
      SinceParts(m0, e0, m, e, visited, doomed, r);
      SameJoin(ms[r].key, k, k', off, len);
      ChainOfParts(m, e, ch, k', r, off, len);
    }
  }

  lemma FreshIn(e: Env, ch: seq<int>, i: nat, j: nat, len: nat)
    requires Ranked(e, ch, len) && i <= j < |ch|
    ensures ch[j] !in ch[..i]
  {
    hide Ranked, RankOf;
    if ch[j] in ch[..i] {
      var k :| 0 <= k < i && ch[..i][k] == ch[j];
      RankedDistinct(e, ch, k, j, len);
    }
  }

  /** After r has been deleted, what is left of its chain is the rest. */
  lemma WithoutIt(m: Nodes, e: Env, m': Nodes, e': Env, ch: seq<int>, k: Key, r: int, ch': seq<int>, k': Key, off: nat, len: nat)
    requires ChainOf(m, e, ch, k, off, len) && ChainOf(m', e', ch', k', off, len) && Same(k', k, off, len) && r in ch && Lessened(m, m', e, e', r)
    ensures ch'[0] == if ch[0] == r then Duped(ch, r) else ch[0]
  {
    hide ChainOf, Same, Duped, Ranked;
    SameFlip(k', k, off, len);
    ChainOfParts(m, e, ch, k, r, off, len);
    ChainOfParts(m', e', ch', k', r, off, len);
    forall x {:trigger x in ch'}
      ensures x in ch' <==> x in ch && x != r
      ensures x in ch' ==> x in e.masks && x in e'.masks && e.masks[x] == e'.masks[x]
    {
      ChainOfParts(m, e, ch, k, x, off, len);
      ChainOfParts(m', e', ch', k', x, off, len);
      if x in ch' {
        assert x in e'.masks && x in m && m'[x].key == m[x].key;
        SameJoin(m'[x].key, k', k, off, len);
      }
      if x in ch && x != r {
        assert x in e'.masks && x in m' && m'[x].key == m[x].key;
        SameJoin(m[x].key, k, k', off, len);
      }
    }
    RankedStill(e', e, ch', len);
    NewFirst(e, ch, r, ch', len);
  }

  /** A member of a chain is a route, or one of the head's own leaves at its beginning. */
  lemma MemberKnown(m: Nodes, e: Env, t: Trie, c: Context, f: Trie, r: int, off: nat, len: nat)
    requires AtLeaf(m, e, t, c, f, off, len) && PairedIn(m, e, t, len) && f.id in e.chains && r in e.chains[f.id]
    ensures r in m && r in e.masks && (m[r].root <==> r <= ONES) && r != NONE && (r > ONES ==> WellKeyed(m[r].key, len))
  {
    hide *;
    AtLeafFacts(m, e, t, c, f, off, len);
    ChainFacts(m, e, t, c, f, off, len);
    ChainAtLeaf(m, e, t, c, f, off, len);
    ChainOfParts(m, e, e.chains[f.id], f.key, r, off, len);
    if r > ONES {
      RouteIsLeafNode(m, e, t, r, len);
    } else {
      RankAtMost(m, e, t, c, f, r, off, len);
      RankAtMost(m, e, t, c, f, f.id, off, len);
      FirstOf(e, e.chains[f.id], r, len);
    }
    OwnIdsAre();
  }

  lemma OwnIdsAre()
    ensures ZEROS != NONE && ONES > NONE && ZEROS < ONES
  {
  }

  lemma RouteIsLeafNode(m: Nodes, e: Env, t: Trie, r: int, len: nat)
    requires PairedIn(m, e, t, len) && r in e.masks && r > ONES
    ensures r in m && !m[r].root && WellKeyed(m[r].key, len)
  {
    hide ChainAt, Owned;
  }

  // ---- the invariant of the walk ----

  /** At the first leaf nothing has been passed. */
  lemma NonePassed(m: Nodes, e: Env, tree: Trie, c: Context, t: Trie, off: nat, len: nat)
    requires AtLeaf(m, e, tree, c, t, off, len) && LeavesBefore(c) == []
    ensures Passed(m, e, [], t.key, off, len) && InTurn(m, e, [], off, len) && Since(m, e, m, e, [], {})
  {
    hide *;
    AtLeafFacts(m, e, tree, c, t, off, len);
    forall r {:trigger IsRoute(e, r)} | IsRoute(e, r)
      ensures r in m && |m[r].key| == len && !KeyBelow(m[r].key, t.key, 8 * off)
    {
      RouteIs(e, r);
      NotBeforeFirst(m, e, tree, c, t, r, off, len);
    }
    forall r {:trigger r in e.masks} | r in e.masks
      ensures r in m
    {
      NotBeforeFirst(m, e, tree, c, t, r, off, len);
    }
    NothingPassed(m, e, t.key, off, len);
  }

  lemma NothingPassed(m: Nodes, e: Env, k: Key, off: nat, len: nat)
    requires forall r {:trigger IsRoute(e, r)} :: IsRoute(e, r) ==> r in m && |m[r].key| == len && !KeyBelow(m[r].key, k, 8 * off)
    requires forall r {:trigger r in e.masks} :: r in e.masks ==> r in m
    ensures Passed(m, e, [], k, off, len) && InTurn(m, e, [], off, len) && Since(m, e, m, e, [], {})
  {
    hide KeyBelow, IsRoute;
    assert Doomed([], {}) == {};
    assert e.masks - {} == e.masks;
  }

  lemma SinceStart(m: Nodes, e: Env, doomed: set<int>)
    requires Since(m, e, m, e, [], {})
    ensures Since(m, e, m, e, [], doomed)
  {
    assert Doomed([], doomed) == Doomed([], {});
  }

  lemma NotBeforeFirst(m: Nodes, e: Env, tree: Trie, c: Context, t: Trie, r: int, off: nat, len: nat)
    requires AtLeaf(m, e, tree, c, t, off, len) && LeavesBefore(c) == [] && r in e.masks
    ensures r in m && |m[r].key| == len && !KeyBelow(m[r].key, t.key, 8 * off)
  {
    hide *;
    AtLeafFacts(m, e, tree, c, t, off, len);
    var cr, f := Locate(m, e, tree, r, off, len);
    AtLeafFacts(m, e, tree, cr, f, off, len);
    ChainAtLeaf(m, e, tree, cr, f, off, len);
    ChainAtLeaf(m, e, tree, c, t, off, len);
    ChainOfParts(m, e, e.chains[f.id], f.key, r, off, len);
    ChainOfParts(m, e, e.chains[t.id], t.key, r, off, len);
    PlaceOfLeaf(tree, c, t, off);
    PlaceOfLeaf(tree, cr, f, off);
    SameLength(m[r].key, f.key, off, len);
    var i := |LeavesBefore(cr)|;
    if i == 0 {
      SameNotBelow(m[r].key, t.key, 8 * off, len);
    } else {
      LeafAscends(tree, 0, i, off);
      if KeyBelow(m[r].key, t.key, 8 * off) {
        BelowSame(m[r].key, f.key, t.key, 8 * off, len);
        BelowTransitive(f.key, t.key, f.key, 8 * off);
        NotBelowItself(f.key, 8 * off);
      }
    }
  }

  /** The routes at a leaf have not been visited before the walk is there. */
  lemma NoneVisited(m0: Nodes, e0: Env, m: Nodes, e: Env, visited: seq<int>, doomed: set<int>, ch: seq<int>, k: Key, off: nat, len: nat)
    requires Since(m0, e0, m, e, visited, doomed) && Passed(m0, e0, visited, k, off, len) && ChainOf(m, e, ch, k, off, len)
    ensures forall r {:trigger r in ch} :: r in ch ==> r !in visited
  {
    hide *;
    forall r {:trigger r in ch} | r in ch
      ensures r !in visited
    {
      ChainOfParts(m, e, ch, k, r, off, len);
      SinceParts(m0, e0, m, e, visited, doomed, r);
      PassedParts(m0, e0, visited, k, r, off, len);
      SameLength(m[r].key, k, off, len);
      SameNotBelow(m[r].key, k, 8 * off, len);
    }
  }

  lemma PassedParts(m0: Nodes, e0: Env, visited: seq<int>, k: Key, r: int, off: nat, len: nat)
    requires Passed(m0, e0, visited, k, off, len)
    ensures r in visited ==> IsRoute(e0, r)
    ensures IsRoute(e0, r) ==> r in m0 && |m0[r].key| == len && (r in visited <==> KeyBelow(m0[r].key, k, 8 * off))
  {
    hide KeyBelow, IsRoute;
  }

  /** With the routes of the leaf t, all before the next leaf have been visited. */
  lemma PassedOn(m0: Nodes, e0: Env, m: Nodes, e: Env, tree: Trie, c: Context, t: Trie, c2: Context, t2: Trie, visited: seq<int>, doomed: set<int>,
                 off: nat, len: nat)
    requires AtLeaf(m, e, tree, c, t, off, len) && AtLeaf(m, e, tree, c2, t2, off, len) && LeavesBefore(c2) == LeavesBefore(c) + [t]
    requires Since(m0, e0, m, e, visited, doomed) && Passed(m0, e0, visited, t.key, off, len) && t.id in e.chains
    ensures Passed(m0, e0, visited + RoutesOf(e.chains[t.id]), t2.key, off, len)
  {
    hide *;
    AtLeafFacts(m, e, tree, c, t, off, len);
    AtLeafFacts(m, e, tree, c2, t2, off, len);
    ChainAtLeaf(m, e, tree, c, t, off, len);
    ChainAtLeaf(m, e, tree, c2, t2, off, len);
    var ch := e.chains[t.id];
    var all := visited + RoutesOf(ch);
    forall r {:trigger IsRoute(e0, r)} {:trigger r in all}
      ensures r in all ==> IsRoute(e0, r)
      ensures IsRoute(e0, r) ==> r in m0 && |m0[r].key| == len && (r in all <==> KeyBelow(m0[r].key, t2.key, 8 * off))
    {
      RoutesOfIn(ch, r);
      RouteIs(e0, r);
      PassedParts(m0, e0, visited, t.key, r, off, len);
      SinceParts(m0, e0, m, e, visited, doomed, r);
      ChainOfParts(m, e, ch, t.key, r, off, len);
      PassedAt(m0, e0, m, e, tree, c, t, c2, t2, visited, doomed, r, off, len);
    }
    PassedFrom(m0, e0, all, t2.key, off, len);
  }

  lemma PassedFrom(m0: Nodes, e0: Env, visited: seq<int>, k: Key, off: nat, len: nat)
    requires forall r {:trigger IsRoute(e0, r)} {:trigger r in visited} ::
      (r in visited ==> IsRoute(e0, r)) && (IsRoute(e0, r) ==> r in m0 && |m0[r].key| == len && (r in visited <==> KeyBelow(m0[r].key, k, 8 * off)))
    ensures Passed(m0, e0, visited, k, off, len)
  {
    hide KeyBelow, IsRoute;
  }

  lemma PassedAt(m0: Nodes, e0: Env, m: Nodes, e: Env, tree: Trie, c: Context, t: Trie, c2: Context, t2: Trie, visited: seq<int>, doomed: set<int>, r: int,
                 off: nat, len: nat)
    requires AtLeaf(m, e, tree, c, t, off, len) && AtLeaf(m, e, tree, c2, t2, off, len) && LeavesBefore(c2) == LeavesBefore(c) + [t]
    requires Since(m0, e0, m, e, visited, doomed) && Passed(m0, e0, visited, t.key, off, len) && t.id in e.chains
    ensures IsRoute(e0, r) ==> r in m0 && |m0[r].key| == len && (r in visited || r in e.chains[t.id] <==> KeyBelow(m0[r].key, t2.key, 8 * off))
  {
    hide *;
    AtLeafFacts(m, e, tree, c, t, off, len);
    AtLeafFacts(m, e, tree, c2, t2, off, len);
    RouteIs(e0, r);
    PassedParts(m0, e0, visited, t.key, r, off, len);
    SinceParts(m0, e0, m, e, visited, doomed, r);
    ChainAtLeaf(m, e, tree, c, t, off, len);
    ChainOfParts(m, e, e.chains[t.id], t.key, t.id, off, len);
    ChainOfParts(m, e, e.chains[t.id], t.key, r, off, len);
    assert t.id in e.chains[t.id];
    BesideLeaves(m, e, tree, c, t, c2, t2, t.id, off, len);
    if IsRoute(e0, r) {
      if r in visited {
        BelowTransitive(m0[r].key, t.key, t2.key, 8 * off);
      } else {
        BesideLeaves(m, e, tree, c, t, c2, t2, r, off, len);
        if r in e.chains[t.id] {
          SameFlip(m[r].key, t.key, off, len);
          SameLength(t.key, m[r].key, off, len);
          BelowSame(t.key, m[r].key, t2.key, 8 * off, len);
        }
      }
    }
  }

  /** Visited in turn, and then the routes of the leaf, the most specific first. */
  lemma InTurnOn(m0: Nodes, e0: Env, m: Nodes, e: Env, visited: seq<int>, doomed: set<int>, ch: seq<int>, k: Key, off: nat, len: nat)
    requires Since(m0, e0, m, e, visited, doomed) && Passed(m0, e0, visited, k, off, len) && InTurn(m0, e0, visited, off, len) && ChainOf(m, e, ch, k, off, len)
    ensures InTurn(m0, e0, visited + RoutesOf(ch), off, len)
  {
    hide *;
    ChainOfParts(m, e, ch, k, 0, off, len);
    assert ch[..|ch|] == ch;
    InTurnTo(m0, e0, m, e, visited, doomed, ch, k, |ch|, off, len);
  }

  lemma {:induction false} InTurnTo(m0: Nodes, e0: Env, m: Nodes, e: Env, visited: seq<int>, doomed: set<int>, ch: seq<int>, k: Key, n: nat, off: nat, len: nat)
    requires Since(m0, e0, m, e, visited, doomed) && Passed(m0, e0, visited, k, off, len) && InTurn(m0, e0, visited, off, len) && ChainOf(m, e, ch, k, off, len)
    requires n <= |ch|
    ensures InTurn(m0, e0, visited + RoutesOf(ch[..n]), off, len)
    decreases n
  {
    hide *;
    if n == 0 {
      NoRoutes(ch);
      assert visited + [] == visited;
    } else {
      InTurnTo(m0, e0, m, e, visited, doomed, ch, k, n - 1, off, len);
      RoutesOfSnoc(ch, n - 1);
      var done, r := visited + RoutesOf(ch[..n - 1]), ch[n - 1];
      if r > ONES {
        forall x | x in done
          ensures Earlier(m0, e0, x, r, off, len)
        {
          RoutesOfIn(ch[..n - 1], x);
          EarlierAt(m0, e0, m, e, visited, doomed, ch, k, x, n - 1, off, len);
        }
        InTurnSnoc(m0, e0, done, r, off, len);
        assert visited + (RoutesOf(ch[..n - 1]) + [r]) == done + [r];
      } else {
        assert RoutesOf(ch[..n - 1]) + [] == RoutesOf(ch[..n - 1]);
      }
    }
  }

  lemma NoRoutes(ch: seq<int>)
    ensures RoutesOf(ch[..0]) == []
  {
  }

  lemma InTurnSnoc(m0: Nodes, e0: Env, done: seq<int>, r: int, off: nat, len: nat)
    requires InTurn(m0, e0, done, off, len) && forall x | x in done :: Earlier(m0, e0, x, r, off, len)
    ensures InTurn(m0, e0, done + [r], off, len)
  {
    hide Earlier;
    var all := done + [r];
    forall i, j {:trigger all[i], all[j]} | 0 <= i < j < |all|
      ensures Earlier(m0, e0, all[i], all[j], off, len)
    {
      if j == |done| {
        assert done[i] in done;
      } else {
        assert all[i] == done[i] && all[j] == done[j];
      }
    }
  }

  lemma EarlierAt(m0: Nodes, e0: Env, m: Nodes, e: Env, visited: seq<int>, doomed: set<int>, ch: seq<int>, k: Key, x: int, i: nat, off: nat, len: nat)
    requires Since(m0, e0, m, e, visited, doomed) && Passed(m0, e0, visited, k, off, len) && ChainOf(m, e, ch, k, off, len) && i < |ch|
    requires x in visited || x in ch[..i]
    ensures Earlier(m0, e0, x, ch[i], off, len)
  {
    hide *;
    var r := ch[i];
    assert r in ch;
    ChainOfParts(m, e, ch, k, r, off, len);
    SinceParts(m0, e0, m, e, visited, doomed, r);
    SameFlip(m[r].key, k, off, len);
    SameLength(k, m[r].key, off, len);
    if x in visited {
      PassedParts(m0, e0, visited, k, x, off, len);
      BelowSame(k, m[r].key, m0[x].key, 8 * off, len);
      EarlierBelow(m0, e0, x, r, off, len);
    } else {
      var j :| 0 <= j < i && ch[..i][j] == x;
      assert x in ch;
      ChainOfParts(m, e, ch, k, x, off, len);
      SinceParts(m0, e0, m, e, visited, doomed, x);
      SameJoin(m[x].key, k, m[r].key, off, len);
      RankedDistinct(e, ch, j, i, len);
      EarlierSharper(m0, e0, e, x, r, off, len);
    }
  }

  lemma EarlierBelow(m0: Nodes, e0: Env, x: int, r: int, off: nat, len: nat)
    requires x in m0 && r in m0 && KeyBelow(m0[x].key, m0[r].key, 8 * off)
    ensures Earlier(m0, e0, x, r, off, len)
  {
  }

  lemma EarlierSharper(m0: Nodes, e0: Env, e: Env, x: int, r: int, off: nat, len: nat)
    requires x in m0 && r in m0 && Same(m0[x].key, m0[r].key, off, len) && RankOf(e, x, len) > RankOf(e, r, len)
    requires x in e.masks && r in e.masks && x in e0.masks && r in e0.masks && e.masks[x] == e0.masks[x] && e.masks[r] == e0.masks[r]
    ensures Earlier(m0, e0, x, r, off, len)
  {
    hide Same;
  }

  /** The next leaf is still there when routes of other leaves have been deleted. */
  lemma NextIsThere(m0: Nodes, e0: Env, ms: Nodes, es: Env, trees: Trie, c: Context, t: Trie, before: seq<int>,
                    m: Nodes, e: Env, tree: Trie, visited: seq<int>, doomed: set<int>, off: nat, len: nat) returns (c': Context, t': Trie)
    requires AtLeaf(ms, es, trees, c, t, off, len) && Since(m0, e0, ms, es, before, doomed)
    requires Routing(m, e, tree, off, len) && Since(m0, e0, m, e, visited, doomed) && Passed(m0, e0, visited, t.key, off, len) && before <= visited
    ensures AtLeaf(m, e, tree, c', t', off, len) && t'.id == t.id && t'.key == t.key
  {
    hide *;
    AtLeafFacts(ms, es, trees, c, t, off, len);
    ChainAtLeaf(ms, es, trees, c, t, off, len);
    var n, ch := t.id, es.chains[t.id];
    ChainOfParts(ms, es, ch, t.key, n, off, len);
    assert ch[0] in ch;
    SinceParts(m0, e0, ms, es, before, doomed, n);
    SinceParts(m0, e0, m, e, visited, doomed, n);
    PassedParts(m0, e0, visited, t.key, n, off, len);
    NotBelowItself(t.key, 8 * off);
    c', t' := Locate(m, e, tree, n, off, len);
    AtLeafFacts(m, e, tree, c', t', off, len);
    ChainAtLeaf(m, e, tree, c', t', off, len);
    var ch', f := e.chains[t'.id], t'.id;
    ChainOfParts(m, e, ch', t'.key, n, off, len);
    ChainOfParts(m, e, ch', t'.key, f, off, len);
    assert ch'[0] in ch';
    SinceParts(m0, e0, m, e, visited, doomed, f);
    SinceParts(m0, e0, ms, es, before, doomed, f);
    SameFlip(m[n].key, t'.key, off, len);
    SameJoin(m[f].key, t'.key, t.key, off, len);
    assert f in before ==> f in visited;
    ChainOfParts(ms, es, ch, t.key, f, off, len);
    FirstOf(es, ch, f, len);
    FirstOf(e, ch', n, len);
    RankStays(es, e, n, len);
    RankStays(es, e, f, len);
  }

  lemma RankStays(e: Env, e': Env, r: int, len: nat)
    requires r in e.masks && r in e'.masks && e.masks[r] == e'.masks[r]
    ensures RankOf(e, r, len) == RankOf(e', r, len)
  {
  }

  /** The routes that the walk has not passed. */
  ghost function Ahead(m0: Nodes, e0: Env, k: Key, off: nat): set<int> {
    set r | r in e0.masks && r in m0 && !KeyBelow(m0[r].key, k, 8 * off)
  }

  lemma FewerAhead(m0: Nodes, e0: Env, k: Key, k2: Key, r: int, off: nat)
    requires KeyBelow(k, k2, 8 * off) && r in e0.masks && r in m0 && m0[r].key == k
    ensures |Ahead(m0, e0, k2, off)| < |Ahead(m0, e0, k, off)|
  {
    var a, b := Ahead(m0, e0, k2, off), Ahead(m0, e0, k, off);
    forall x | x in a
      ensures x in b
    {
      if KeyBelow(m0[x].key, k, 8 * off) {
        BelowTransitive(m0[x].key, k, k2, 8 * off);
      }
    }
    NotBelowItself(k, 8 * off);
    hide KeyBelow;
    assert r in b && r !in a;
    SmallerSet(a, b, r);
  }

  lemma SmallerSet(a: set<int>, b: set<int>, r: int)
    requires a <= b && r in b && r !in a
    ensures |a| < |b|
  {
    assert b == a + (b - a) && a * (b - a) == {};
    assert r in b - a;
  }

  /** At the end all routes have been visited but those with the address of all ones. */
  lemma AllVisited(m0: Nodes, e0: Env, m: Nodes, e: Env, tree: Trie, c: Context, t: Trie, visited: seq<int>, doomed: set<int>, off: nat, len: nat)
    requires AtLeaf(m, e, tree, c, t, off, len) && LeavesAfter(c) == [] && Since(m0, e0, m, e, visited, doomed) && Passed(m0, e0, visited, t.key, off, len)
    ensures forall r {:trigger r in visited} {:trigger IsRoute(e0, r)} :: r in visited <==> IsRoute(e0, r) && !(r in m0 && Same(m0[r].key, t.key, off, len))
  {
    hide *;
    AtLeafFacts(m, e, tree, c, t, off, len);
    forall r {:trigger r in visited} {:trigger IsRoute(e0, r)}
      ensures r in visited <==> IsRoute(e0, r) && !(r in m0 && Same(m0[r].key, t.key, off, len))
    {
      RouteIs(e0, r);
      PassedParts(m0, e0, visited, t.key, r, off, len);
      SinceParts(m0, e0, m, e, visited, doomed, r);
      if IsRoute(e0, r) && r !in visited {
        AtTheEnd(m, e, tree, c, t, r, off, len);
      }
      if r in visited && Same(m0[r].key, t.key, off, len) {
        SameLength(m0[r].key, t.key, off, len);
        SameNotBelow(m0[r].key, t.key, 8 * off, len);
      }
    }
  }

  lemma SameItself(k: Key, off: nat, len: nat)
    requires |k| == len
    ensures Same(k, k, off, len)
  {
  }

  /** The members of a leaf's chain are addresses. */
  lemma NoneIsNone(m: Nodes, e: Env, t: Trie, c: Context, f: Trie, off: nat, len: nat)
    requires AtLeaf(m, e, t, c, f, off, len) && PairedIn(m, e, t, len) && f.id in e.chains
    ensures NONE !in e.chains[f.id]
  {
    hide *;
    if NONE in e.chains[f.id] {
      MemberKnown(m, e, t, c, f, NONE, off, len);
    }
  }

  /** After a deletion, the next route of the chain ch0 is found where the chain begins as before, or
      behind the route that has gone. */
  lemma FoundAgain(m0: Nodes, e0: Env, ms: Nodes, es: Env, ch0: seq<int>, k: Key, i: nat, before: seq<int>, visited: seq<int>, doomed: set<int>,
                   m1: Nodes, e1: Env, ch: seq<int>, k1: Key, r: int, m: Nodes, e: Env, tree: Trie, off: nat, len: nat) returns (c: Context, f: Trie)
    requires ChainOf(ms, es, ch0, k, off, len) && Since(m0, e0, ms, es, before, doomed) && i < |ch0| && ch0[i] !in before
    requires ChainOf(m1, e1, ch, k1, off, len) && Same(k1, k, off, len) && r in ch && Lessened(m1, m, e1, e, r)
    requires Routing(m, e, tree, off, len) && visited == RoutesOf(ch0[..i]) && Since(m0, e0, m, e, before + visited, doomed)
    ensures AtLeaf(m, e, tree, c, f, off, len) && f.Leaf? && Same(f.key, k, off, len) && f.id == if ch[0] == r then Duped(ch, r) else ch[0]
  {
    hide *;
    var n := ch0[i];
    assert n in ch0;
    ChainOfParts(ms, es, ch0, k, n, off, len);
    ChainOfParts(m1, e1, ch, k1, r, off, len);
    SinceParts(m0, e0, ms, es, before, doomed, n);
    RoutesOfIn(ch0[..i], n);
    FreshIn(es, ch0, i, i, len);
    SinceParts(m0, e0, m, e, before + visited, doomed, n);
    c, f := Locate(m, e, tree, n, off, len);
    AtLeafFacts(m, e, tree, c, f, off, len);
    ChainAtLeaf(m, e, tree, c, f, off, len);
    ChainOfParts(m, e, e.chains[f.id], f.key, n, off, len);
    SameFlip(m[n].key, f.key, off, len);
    SameJoin(f.key, m[n].key, k, off, len);
    SameFlip(k1, k, off, len);
    SameJoin(f.key, k, k1, off, len);
    WithoutIt(m1, e1, m, e, ch, k1, r, e.chains[f.id], f.key, off, len);
  }
}
