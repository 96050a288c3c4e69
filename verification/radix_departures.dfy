/** The pairs of the table when a route comes and when it goes. */
module RadixDepartures {
  import opened RadixKeys
  import opened RadixTrie
  import opened RadixNodes
  import opened RadixShape
  import opened RadixRemovals
  import opened RadixLists
  import opened RadixListings
  import opened RadixAdds
  import opened RadixTables
  import opened RadixLookups
  import opened RadixEnlists
  import opened RadixPairs
  import opened RadixDelists
  import opened RadixDeletes

  // ---- a route comes ----

  lemma PairedSame(m: Nodes, e: Env, e': Env, t: Trie, len: nat)
    requires PairedIn(m, e, t, len) && e'.masks == e.masks && e'.chains == e.chains
    ensures PairedIn(m, e', t, len)
  {
    hide LeafIds, BranchIds, OneActive, LeafNode;
    forall f {:trigger f in LeafIds(t)} | f in LeafIds(t)
      ensures ChainAt(e', f, BranchIds(t))
    {
      assert ChainAt(e, f, BranchIds(t));
    }
    forall r {:trigger r in e'.masks} | r in e'.masks && r > ONES
      ensures PairAt(m, e', r, BranchIds(t), len)
    {
      assert PairAt(m, e, r, BranchIds(t), len);
    }
    forall j {:trigger j in BranchIds(t)} | j in BranchIds(t)
      ensures j == TOP || Owned(e', j)
    {
      assert j == TOP || Owned(e, j);
    }
  }

  lemma PairedWithNewLeaf(m: Nodes, m': Nodes, e: Env, e1: Env, t: Trie, c: Context, s: Trie, v: Key, b: nat, mask: Mask, node: int,
                          l0: seq<Entry>, l1: seq<Entry>, off: nat, len: nat)
    requires Routing(m, e, t, off, len) && PairedIn(m, e, t, len) && Plug(c, s) == t && NewIn(e, t, node) && ONES < node && node !in m && node + 1 !in m
    requires Neighbours(m, c, s, node) && m' == Spliced(m, c, s, v, b, node) && WellKeyed(v, len) && Promoted(e, e1, s, b, node, mask, l0, l1)
    ensures PairedIn(m', e1, Plug(c, NewPair(s, v, b, node, node + 1)), len)
  {
    hide *;
    var t' := Plug(c, NewPair(s, v, b, node, node + 1));
    NewInParts(e, t, node);
    IdsSplit(t);
    NewPairSets(c, s, v, b, node);
    PromotedOwn(e, e1, s, b, node, mask, l0, l1);
    PromotedEnv(e, e1, s, b, node, mask, l0, l1);
    MasksInNodes(m, e, t, node + 1, off, len);
    NoBranchIsRoute(m, e, t, len);
    PlaceBranches(m, e, c, s, t, node);
    SplicedPairs(m, m', e, c, s, v, b, node, len);
    PairedInIs(m, e, t, len);
    PairedInIs(m', e1, t', len);
    PairedWithLeaf(m, m', e, e1, LeafIds(t), BranchIds(t), node, mask, len);
  }

  lemma PlaceBranches(m: Nodes, e: Env, c: Context, s: Trie, t: Trie, node: int)
    requires Plug(c, s) == t && Neighbours(m, c, s, node) && BranchIds(t) !! e.masks.Keys
    ensures !c.Hole? && c.id !in e.masks && (s.Branch? ==> s.id !in e.masks)
  {
    PlugSets(c, s);
    assert s.Branch? ==> s.id in BranchIds(s);
  }

  lemma SplicedPairs(m: Nodes, m': Nodes, e: Env, c: Context, s: Trie, v: Key, b: nat, node: int, len: nat)
    requires Neighbours(m, c, s, node) && m' == Spliced(m, c, s, v, b, node) && WellKeyed(v, len) && node !in m && node + 1 !in m && c.id !in e.masks
    ensures node in m' && LeafNode(m'[node], len) && node + 1 in m' && m'[node + 1].active
    ensures forall i {:trigger i in m} :: i in m ==> i in m' && m'[i].active == m[i].active
    ensures forall r {:trigger r in e.masks} :: r in e.masks && r in m ==> r in m' && m'[r] == m[r].(p := m'[r].p)
  {
    hide BitAt, WellKeyed;
  }

  /** A node that nothing refers to makes no difference. */
  lemma SpareNode(m: Nodes, e: Env, t: Trie, c: Context, f: Trie, k: int, off: nat, len: nat)
    requires AtLeaf(m, e, t, c, f, off, len) && k !in m
    ensures AtLeaf(m[k := FREE], e, t, c, f, off, len)
  {
    hide *;
    var m' := m[k := FREE];
    AtLeafFacts(m, e, t, c, f, off, len);
    RoutingFacts(m, e, t, off, len);
    RoutingParts(m, e, t, off, len);
    ShapeParts(m, t, off, len);
    IdsInNodes(m, Hole, t);
    SpareAgree(m, k, Ids(t));
    ShapeFrame(m, m', t, off, len);
    PlugIds(c, f);
    SubsetAgrees(m, m', Ids(t), Ids(f));
    SubsetAgrees(m, m', Ids(t), IdsAround(c));
    FormedFrame(m, m', c, f);
    SpareGrown(m, e, k);
    NothingTouched(e, t);
    KeptFrame(m, m', e, e, e.masks.Keys, t, -1, off, len);
    SpareOwn(m, e, k, ZEROS, Zeros(len));
    SpareOwn(m, e, k, ONES, Ones(len));
    RoutingBuilt(m', e, t, off, len);
    FoundLeaf(m', e, t, c, f, f.key, off, len);
  }

  lemma SpareAgree(m: Nodes, k: int, ids: set<int>)
    requires k !in m && forall i {:trigger i in ids} :: i in ids ==> i in m
    ensures Agree(m, m[k := FREE], ids)
  {
  }

  lemma SpareGrown(m: Nodes, e: Env, k: int)
    requires k !in m
    ensures Grown(m, m[k := FREE], e, e)
  {
  }

  lemma NothingTouched(e: Env, t: Trie)
    ensures Untouched(e, e, Ids(t)) && SameMarks(e, e, e.masks.Keys, t)
  {
  }

  lemma SpareOwn(m: Nodes, e: Env, k: int, i: int, key: Key)
    requires OwnLeaf(m, e, i, key) && k !in m
    ensures OwnLeaf(m[k := FREE], e, i, key)
  {
  }

  lemma PairedWithQueued(m0: Nodes, m: Nodes, m': Nodes, e: Env, e1: Env, t: Trie, c: Context, f: Trie, f1: Trie, v: Key, mask: Mask, node: int, i: nat,
                         off: nat, len: nat)
    requires AtLeaf(m, e, t, c, f, off, len) && PairedIn(m0, e, t, len) && m == m0[node + 1 := FREE] && node !in m0 && node + 1 !in m0
    requires NewIn(e, t, node) && ONES < node && WellKeyed(v, len) && f.id in e.chains && i <= |e.chains[f.id]| && (i == 0 ==> f.id > ONES)
    requires f1 == (if i == 0 then Leaf(node, v) else f)
    requires var ch := e.chains[f.id];
      e1 == Env(e.chains[if i == 0 then node else f.id := ch[..i] + [node] + ch[i..]], e.masks[node := mask], e.lists, e.listed)
    requires i == 0 ==> !c.Hole? && c.id in m && c.id != node && m' == Reheaded(m, c, v, node)
    requires i > 0 ==> m' == m[node := Node(-1, 0, 0, false, true, 0, 0, 0, v)]
    ensures PairedIn(m', e1, Plug(c, f1), len)
  {
    hide *;
    AtLeafFacts(m, e, t, c, f, off, len);
    NewInParts(e, t, node);
    IdsSplit(t);
    RoutedPair(m0, e, t, node, len);
    LeafIsThere(c, f, t);
    NewLeafId(f, f1, node, v, i);
    SwappedLeaf(c, f, f1, t);
    NoBranchIsRoute(m0, e, t, len);
    if i == 0 {
      ContextBranch(c, f, t);
      ReheadedPairs(m0, m, m', e, c, v, node, len);
    } else {
      BesidePairs(m0, m, m', e, v, node, len);
    }
    PairedInIs(m0, e, t, len);
    PairedInIs(m', e1, Plug(c, f1), len);
    PairedInChain(m0, m', e, e1, LeafIds(t), BranchIds(t), f.id, f1.id, node, mask, i, len);
  }

  lemma NewLeafId(f: Trie, f1: Trie, node: int, v: Key, i: nat)
    requires f1 == (if i == 0 then Leaf(node, v) else f) && f.Leaf?
    ensures f1.Leaf? && f1.id == if i == 0 then node else f.id
  {
  }

  /** Node and node + 1 are no routes, being new. */
  lemma RoutedPair(m: Nodes, e: Env, t: Trie, node: int, len: nat)
    requires PairedIn(m, e, t, len) && node !in m && node + 1 !in m && ONES < node
    ensures node !in e.masks && node + 1 !in e.masks
  {
    hide *;
    PairedInIs(m, e, t, len);
    forall r | r == node || r == node + 1
      ensures r !in e.masks
    {
      if r in e.masks {
        RouteIsPair(m, e, LeafIds(t), BranchIds(t), len, r);
      }
    }
  }

  lemma ReheadedPairs(m0: Nodes, m: Nodes, m': Nodes, e: Env, c: Context, v: Key, node: int, len: nat)
    requires m == m0[node + 1 := FREE] && node !in m0 && node + 1 !in m0 && !c.Hole? && c.id in m && c.id != node && c.id !in e.masks
    requires node + 1 !in e.masks && c.id != node + 1
    requires m' == Reheaded(m, c, v, node) && WellKeyed(v, len)
    ensures node in m' && LeafNode(m'[node], len) && node + 1 in m' && !m'[node + 1].active
    ensures forall i {:trigger i in m0} :: i in m0 ==> i in m' && m'[i].active == m0[i].active
    ensures forall r {:trigger r in e.masks} :: r in e.masks && r in m0 ==> r in m' && m'[r] == m0[r].(p := m'[r].p)
  {
    hide WellKeyed;
  }

  lemma BesidePairs(m0: Nodes, m: Nodes, m': Nodes, e: Env, v: Key, node: int, len: nat)
    requires m == m0[node + 1 := FREE] && node !in m0 && node + 1 !in m0
    requires m' == m[node := Node(-1, 0, 0, false, true, 0, 0, 0, v)] && WellKeyed(v, len)
    ensures node in m' && LeafNode(m'[node], len) && node + 1 in m' && !m'[node + 1].active
    ensures forall i {:trigger i in m0} :: i in m0 ==> i in m' && m'[i].active == m0[i].active
    ensures forall r {:trigger r in e.masks} :: r in e.masks && r in m0 ==> r in m' && m'[r] == m0[r].(p := m'[r].p)
  {
    hide WellKeyed;
  }

  lemma ExtendedMore(m0: Nodes, m: Nodes, m': Nodes, e: Env, e': Env, v: Key, mask: Mask, node: int)
    requires Extended(m, m', e, e', v, mask, node) && m == m0[node + 1 := FREE] && node + 1 !in m0
    ensures Extended(m0, m', e, e', v, mask, node)
  {
    forall r {:trigger r in m0} | r in m0
      ensures r in m'
    {
      assert r in m;
    }
  }

  // ---- a route goes ----

  /** The pair as it goes back to the caller. */
  ghost predicate Handed(freed: Nodes, m: Nodes, tt: int) {
    freed.Keys == {tt, tt + 1} && tt in m && freed[tt].key == m[tt].key && !freed[tt].active && !freed[tt + 1].active
  }

  /** Neither half of the pair is a node of the table, a place in its tree, a route of a chain, or on a
      list. */
  ghost predicate Unreachable(m: Nodes, e: Env, t: Trie, tt: int) {
    && tt !in m && tt + 1 !in m && tt !in Ids(t) && tt + 1 !in Ids(t)
    && (forall r {:trigger Has(e, t, r)} :: Has(e, t, r) ==> r != tt && r != tt + 1)
    && (forall b, x {:trigger b in BranchIds(t), x in e.lists[b]} :: b in BranchIds(t) && b in e.lists && x in e.lists[b] ==> x.leaf != tt && x.leaf != tt + 1)
  }

  lemma GoneForGood(m: Nodes, m': Nodes, e: Env, e': Env, t: Trie, node: int, off: nat, len: nat)
    requires Parting(m, e, t, node, off, len) && Routing(m', e', t, off, len) && e' == e.(masks := e.masks - {node}) && m' == m - {node, node + 1}
    requires node !in Ids(t) && node + 1 !in Ids(t) && node + 1 !in e.masks
    ensures Unreachable(m', e', t, node)
  {
    hide *;
    RoutingFacts(m', e', t, off, len);
    forall r {:trigger Has(e', t, r)} | Has(e', t, r)
      ensures r != node && r != node + 1
    {
      HasIsMasked(m', e', e'.masks.Keys, t, -1, r, off, len);
    }
    forall b, x {:trigger b in BranchIds(t), x in e'.lists[b]} | b in BranchIds(t) && b in e'.lists && x in e'.lists[b]
      ensures x.leaf != node && x.leaf != node + 1
    {
      EntryIsRoute(m', e', e'.masks.Keys, t, -1, b, x, off, len);
    }
    UnreachableFrom(m', e', t, node);
  }

  lemma UnreachableFrom(m: Nodes, e: Env, t: Trie, tt: int)
    requires tt !in m && tt + 1 !in m && tt !in Ids(t) && tt + 1 !in Ids(t)
    requires forall r {:trigger Has(e, t, r)} :: Has(e, t, r) ==> r != tt && r != tt + 1
    requires forall b, x {:trigger b in BranchIds(t), x in e.lists[b]} :: b in BranchIds(t) && b in e.lists && x in e.lists[b] ==> x.leaf != tt && x.leaf != tt + 1
    ensures Unreachable(m, e, t, tt)
  {
  }

  lemma {:induction false} EntryIsRoute(m: Nodes, e: Env, reg: set<int>, t: Trie, up: int, b: int, x: Entry, off: nat, len: nat)
    requires Kept(m, e, reg, t, up, off, len) && b in BranchIds(t) && b in e.lists && x in e.lists[b]
    ensures x.leaf in reg
    decreases t
  {
    hide Listing, Chained, Marked;
    if b == t.id {
      ListedIsDue(e, reg, e.lists[b], t, up, x);
    } else if b in BranchIds(t.left) {
      EntryIsRoute(m, e, reg, t.left, t.bit, b, x, off, len);
    } else {
      EntryIsRoute(m, e, reg, t.right, t.bit, b, x, off, len);
    }
  }

  lemma ListedIsDue(e: Env, reg: set<int>, l: seq<Entry>, t: Trie, up: int, x: Entry)
    requires Listing(e, reg, l, t, up) && x in l
    ensures x.leaf in reg
  {
    assert DueEntry(e, reg, t, up, x);
  }

  lemma HandedBack(m: Nodes, m2: Nodes, freed: Nodes, e: Env, tt: int)
    requires Steady(m, m2, e) && tt in e.masks && tt in m && tt in m2 && tt + 1 in m2
    requires freed == map[tt := m2[tt].(active := false), tt + 1 := m2[tt + 1].(active := false)]
    ensures Handed(freed, m, tt)
  {
  }

  lemma LessenedStill(m: Nodes, m': Nodes, e1: Env, e: Env, e': Env, tt: int)
    requires Lessened(m, m', e1, e', tt) && e1.masks == e.masks
    ensures Lessened(m, m', e, e', tt)
  {
  }

  lemma QuittingFrom(m: Nodes, e: Env, t: Trie, c: Context, f: Trie, node: int, i: nat, off: nat, len: nat)
    requires PendingAt(m, e, t, c, f, node, off, len) && PairedIn(m, e, t, len) && f.id in e.chains && 2 <= |e.chains[f.id]| && i < |e.chains[f.id]|
    requires e.chains[f.id][i] == node && node > ONES
    ensures Quitting(m, e, t, c, f, node, i, off, len)
  {
  }

  lemma AloneFrom(m: Nodes, e: Env, t: Trie, c: Context, f: Trie, node: int, i: nat, off: nat, len: nat)
    requires PendingAt(m, e, t, c, f, node, off, len) && PairedIn(m, e, t, len) && f.id in e.chains && |e.chains[f.id]| == 1 && i == 0
    requires e.chains[f.id][i] == node && e.chains[f.id][0] == f.id && node > ONES
    ensures Alone(m, e, t, c, f, node, off, len)
  {
  }

  lemma PairIsLeaf(m: Nodes, e: Env, t: Trie, r: int, len: nat)
    requires PairedIn(m, e, t, len) && r in e.masks
    ensures r > ONES ==> r in m && !m[r].root
  {
    hide *;
    PairedInIs(m, e, t, len);
    if r > ONES {
      RouteIsPair(m, e, LeafIds(t), BranchIds(t), len, r);
      LeafNodeKey(m[r], len);
    }
  }

  lemma SecondIs(ch: seq<int>, i: nat)
    requires 2 <= |ch| && i < |ch|
    ensures FirstLeft(ch, i) == if i == 0 then ch[1] else ch[0]
  {
  }

  lemma SuccessorBy(m: Nodes, m1: Nodes, f: Trie, f1: Trie, ch: seq<int>, i: nat)
    requires 2 <= |ch| && i < |ch|
    requires i == 0 ==> f.id in m && ch[1] in m && m[f.id].p in m && ch[1] != m[f.id].p && f1 == Leaf(ch[1], m[ch[1]].key)
    requires i == 0 ==>
      var t := m[f.id].p;
      var m' := m[ch[1] := m[ch[1]].(p := t)];
      m1 == m'[t := if m'[t].l == f.id then m'[t].(l := ch[1]) else m'[t].(r := ch[1])]
    requires i > 0 ==> m1 == m && f1 == f
    ensures Successor(m, m1, f, f1, ch, i)
  {
  }

  lemma ActivityKept(m: Nodes, m1: Nodes, y: int)
    requires SameActivity(m, m1) && y in m
    ensures y in m1 && m1[y].active == m[y].active
  {
  }

  /** A chain of the head's own leaf has no active pair. */
  lemma ActiveBeyond(m: Nodes, e: Env, t: Trie, f: int, tt: int, len: nat)
    requires PairedIn(m, e, t, len) && f in LeafIds(t) && f in e.chains && tt in e.chains[f] && tt > ONES && tt + 1 in BranchIds(t)
    ensures f > ONES && Active(e.chains[f], BranchIds(t)) == {tt}
  {
    hide *;
    PairedInIs(m, e, t, len);
    LeafChain(m, e, LeafIds(t), BranchIds(t), len, f);
    ActiveIs(e.chains[f], f, BranchIds(t), tt);
  }

  /** Only the pair of tt is active in its chain. */
  lemma OthersInactive(m: Nodes, e: Env, t: Trie, f: int, tt: int, x: int, len: nat)
    requires PairedIn(m, e, t, len) && f in LeafIds(t) && f in e.chains && tt in e.chains[f] && tt > ONES && tt + 1 in BranchIds(t)
    requires x in e.chains[f] && x != tt && x > ONES
    ensures x + 1 !in BranchIds(t)
  {
    hide BranchIds, LeafIds, PairedIn;
    ActiveBeyond(m, e, t, f, tt, len);
    assert x !in Active(e.chains[f], BranchIds(t));
  }

  /** The second half of a pair is no place in the tree unless it is a branch. */
  lemma HalfOutside(m: Nodes, e: Env, t: Trie, t1: Trie, x: int, len: nat)
    requires PairedIn(m, e, t, len) && x in e.masks && x > ONES && x + 1 !in BranchIds(t1) && LeafIds(t1) <= e.masks.Keys
    ensures x + 1 !in Ids(t1)
  {
    hide *;
    PairedInIs(m, e, t, len);
    RouteIsPair(m, e, LeafIds(t), BranchIds(t), len, x);
    IdsSplit(t1);
  }

  lemma LeavesAreRoutes(m: Nodes, e: Env, t: Trie, len: nat)
    requires PairedIn(m, e, t, len)
    ensures LeafIds(t) <= e.masks.Keys
  {
    hide *;
    PairedInIs(m, e, t, len);
    forall f | f in LeafIds(t)
      ensures f in e.masks
    {
      LeafChain(m, e, LeafIds(t), BranchIds(t), len, f);
    }
  }

  /** The route has left a chain whose active pair is another. */
  lemma InactiveLeft(m: Nodes, m1: Nodes, e: Env, e1: Env, t: Trie, t1: Trie, f: int, f1: int, tt: int, len: nat)
    requires PairedIn(m, e, t, len) && Steady(m, m1, e) && SameActivity(m, m1) && tt in e.masks && tt > ONES && tt + 1 !in BranchIds(t)
    requires f in LeafIds(t) && f in e.chains && f1 in e1.chains && f1 in e1.chains[f1] && Without(e.chains[f], e1.chains[f1], tt) && (f > ONES <==> f1 > ONES)
    requires OtherChains(e, e1, LeafIds(t), f) && Elsewhere(e, LeafIds(t), f, tt) && e1.masks == e.masks
    requires LeafIds(t1) == LeafIds(t) - {f} + {f1} && BranchIds(t1) == BranchIds(t) && f1 in e.masks && f1 != tt && (f1 != f ==> f == tt)
    requires tt in e.chains[f] && (f == tt ==> f1 != f)
    ensures PairedIn(m1 - {tt, tt + 1}, e1.(masks := e1.masks - {tt}), t1, len) && tt !in Ids(t1) && tt + 1 !in Ids(t1)
  {
    hide *;
    var m', e' := m1 - {tt, tt + 1}, e1.(masks := e1.masks - {tt});
    ActivityKeys(m, m1);
    OthersLeft(m, m1, m', e, e', t, tt, len);
    LeavesAreRoutes(m, e, t, len);
    NoBranchIsRoute(m, e, t, len);
    HalfOutside(m, e, t, t1, tt, len);
    LeafGone(m, e, t, t1, f, f1, tt, len);
    ChainsSame(e, e1, e', LeafIds(t), f, tt);
    SameActive2(m, m1, m', e', tt);
    PairedInIs(m, e, t, len);
    PairedInIs(m', e', t1, len);
    PairedInactive(m, m', e, e', LeafIds(t), BranchIds(t), f, f1, tt, len);
  }

  lemma ActivityKeys(m: Nodes, m1: Nodes)
    requires SameActivity(m, m1)
    ensures m.Keys <= m1.Keys
  {
    forall i | i in m.Keys
      ensures i in m1.Keys
    {
      assert i in m;
    }
  }

  lemma LeafGone(m: Nodes, e: Env, t: Trie, t1: Trie, f: int, f1: int, tt: int, len: nat)
    requires PairedIn(m, e, t, len) && LeafIds(t1) == LeafIds(t) - {f} + {f1} && BranchIds(t1) !! e.masks.Keys && tt in e.masks && f1 != tt
    requires f in LeafIds(t) && Elsewhere(e, LeafIds(t), f, tt)
    requires f == tt || f1 == f
    ensures tt !in Ids(t1)
  {
    hide *;
    IdsSplit(t1);
    PairedInIs(m, e, t, len);
    if tt in LeafIds(t1) {
      LeafChain(m, e, LeafIds(t), BranchIds(t), len, tt);
      if tt != f {
        ElsewhereIs(e, LeafIds(t), f, tt, tt);
      }
    }
  }

  lemma ChainsSame(e: Env, e1: Env, e': Env, leaves: set<int>, f: int, tt: int)
    requires OtherChains(e, e1, leaves, f) && e' == e1.(masks := e1.masks - {tt})
    ensures OtherChains(e, e', leaves, f) && e'.chains == e1.chains && e'.masks == e1.masks - {tt}
  {
  }

  lemma SameActive2(m: Nodes, m1: Nodes, m': Nodes, e': Env, tt: int)
    requires SameActivity(m, m1) && m' == m1 - {tt, tt + 1}
    ensures forall r {:trigger r in e'.masks} :: r in e'.masks && r > ONES && r + 1 in m && r + 1 in m' ==> m'[r + 1].active == m[r + 1].active
  {
  }

  /** The route has left a chain whose active pair was its own; the branch is now the pair's of x. */
  lemma ActiveLeft(m: Nodes, m1: Nodes, m2: Nodes, e: Env, e1: Env, e2: Env, t: Trie, t1: Trie, t2: Trie, f: int, x: int, tt: int, len: nat)
    requires PairedIn(m, e, t, len) && Steady(m, m2, e) && SameActivity(m, m1) && tt in e.masks && tt > ONES && x > ONES && x in e.masks && x != tt
    requires f in LeafIds(t) && f in e.chains && x in e1.chains && x in e1.chains[x] && Without(e.chains[f], e1.chains[x], tt) && f > ONES
    requires OtherChains(e, e1, LeafIds(t), f) && Elsewhere(e, LeafIds(t), f, tt) && Elsewhere(e, LeafIds(t), f, x)
    requires e1.masks == e.masks && e2.masks == e.masks && e2.chains == e1.chains && m1.Keys <= m2.Keys
    requires LeafIds(t1) == LeafIds(t) - {f} + {x} && LeafIds(t2) == LeafIds(t1) && BranchIds(t2) == BranchIds(t) - {tt + 1} + {x + 1}
    requires tt in e.chains[f] && tt + 1 in BranchIds(t) && (f == tt || x == f)
    requires forall i {:trigger i in m2} :: i in m1 && i != x + 1 ==> i in m2 && m2[i].active == m1[i].active
    requires x + 1 in m2 && m2[x + 1].active
    ensures PairedIn(m2 - {tt, tt + 1}, e2.(masks := e2.masks - {tt}), t2, len) && tt !in Ids(t2) && tt + 1 !in Ids(t2)
  {
    hide *;
    var m', e' := m2 - {tt, tt + 1}, e2.(masks := e2.masks - {tt});
    ActivityKeys(m, m1);
    OthersLeft(m, m2, m', e, e', t, tt, len);
    LeavesAreRoutes(m, e, t, len);
    NoBranchIsRoute(m, e, t, len);
    PairedInIs(m, e, t, len);
    RouteIsPair(m, e, LeafIds(t), BranchIds(t), len, x);
    RouteIsPair(m, e, LeafIds(t), BranchIds(t), len, tt);
    HalfOutside(m, e, t, t2, tt, len);
    LeafGone(m, e, t, t2, f, x, tt, len);
    ChainsMoved(e, e1, e2, e', LeafIds(t), f, tt);
    MovedActive(m, m1, m2, m', e', tt, x);
    PairedInIs(m', e', t2, len);
    PairedActive(m, m', e, e', LeafIds(t), BranchIds(t), f, x, tt, len);
  }

  lemma ChainsMoved(e: Env, e1: Env, e2: Env, e': Env, leaves: set<int>, f: int, tt: int)
    requires OtherChains(e, e1, leaves, f) && e2.chains == e1.chains && e' == e2.(masks := e2.masks - {tt})
    ensures OtherChains(e, e', leaves, f) && e'.chains == e1.chains && e'.masks == e2.masks - {tt}
  {
  }

  lemma MovedActive(m: Nodes, m1: Nodes, m2: Nodes, m': Nodes, e': Env, tt: int, x: int)
    requires SameActivity(m, m1) && m' == m2 - {tt, tt + 1} && x + 1 in m2 && m2[x + 1].active
    requires forall i {:trigger i in m2} :: i in m1 && i != x + 1 ==> i in m2 && m2[i].active == m1[i].active
    ensures forall r {:trigger r in e'.masks} :: r in e'.masks && r > ONES && r + 1 in m && r + 1 in m' ==> (m'[r + 1].active <==> r == x || m[r + 1].active)
  {
    forall r {:trigger r in e'.masks} | r in e'.masks && r > ONES && r + 1 in m && r + 1 in m'
      ensures m'[r + 1].active <==> r == x || m[r + 1].active
    {
      assert r + 1 in m1 && r + 1 in m2;
    }
  }

  /** A branch of the tree other than the top is beyond the head, and no route. */
  lemma OwnedBranch(m: Nodes, e: Env, t: Trie, z: int, tt: int, len: nat)
    requires PairedIn(m, e, t, len) && z in BranchIds(t) && z != TOP
    ensures z > ONES && z !in e.masks && BranchIds(t) !! e.masks.Keys
  {
    hide *;
    PairedInIs(m, e, t, len);
    BranchIsOwned(m, e, LeafIds(t), BranchIds(t), len, z);
    NoBranchIsRoute(m, e, t, len);
  }

  lemma PairHalves(m: Nodes, e: Env, t: Trie, r: int, len: nat)
    requires PairedIn(m, e, t, len) && r in e.masks && r > ONES
    ensures r in m && r + 1 in m && r + 1 !in e.masks && r + 1 > ONES && r + 1 != TOP
  {
    hide *;
    PairedInIs(m, e, t, len);
    RouteIsPair(m, e, LeafIds(t), BranchIds(t), len, r);
    TopIsNoRoute(m, e, LeafIds(t), BranchIds(t), len);
  }

  /** What the move does to the flags of other nodes: nothing. */
  lemma OtherActivity(m: Nodes, c: Context, s: Trie, y: int, z: int)
    requires s.Branch? && Movable(m, c, s, y, z)
    requires y in m && y != z && m[y].l in m && m[y].r in m && m[y].p in m && m[y].l != z && m[y].r != z && m[y].p != z
    ensures forall i {:trigger i in Moved(m, y, z)} :: i in m && i != z ==> i in Moved(m, y, z) && Moved(m, y, z)[i].active == m[i].active
    ensures z in Moved(m, y, z) && Moved(m, y, z)[z].active == m[y].active
  {
    hide *;
    MovedBy(m, c, s, y, z);
    MovedFields(m, Moved(m, y, z), c, s, y, z);
    MovedStores(m, c, s, y, z);
  }

  lemma SteadySame(m: Nodes, m': Nodes, e: Env, e': Env)
    requires Steady(m, m', e) && e'.masks == e.masks
    ensures Steady(m, m', e')
  {
  }

  lemma MovedBack(t0: Trie, t2: Trie, z: int, y: int)
    requires BranchIds(t2) == BranchIds(t0) - {z} - {y} + {z} && z in BranchIds(t0) && z != y
    ensures BranchIds(t2) == BranchIds(t0) - {y}
  {
  }

  lemma BranchLeft(t: Trie, t1: Trie, z: int, y: int)
    requires BranchIds(t1) == BranchIds(t) - {z} && y in BranchIds(t) && y != z
    ensures y in BranchIds(t1)
  {
  }

  lemma FewerBranches(t: Trie, t1: Trie, e: Env, z: int)
    requires BranchIds(t1) == BranchIds(t) - {z} && BranchIds(t) !! e.masks.Keys
    ensures BranchIds(t1) !! e.masks.Keys
  {
  }

  /** When the freed branch is overwritten by another, both are in use. */
  lemma MovedActivity(m: Nodes, m1: Nodes, e: Env, t: Trie, c: Context, s: Trie, y: int, z: int, off: nat, len: nat)
    requires s.Branch? && Movable(m1, c, s, y, z) && SameActivity(m, m1) && y in m && z in m && m[y].active && m[z].active
    requires y in m1 && y != z && m1[y].l in m1 && m1[y].r in m1 && m1[y].p in m1 && m1[y].l != z && m1[y].r != z && m1[y].p != z
    ensures SameActivity(m, Moved(m1, y, z)) && Moved(m1, y, z).Keys == m1.Keys + {z} && z in m1
  {
  }

  lemma BranchIsActive(m: Nodes, t: Trie, z: int, off: nat, len: nat)
    requires Shape(m, t, off, len) && z in BranchIds(t)
    ensures z in m && m[z].active
  {
    hide Ordered, Sentinels, BitsBelow;
    FormedInMemory(m, t);
    IdsSplit(t);
    assert z in Ids(t);
  }

  /** The route was the only one of its leaf. */
  lemma AloneLeft(m: Nodes, m2: Nodes, e: Env, e2: Env, t: Trie, t2: Trie, tt: int, len: nat)
    requires PairedIn(m, e, t, len) && Steady(m, m2, e) && SameActivity(m, m2) && tt in e.masks && tt > ONES && tt in LeafIds(t)
    requires e2.chains == e.chains && e2.masks == e.masks && Elsewhere(e, LeafIds(t), tt, tt)
    requires LeafIds(t2) == LeafIds(t) - {tt} && BranchIds(t2) == BranchIds(t) - {tt + 1}
    ensures PairedIn(m2 - {tt, tt + 1}, e2.(masks := e2.masks - {tt}), t2, len) && tt !in Ids(t2) && tt + 1 !in Ids(t2)
  {
    hide *;
    var m', e' := m2 - {tt, tt + 1}, e2.(masks := e2.masks - {tt});
    ActivityKeys(m, m2);
    OthersLeft(m, m2, m', e, e', t, tt, len);
    LeavesAreRoutes(m, e, t, len);
    NoBranchIsRoute(m, e, t, len);
    HalfOutside(m, e, t, t2, tt, len);
    IdsSplit(t2);
    AllChainsSame(e, e2, e', LeafIds(t), tt);
    SameActive2(m, m2, m', e', tt);
    PairedInIs(m, e, t, len);
    PairedInIs(m', e', t2, len);
    PairedAlone(m, m', e, e', LeafIds(t), BranchIds(t), tt, len);
  }

  lemma AllChainsSame(e: Env, e2: Env, e': Env, leaves: set<int>, tt: int)
    requires e2.chains == e.chains && e' == e2.(masks := e2.masks - {tt}) && e2.masks == e.masks
    ensures OtherChains(e, e', leaves, tt) && e'.masks == e.masks - {tt}
  {
  }
}
