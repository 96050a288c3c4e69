/** The pairs of nodes that routes come with: the first is the route's leaf, the second is a branch of
    the tree or free.  In every chain of routes exactly one pair has its branch in the tree. */
module RadixPairs {
  import opened RadixKeys
  import opened RadixTrie
  import opened RadixNodes
  import opened RadixShape
  import opened RadixLists

  /** The second half of a pair that is not in use, as callers hand it over. */
  const FREE := Node(0, 0, 0, false, false, 0, 0, 0, [])

  /** What is known of the first half of a pair; only its parent may change. */
  predicate LeafNode(n: Node, len: nat) {
    n == Node(-1, 0, 0, false, true, n.p, 0, 0, n.key) && WellKeyed(n.key, len)
  }

  /** The routes of a chain whose second halves are branches of the tree. */
  function Active(ch: seq<int>, live: set<int>): set<int> {
    set r | r in ch && r > ONES && r + 1 in live
  }

  predicate Sole(ch: seq<int>, live: set<int>, r: int) {
    Active(ch, live) == {r}
  }

  /** The chain of leaf f: one active pair, but none when the leaf is the head's own. */
  ghost predicate OneActive(ch: seq<int>, f: int, live: set<int>) {
    if f > ONES then exists r {:trigger Sole(ch, live, r)} :: Sole(ch, live, r) else Active(ch, live) == {}
  }

  ghost predicate PairAt(m: Nodes, e: Env, r: int, live: set<int>, len: nat) {
    r in m && LeafNode(m[r], len) && r + 1 in m && r + 1 !in e.masks && (m[r + 1].active <==> r + 1 in live)
  }

  ghost predicate ChainAt(e: Env, f: int, live: set<int>) {
    f in e.chains && f in e.chains[f] && OneActive(e.chains[f], f, live) && forall r {:trigger r in e.chains[f]} :: r in e.chains[f] ==> r in e.masks
  }

  /** The pairs of a table whose tree has these leaves and branches. */
  ghost predicate Paired(m: Nodes, e: Env, leaves: set<int>, live: set<int>, len: nat) {
    && TOP !in e.masks
    && (forall r {:trigger r in e.masks} :: r in e.masks && r > ONES ==> PairAt(m, e, r, live, len))
    && (forall j {:trigger j in live} :: j in live ==> j == TOP || Owned(e, j))
    && (forall f {:trigger f in leaves} :: f in leaves ==> ChainAt(e, f, live))
  }

  /** The branch is the second half of some route's pair. */
  predicate Owned(e: Env, j: int) {
    j - 1 in e.masks && j - 1 > ONES
  }

  lemma PairedFrom(m: Nodes, e: Env, leaves: set<int>, live: set<int>, len: nat)
    requires TOP !in e.masks
    requires forall r {:trigger r in e.masks} :: r in e.masks && r > ONES ==> PairAt(m, e, r, live, len)
    requires forall j {:trigger j in live} :: j in live ==> j == TOP || Owned(e, j)
    requires forall f {:trigger f in leaves} :: f in leaves ==> ChainAt(e, f, live)
    ensures Paired(m, e, leaves, live, len)
  {
  }

  lemma RouteIsPair(m: Nodes, e: Env, leaves: set<int>, live: set<int>, len: nat, r: int)
    requires Paired(m, e, leaves, live, len) && r in e.masks && r > ONES
    ensures PairAt(m, e, r, live, len)
    ensures r in m && r + 1 in m && r + 1 !in e.masks && LeafNode(m[r], len) && (m[r + 1].active <==> r + 1 in live)
  {
    hide OneActive, LeafNode, Owned;
  }

  lemma TopIsNoRoute(m: Nodes, e: Env, leaves: set<int>, live: set<int>, len: nat)
    requires Paired(m, e, leaves, live, len)
    ensures TOP !in e.masks && ZEROS < TOP < ONES
  {
    hide PairAt, ChainAt, Owned;
  }

  /** No route has the address of a branch. */
  lemma RouteIsNoBranch(m: Nodes, e: Env, leaves: set<int>, live: set<int>, len: nat, r: int)
    requires Paired(m, e, leaves, live, len) && r in e.masks
    ensures r !in live
  {
    hide ChainAt, LeafNode;
    if r in live {
      assert Owned(e, r);
      RouteIsPair(m, e, leaves, live, len, r - 1);
    }
  }

  lemma LeafChain(m: Nodes, e: Env, leaves: set<int>, live: set<int>, len: nat, f: int)
    requires Paired(m, e, leaves, live, len) && f in leaves
    ensures f in e.chains && f in e.chains[f] && OneActive(e.chains[f], f, live) && ChainAt(e, f, live)
    ensures forall r {:trigger r in e.chains[f]} :: r in e.chains[f] ==> r in e.masks
  {
    hide OneActive, PairAt, Owned;
  }

  lemma BranchIsOwned(m: Nodes, e: Env, leaves: set<int>, live: set<int>, len: nat, j: int)
    requires Paired(m, e, leaves, live, len) && j in live && j != TOP
    ensures j - 1 in e.masks && j - 1 > ONES && Owned(e, j)
  {
    hide ChainAt, PairAt;
  }

  lemma PairedAtFirst(m: Nodes, e: Env, len: nat)
    requires e.masks == map[ZEROS := Host, ONES := Host] && e.chains == map[ZEROS := [ZEROS], ONES := [ONES]]
    ensures Paired(m, e, {ZEROS, ONES}, {TOP}, len)
  {
    assert Active([ZEROS], {TOP}) == {} && Active([ONES], {TOP}) == {};
  }

  // ---- chains that change ----

  /** Other branches than those of its routes do not matter to a chain. */
  lemma ActiveSame(ch: seq<int>, live: set<int>, live': set<int>)
    requires forall r {:trigger r in ch} :: r in ch && r > ONES ==> (r + 1 in live <==> r + 1 in live')
    ensures Active(ch, live') == Active(ch, live)
  {
  }

  lemma SameActive(ch: seq<int>, f: int, live: set<int>, ch': seq<int>, f': int, live': set<int>)
    requires OneActive(ch, f, live) && Active(ch', live') == Active(ch, live) && (f > ONES <==> f' > ONES)
    ensures OneActive(ch', f', live')
  {
    hide Active;
    if f > ONES {
      var r :| Sole(ch, live, r);
      assert Sole(ch', live', r);
    }
  }

  lemma IsSole(ch: seq<int>, f: int, live: set<int>, r: int)
    requires Active(ch, live) == {r} && f > ONES
    ensures OneActive(ch, f, live)
  {
    hide Active;
    assert Sole(ch, live, r);
  }

  /** The one active route of a chain. */
  lemma ActiveIs(ch: seq<int>, f: int, live: set<int>, r: int)
    requires OneActive(ch, f, live) && r in ch && r > ONES && r + 1 in live
    ensures f > ONES && Active(ch, live) == {r}
  {
    assert r in Active(ch, live);
  }

  lemma ChainStays(e: Env, e': Env, f: int, live: set<int>, live': set<int>)
    requires ChainAt(e, f, live) && f in e'.chains && e'.chains[f] == e.chains[f]
    requires forall r {:trigger r in e.chains[f]} :: r in e.chains[f] ==> r in e'.masks && (r > ONES ==> (r + 1 in live <==> r + 1 in live'))
    ensures ChainAt(e', f, live')
  {
    hide Active;
    ActiveSame(e.chains[f], live, live');
    SameActive(e.chains[f], f, live, e'.chains[f], f, live');
  }

  // ---- a route is added ----

  /** The new pair as a leaf and the branch above it. */
  lemma PairedWithLeaf(m: Nodes, m': Nodes, e: Env, e': Env, leaves: set<int>, live: set<int>, node: int, mask: Mask, len: nat)
    requires Paired(m, e, leaves, live, len) && ONES < node && node !in m && node + 1 !in m && node !in e.masks && node + 1 !in e.masks
    requires node !in live && node + 1 !in live && node !in leaves
    requires e'.masks == e.masks[node := mask] && e'.chains == e.chains[node := [node]]
    requires node in m' && LeafNode(m'[node], len) && node + 1 in m' && m'[node + 1].active
    requires forall i {:trigger i in m} :: i in m ==> i in m' && m'[i].active == m[i].active
    requires forall r {:trigger r in e.masks} :: r in e.masks && r in m ==> r in m' && m'[r] == m[r].(p := m'[r].p)
    ensures Paired(m', e', leaves + {node}, live + {node + 1}, len)
  {
    hide *;
    var live' := live + {node + 1};
    TopIsNoRoute(m, e, leaves, live, len);
    forall r {:trigger r in e'.masks} | r in e'.masks && r > ONES
      ensures PairAt(m', e', r, live', len)
    {
      if r == node {
        NewPairAt(m', e', node, live', len);
      } else {
        RouteIsPair(m, e, leaves, live, len, r);
        OldPairAt(m, m', e, e', r, live, live', len);
      }
    }
    forall j {:trigger j in live'} | j in live'
      ensures j == TOP || Owned(e', j)
    {
      if j != TOP {
        if j != node + 1 {
          BranchIsOwned(m, e, leaves, live, len, j);
        }
        OwnedFrom(e', j);
      }
    }
    forall f {:trigger f in leaves + {node}} | f in leaves + {node}
      ensures ChainAt(e', f, live')
    {
      if f == node {
        NewChainAt(e', node, live, live');
      } else {
        LeafChain(m, e, leaves, live, len, f);
        ChainStays(e, e', f, live, live');
      }
    }
    PairedFrom(m', e', leaves + {node}, live', len);
  }

  lemma OwnedFrom(e: Env, j: int)
    requires j - 1 in e.masks && j - 1 > ONES
    ensures Owned(e, j)
  {
  }

  lemma NewPairAt(m: Nodes, e: Env, r: int, live: set<int>, len: nat)
    requires r in m && LeafNode(m[r], len) && r + 1 in m && r + 1 !in e.masks && (m[r + 1].active <==> r + 1 in live)
    ensures PairAt(m, e, r, live, len)
  {
  }

  lemma OldPairAt(m: Nodes, m': Nodes, e: Env, e': Env, r: int, live: set<int>, live': set<int>, len: nat)
    requires PairAt(m, e, r, live, len) && r in m' && m'[r] == m[r].(p := m'[r].p) && r + 1 in m' && r + 1 !in e'.masks
    requires (m'[r + 1].active <==> m[r + 1].active) && (r + 1 in live <==> r + 1 in live')
    ensures PairAt(m', e', r, live', len)
  {
  }

  lemma NewChainAt(e: Env, node: int, live: set<int>, live': set<int>)
    requires node in e.chains && e.chains[node] == [node] && node in e.masks && ONES < node && live' == live + {node + 1}
    ensures ChainAt(e, node, live')
  {
    assert Active([node], live') == {node};
    IsSole([node], node, live', node);
  }

  /** The new pair in a chain: its second half is free. */
  lemma PairedInChain(m: Nodes, m': Nodes, e: Env, e': Env, leaves: set<int>, live: set<int>, f: int, f': int, node: int, mask: Mask, i: nat, len: nat)
    requires Paired(m, e, leaves, live, len) && ONES < node && node !in m && node + 1 !in m && node !in e.masks && node + 1 !in e.masks
    requires node !in live && node + 1 !in live && f in leaves && f in e.chains && i <= |e.chains[f]|
    requires f' == (if i == 0 then node else f) && (i == 0 ==> f > ONES)
    requires e'.masks == e.masks[node := mask] && e'.chains == e.chains[f' := e.chains[f][..i] + [node] + e.chains[f][i..]]
    requires node in m' && LeafNode(m'[node], len) && node + 1 in m' && !m'[node + 1].active
    requires forall i {:trigger i in m} :: i in m ==> i in m' && m'[i].active == m[i].active
    requires forall r {:trigger r in e.masks} :: r in e.masks && r in m ==> r in m' && m'[r] == m[r].(p := m'[r].p)
    ensures Paired(m', e', leaves - {f} + {f'}, live, len)
  {
    hide *;
    TopIsNoRoute(m, e, leaves, live, len);
    forall r {:trigger r in e'.masks} | r in e'.masks && r > ONES
      ensures PairAt(m', e', r, live, len)
    {
      if r == node {
        NewPairAt(m', e', node, live, len);
      } else {
        RouteIsPair(m, e, leaves, live, len, r);
        OldPairAt(m, m', e, e', r, live, live, len);
      }
    }
    forall j {:trigger j in live} | j in live
      ensures j == TOP || Owned(e', j)
    {
      if j != TOP {
        BranchIsOwned(m, e, leaves, live, len, j);
        OwnedFrom(e', j);
      }
    }
    var leaves' := leaves - {f} + {f'};
    LeafChain(m, e, leaves, live, len, f);
    forall g {:trigger g in leaves'} | g in leaves'
      ensures ChainAt(e', g, live)
    {
      if g == f' {
        LongerChainAt(e, e', f, f', node, i, live);
      } else {
        LeafChain(m, e, leaves, live, len, g);
        ChainStays(e, e', g, live, live);
      }
    }
    PairedFrom(m', e', leaves', live, len);
  }

  lemma LongerChainAt(e: Env, e': Env, f: int, f': int, node: int, i: nat, live: set<int>)
    requires ChainAt(e, f, live) && i <= |e.chains[f]| && ONES < node && node + 1 !in live && (f > ONES <==> f' > ONES) && f' == if i == 0 then node else f
    requires f' in e'.chains && e'.chains[f'] == e.chains[f][..i] + [node] + e.chains[f][i..]
    requires node in e'.masks && forall r {:trigger r in e'.masks} :: r in e.masks ==> r in e'.masks
    ensures ChainAt(e', f', live)
  {
    var ch, ch' := e.chains[f], e'.chains[f'];
    forall r {:trigger r in ch'}
      ensures r in ch' <==> r in ch || r == node
    {
      InsertedIn(ch, i, node, r);
    }
    assert Active(ch', live) == Active(ch, live);
    SameActive(ch, f, live, ch', f', live);
  }

  lemma InsertedIn(ch: seq<int>, i: nat, node: int, r: int)
    requires i <= |ch|
    ensures r in ch[..i] + [node] + ch[i..] <==> r in ch || r == node
  {
    assert ch == ch[..i] + ch[i..];
  }

  // ---- a route is deleted ----

  /** What a deletion leaves of the other pairs. */
  ghost predicate OthersPaired(m: Nodes, m': Nodes, e: Env, e': Env, gone: int) {
    && e'.masks == e.masks - {gone}
    && forall r {:trigger r in e'.masks} :: r in e'.masks && r > ONES && r in m && r + 1 in m ==>
         r in m' && m'[r] == m[r].(p := m'[r].p) && r + 1 in m'
  }

  /** Chains of other leaves do not have these routes. */
  ghost predicate Elsewhere(e: Env, leaves: set<int>, f: int, r: int) {
    forall g {:trigger g in leaves} :: g in leaves && g != f && g in e.chains ==> r !in e.chains[g]
  }

  ghost predicate OtherChains(e: Env, e': Env, leaves: set<int>, f: int) {
    forall g {:trigger g in leaves} :: g in leaves && g != f && g in e.chains ==> g in e'.chains && e'.chains[g] == e.chains[g]
  }

  lemma OtherPair(m: Nodes, m': Nodes, e: Env, e': Env, leaves: set<int>, live: set<int>, live': set<int>, gone: int, r: int, len: nat)
    requires Paired(m, e, leaves, live, len) && OthersPaired(m, m', e, e', gone) && r in e'.masks && r > ONES && r != gone
    requires r + 1 in m && r + 1 in m' ==> (m'[r + 1].active <==> r + 1 in live')
    ensures PairAt(m', e', r, live', len)
  {
    hide OneActive, Owned, Active;
    RouteIsPair(m, e, leaves, live, len, r);
  }

  lemma OtherChain(m: Nodes, e: Env, e': Env, leaves: set<int>, live: set<int>, live': set<int>, f: int, g: int, gone: int, x: int, len: nat)
    requires Paired(m, e, leaves, live, len) && OtherChains(e, e', leaves, f) && g in leaves && g != f && e'.masks == e.masks - {gone}
    requires Elsewhere(e, leaves, f, gone) && Elsewhere(e, leaves, f, x)
    requires forall r {:trigger r + 1 in live'} :: r != gone && r != x && r in e.masks ==> (r + 1 in live' <==> r + 1 in live)
    ensures ChainAt(e', g, live')
  {
    hide OneActive, PairAt, Active, Owned;
    LeafChain(m, e, leaves, live, len, g);
    ChainStays(e, e', g, live, live');
  }

  /** The route was alone in its chain, so its own pair was the active one. */
  lemma PairedAlone(m: Nodes, m': Nodes, e: Env, e': Env, leaves: set<int>, live: set<int>, gone: int, len: nat)
    requires Paired(m, e, leaves, live, len) && OthersPaired(m, m', e, e', gone) && OtherChains(e, e', leaves, gone) && Elsewhere(e, leaves, gone, gone)
    requires gone in leaves && gone > ONES
    requires forall r {:trigger r in e'.masks} :: r in e'.masks && r > ONES && r + 1 in m && r + 1 in m' ==> m'[r + 1].active == m[r + 1].active
    ensures Paired(m', e', leaves - {gone}, live - {gone + 1}, len)
  {
    hide *;
    var live', leaves' := live - {gone + 1}, leaves - {gone};
    OthersMasks(m, m', e, e', gone);
    TopIsNoRoute(m, e, leaves, live, len);
    forall r {:trigger r in e'.masks} | r in e'.masks && r > ONES
      ensures PairAt(m', e', r, live', len)
    {
      RouteIsPair(m, e, leaves, live, len, r);
      OtherPair(m, m', e, e', leaves, live, live', gone, r, len);
    }
    forall j {:trigger j in live'} | j in live'
      ensures j == TOP || Owned(e', j)
    {
      if j != TOP {
        BranchIsOwned(m, e, leaves, live, len, j);
        OwnedFrom(e', j);
      }
    }
    forall g {:trigger g in leaves'} | g in leaves'
      ensures ChainAt(e', g, live')
    {
      OtherChain(m, e, e', leaves, live, live', gone, g, gone, gone, len);
    }
    PairedFrom(m', e', leaves', live', len);
  }

  lemma OthersMasks(m: Nodes, m': Nodes, e: Env, e': Env, gone: int)
    requires OthersPaired(m, m', e, e', gone)
    ensures e'.masks == e.masks - {gone}
    ensures forall r {:trigger r in e'.masks} :: r in e'.masks <==> r in e.masks && r != gone
  {
  }

  /** A chain without one of its routes. */
  ghost predicate Without(ch: seq<int>, ch': seq<int>, gone: int) {
    forall r {:trigger r in ch} {:trigger r in ch'} :: r in ch' <==> r in ch && r != gone
  }

  /** The route leaves a chain in which another pair is the active one. */
  lemma PairedInactive(m: Nodes, m': Nodes, e: Env, e': Env, leaves: set<int>, live: set<int>, f: int, f': int, gone: int, len: nat)
    requires Paired(m, e, leaves, live, len) && OthersPaired(m, m', e, e', gone) && OtherChains(e, e', leaves, f) && Elsewhere(e, leaves, f, gone)
    requires f in leaves && f in e.chains && f' in e'.chains && f' in e'.chains[f'] && Without(e.chains[f], e'.chains[f'], gone) && (f > ONES <==> f' > ONES) && gone + 1 !in live
    requires forall r {:trigger r in e'.masks} :: r in e'.masks && r > ONES && r + 1 in m && r + 1 in m' ==> m'[r + 1].active == m[r + 1].active
    ensures Paired(m', e', leaves - {f} + {f'}, live, len)
  {
    hide *;
    var leaves' := leaves - {f} + {f'};
    OthersMasks(m, m', e, e', gone);
    TopIsNoRoute(m, e, leaves, live, len);
    forall r {:trigger r in e'.masks} | r in e'.masks && r > ONES
      ensures PairAt(m', e', r, live, len)
    {
      RouteIsPair(m, e, leaves, live, len, r);
      OtherPair(m, m', e, e', leaves, live, live, gone, r, len);
    }
    forall j {:trigger j in live} | j in live
      ensures j == TOP || Owned(e', j)
    {
      if j != TOP {
        BranchIsOwned(m, e, leaves, live, len, j);
        OwnedFrom(e', j);
      }
    }
    LeafChain(m, e, leaves, live, len, f);
    forall g {:trigger g in leaves'} | g in leaves'
      ensures ChainAt(e', g, live)
    {
      if g == f' {
        ShorterChainAt(e, e', f, f', gone, live);
      } else {
        OtherChain(m, e, e', leaves, live, live, f, g, gone, gone, len);
      }
    }
    PairedFrom(m', e', leaves', live, len);
  }

  lemma ShorterChainAt(e: Env, e': Env, f: int, f': int, gone: int, live: set<int>)
    requires ChainAt(e, f, live) && f' in e'.chains && f' in e'.chains[f'] && Without(e.chains[f], e'.chains[f'], gone) && (f > ONES <==> f' > ONES) && gone + 1 !in live
    requires e'.masks == e.masks - {gone}
    ensures ChainAt(e', f', live)
  {
    assert Active(e'.chains[f'], live) == Active(e.chains[f], live);
    SameActive(e.chains[f], f, live, e'.chains[f'], f', live);
  }

  /** The route leaves a chain in which its own pair was the active one: its branch has moved to the
      pair of the chain's first route. */
  lemma PairedActive(m: Nodes, m': Nodes, e: Env, e': Env, leaves: set<int>, live: set<int>, f: int, x: int, gone: int, len: nat)
    requires Paired(m, e, leaves, live, len) && OthersPaired(m, m', e, e', gone) && OtherChains(e, e', leaves, f)
    requires Elsewhere(e, leaves, f, gone) && Elsewhere(e, leaves, f, x)
    requires f in leaves && f in e.chains && x in e'.chains && Without(e.chains[f], e'.chains[x], gone) && x > ONES && gone > ONES
    requires x in e'.chains[x] && gone in e.chains[f] && gone + 1 in live
    requires forall r {:trigger r in e'.masks} :: r in e'.masks && r > ONES && r + 1 in m && r + 1 in m' ==> (m'[r + 1].active <==> r == x || m[r + 1].active)
    ensures Paired(m', e', leaves - {f} + {x}, live - {gone + 1} + {x + 1}, len)
  {
    hide *;
    var leaves', live' := leaves - {f} + {x}, live - {gone + 1} + {x + 1};
    OthersMasks(m, m', e, e', gone);
    TopIsNoRoute(m, e, leaves, live, len);
    LeafChain(m, e, leaves, live, len, f);
    WithoutAt(e.chains[f], e'.chains[x], gone, x);
    forall r {:trigger r in e'.masks} | r in e'.masks && r > ONES
      ensures PairAt(m', e', r, live', len)
    {
      RouteIsPair(m, e, leaves, live, len, r);
      OtherPair(m, m', e, e', leaves, live, live', gone, r, len);
    }
    forall j {:trigger j in live'} | j in live'
      ensures j == TOP || Owned(e', j)
    {
      if j != TOP {
        if j != x + 1 {
          BranchIsOwned(m, e, leaves, live, len, j);
        }
        OwnedFrom(e', j);
      }
    }
    forall g {:trigger g in leaves'} | g in leaves'
      ensures ChainAt(e', g, live')
    {
      if g == x {
        ActiveIs(e.chains[f], f, live, gone);
        MovedChainAt(e, e', f, x, gone, live, live');
      } else {
        OtherChain(m, e, e', leaves, live, live', f, g, gone, x, len);
      }
    }
    PairedFrom(m', e', leaves', live', len);
  }

  lemma WithoutAt(ch: seq<int>, ch': seq<int>, gone: int, x: int)
    requires Without(ch, ch', gone) && x in ch'
    ensures x in ch && x != gone
  {
  }

  lemma MovedChainAt(e: Env, e': Env, f: int, x: int, gone: int, live: set<int>, live': set<int>)
    requires ChainAt(e, f, live) && x in e'.chains && Without(e.chains[f], e'.chains[x], gone) && x > ONES && x in e'.chains[x]
    requires Active(e.chains[f], live) == {gone} && live' == live - {gone + 1} + {x + 1} && e'.masks == e.masks - {gone}
    ensures ChainAt(e', x, live')
  {
    var ch, ch' := e.chains[f], e'.chains[x];
    forall r | r in Active(ch', live')
      ensures r == x
    {
      assert r in ch && r != gone;
      assert r != x ==> r in Active(ch, live);
    }
    assert Active(ch', live') == {x};
    IsSole(ch', x, live', x);
  }
}
