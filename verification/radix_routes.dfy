/** radix.c with network masks that are contiguous: every added route is kept with its mask in a chain
    and on a list until it is deleted, and a lookup finds the most specific route for an address. */
module RadixRoutes {
  import opened RadixKeys
  import opened RadixTrie
  import opened RadixNodes
  import opened RadixShape
  import opened RadixRemovals
  import opened RadixLists
  import opened RadixListings
  import opened RadixAdds
  import opened RadixTables
  import opened RadixLookups
  import opened RadixEnlists
  import opened RadixPairs
  import opened RadixDelists
  import opened RadixDeletes
  import opened RadixDepartures
  import opened RadixWalks
  import opened RadixVisits

  class Table {
    var nodes: Nodes
    var env: Env
    const off: nat
    const len: nat
    ghost var tree: Trie

    ghost predicate Valid()
      reads this
    {
      Routing(nodes, env, tree, off, len) && PairedIn(nodes, env, tree, len)
    }

    lemma ValidFacts()
      requires Valid()
      ensures Routing(nodes, env, tree, off, len) && PairedIn(nodes, env, tree, len)
    {
    }

    lemma ValidFrom()
      requires Routing(nodes, env, tree, off, len) && PairedIn(nodes, env, tree, len)
      ensures Valid()
    {
    }

    /** `squid_rn_inithead` for keys that are compared from byte off on. */
    constructor (off: nat, len: nat)
      requires 0 < off < len < 256
      ensures Valid() && this.off == off && this.len == len && env.masks == map[ZEROS := Host, ONES := Host] && nodes.Keys == {ZEROS, TOP, ONES}
    {
      this.off, this.len := off, len;
      nodes := map[
        ZEROS := Node(-1 - 8 * off, 0, 0, true, true, TOP, 0, 0, Zeros(len)),
        TOP := Node(8 * off, MaskBit(8 * off), off, true, true, TOP, ZEROS, ONES, []),
        ONES := Node(-1 - 8 * off, 0, 0, true, true, TOP, 0, 0, Ones(len))];
      env := Env(map[ZEROS := [ZEROS], ONES := [ONES]], map[ZEROS := Host, ONES := Host], map[TOP := []], {});
      tree := Branch(TOP, 8 * off, Leaf(ZEROS, Zeros(len)), Leaf(ONES, Ones(len)));
      new;
      InitialTree(nodes, tree, off, len);
      InitialRouting(nodes, env, tree, off, len);
      PairedAtFirst(nodes, env, len);
    }

    /** `squid_rn_addroute`: a route with this key and mask is refused if there is one already, and
        otherwise added to all that were there before. */
    method AddRoute(v: Key, mask: Mask, node: int) returns (tt: int)
      requires Valid() && WellKeyed(v, len) && Fitting(v, mask, off, len)
      requires ONES < node && node !in nodes && node + 1 !in nodes
      modifies this
      ensures Valid() && (tt == NONE || tt == node)
      ensures tt == NONE ==> nodes == old(nodes) && env == old(env) && exists r :: SameRoute(nodes, env, r, v, mask, off, len)
      ensures tt == node ==> Extended(old(nodes), nodes, old(env), env, v, mask, node)
      ensures nodes.Keys <= old(nodes.Keys) + {node, node + 1}
      ensures tt == node ==> forall r :: !SameRoute(old(nodes), old(env), r, v, mask, off, len)
    {
      hide *;
      ValidFacts();
      RoutingFacts(nodes, env, tree, off, len);
      KeyLength(v, len);
      OwnIds(node);
      NodeIsNew(nodes, env, tree, node, off, len);
      ghost var c, f;
      var t, dup, b;
      t, c, f := Search(nodes, tree, off, len, v);
      FoundLeaf(nodes, env, tree, c, f, v, off, len);
      AtLeafFacts(nodes, env, tree, c, f, off, len);
      dup, b := FirstBit(off, len, v, nodes[t].key);
      var saved := node;
      ghost var f1;
      if dup {
        SameKeyBits(v, nodes[t].key, off, len);
        var i, refused := ChainPlace(t, mask, c, f, v);
        if refused {
          return NONE;
        }
        NoneInChain(nodes, env, tree, c, f, v, mask, i, off, len);
        c, f1 := Queue(t, mask, node, i, c, f, v);
        if i > 0 {
          saved := t;
        }
      } else {
        DifferFrom(v, nodes[t].key, b, off, len);
        NoneInTree(nodes, env, tree, c, f, v, b, mask, off, len);
        c, f1 := InsertNew(v, b, mask, node, f);
      }
      ghost var e1 := env;
      ExtendedParts(old(nodes), nodes, old(env), env, v, mask, node);
      Enlist(saved, mask, node, c, f1);
      ExtendedStill(old(nodes), nodes, old(env), e1, env, v, mask, node);
      tt := node;
    }

    /** The place in the chain of a leaf with this key: behind all routes that are more specific. */
    method ChainPlace(t: int, mask: Mask, ghost c: Context, ghost f: Trie, ghost v: Key) returns (i: nat, refused: bool)
      requires AtLeaf(nodes, env, tree, c, f, off, len) && t == f.id && SameBits(v, f.key, 8 * off, 8 * len) && Fitting(v, mask, off, len)
      ensures refused ==> exists r :: SameRoute(nodes, env, r, v, mask, off, len)
      ensures !refused ==> f.id in env.chains && Between(env, env.chains[f.id], i, mask, len) && (i == 0 ==> f.id > ONES)
    {
      hide *;
      AtLeafFacts(nodes, env, tree, c, f, off, len);
      ChainFacts(nodes, env, tree, c, f, off, len);
      ChainedParts(nodes, env, env.chains[t], f.id, f.key, off, len);
      var ch := env.chains[t];
      i := 0;
      while i < |ch| && env.masks[ch[i]] != mask && !Sharper(mask, env.masks[ch[i]])
        invariant 0 <= i <= |ch|
        invariant forall j {:trigger ch[j]} :: 0 <= j < i ==> env.masks[ch[j]] != mask && !Sharper(mask, env.masks[ch[j]])
      {
        i := i + 1;
      }
      refused := i < |ch| && env.masks[ch[i]] == mask;
      if refused {
        MemberAt(nodes, env, ch, f, i, off, len);
        SameAsMember(nodes, env, ch[i], f.key, v, mask, off, len);
      } else {
        PlaceBetween(nodes, env, ch, f, v, i, mask, off, len);
      }
    }

    /** The new leaf with its branch, and the routes that the branch takes over onto its list. */
    method InsertNew(v: Key, b: nat, mask: Mask, node: int, ghost f: Trie) returns (ghost c1: Context, ghost f1: Trie)
      requires Valid() && WellKeyed(v, len) && Fitting(v, mask, off, len) && f.Leaf? && f == Find(tree, v) && Differ(v, f.key, b, off, len)
      requires ONES < node && node !in nodes && node + 1 !in nodes && NewIn(env, tree, node)
      modifies this
      ensures PendingAt(nodes, env, tree, c1, f1, node, off, len) && f1.id == node && PairedIn(nodes, env, tree, len)
      ensures Extended(old(nodes), nodes, old(env), env, v, mask, node) && nodes.Keys <= old(nodes.Keys) + {node, node + 1}
    {
      hide *;
      ValidFacts();
      RoutingFacts(nodes, env, tree, off, len);
      DifferBounds(v, f.key, b, off, len);
      DifferAt(v, f.key, b, off, len);
      KeyLength(v, len);
      ghost var c, s;
      var p, x;
      p, x, c, s := Place(nodes, tree, off, len, v, b, f);
      NewSiteFacts(nodes, env, tree, c, s, v, f, b, node, off, len);
      var m := nodes;
      var before := !HasBit(v[m[p].off], m[p].mask);
      var bit := HasBit(v[b / 8], MaskBit(b));
      m := m[node + 1 := Node(b, MaskBit(b), b / 8, false, true, p, if bit then x else node, if bit then node else x, [])];
      m := m[node := Node(-1, 0, 0, false, true, node + 1, 0, 0, v)];
      m := m[p := if before then m[p].(l := node + 1) else m[p].(r := node + 1)];
      m := m[x := m[x].(p := node + 1)];
      SplicedBy(nodes, m, c, s, v, b, node, len);
      InsertKeepsShape(nodes, m, tree, c, s, v, b, node, off, len);
      var e1, l0, l1 := TakeOver(x, b, mask, node, c, s);
      SplicedNewLeaf(nodes, m, c, s, v, b, mask, node, off, len);
      NewLeafKept(nodes, m, env, e1, c, s, v, b, mask, node, l0, l1, off, len);
      c1, f1 := if BitAt(v, b) then InRight(node + 1, b, s, c) else InLeft(node + 1, b, s, c), Leaf(node, v);
      NewLeafPending(nodes, m, env, e1, tree, c, s, v, b, mask, node, l0, l1, off, len);
      PairedWithNewLeaf(nodes, m, env, e1, tree, c, s, v, b, mask, node, l0, l1, off, len);
      nodes, env := m, e1;
      tree := Plug(c, NewPair(s, v, b, node, node + 1));
    }

    /** The routes of the sibling whose masks end at the new branch or before. */
    method TakeOver(x: int, b: nat, mask: Mask, node: int, ghost c: Context, ghost s: Trie) returns (e1: Env, ghost l0: seq<Entry>, l1: seq<Entry>)
      requires x == s.id && x in nodes && (nodes[x].b < 0 <==> s.Leaf?) && Kept(nodes, env, env.masks.Keys, s, UpBit(c), off, len)
      ensures Promoted(env, e1, s, b, node, mask, l0, l1)
    {
      hide *;
      var chains, masks := env.chains[node := [node]], env.masks[node := mask];
      l0, l1 := [], [];
      if nodes[x].b < 0 {
        KeptLeaf(nodes, env, env.masks.Keys, s, UpBit(c), off, len);
        ChainedParts(nodes, env, env.chains[x], s.id, s.key, off, len);
        var ch, listed, i := env.chains[x], env.listed, 0;
        RisenStart(env, ch, b, l1);
        while i < |ch|
          invariant 0 <= i <= |ch| && RisenTo(env, ch, i, b, l1, listed)
        {
          var r := ch[i];
          RisenStep(env, ch, i, b, l1, listed, len);
          if env.masks[r].Net? && env.masks[r].index <= b && r !in listed {
            l1 := l1 + [Entry(env.masks[r].index, env.masks[r].index > 0, r)];
            listed := listed + {r};
          }
          i := i + 1;
        }
        e1 := Env(chains, masks, env.lists[node + 1 := l1], listed);
        RisenEnd(env, e1, s, b, node, mask, l0, l1);
      } else {
        KeptBranch(nodes, env, env.masks.Keys, s, UpBit(c), off, len);
        var l, i := env.lists[x], 0;
        while i < |l| && b < l[i].index
          invariant 0 <= i <= |l| && forall j {:trigger l[j]} :: 0 <= j < i ==> b < l[j].index
        {
          i := i + 1;
        }
        l0, l1 := l[..i], l[i..];
        e1 := Env(chains, masks, env.lists[x := l[..i]][node + 1 := l1], env.listed);
        SplitEnd(env, e1, s, b, node, mask, l, i);
      }
    }

    /** The new route in the chain of the leaf with its key. */
    method Queue(t: int, mask: Mask, node: int, i: nat, ghost c: Context, ghost f: Trie, v: Key) returns (ghost c1: Context, ghost f1: Trie)
      requires AtLeaf(nodes, env, tree, c, f, off, len) && t == f.id && SameBits(v, f.key, 8 * off, 8 * len) && Fitting(v, mask, off, len) && WellKeyed(v, len)
      requires ONES < node && node !in nodes && node + 1 !in nodes && NewIn(env, tree, node) && OnPath(c, v)
      requires f.id in env.chains && Between(env, env.chains[f.id], i, mask, len) && (i == 0 ==> f.id > ONES) && PairedIn(nodes, env, tree, len)
      modifies this
      ensures PendingAt(nodes, env, tree, c1, f1, node, off, len) && f1.id == (if i == 0 then node else t) && PairedIn(nodes, env, tree, len)
      ensures Extended(old(nodes), nodes, old(env), env, v, mask, node) && nodes.Keys <= old(nodes.Keys) + {node, node + 1}
    {
      hide *;
      ghost var nodes0 := nodes;
      SpareNode(nodes, env, tree, c, f, node + 1, off, len);
      nodes := nodes[node + 1 := FREE];
      AtLeafFacts(nodes, env, tree, c, f, off, len);
      ChainFacts(nodes, env, tree, c, f, off, len);
      KeyLength(v, len);
      QueueSite(nodes, env, tree, c, f, node, off, len);
      BetweenBounds(env, env.chains[t], i, mask, len);
      var ch := env.chains[t];
      var m;
      if i == 0 {
        var x := nodes[t].p;
        m := nodes[node := Node(-1, 0, 0, false, true, x, 0, 0, v)];
        m := m[x := if m[x].l == t then m[x].(l := node) else m[x].(r := node)];
        f1 := Leaf(node, v);
        ReheadedBy(nodes, m, c, f, v, node);
        AtLeafShape(nodes, env, tree, c, f, off, len);
        ReheadedShape(nodes, tree, c, f, v, node, off, len);
      } else {
        m := nodes[node := Node(-1, 0, 0, false, true, 0, 0, 0, v)];
        f1 := f;
        BesideShape(nodes, m, env, tree, c, f, node, off, len);
      }
      var e1 := Env(env.chains[if i == 0 then node else t := ch[..i] + [node] + ch[i..]], env.masks[node := mask], env.lists, env.listed);
      QueuedBy(nodes, m, env, e1, c, f, f1, v, mask, node, i, off, len);
      QueuedKept(nodes, m, env, e1, c, f, f1, v, mask, node, i, off, len);
      QueuedPending(nodes, m, env, e1, tree, c, f, f1, v, mask, node, i, off, len);
      PairedWithQueued(nodes0, nodes, m, env, e1, tree, c, f, f1, v, mask, node, i, off, len);
      ExtendedMore(nodes0, nodes, m, env, e1, v, mask, node);
      c1 := c;
      nodes, env := m, e1;
      tree := Plug(c, f1);
    }

    /** The second half of `squid_rn_addroute`: the route goes onto the list of the highest node that
        tests no bit of its mask, if there is one. */
    method Enlist(saved: int, mask: Mask, node: int, ghost c: Context, ghost f: Trie)
      requires PendingAt(nodes, env, tree, c, f, node, off, len) && saved == f.id && node in env.masks && env.masks[node] == mask
      requires PairedIn(nodes, env, tree, len)
      modifies this`env
      ensures Valid() && env.masks == old(env.masks)
    {
      hide *;
      PendingParts(nodes, env, tree, c, f, node, off, len);
      var x := nodes[saved].p;
      if mask.Host? || mask.index > nodes[x].b {
        StaysOff(nodes, env, tree, c, f, node, off, len);
        ValidFrom();
        return;
      }
      PendingRises(nodes, env, tree, c, f, node, off, len);
      var t := nodes[x].p;
      ghost var cx, sx := c.up, Join(c, f);
      while mask.index <= nodes[t].b && x != TOP
        invariant env == old(env)
        invariant Rising(nodes, env, tree, cx, sx, f, node, off, len) && x == sx.id && t == UpId(cx, x) && t in nodes && (x == TOP <==> cx.Hole?)
        invariant x != TOP ==> nodes[t].b == UpBit(cx)
        decreases cx
      {
        RisesOn(nodes, env, tree, cx, sx, f, node, off, len);
        x := t;
        cx, sx := cx.up, Join(cx, sx);
        t := nodes[x].p;
      }
      RisingParts(nodes, env, tree, cx, sx, f, node, off, len);
      HoleBit(cx);
      var l, j := env.lists[x], 0;
      while j < |l| && mask.index < l[j].index
        invariant 0 <= j <= |l| && forall k {:trigger l[k]} :: 0 <= k < j ==> mask.index < l[k].index
      {
        j := j + 1;
      }
      NoTwin(nodes, env, tree, c, cx, sx, f, node, l, off, len);
      if j < |l| && l[j].index == mask.index {
        return;
      }
      ghost var e0 := env;
      env := Env(env.chains, env.masks, env.lists[x := l[..j] + [Entry(mask.index, mask.index > 0, node)] + l[j..]], env.listed + {node});
      ListedNow(nodes, e0, env, tree, cx, sx, f, node, l, j, off, len);
      PairedSame(nodes, e0, env, tree, len);
      ValidFrom();
    }

    /** `squid_rn_delete`: the pair of the route comes back, with both halves marked as free, and none of
        them is left in the table.  Without a mask, the most specific route with the address goes,
        whatever its mask; the head's own leaves stay. */
    method Delete(v: Key, mask: Mask) returns (tt: int, freed: Nodes)
      requires Valid() && WellKeyed(v, len)
      modifies this
      ensures Valid()
      ensures tt == NONE <==> NoTarget(old(nodes), old(env), v, mask, off, len)
      ensures tt == NONE ==> nodes == old(nodes) && env == old(env) && tree == old(tree)
      ensures tt != NONE ==> Target(old(nodes), old(env), tt, v, mask, off, len) && Lessened(old(nodes), nodes, old(env), env, tt)
      ensures tt != NONE ==> Handed(freed, old(nodes), tt) && Unreachable(nodes, env, tree, tt)
    {
      hide *;
      ValidFacts();
      RoutingFacts(nodes, env, tree, off, len);
      KeyLength(v, len);
      freed := map[];
      ghost var c, f;
      var t, dup, b;
      t, c, f := Search(nodes, tree, off, len, v);
      FoundLeaf(nodes, env, tree, c, f, v, off, len);
      AtLeafFacts(nodes, env, tree, c, f, off, len);
      ChainFacts(nodes, env, tree, c, f, off, len);
      dup, b := FirstBit(off, len, v, nodes[t].key);
      if !dup {
        DifferFrom(v, nodes[t].key, b, off, len);
        NoKeyInTree(nodes, env, tree, c, f, v, b, mask, off, len);
        return NONE, freed;
      }
      SameKeyBits(v, nodes[t].key, off, len);
      var ch, i := env.chains[t], 0;
      ChainedParts(nodes, env, ch, f.id, f.key, off, len);
      if mask.Net? {
        while i < |ch| && env.masks[ch[i]] != mask
          invariant 0 <= i <= |ch|
          invariant forall j {:trigger ch[j]} :: 0 <= j < i && ch[j] in env.masks ==> env.masks[ch[j]] != mask
        {
          i := i + 1;
        }
        if i == |ch| {
          MaskNotThere(nodes, env, tree, c, f, v, mask, off, len);
          return NONE, freed;
        }
      }
      tt := ch[i];
      assert tt in ch;
      TargetInChain(nodes, env, tree, c, f, v, mask, i, off, len);
      PairIsLeaf(nodes, env, tree, tt, len);
      ghost var env0 := env;
      if tt in env.listed {
        Delist(t, tt, c, f);
        PairedSame(nodes, env0, env, tree, len);
      } else {
        OffItsLists(nodes, env, tree, c, f, tt, off, len);
      }
      if nodes[tt].root {
        return NONE, freed;
      }
      OwnIds(tt);
      ghost var env1 := env;
      if |ch| > 1 {
        QuittingFrom(nodes, env, tree, c, f, tt, i, off, len);
        freed := Drop(t, tt, i, c, f, v);
      } else {
        AloneFrom(nodes, env, tree, c, f, tt, i, off, len);
        freed := Unlink(tt, c, f);
      }
      LessenedStill(old(nodes), nodes, env1, old(env), env, tt);
    }

    /** The route's entry leaves the list of the highest node that tests no bit of its mask. */
    method Delist(leaf: int, tt: int, ghost c: Context, ghost f: Trie)
      requires AtLeaf(nodes, env, tree, c, f, off, len) && leaf == f.id && f.id in env.chains && tt in env.chains[f.id] && tt in env.listed
      modifies this`env
      ensures PendingAt(nodes, env, tree, c, f, tt, off, len) && env.chains == old(env.chains) && env.masks == old(env.masks)
    {
      hide *;
      ClimbStart(nodes, env, tree, c, f, tt, off, len);
      var index := env.masks[tt].index;
      var x := nodes[leaf].p;
      ghost var cx, sx := c.up, Join(c, f);
      ClimbPlace(nodes, env, tree, cx, sx, f, tt, off, len);
      var t := nodes[x].p;
      while index <= nodes[t].b && x != TOP
        invariant env == old(env)
        invariant Climbing(nodes, env, tree, cx, sx, f, tt, off, len) && x == sx.id && t == UpId(cx, x) && t in nodes && (x == TOP <==> cx.Hole?)
        invariant x != TOP ==> nodes[t].b == UpBit(cx)
        decreases cx
      {
        ClimbPlace(nodes, env, tree, cx, sx, f, tt, off, len);
        ClimbOn(nodes, env, tree, cx, sx, f, tt, off, len);
        x := t;
        cx, sx := cx.up, Join(cx, sx);
        ClimbPlace(nodes, env, tree, cx, sx, f, tt, off, len);
        t := nodes[x].p;
      }
      HoleBit(cx);
      EntryThere(nodes, env, tree, cx, sx, f, tt, off, len);
      var l, j := env.lists[x], 0;
      while l[j].leaf != tt
        invariant 0 <= j < |l| && forall k {:trigger l[k]} :: 0 <= k < j ==> l[k].leaf != tt
        decreases |l| - j
      {
        j := j + 1;
      }
      ghost var e0 := env;
      env := Env(env.chains, env.masks, env.lists[x := l[..j] + l[j + 1..]], env.listed - {tt});
      DelistedNow(nodes, e0, env, tree, c, cx, sx, f, tt, j, off, len);
    }

    /** The route leaves a chain in which there are others.  If its pair is the one whose branch is in
        the tree, the branch moves to the pair of the chain's first route. */
    method Drop(leaf: int, tt: int, i: nat, ghost c: Context, ghost f: Trie, ghost v: Key) returns (freed: Nodes)
      requires Quitting(nodes, env, tree, c, f, tt, i, off, len) && leaf == f.id && OnPath(c, v) && SameBits(v, f.key, 8 * off, 8 * len)
      modifies this
      ensures Valid() && Lessened(old(nodes), nodes, old(env), env, tt) && Handed(freed, old(nodes), tt) && Unreachable(nodes, env, tree, tt)
    {
      hide *;
      QuittingParts(nodes, env, tree, c, f, tt, i, off, len);
      DropSite(nodes, env, tree, c, f, tt, i, off, len);
      DropPlaces(nodes, env, tree, c, f, tt, i, off, len);
      var m, ch, x := nodes, env.chains[leaf], leaf;
      ghost var f1 := f;
      if i == 0 {
        x := ch[1];
        SecondIs(ch, i);
        var t := m[tt].p;
        m := m[x := m[x].(p := t)];
        m := m[t := if m[t].l == tt then m[t].(l := x) else m[t].(r := x)];
        f1 := Leaf(x, nodes[x].key);
      }
      SecondIs(ch, i);
      SuccessorBy(nodes, m, f, f1, ch, i);
      SucceededShape(nodes, m, env, tree, c, f, f1, tt, i, v, off, len);
      var e := Env(env.chains[x := ch[..i] + ch[i + 1..]], env.masks, env.lists, env.listed);
      DroppedNow(nodes, m, env, e, tree, c, f, f1, tt, i, v, off, len);
      ghost var t1 := Plug(c, f1);
      ActivityKept(nodes, m, tt + 1);
      if m[tt + 1].active {
        m, e, t1 := Transfer(nodes, m, env, e, tree, t1, f.id, x, tt);
      } else {
        InactiveLeft(nodes, m, env, e, tree, t1, f.id, x, tt, len);
      }
      freed := Retire(tt, m, e, t1);
      LessenedBy(old(nodes), m, nodes, old(env), env, tt);
      HandedBack(old(nodes), m, freed, old(env), tt);
    }

    /** The branch of the leaving pair moves to the pair of x. */
    method Transfer(ghost m0: Nodes, m1: Nodes, ghost e0: Env, e1: Env, ghost t0: Trie, ghost t1: Trie, ghost f: int, x: int, tt: int)
      returns (m: Nodes, e: Env, ghost t: Trie)
      requires PairedIn(m0, e0, t0, len) && Parting(m1, e1, t1, tt, off, len) && Steady(m0, m1, e0) && SameActivity(m0, m1) && m1.Keys == m0.Keys
      requires tt in e0.masks && tt > ONES && x in e0.masks && x != tt && tt + 1 in BranchIds(t0) && e1.masks == e0.masks
      requires f in LeafIds(t0) && f in e0.chains && tt in e0.chains[f] && x in e0.chains[f] && (f == tt || x == f) && (f > ONES <==> x > ONES)
      requires x in e1.chains && x in e1.chains[x] && Without(e0.chains[f], e1.chains[x], tt) && OtherChains(e0, e1, LeafIds(t0), f)
      requires Elsewhere(e0, LeafIds(t0), f, tt) && Elsewhere(e0, LeafIds(t0), f, x)
      requires LeafIds(t1) == LeafIds(t0) - {f} + {x} && BranchIds(t1) == BranchIds(t0)
      ensures Parting(m, e, t, tt, off, len) && Steady(m0, m, e0) && m.Keys == m0.Keys && e.masks == e0.masks
      ensures tt !in Ids(t) && tt + 1 !in Ids(t) && PairedIn(m - {tt, tt + 1}, e.(masks := e.masks - {tt}), t, len)
    {
      hide *;
      ActiveBeyond(m0, e0, t0, f, tt, len);
      OthersInactive(m0, e0, t0, f, tt, x, len);
      LeavesAreRoutes(m0, e0, t0, len);
      HalfOutside(m0, e0, t0, t1, x, len);
      NoBranchIsRoute(m0, e0, t0, len);
      PairHalves(m0, e0, t0, x, len);
      PairHalves(m0, e0, t0, tt, len);
      var y, z := tt + 1, x + 1;
      ghost var c, s := MoveSite(m1, e1, t1, tt, z, off, len);
      MovedStores(m1, c, s, y, z);
      MovableFacts(m1, c, s, y, z);
      PartingParts(m1, e1, t1, tt, off, len);
      BranchIsActive(m1, t1, y, off, len);
      m := m1[z := m1[y]];
      var p := m[y].p;
      m := m[p := if m[p].l == y then m[p].(l := z) else m[p].(r := z)];
      m := m[m[z].l := m[m[z].l].(p := z)];
      m := m[m[z].r := m[m[z].r].(p := z)];
      e := Env(e1.chains, e1.masks, e1.lists[z := e1.lists[y]], e1.listed);
      t := Plug(c, Branch(z, s.bit, s.left, s.right));
      MovedParting(m1, e1, e, t1, c, s, y, z, tt, len, off);
      OtherActivity(m1, c, s, y, z);
      SteadySame(m1, m, e1, e0);
      SteadyTrans(m0, m1, m, e0);
      ActiveLeft(m0, m1, m, e0, e1, e, t0, t1, t, f, x, tt, len);
    }

    /** The last route of a leaf leaves with it and with the branch above.  If that is not the branch of
        the route's own pair, the pair's branch takes its place. */
    method Unlink(tt: int, ghost c: Context, ghost f: Trie) returns (freed: Nodes)
      requires Alone(nodes, env, tree, c, f, tt, off, len)
      modifies this
      ensures Valid() && Lessened(old(nodes), nodes, old(env), env, tt) && Handed(freed, old(nodes), tt) && Unreachable(nodes, env, tree, tt)
    {
      hide *;
      AloneParts(nodes, env, tree, c, f, tt, off, len);
      UnlinkSite(nodes, env, tree, c, f, tt, off, len);
      UnlinkFacts(nodes, c, f);
      var m := nodes;
      var t := m[tt].p;
      var x := if m[t].l == tt then m[t].r else m[t].l;
      var p := m[t].p;
      m := m[p := if m[p].r == t then m[p].(r := x) else m[p].(l := x)];
      m := m[x := m[x].(p := p)];
      var e := HandDown(t, x, c, f, tt);
      DemotedNow(nodes, m, env, e, tree, c, f, tt, off, len);
      ghost var t1 := Plug(c.up, c.other);
      var y := tt + 1;
      ActivityKept(nodes, m, y);
      if t != y {
        m, e, t1 := Replace(nodes, m, env, e, tree, t1, t, tt);
      }
      AloneLeft(nodes, m, env, e, tree, t1, tt, len);
      freed := Retire(tt, m, e, t1);
      LessenedBy(old(nodes), m, nodes, old(env), env, tt);
      HandedBack(old(nodes), m, freed, old(env), tt);
    }

    /** The branch of the leaving pair takes the place of the freed branch z. */
    method Replace(ghost m0: Nodes, m1: Nodes, ghost e0: Env, e1: Env, ghost t0: Trie, ghost t1: Trie, z: int, tt: int)
      returns (m: Nodes, e: Env, ghost t: Trie)
      requires PairedIn(m0, e0, t0, len) && Shape(m0, t0, off, len) && Parting(m1, e1, t1, tt, off, len)
      requires Steady(m0, m1, e0) && SameActivity(m0, m1) && m1.Keys == m0.Keys && e1.masks == e0.masks && e1.chains == e0.chains
      requires z in BranchIds(t0) && z != TOP && z != tt + 1 && z !in Ids(t1) && BranchIds(t1) == BranchIds(t0) - {z}
      requires tt in e0.masks && tt > ONES && tt + 1 in BranchIds(t0)
      ensures Parting(m, e, t, tt, off, len) && Steady(m0, m, e0) && SameActivity(m0, m) && m.Keys == m0.Keys
      ensures e.masks == e0.masks && e.chains == e0.chains && LeafIds(t) == LeafIds(t1) && BranchIds(t) == BranchIds(t0) - {tt + 1}
    {
      hide *;
      var y := tt + 1;
      PairHalves(m0, e0, t0, tt, len);
      OwnedBranch(m0, e0, t0, z, tt, len);
      BranchLeft(t0, t1, z, y);
      FewerBranches(t0, t1, e0, z);
      ghost var c, s := MoveSite(m1, e1, t1, tt, z, off, len);
      MovedStores(m1, c, s, y, z);
      MovableFacts(m1, c, s, y, z);
      BranchIsActive(m0, t0, z, off, len);
      BranchIsActive(m0, t0, y, off, len);
      MovedActivity(m0, m1, e0, t1, c, s, y, z, off, len);
      m := m1[z := m1[y]];
      m := m[m[z].l := m[m[z].l].(p := z)];
      m := m[m[z].r := m[m[z].r].(p := z)];
      var p := m[y].p;
      m := m[p := if m[p].l == y then m[p].(l := z) else m[p].(r := z)];
      e := Env(e1.chains, e1.masks, e1.lists[z := e1.lists[y]], e1.listed);
      t := Plug(c, Branch(z, s.bit, s.left, s.right));
      MovedParting(m1, e1, e, t1, c, s, y, z, tt, len, off);
      SteadySame(m1, m, e1, e0);
      SteadyTrans(m0, m1, m, e0);
      MovedBack(t0, t, z, y);
    }

    /** What is left of the list of the branch at t goes to the sibling: to the end of its list if that
        is a branch; a leaf's routes are on no list then. */
    method HandDown(t: int, x: int, ghost c: Context, ghost f: Trie, ghost tt: int) returns (e: Env)
      requires Alone(nodes, env, tree, c, f, tt, off, len) && !c.Hole? && t == c.id && x == c.other.id
      ensures Demoted(env, e, c)
    {
      hide *;
      UnlinkSite(nodes, env, tree, c, f, tt, off, len);
      e := env;
      var l := env.lists[t];
      if l == [] {
        NothingToHand(env, c);
        return;
      }
      if nodes[x].b >= 0 {
        e := Env(env.chains, env.masks, env.lists[x := env.lists[x] + l], env.listed);
      } else {
        HandedDown(nodes, env, tree, c, f, tt, off, len);
        var ch, listed, j, k := env.chains[x], env.listed, 0, 0;
        HandedStart(env, l, ch);
        while j < |l| && k < |ch|
          invariant 0 <= j <= |l| && 0 <= k <= |ch| && HandedTo(env, l, ch, j, k, listed)
          decreases |ch| - k
        {
          HandedStep(env, l, ch, j, k, listed, len);
          if ch[k] in listed && l[j].leaf == ch[k] {
            listed := listed - {ch[k]};
            j := j + 1;
          }
          k := k + 1;
        }
        HandedEnd(env, l, ch, j, k, listed);
        assert j == |l|;
        e := Env(env.chains, env.masks, env.lists, listed);
      }
      DemotedFrom(env, e, c);
    }

    /** Both halves of the pair are marked as free and go back to the caller. */
    method Retire(tt: int, m: Nodes, e: Env, ghost t: Trie) returns (freed: Nodes)
      requires Parting(m, e, t, tt, off, len) && tt in m && tt + 1 in m && tt !in Ids(t) && tt + 1 !in Ids(t) && tt + 1 !in e.masks
      requires PairedIn(m - {tt, tt + 1}, e.(masks := e.masks - {tt}), t, len)
      modifies this
      ensures Valid() && nodes == m - {tt, tt + 1} && env == e.(masks := e.masks - {tt}) && tree == t && Unreachable(nodes, env, tree, tt)
      ensures freed == map[tt := m[tt].(active := false), tt + 1 := m[tt + 1].(active := false)]
    {
      hide *;
      freed := map[tt := m[tt].(active := false), tt + 1 := m[tt + 1].(active := false)];
      nodes := m - {tt, tt + 1};
      env := Env(e.chains, e.masks - {tt}, e.lists, e.listed);
      tree := t;
      Departed(m, nodes, e, env, t, tt, off, len);
      GoneForGood(m, nodes, e, env, t, tt, off, len);
      ValidFrom();
    }

    /** `squid_rn_walktree` with a function that deletes the routes it is given if they are doomed: every
        route is visited once, by ascending address and the most specific first, but for those whose
        address is all ones. */
    method WalkTree(doomed: set<int>) returns (visited: seq<int>)
      requires Valid()
      modifies this
      ensures Valid() && Since(old(nodes), old(env), nodes, env, visited, doomed) && InTurn(old(nodes), old(env), visited, off, len)
      ensures forall r {:trigger r in visited} {:trigger IsRoute(old(env), r)} ::
        r in visited <==> IsRoute(old(env), r) && !(r in old(nodes) && Same(old(nodes)[r].key, Ones(len), off, len))
    {
      hide *;
      ghost var m0, e0 := nodes, env;
      ValidFacts();
      TableIsWalkable(nodes, env, tree, off, len);
      WalkableParts(nodes, tree, off, len);
      PlugHole(tree);
      PlugIds(Hole, tree);
      ghost var c, t := Hole, tree;
      var rn;
      rn, c, t := Leftmost(nodes, TOP, c, t);
      EmptyBefore();
      OrderedDown(c, t, 8 * off);
      FoundLeaf(nodes, env, tree, c, t, t.key, off, len);
      WalkPlace(nodes, tree, c, t, off, len);
      visited := [];
      NonePassed(nodes, env, tree, c, t, off, len);
      SinceStart(nodes, env, doomed);
      while true
        invariant Valid() && AtLeaf(nodes, env, tree, c, t, off, len) && rn == t.id && t.Leaf? && LeavesAfter(c) != []
        invariant Since(m0, e0, nodes, env, visited, doomed) && Passed(m0, e0, visited, t.key, off, len) && InTurn(m0, e0, visited, off, len)
        decreases |Ahead(m0, e0, t.key, off)|
      {
        var base := rn;
        ghost var c0, t0 := c, t;
        rn, c, t := NextLeaf(rn, c, t);
        ghost var c1, t1, n1, e1, tree1, done := c, t, nodes, env, tree, visited;
        ChainAtLeaf(nodes, env, tree, c0, t0, off, len);
        NoneVisited(m0, e0, nodes, env, visited, doomed, env.chains[base], t0.key, off, len);
        PassedOn(m0, e0, nodes, env, tree, c0, t0, c, t, visited, doomed, off, len);
        InTurnOn(m0, e0, nodes, env, visited, doomed, env.chains[base], t0.key, off, len);
        AheadLess(m0, e0, c0, t0, c, t, visited, doomed);
        var more := VisitLeaves(base, doomed, m0, e0, visited, c0, t0);
        visited := visited + more;
        ValidFacts();
        c, t := NextIsThere(m0, e0, n1, e1, tree1, c1, t1, done, nodes, env, tree, visited, doomed, off, len);
        AtLeafFacts(nodes, env, tree, c, t, off, len);
        TableIsWalkable(nodes, env, tree, off, len);
        WalkPlace(nodes, tree, c, t, off, len);
        OwnIdsAre();
        if nodes[rn].root {
          AllVisited(m0, e0, nodes, env, tree, c, t, visited, doomed, off, len);
          return;
        }
      }
    }

    lemma AheadLess(m0: Nodes, e0: Env, c: Context, t: Trie, c2: Context, t2: Trie, visited: seq<int>, doomed: set<int>)
      requires AtLeaf(nodes, env, tree, c, t, off, len) && AtLeaf(nodes, env, tree, c2, t2, off, len) && LeavesBefore(c2) == LeavesBefore(c) + [t]
      requires Since(m0, e0, nodes, env, visited, doomed)
      ensures t.Leaf? && t2.Leaf? && |Ahead(m0, e0, t2.key, off)| < |Ahead(m0, e0, t.key, off)|
    {
      hide *;
      AtLeafFacts(nodes, env, tree, c, t, off, len);
      ChainAtLeaf(nodes, env, tree, c, t, off, len);
      ChainOfParts(nodes, env, env.chains[t.id], t.key, t.id, off, len);
      assert env.chains[t.id][0] in env.chains[t.id];
      BesideLeaves(nodes, env, tree, c, t, c2, t2, t.id, off, len);
      SinceParts(m0, e0, nodes, env, visited, doomed, t.id);
      AtLeafFacts(nodes, env, tree, c2, t2, off, len);
      FewerAhead(m0, e0, t.key, t2.key, t.id, off);
    }

    /** Up and over to the next leaf. */
    method NextLeaf(from: int, ghost c0: Context, ghost t0: Trie) returns (rn: int, ghost c: Context, ghost t: Trie)
      requires Valid() && AtLeaf(nodes, env, tree, c0, t0, off, len) && from == t0.id && LeavesAfter(c0) != []
      ensures AtLeaf(nodes, env, tree, c, t, off, len) && rn == t.id && t.Leaf? && LeavesBefore(c) == LeavesBefore(c0) + [t0]
      ensures t.id <= ONES ==> t.id == ONES && t.key == Ones(len)
    {
      hide *;
      ValidFacts();
      TableIsWalkable(nodes, env, tree, off, len);
      WalkableParts(nodes, tree, off, len);
      AtLeafFacts(nodes, env, tree, c0, t0, off, len);
      rn, c, t := Next(nodes, tree, from, c0, t0, off, len);
      rn, c, t := Leftmost(nodes, rn, c, t);
      PlugHole(tree);
      OrderedDown(c, t, 8 * off);
      FoundLeaf(nodes, env, tree, c, t, t.key, off, len);
      WalkPlace(nodes, tree, c, t, off, len);
      AtLeafFacts(nodes, env, tree, c, t, off, len);
      OnesKey(nodes, env, len);
      OwnIdsAre();
    }

    lemma OnesKey(m: Nodes, e: Env, len: nat)
      requires OwnLeaf(m, e, ONES, Ones(len))
      ensures ONES in m && m[ONES].key == Ones(len)
    {
    }

    /** `while ((rn = base)) { base = rn->rn_dupedkey; ... }` */
    method VisitLeaves(base: int, doomed: set<int>, ghost m0: Nodes, ghost e0: Env, ghost before: seq<int>, ghost c: Context, ghost t: Trie)
      returns (visited: seq<int>)
      requires Valid() && AtLeaf(nodes, env, tree, c, t, off, len) && base == t.id && t.id in env.chains
      requires Since(m0, e0, nodes, env, before, doomed) && forall r {:trigger r in env.chains[base]} :: r in env.chains[base] ==> r !in before
      modifies this
      ensures Valid() && visited == RoutesOf(old(env.chains[base])) && Since(m0, e0, nodes, env, before + visited, doomed)
    {
      hide *;
      AtLeafFacts(nodes, env, tree, c, t, off, len);
      ghost var ms, es, ch0, k := nodes, env, env.chains[base], t.key;
      ChainAtLeaf(nodes, env, tree, c, t, off, len);
      ChainOfParts(ms, es, ch0, k, base, off, len);
      ghost var i, cc, ff := 0, c, t;
      var rn, first := base, base;
      visited := [];
      NoRoutes(ch0);
      assert before + [] == before;
      SameItself(k, off, len);
      ValidFacts();
      NoneIsNone(nodes, env, tree, c, t, off, len);
      assert forall j {:trigger ch0[j]} :: 0 <= j < |ch0| ==> ch0[j] in ch0;
      while rn != NONE
        invariant 0 <= i <= |ch0| && rn == (if i < |ch0| then ch0[i] else NONE)
        invariant Valid() && visited == RoutesOf(ch0[..i]) && Since(m0, e0, nodes, env, before + visited, doomed)
        invariant i < |ch0| ==> AtLeaf(nodes, env, tree, cc, ff, off, len) && ff.Leaf? && first == ff.id && Same(ff.key, k, off, len)
        decreases |ch0| - i
      {
        ValidFacts();
        ChainAtLeaf(nodes, env, tree, cc, ff, off, len);
        ghost var ch := env.chains[first];
        Remaining(m0, e0, ms, es, nodes, env, before, doomed, ch0, k, i, ch, ff.key, off, len);
        NextStays(es, ch0, i, ch, len);
        var dup := Duped(env.chains[first], rn);
        assert ch0[i] in ch;
        MemberKnown(nodes, env, tree, cc, ff, rn, off, len);
        RoutesOfSnoc(ch0, i);
        if !nodes[rn].root {
          ghost var m1, e1, done := nodes, env, before + visited;
          assert before + (visited + [rn]) == done + [rn];
          visited := visited + [rn];
          if rn in doomed {
            RouteIs(env, rn);
            TargetsItself(nodes, env, tree, cc, ff, rn, off, len);
            var tt, freed := Delete(nodes[rn].key, env.masks[rn]);
            SinceDeleted(m0, e0, m1, e1, nodes, env, done, doomed, rn);
            if dup != NONE {
              ValidFacts();
              cc, ff := FoundAgain(m0, e0, ms, es, ch0, k, i + 1, before, visited, doomed, m1, e1, ch, ff.key, rn, nodes, env, tree, off, len);
            }
            if first == rn {
              first := dup;
            }
          } else {
            SinceVisited(m0, e0, nodes, env, done, doomed, rn);
          }
        } else {
          assert RoutesOf(ch0[..i]) + [] == RoutesOf(ch0[..i]);
        }
        rn, i := dup, i + 1;
      }
      assert ch0[..i] == ch0;
    }

    /** `squid_rn_match`.  Where it gives one of the head's own leaves, no route covers the address,
        unless all its bits are one. */
    method Match(v: Key) returns (t: int)
      requires Valid() && WellKeyed(v, len)
      ensures t > ONES ==> Best(nodes, env, t, v, off, len)
      ensures t == NONE || t == ZEROS ==> Bounded(nodes, env, v, -1, off, len)
      ensures t == NONE || t == ZEROS || t == ONES || t > ONES
      ensures t == ONES <==> SameBits(v, Ones(len), 8 * off, 8 * len) && OnlyOwn(env)
    {
      hide *;
      ValidFacts();
      RoutingFacts(nodes, env, tree, off, len);
      KeyLength(v, len);
      ghost var c, f;
      t, c, f := Search(nodes, tree, off, len, v);
      FoundLeaf(nodes, env, tree, c, f, v, off, len);
      AtLeafFacts(nodes, env, tree, c, f, off, len);
      ChainFacts(nodes, env, tree, c, f, off, len);
      OwnIds(t);
      var vlen := if env.masks[t].Host? then len else MaskLength(env.masks[t].index);
      var key := nodes[t].key;
      var cp := off;
      StartSame(v, key, off);
      while cp < vlen && v[cp] == key[cp]
        invariant off <= cp <= len && (cp <= vlen || cp == off) && v[off..cp] == key[off..cp]
      {
        OneMoreByte(v, key, off, cp);
        cp := cp + 1;
      }
      if cp >= vlen {
        SameBytesSameBits(v, key, off, cp);
        WidthReached(env.masks[t], cp, vlen, len);
        ExactLeaf(nodes, env, tree, c, f, v, cp, off, len);
        if nodes[t].root && |env.chains[t]| > 1 {
          t := env.chains[t][1];
        }
        return;
      }
      var b := 8 * (cp + 1) - BitLength(Xor(v[cp], key[cp]));
      FirstDifference(v, key, off, cp);
      NotAllOnes(nodes, env, tree, c, f, v, b, off, len);
      DifferFrom(v, key, b, off, len);
      t := Scan(t, c, f, v, b);
    }

    /** The chain of the leaf, and then the lists on the way up. */
    method Scan(leaf: int, ghost c: Context, ghost f: Trie, v: Key, b: nat) returns (t: int)
      requires AtLeaf(nodes, env, tree, c, f, off, len) && f == Find(tree, v) && leaf == f.id
      requires Differ(v, f.key, b, off, len)
      ensures t > ONES ==> Best(nodes, env, t, v, off, len)
      ensures t <= ONES ==> t == NONE && Bounded(nodes, env, v, -1, off, len)
    {
      hide *;
      AtLeafFacts(nodes, env, tree, c, f, off, len);
      ChainFacts(nodes, env, tree, c, f, off, len);
      var ch := env.chains[leaf];
      var i := if env.masks[leaf].Host? then 1 else 0;
      OwnIds(leaf);
      HeadSkipped(env, ch, i, b);
      while i < |ch| && !Serves(env, ch[i], b)
        invariant 0 <= i <= |ch|
        invariant forall j {:trigger ch[j]} :: 0 <= j < i ==> !Serves(env, ch[j], b)
      {
        i := i + 1;
      }
      if i < |ch| {
        ChainHit(nodes, env, tree, c, f, v, b, i, off, len);
        return ch[i];
      }
      ChainMissed(nodes, env, tree, c, f, v, b, off, len);
      OnWayStart(nodes, env, tree, c, f, off, len);
      t := leaf;
      ghost var x, s := c, f;
      while t != TOP
        invariant OnWay(nodes, env, tree, x, s, f, off, len) && t == s.id && Bounded(nodes, env, v, UpBit(x), off, len)
        decreases x
      {
        OnWayUp(nodes, env, tree, x, s, f, off, len);
        t := nodes[t].p;
        var l := env.lists[t];
        var j := 0;
        while j < |l|
          invariant 0 <= j <= |l|
          invariant forall k {:trigger l[k]} :: 0 <= k < j ==> l[k].normal && b < l[k].index
        {
          if l[j].normal {
            if l[j].index <= b {
              ListHit(nodes, env, tree, x, s, f, v, b, j, off, len);
              return l[j].leaf;
            }
          } else {
            ListHit(nodes, env, tree, x, s, f, v, b, j, off, len);
            EmptyMask(nodes, env, tree, x, s, f, l[j], off, len);
            var d := Default(t, l[j].leaf, x.up, Join(x, s));
            if d != NONE {
              return d;
            }
          }
          j := j + 1;
        }
        ListMissed(nodes, env, tree, x, s, f, v, b, off, len);
        x, s := x.up, Join(x, s);
      }
      AtTop(nodes, env, tree, x, s, f, off, len);
      t := NONE;
    }

    /** The route with the empty mask, from below a node that has it on its list: the search masks
        every bit, so it goes to the left only. */
    method Default(from: int, ghost r: int, ghost c0: Context, ghost s0: Trie) returns (x: int)
      requires Formed(nodes, c0, s0) && Apart(c0, s0) && from == s0.id
      requires ZeroRoute(nodes, env, s0, r, UpBit(c0), off, len) && Patricia(s0, 8 * off) && BitsBelow(s0, 8 * len)
      ensures x == r
    {
      hide *;
      x := from;
      ghost var c, s, up := c0, s0, UpBit(c0);
      InNodes(nodes, c, s);
      while nodes[x].b >= 0
        invariant Formed(nodes, c, s) && Apart(c, s) && x == s.id && x in nodes
        invariant ZeroRoute(nodes, env, s, r, up, off, len) && Patricia(s, 8 * off) && BitsBelow(s, 8 * len)
        decreases s
      {
        BranchHere(nodes, c, s);
        FormedLeft(nodes, c, s);
        ZeroGoesLeft(nodes, env, s, r, up, off, len);
        up := s.bit;
        x := nodes[x].l;
        c, s := InLeft(s.id, s.bit, s.right, c), s.left;
        InNodes(nodes, c, s);
      }
      LeafHere(nodes, c, s);
      ZeroInChain(nodes, env, s, r, up, off, len);
      var ch := env.chains[x];
      var i := 0;
      while i < |ch| && env.masks[ch[i]] != Net(0)
        invariant 0 <= i <= |ch|
        invariant forall j {:trigger ch[j]} :: 0 <= j < i ==> env.masks[ch[j]] != Net(0)
      {
        i := i + 1;
      }
      OneEmptyMask(env, ch, i, r, len);
      x := if i < |ch| then ch[i] else NONE;
    }
  }
}
