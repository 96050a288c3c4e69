/** Why the table is as it should be after a route has been deleted. */
module RadixDeletes {
  import opened RadixKeys
  import opened RadixTrie
  import opened RadixNodes
  import opened RadixShape
  import opened RadixRemovals
  import opened RadixLists
  import opened RadixListings
  import opened RadixAdds
  import opened RadixTables
  import opened RadixLookups
  import opened RadixEnlists
  import opened RadixPairs
  import opened RadixDelists

  ghost predicate PairedIn(m: Nodes, e: Env, t: Trie, len: nat) {
    Paired(m, e, LeafIds(t), BranchIds(t), len)
  }

  lemma PairedInIs(m: Nodes, e: Env, t: Trie, len: nat)
    ensures PairedIn(m, e, t, len) == Paired(m, e, LeafIds(t), BranchIds(t), len)
  {
  }

  // ---- which route is deleted ----

  /** The route r has the address v as its key. */
  ghost predicate SameAddress(m: Nodes, r: int, v: Key, off: nat, len: nat) {
    r in m && SameBits(m[r].key, v, 8 * off, 8 * len)
  }

  /** With a mask it is the route with that mask; without one it is the most specific route there is,
      whatever its mask. */
  ghost predicate Target(m: Nodes, e: Env, r: int, v: Key, mask: Mask, off: nat, len: nat) {
    && IsRoute(e, r) && SameAddress(m, r, v, off, len)
    && if mask.Net? then e.masks[r] == mask
       else forall x {:trigger IsRoute(e, x)} :: IsRoute(e, x) && SameAddress(m, x, v, off, len) ==> RankOf(e, x, len) <= RankOf(e, r, len)
  }

  /** One of the two addresses that the head keeps for itself. */
  ghost predicate OwnAddress(v: Key, off: nat, len: nat) {
    SameBits(v, Zeros(len), 8 * off, 8 * len) || SameBits(v, Ones(len), 8 * off, 8 * len)
  }

  ghost predicate NoTarget(m: Nodes, e: Env, v: Key, mask: Mask, off: nat, len: nat) {
    || (mask.Host? && OwnAddress(v, off, len))
    || forall r {:trigger IsRoute(e, r)} :: IsRoute(e, r) && SameAddress(m, r, v, off, len) ==> mask.Net? && e.masks[r] != mask
  }

  /** The route at gone has left, with both halves of its pair, and all others are as before. */
  ghost predicate Lessened(m: Nodes, m': Nodes, e: Env, e': Env, gone: int) {
    && gone in e.masks && gone > ONES && e'.masks == e.masks - {gone}
    && m'.Keys == m.Keys - {gone, gone + 1} && gone in m && gone + 1 in m
    && forall r {:trigger r in e'.masks} :: r in e'.masks && r in m ==> r in m' && m'[r].key == m[r].key
  }

  lemma NoKeyInTree(m: Nodes, e: Env, t: Trie, c: Context, f: Trie, v: Key, b: nat, mask: Mask, off: nat, len: nat)
    requires AtLeaf(m, e, t, c, f, off, len) && f == Find(t, v) && Differ(v, f.key, b, off, len)
    ensures NoTarget(m, e, v, mask, off, len)
  {
    hide *;
    forall r {:trigger IsRoute(e, r)} | IsRoute(e, r)
      ensures !SameAddress(m, r, v, off, len)
    {
      RouteMasked(e, r);
      NoneInTree(m, e, t, c, f, v, b, e.masks[r], off, len);
      NotThere(m, e, r, v, off, len);
    }
    NobodyThere(m, e, v, mask, off, len);
  }

  lemma NotThere(m: Nodes, e: Env, r: int, v: Key, off: nat, len: nat)
    requires r in e.masks && !SameRoute(m, e, r, v, e.masks[r], off, len)
    ensures !SameAddress(m, r, v, off, len)
  {
    hide SameBits;
  }

  lemma NobodyThere(m: Nodes, e: Env, v: Key, mask: Mask, off: nat, len: nat)
    requires forall r {:trigger IsRoute(e, r)} :: IsRoute(e, r) ==> !SameAddress(m, r, v, off, len)
    ensures NoTarget(m, e, v, mask, off, len)
  {
    hide SameAddress, OwnAddress;
  }

  /** A route with the address v is in the chain of the leaf with that key. */
  lemma AddressInChain(m: Nodes, e: Env, t: Trie, c: Context, f: Trie, v: Key, r: int, off: nat, len: nat)
    requires AtLeaf(m, e, t, c, f, off, len) && SameBits(v, f.key, 8 * off, 8 * len) && r in e.masks && SameAddress(m, r, v, off, len)
    ensures f.id in e.chains && r in e.chains[f.id]
  {
    hide *;
    AtLeafFacts(m, e, t, c, f, off, len);
    ChainFacts(m, e, t, c, f, off, len);
    AddressIs(m, r, v, off, len);
    SameBitsTransitive(m[r].key, v, f.key, 8 * off, 8 * len);
    RoutingParts(m, e, t, off, len);
    RouteInside(m, e, e.masks.Keys, c, f, f.key, r, 8 * len, off, len);
    InChain(e, f, r);
  }

  lemma AddressIs(m: Nodes, r: int, v: Key, off: nat, len: nat)
    ensures SameAddress(m, r, v, off, len) <==> r in m && SameBits(m[r].key, v, 8 * off, 8 * len)
  {
    hide SameBits;
  }

  lemma ChainHasAddress(m: Nodes, e: Env, t: Trie, c: Context, f: Trie, v: Key, r: int, off: nat, len: nat)
    requires AtLeaf(m, e, t, c, f, off, len) && SameBits(v, f.key, 8 * off, 8 * len) && f.id in e.chains && r in e.chains[f.id]
    ensures r in e.masks && SameAddress(m, r, v, off, len)
  {
    hide *;
    AtLeafFacts(m, e, t, c, f, off, len);
    ChainFacts(m, e, t, c, f, off, len);
    MemberSame(m, e, r, f.key, off, len);
    SameBitsTransitive(v, f.key, m[r].key, 8 * off, 8 * len);
    SameBitsFlip(v, m[r].key, 8 * off, 8 * len);
    AddressIs(m, r, v, off, len);
  }

  /** No route of the chain has the mask. */
  lemma MaskNotThere(m: Nodes, e: Env, t: Trie, c: Context, f: Trie, v: Key, mask: Mask, off: nat, len: nat)
    requires AtLeaf(m, e, t, c, f, off, len) && SameBits(v, f.key, 8 * off, 8 * len) && mask.Net? && f.id in e.chains
    requires forall j {:trigger e.chains[f.id][j]} :: 0 <= j < |e.chains[f.id]| && e.chains[f.id][j] in e.masks ==> e.masks[e.chains[f.id][j]] != mask
    ensures NoTarget(m, e, v, mask, off, len)
  {
    hide *;
    forall r {:trigger IsRoute(e, r)} | IsRoute(e, r) && SameAddress(m, r, v, off, len)
      ensures r in e.masks && e.masks[r] != mask
    {
      RouteMasked(e, r);
      AddressInChain(m, e, t, c, f, v, r, off, len);
      var j :| 0 <= j < |e.chains[f.id]| && e.chains[f.id][j] == r;
    }
    NoTargetFrom(m, e, v, mask, off, len);
  }

  lemma RouteMasked(e: Env, r: int)
    ensures IsRoute(e, r) <==> r in e.masks && r > ONES
  {
  }

  lemma NoTargetFrom(m: Nodes, e: Env, v: Key, mask: Mask, off: nat, len: nat)
    requires mask.Net? && forall r {:trigger IsRoute(e, r)} :: IsRoute(e, r) && SameAddress(m, r, v, off, len) ==> r in e.masks && e.masks[r] != mask
    ensures NoTarget(m, e, v, mask, off, len)
  {
    hide SameAddress, OwnAddress;
  }

  /** The route at position i of the chain is the one to be deleted, unless it is the head's own. */
  lemma TargetInChain(m: Nodes, e: Env, t: Trie, c: Context, f: Trie, v: Key, mask: Mask, i: nat, off: nat, len: nat)
    requires AtLeaf(m, e, t, c, f, off, len) && SameBits(v, f.key, 8 * off, 8 * len) && f.id in e.chains && i < |e.chains[f.id]|
    requires if mask.Net? then e.chains[f.id][i] in e.masks && e.masks[e.chains[f.id][i]] == mask else i == 0
    ensures var r := e.chains[f.id][i];
      && r in e.masks && r in m && (r == f.id ==> (m[r].root <==> r <= ONES))
      && (r > ONES ==> Target(m, e, r, v, mask, off, len) && !NoTarget(m, e, v, mask, off, len))
      && (r <= ONES ==> NoTarget(m, e, v, mask, off, len) && e.masks[r].Host? && r !in e.listed && r == f.id)
  {
    hide *;
    var r := e.chains[f.id][i];
    AtLeafFacts(m, e, t, c, f, off, len);
    ChainFacts(m, e, t, c, f, off, len);
    RoutingParts(m, e, t, off, len);
    assert r in e.chains[f.id];
    ChainHasAddress(m, e, t, c, f, v, r, off, len);
    RouteMasked(e, r);
    AddressIs(m, r, v, off, len);
    KeptPlug(m, e, e.masks.Keys, c, f, off, len);
    KeptLeaf(m, e, e.masks.Keys, f, UpBit(c), off, len);
    if r > ONES {
      forall x {:trigger IsRoute(e, x)} | IsRoute(e, x) && SameAddress(m, x, v, off, len)
        ensures mask.Host? ==> RankOf(e, x, len) <= RankOf(e, r, len)
      {
        RouteMasked(e, x);
        AddressInChain(m, e, t, c, f, v, x, off, len);
        if mask.Host? {
          FirstRanks(m, e, e.chains[f.id], f, x, off, len);
        }
      }
      if mask.Host? {
        NotOwnAddress(m, e, t, c, f, v, off, len);
      }
      TargetFrom(m, e, r, v, mask, off, len);
    } else {
      HostIsFirst(m, e, e.chains[f.id], f, r, off, len);
      MarkedAt(e, e.masks.Keys, e.chains[f.id], UpBit(c), r);
      HostIsNotLifted(e, r, UpBit(c));
      RoutingFacts(m, e, t, off, len);
      OwnLeaves(m, t, c, f, off, len);
      OwnKeyIs(v, f, off, len);
      OwnIsNoTarget(m, e, v, mask, r, off, len);
    }
    RootOf(m, e, t, c, f, r, off, len);
  }

  lemma FirstRanks(m: Nodes, e: Env, ch: seq<int>, f: Trie, x: int, off: nat, len: nat)
    requires f.Leaf? && Chained(m, e, ch, f.id, f.key, off, len) && x in ch
    ensures RankOf(e, x, len) <= RankOf(e, ch[0], len)
  {
    hide Member, RankOf;
    var j :| 0 <= j < |ch| && ch[j] == x;
    assert ch[0] == ch[0];
  }

  lemma HostIsNotLifted(e: Env, r: int, up: int)
    requires r in e.masks && e.masks[r].Host?
    ensures !Lifted(e, r, up)
  {
  }

  lemma OwnKeyIs(v: Key, f: Trie, off: nat, len: nat)
    requires f.Leaf? && SameBits(v, f.key, 8 * off, 8 * len) && (f == Leaf(ZEROS, Zeros(len)) || f == Leaf(ONES, Ones(len)))
    ensures OwnAddress(v, off, len)
  {
    hide SameBits;
  }

  lemma OwnIsNoTarget(m: Nodes, e: Env, v: Key, mask: Mask, r: int, off: nat, len: nat)
    requires OwnAddress(v, off, len) && r in e.masks && e.masks[r].Host? && (mask.Net? ==> e.masks[r] == mask)
    ensures NoTarget(m, e, v, mask, off, len)
  {
    hide OwnAddress, SameAddress;
  }

  lemma RootOf(m: Nodes, e: Env, t: Trie, c: Context, f: Trie, r: int, off: nat, len: nat)
    requires AtLeaf(m, e, t, c, f, off, len) && f.id in e.chains && r in e.chains[f.id]
    ensures r == f.id ==> (m[r].root <==> r <= ONES)
    ensures r != f.id ==> r > ONES
  {
    hide *;
    AtLeafFacts(m, e, t, c, f, off, len);
    ChainFacts(m, e, t, c, f, off, len);
    if r <= ONES {
      HostIsFirst(m, e, e.chains[f.id], f, r, off, len);
    }
  }

  /** A leaf that is not the head's own does not have the head's own key. */
  lemma NotOwnAddress(m: Nodes, e: Env, t: Trie, c: Context, f: Trie, v: Key, off: nat, len: nat)
    requires AtLeaf(m, e, t, c, f, off, len) && SameBits(v, f.key, 8 * off, 8 * len) && f.id > ONES
    ensures !OwnAddress(v, off, len)
  {
    hide *;
    AtLeafFacts(m, e, t, c, f, off, len);
    ChainFacts(m, e, t, c, f, off, len);
    OwnHasKey(m, e, ZEROS, Zeros(len));
    OwnHasKey(m, e, ONES, Ones(len));
    forall i | i == ZEROS || i == ONES
      ensures !SameAddress(m, i, v, off, len)
    {
      if SameAddress(m, i, v, off, len) {
        OwnIds(i);
        AddressInChain(m, e, t, c, f, v, i, off, len);
        RootOf(m, e, t, c, f, i, off, len);
      }
    }
    AddressIs(m, ZEROS, v, off, len);
    AddressIs(m, ONES, v, off, len);
    OwnAddressIs(v, off, len);
  }

  lemma OwnHasKey(m: Nodes, e: Env, i: int, k: Key)
    requires OwnLeaf(m, e, i, k)
    ensures i in e.masks && i in m && m[i].key == k && e.masks[i].Host?
  {
  }

  lemma OwnAddressIs(v: Key, off: nat, len: nat)
    ensures OwnAddress(v, off, len) ==> SameBits(Zeros(len), v, 8 * off, 8 * len) || SameBits(Ones(len), v, 8 * off, 8 * len)
  {
    hide BitAt;
  }

  lemma TargetFrom(m: Nodes, e: Env, r: int, v: Key, mask: Mask, off: nat, len: nat)
    requires IsRoute(e, r) && SameAddress(m, r, v, off, len) && (mask.Net? ==> e.masks[r] == mask) && (mask.Host? ==> !OwnAddress(v, off, len))
    requires forall x {:trigger IsRoute(e, x)} :: IsRoute(e, x) && SameAddress(m, x, v, off, len) ==> mask.Host? ==> RankOf(e, x, len) <= RankOf(e, r, len)
    ensures Target(m, e, r, v, mask, off, len) && !NoTarget(m, e, v, mask, off, len)
  {
    hide SameAddress, OwnAddress, RankOf;
  }

  // ---- off the lists ----

  lemma InItsChain(m: Nodes, e: Env, t: Trie, c: Context, f: Trie, node: int, off: nat, len: nat)
    requires AtLeaf(m, e, t, c, f, off, len) && f.id in e.chains && node in e.chains[f.id]
    ensures node in e.masks && Has(e, f, node) && !HasAround(e, c, node)
    ensures Kept(m, e, e.masks.Keys, f, UpBit(c), off, len) && KeptAround(m, e, e.masks.Keys, c, f, off, len)
    ensures node in e.listed <==> Lifted(e, node, UpBit(c))
  {
    hide *;
    AtLeafFacts(m, e, t, c, f, off, len);
    ChainFacts(m, e, t, c, f, off, len);
    KeptPlug(m, e, e.masks.Keys, c, f, off, len);
    KeptLeaf(m, e, e.masks.Keys, f, UpBit(c), off, len);
    InChain(e, f, node);
    NotTwice(m, e, e.masks.Keys, c, f, node, off, len);
    MarkedAt(e, e.masks.Keys, e.chains[f.id], UpBit(c), node);
  }

  lemma WasPending(m: Nodes, e: Env, e': Env, t: Trie, node: int, off: nat, len: nat)
    requires Routing(m, e, t, off, len) && node in e.masks && e'.chains == e.chains && e'.masks == e.masks && e'.listed == e.listed - {node}
    ensures Pending(m, e', t, node, off, len)
  {
    hide Shape, Kept, OwnLeaf;
    forall r {:trigger r in e'.masks} | r in e'.masks
      ensures Has(e', t, r)
    {
      SameHas(e, e', t, r);
    }
    SameOwn(m, e, e', ZEROS, Zeros(len));
    SameOwn(m, e, e', ONES, Ones(len));
  }

  lemma SameOwn(m: Nodes, e: Env, e': Env, i: int, k: Key)
    requires OwnLeaf(m, e, i, k) && e'.chains == e.chains && e'.masks == e.masks
    ensures OwnLeaf(m, e', i, k)
  {
  }

  /** The route is on no list. */
  lemma OffItsLists(m: Nodes, e: Env, t: Trie, c: Context, f: Trie, node: int, off: nat, len: nat)
    requires AtLeaf(m, e, t, c, f, off, len) && f.id in e.chains && node in e.chains[f.id] && node !in e.listed
    ensures PendingAt(m, e, t, c, f, node, off, len)
  {
    hide *;
    AtLeafFacts(m, e, t, c, f, off, len);
    InItsChain(m, e, t, c, f, node, off, len);
    NeverListed(m, e, e.masks.Keys, node, c, f, off, len);
    AroundFrom(m, e, t, c, f, node, off, len);
    WasPending(m, e, e, t, node, off, len);
    PendingAtFrom(m, e, t, c, f, node, off, len);
  }

  /** A node above the leaf that tests no bit of the route's mask. */
  ghost predicate Climbing(m: Nodes, e: Env, t: Trie, x: Context, s: Trie, f: Trie, node: int, off: nat, len: nat) {
    && OnWay(m, e, t, x, s, f, off, len) && s.Branch? && Has(e, s, node) && !HasAround(e, x, node)
    && node in e.masks && e.masks[node].Net? && e.masks[node].index <= s.bit
  }

  lemma ClimbStart(m: Nodes, e: Env, t: Trie, c: Context, f: Trie, node: int, off: nat, len: nat)
    requires AtLeaf(m, e, t, c, f, off, len) && f.id in e.chains && node in e.chains[f.id] && node in e.listed
    ensures !c.Hole? && f.id in m && m[f.id].p == c.id && node in e.masks && e.masks[node].Net? && e.masks[node].index <= c.bit
    ensures Climbing(m, e, t, c.up, Join(c, f), f, node, off, len) && Join(c, f).id == c.id
  {
    hide *;
    AtLeafFacts(m, e, t, c, f, off, len);
    RoutingFacts(m, e, t, off, len);
    ShapeParts(m, t, off, len);
    InItsChain(m, e, t, c, f, node, off, len);
    LiftedIs(e, node, UpBit(c));
    HoleIsTop(c, f, t);
    OnWayStart(m, e, t, c, f, off, len);
    OnWayUp(m, e, t, c, f, f, off, len);
    JoinIs(c, f);
    JoinHas(e, c, f, node);
    UpHasAround(e, c, node);
    ClimbingFrom(m, e, t, c.up, Join(c, f), f, node, off, len);
  }

  lemma LiftedIs(e: Env, node: int, up: int)
    ensures Lifted(e, node, up) <==> node in e.masks && e.masks[node].Net? && e.masks[node].index <= up
  {
  }

  lemma ClimbingFrom(m: Nodes, e: Env, t: Trie, x: Context, s: Trie, f: Trie, node: int, off: nat, len: nat)
    requires OnWay(m, e, t, x, s, f, off, len) && s.Branch? && Has(e, s, node) && !HasAround(e, x, node)
    requires node in e.masks && e.masks[node].Net? && e.masks[node].index <= s.bit
    ensures Climbing(m, e, t, x, s, f, node, off, len)
  {
  }

  lemma ClimbingParts(m: Nodes, e: Env, t: Trie, x: Context, s: Trie, f: Trie, node: int, off: nat, len: nat)
    requires Climbing(m, e, t, x, s, f, node, off, len)
    ensures OnWay(m, e, t, x, s, f, off, len) && s.Branch? && Has(e, s, node) && !HasAround(e, x, node)
    ensures node in e.masks && e.masks[node].Net? && e.masks[node].index <= s.bit
  {
    hide OnWay;
  }

  lemma ClimbPlace(m: Nodes, e: Env, t: Trie, x: Context, s: Trie, f: Trie, node: int, off: nat, len: nat)
    requires Climbing(m, e, t, x, s, f, node, off, len)
    ensures s.Branch? && s.id in m && m[s.id].b == s.bit && m[s.id].p == UpId(x, s.id) && m[s.id].p in m && (s.id == TOP <==> x.Hole?)
    ensures !x.Hole? ==> x.id in m && m[x.id].b == x.bit == UpBit(x) && UpId(x, s.id) == x.id
    ensures node in e.masks && e.masks[node].Net? && e.masks[node].index <= s.bit
  {
    hide *;
    ClimbingParts(m, e, t, x, s, f, node, off, len);
    OnWayParts(m, e, t, x, s, f, off, len);
    RoutingFacts(m, e, t, off, len);
    ShapeParts(m, t, off, len);
    HoleIsTop(x, s, t);
    PlaceSide(m, x, s);
    BranchAt(m, x, s);
  }

  lemma BranchAt(m: Nodes, x: Context, s: Trie)
    requires Formed(m, x, s) && s.Branch?
    ensures s.id in m && m[s.id].b == s.bit && (!x.Hole? ==> x.id in m && m[x.id].b == x.bit == UpBit(x) && UpId(x, s.id) == x.id)
  {
  }

  lemma ClimbOn(m: Nodes, e: Env, t: Trie, x: Context, s: Trie, f: Trie, node: int, off: nat, len: nat)
    requires Climbing(m, e, t, x, s, f, node, off, len) && !x.Hole? && e.masks[node].index <= UpBit(x)
    ensures Climbing(m, e, t, x.up, Join(x, s), f, node, off, len) && Join(x, s).id == x.id
  {
    hide *;
    ClimbingParts(m, e, t, x, s, f, node, off, len);
    ClimbPlace(m, e, t, x, s, f, node, off, len);
    OnWayUp(m, e, t, x, s, f, off, len);
    JoinIs(x, s);
    JoinHas(e, x, s, node);
    UpHasAround(e, x, node);
    ClimbingFrom(m, e, t, x.up, Join(x, s), f, node, off, len);
  }

  /** The route is on the list of the highest node that it may be lifted to. */
  lemma EntryThere(m: Nodes, e: Env, t: Trie, x: Context, s: Trie, f: Trie, node: int, off: nat, len: nat)
    requires Climbing(m, e, t, x, s, f, node, off, len) && UpBit(x) < e.masks[node].index
    ensures s.id in e.lists && exists j {:trigger e.lists[s.id][j]} :: 0 <= j < |e.lists[s.id]| && e.lists[s.id][j].leaf == node
  {
    hide *;
    ClimbingParts(m, e, t, x, s, f, node, off, len);
    OnWayParts(m, e, t, x, s, f, off, len);
    RoutingFacts(m, e, t, off, len);
    KeptPlug(m, e, e.masks.Keys, x, s, off, len);
    KeptParts(m, e, e.masks.Keys, s, UpBit(x), off, len);
    IsDue(e, e.masks.Keys, s, UpBit(x), node);
    var j := EntryFound(e, e.masks.Keys, node, e.lists[s.id], s, UpBit(x));
    assert e.lists[s.id][j].leaf == node;
  }

  lemma IsDue(e: Env, reg: set<int>, s: Trie, up: int, node: int)
    requires s.Branch? && Has(e, s, node) && node in reg && node in e.masks && e.masks[node].Net? && up < e.masks[node].index <= s.bit
    ensures Due(e, reg, s, up, node)
  {
  }

  lemma DelistedNow(m: Nodes, e: Env, e': Env, t: Trie, c: Context, x: Context, s: Trie, f: Trie, node: int, j: nat, off: nat, len: nat)
    requires AtLeaf(m, e, t, c, f, off, len) && f.id in e.chains && node in e.chains[f.id]
    requires Climbing(m, e, t, x, s, f, node, off, len) && UpBit(x) < e.masks[node].index
    requires s.id in e.lists && j < |e.lists[s.id]| && e.lists[s.id][j].leaf == node
    requires e' == Env(e.chains, e.masks, e.lists[s.id := e.lists[s.id][..j] + e.lists[s.id][j + 1..]], e.listed - {node})
    ensures PendingAt(m, e', t, c, f, node, off, len)
  {
    hide *;
    var reg := e.masks.Keys;
    AtLeafFacts(m, e, t, c, f, off, len);
    InItsChain(m, e, t, c, f, node, off, len);
    ClimbingParts(m, e, t, x, s, f, node, off, len);
    OnWayParts(m, e, t, x, s, f, off, len);
    KeptPlug(m, e, reg, x, s, off, len);
    Delisted(m, e, e', reg, node, x, s, j, off, len);
    KeptPlug(m, e', reg - {node}, x, s, off, len);
    KeptPlug(m, e', reg - {node}, c, f, off, len);
    SameHas(e, e', f, node);
    SameHasAround(e, e', c, node);
    AroundFrom(m, e', t, c, f, node, off, len);
    WasPending(m, e, e', t, node, off, len);
    PendingAtFrom(m, e', t, c, f, node, off, len);
  }

  // ---- out of the chains ----

  /** The route at node is in no chain and on no list any more. */
  ghost predicate Parting(m: Nodes, e: Env, t: Trie, node: int, off: nat, len: nat) {
    && Shape(m, t, off, len) && Kept(m, e, e.masks.Keys - {node}, t, -1, off, len)
    && (forall r {:trigger r in e.masks} :: r in e.masks && r != node ==> Has(e, t, r)) && !Has(e, t, node)
    && OwnLeaf(m, e, ZEROS, Zeros(len)) && OwnLeaf(m, e, ONES, Ones(len))
    && (forall r {:trigger r in e.masks} :: r in e.masks && r <= ONES ==> e.masks[r].Host?)
    && e.listed <= e.masks.Keys - {node} && node in e.masks && node > ONES
  }

  lemma PartingFrom(m: Nodes, e: Env, t: Trie, node: int, off: nat, len: nat)
    requires Shape(m, t, off, len) && Kept(m, e, e.masks.Keys - {node}, t, -1, off, len)
    requires (forall r {:trigger r in e.masks} :: r in e.masks && r != node ==> Has(e, t, r)) && !Has(e, t, node)
    requires OwnLeaf(m, e, ZEROS, Zeros(len)) && OwnLeaf(m, e, ONES, Ones(len))
    requires forall r {:trigger r in e.masks} :: r in e.masks && r <= ONES ==> e.masks[r].Host?
    requires e.listed <= e.masks.Keys - {node} && node in e.masks && node > ONES
    ensures Parting(m, e, t, node, off, len)
  {
  }

  lemma PartingParts(m: Nodes, e: Env, t: Trie, node: int, off: nat, len: nat)
    requires Parting(m, e, t, node, off, len)
    ensures Shape(m, t, off, len) && Kept(m, e, e.masks.Keys - {node}, t, -1, off, len)
    ensures (forall r {:trigger r in e.masks} :: r in e.masks && r != node ==> Has(e, t, r)) && !Has(e, t, node)
    ensures OwnLeaf(m, e, ZEROS, Zeros(len)) && OwnLeaf(m, e, ONES, Ones(len))
    ensures forall r {:trigger r in e.masks} :: r in e.masks && r <= ONES ==> e.masks[r].Host?
    ensures e.listed <= e.masks.Keys - {node} && node in e.masks && node > ONES
  {
  }

  lemma PendingAll(m: Nodes, e: Env, t: Trie, node: int, off: nat, len: nat)
    requires Pending(m, e, t, node, off, len)
    ensures Shape(m, t, off, len) && (forall r {:trigger r in e.masks} :: r in e.masks ==> Has(e, t, r))
    ensures OwnLeaf(m, e, ZEROS, Zeros(len)) && OwnLeaf(m, e, ONES, Ones(len)) && node in e.masks && e.listed <= e.masks.Keys - {node}
    ensures forall r {:trigger r in e.masks} :: r in e.masks && r <= ONES ==> e.masks[r].Host?
  {
    hide Shape, OwnLeaf, Has;
  }

  /** With the route's nodes taken back, the table is one route smaller. */
  lemma Departed(m: Nodes, m': Nodes, e: Env, e': Env, t: Trie, node: int, off: nat, len: nat)
    requires Parting(m, e, t, node, off, len) && e' == e.(masks := e.masks - {node}) && m' == m - {node, node + 1}
    requires node !in Ids(t) && node + 1 !in Ids(t) && node + 1 !in e.masks
    ensures Routing(m', e', t, off, len)
  {
    hide *;
    PartingParts(m, e, t, node, off, len);
    AgreeWithout(m, m', Ids(t), node);
    ShapeFrame(m, m', t, off, len);
    ForgottenKept(m, m', e, e', e.masks.Keys - {node}, t, -1, node, off, len);
    forall r {:trigger r in e'.masks} | r in e'.masks
      ensures Has(e', t, r)
    {
      SameHas(e, e', t, r);
    }
    OwnIds(node);
    OwnWithout(m, m', e, e', ZEROS, Zeros(len), node);
    OwnWithout(m, m', e, e', ONES, Ones(len), node);
    RoutingBuilt(m', e', t, off, len);
  }

  lemma AgreeWithout(m: Nodes, m': Nodes, ids: set<int>, node: int)
    requires m' == m - {node, node + 1} && node !in ids && node + 1 !in ids
    ensures Agree(m, m', ids)
  {
  }

  lemma OwnWithout(m: Nodes, m': Nodes, e: Env, e': Env, i: int, k: Key, node: int)
    requires OwnLeaf(m, e, i, k) && i <= ONES < node && e' == e.(masks := e.masks - {node}) && m' == m - {node, node + 1}
    ensures OwnLeaf(m', e', i, k)
  {
  }

  lemma RoutingBuilt(m: Nodes, e: Env, t: Trie, off: nat, len: nat)
    requires Shape(m, t, off, len) && Kept(m, e, e.masks.Keys, t, -1, off, len)
    requires forall r {:trigger r in e.masks} :: r in e.masks ==> Has(e, t, r)
    requires OwnLeaf(m, e, ZEROS, Zeros(len)) && OwnLeaf(m, e, ONES, Ones(len))
    requires forall r {:trigger r in e.masks} :: r in e.masks && r <= ONES ==> e.masks[r].Host?
    requires e.listed <= e.masks.Keys
    ensures Routing(m, e, t, off, len)
  {
  }

  // ---- what the stores leave of other pairs ----

  /** Routes are at the same leaves, with other parents at most. */
  ghost predicate Steady(m: Nodes, m': Nodes, e: Env) {
    forall r {:trigger r in e.masks} :: r in e.masks && r in m ==> r in m' && m'[r] == m[r].(p := m'[r].p)
  }

  /** No node is switched on or off. */
  ghost predicate SameActivity(m: Nodes, m': Nodes) {
    forall i {:trigger i in m} {:trigger i in m'} :: i in m ==> i in m' && m'[i].active == m[i].active
  }

  lemma SteadyKeys(m: Nodes, m': Nodes, e: Env)
    requires Steady(m, m', e)
    ensures SameKeys(m, m', e)
  {
  }

  lemma SteadyTrans(m: Nodes, m1: Nodes, m2: Nodes, e: Env)
    requires Steady(m, m1, e) && Steady(m1, m2, e)
    ensures Steady(m, m2, e)
  {
  }

  lemma MovedSteady(m: Nodes, e: Env, c: Context, s: Trie, y: int, z: int)
    requires s.Branch? && Movable(m, c, s, y, z) && z !in e.masks && c.id !in e.masks && (s.left.Branch? ==> s.left.id !in e.masks) && (s.right.Branch? ==> s.right.id !in e.masks)
    requires y in m && y != z && m[y].l in m && m[y].r in m && m[y].p in m && m[y].l != z && m[y].r != z && m[y].p != z
    ensures Steady(m, Moved(m, y, z), e)
    ensures forall i {:trigger i in Moved(m, y, z)} :: i in m && i != z ==> i in Moved(m, y, z) && Moved(m, y, z)[i].active == m[i].active
    ensures z in Moved(m, y, z) && Moved(m, y, z)[z].active == m[y].active
  {
  }

  /** The branch at y takes the place of the unused node z. */
  lemma MovedParting(m: Nodes, e: Env, e': Env, t: Trie, c: Context, s: Trie, y: int, z: int, node: int, len: nat, off: nat)
    requires Parting(m, e, t, node, off, len) && Plug(c, s) == t && s.Branch? && s.id == y && Formed(m, c, s) && Apart(c, s) && Movable(m, c, s, y, z)
    requires ONES < y && ONES < z && z !in Ids(t) && z !in e.masks && BranchIds(t) !! e.masks.Keys
    requires s.id in e.lists && e' == e.(lists := e.lists[z := e.lists[y]])
    ensures y in m && y != z && m[y].l in m && m[y].r in m && m[y].p in m && m[y].l != z && m[y].r != z && m[y].p != z
    ensures var t' := Plug(c, Branch(z, s.bit, s.left, s.right));
      && Parting(Moved(m, y, z), e', t', node, off, len) && Steady(m, Moved(m, y, z), e)
      && LeafIds(t') == LeafIds(t) && BranchIds(t') == BranchIds(t) - {y} + {z} && Ids(t') == Ids(t) - {y} + {z}
  {
    hide *;
    var t' := Plug(c, Branch(z, s.bit, s.left, s.right));
    PartingParts(m, e, t, node, off, len);
    MovedStores(m, c, s, y, z);
    MovedShape(m, t, c, s, y, z, off, len);
    var m' := Moved(m, y, z);
    BranchesAt(t, c, s);
    MovableFacts(m, c, s, y, z);
    MovedSteady(m, e, c, s, y, z);
    SteadyKeys(m, m', e);
    PlugIds(c, s);
    RenamedKept(m, m', e, e', e.masks.Keys - {node}, c, s, z, off, len);
    OwnSteady(m, m', e, e', ZEROS, Zeros(len));
    OwnSteady(m, m', e, e', ONES, Ones(len));
    PartingFrom(m', e', t', node, off, len);
  }

  lemma OwnSteady(m: Nodes, m': Nodes, e: Env, e': Env, i: int, k: Key)
    requires OwnLeaf(m, e, i, k) && Steady(m, m', e) && e'.masks == e.masks
    requires e'.chains == e.chains || (i in e'.chains && |e'.chains[i]| > 0 && e'.chains[i][0] == i)
    ensures OwnLeaf(m', e', i, k)
  {
  }

  lemma BranchesAt(t: Trie, c: Context, s: Trie)
    requires Plug(c, s) == t && s.Branch?
    ensures s.id in BranchIds(t) && (!c.Hole? ==> c.id in BranchIds(t))
    ensures (s.left.Branch? ==> s.left.id in BranchIds(t)) && (s.right.Branch? ==> s.right.id in BranchIds(t))
  {
    PlugSets(c, s);
    assert s.left.Branch? ==> s.left.id in BranchIds(s.left);
    assert s.right.Branch? ==> s.right.id in BranchIds(s.right);
  }

  lemma NoBranchIsRoute(m: Nodes, e: Env, t: Trie, len: nat)
    requires PairedIn(m, e, t, len)
    ensures BranchIds(t) !! e.masks.Keys
  {
    hide *;
    PairedInIs(m, e, t, len);
    forall r | r in e.masks
      ensures r !in BranchIds(t)
    {
      RouteIsNoBranch(m, e, LeafIds(t), BranchIds(t), len, r);
    }
  }

  // ---- a route leaves a chain with others in it ----

  /** Other chains and keys are elsewhere: what is around the place does not have the routes in it. */
  lemma ElsewhereAt(m: Nodes, e: Env, t: Trie, c: Context, f: Trie, node: int, r: int, off: nat, len: nat)
    requires PendingAt(m, e, t, c, f, node, off, len) && f.id in e.chains && r in e.chains[f.id]
    ensures Elsewhere(e, LeafIds(t), f.id, r) && f.id in LeafIds(t) && r in e.masks && Member(m, e, r, f.key, off, len)
  {
    hide *;
    var reg := e.masks.Keys - {node};
    PendingAtParts(m, e, t, c, f, node, off, len);
    AroundParts1(m, e, t, c, f, node, off, len);
    KeptLeaf(m, e, reg, f, UpBit(c), off, len);
    ChainedParts(m, e, e.chains[f.id], f.id, f.key, off, len);
    MemberMask(m, e, r, f.key, off, len);
    InChain(e, f, r);
    NotTwice(m, e, reg, c, f, r, off, len);
    LeafIsThere(c, f, t);
    forall g {:trigger g in LeafIds(t)} | g in LeafIds(t) && g != f.id && g in e.chains
      ensures r !in e.chains[g]
    {
      LeafAround(c, f, t, g);
      if r in e.chains[g] {
        ChainAround(e, c, g, r);
      }
    }
    ElsewhereFrom(e, LeafIds(t), f.id, r);
  }

  lemma ElsewhereFrom(e: Env, leaves: set<int>, f: int, r: int)
    requires forall g {:trigger g in leaves} :: g in leaves && g != f && g in e.chains ==> r !in e.chains[g]
    ensures Elsewhere(e, leaves, f, r)
  {
  }

  lemma LeafIsThere(c: Context, f: Trie, t: Trie)
    requires f.Leaf? && Plug(c, f) == t
    ensures f.id in LeafIds(t) && LeafIds(t) == {f.id} + LeafIdsAround(c) && BranchIds(t) == BranchIdsAround(c)
  {
    PlugSets(c, f);
  }

  lemma LeafAround(c: Context, f: Trie, t: Trie, g: int)
    requires f.Leaf? && Plug(c, f) == t && g in LeafIds(t) && g != f.id
    ensures g in LeafIdsAround(c)
  {
    PlugSets(c, f);
  }

  lemma {:induction false} ChainBelow(e: Env, t: Trie, g: int, r: int)
    requires g in LeafIds(t) && g in e.chains && r in e.chains[g]
    ensures Has(e, t, r)
    decreases t
  {
    if t.Branch? {
      if g in LeafIds(t.left) {
        ChainBelow(e, t.left, g, r);
      } else {
        ChainBelow(e, t.right, g, r);
      }
    }
  }

  lemma {:induction false} ChainAround(e: Env, x: Context, g: int, r: int)
    requires g in LeafIdsAround(x) && g in e.chains && r in e.chains[g]
    ensures HasAround(e, x, r)
    decreases x
  {
    if g in LeafIds(x.other) {
      ChainBelow(e, x.other, g, r);
    } else {
      ChainAround(e, x.up, g, r);
    }
  }

  /** A key with the same bits goes the same way. */
  lemma {:induction false} OnPathSame(x: Context, v: Key, w: Key, k: Key, lo: nat, n: nat)
    requires OnPath(x, v) && SameBits(v, w, lo, n) && Fits(x, k, lo) && BitsBelowAround(x, n)
    ensures OnPath(x, w)
    decreases x
  {
    hide BitAt;
    if !x.Hole? {
      FindHasKey(x.other, v);
      var o := Find(x.other, v).key;
      assert if x.InLeft? then Before(k, o, lo, x.bit) else Before(o, k, lo, x.bit);
      assert BitAt(v, x.bit) == BitAt(w, x.bit);
      OnPathSame(x.up, v, w, k, lo, n);
    }
  }

  /** The route that comes first once node has left the chain. */
  function FirstLeft(ch: seq<int>, i: nat): int
    requires 2 <= |ch| && i < |ch|
  {
    if i == 0 then ch[1] else ch[0]
  }

  ghost predicate Quitting(m: Nodes, e: Env, t: Trie, c: Context, f: Trie, node: int, i: nat, off: nat, len: nat) {
    && PendingAt(m, e, t, c, f, node, off, len) && PairedIn(m, e, t, len) && f.id in e.chains && 2 <= |e.chains[f.id]| && i < |e.chains[f.id]|
    && e.chains[f.id][i] == node && node > ONES
  }

  lemma DropSite(m: Nodes, e: Env, t: Trie, c: Context, f: Trie, node: int, i: nat, off: nat, len: nat)
    requires Quitting(m, e, t, c, f, node, i, off, len)
    ensures var ch, x := e.chains[f.id], FirstLeft(e.chains[f.id], i);
      && ch[0] == f.id && x in ch && x != node && x in e.masks && x in m
      && Elsewhere(e, LeafIds(t), f.id, node) && Elsewhere(e, LeafIds(t), f.id, x) && f.id in LeafIds(t)
      && (i == 0 ==> f.id == node && x > ONES && x !in Ids(t) && Member(m, e, x, f.key, off, len)) && (i > 0 ==> x == f.id && f.id != node)
      && (x > ONES ==> LeafNode(m[x], len) && x + 1 in m && x + 1 !in e.masks && (m[x + 1].active <==> x + 1 in BranchIds(t)))
      && (f.id > ONES <==> x > ONES)
    ensures node in e.masks && node in m && node + 1 in m && node + 1 !in e.masks && (m[node + 1].active <==> node + 1 in BranchIds(t)) && TOP !in e.masks
  {
    hide *;
    QuittingParts(m, e, t, c, f, node, i, off, len);
    var ch, x := e.chains[f.id], FirstLeft(e.chains[f.id], i);
    var reg := e.masks.Keys - {node};
    PendingAtParts(m, e, t, c, f, node, off, len);
    PendingAll(m, e, t, node, off, len);
    AroundParts1(m, e, t, c, f, node, off, len);
    KeptLeaf(m, e, reg, f, UpBit(c), off, len);
    ChainedParts(m, e, ch, f.id, f.key, off, len);
    FirstLeftIs(e, ch, i, len);
    assert node in ch;
    ElsewhereAt(m, e, t, c, f, node, node, off, len);
    ElsewhereAt(m, e, t, c, f, node, x, off, len);
    MemberMask(m, e, x, f.key, off, len);
    PairedInIs(m, e, t, len);
    RouteIsPair(m, e, LeafIds(t), BranchIds(t), len, node);
    OwnAreHosts(m, e, t, c, f, node, off, len);
    TopIsNoRoute(m, e, LeafIds(t), BranchIds(t), len);
    if x > ONES {
      RouteIsPair(m, e, LeafIds(t), BranchIds(t), len, x);
    }
    if i == 0 {
      SecondIsNotInTree(m, e, t, f, x, len);
    }
  }

  lemma QuittingParts(m: Nodes, e: Env, t: Trie, c: Context, f: Trie, node: int, i: nat, off: nat, len: nat)
    requires Quitting(m, e, t, c, f, node, i, off, len)
    ensures PendingAt(m, e, t, c, f, node, off, len) && PairedIn(m, e, t, len) && f.id in e.chains && 2 <= |e.chains[f.id]| && i < |e.chains[f.id]|
    ensures e.chains[f.id][i] == node && node > ONES
  {
    hide PendingAt, PairedIn;
  }

  lemma FirstLeftIs(e: Env, ch: seq<int>, i: nat, len: nat)
    requires Ranked(e, ch, len) && 2 <= |ch| && i < |ch|
    ensures var x := FirstLeft(ch, i); x in ch && x != ch[i] && x == (if i == 0 then ch[1] else ch[0])
    ensures (ch[..i] + ch[i + 1..])[0] == FirstLeft(ch, i)
  {
    hide RankOf;
    assert i > 0 ==> RankOf(e, ch[0], len) > RankOf(e, ch[i], len);
    assert i == 0 ==> RankOf(e, ch[0], len) > RankOf(e, ch[1], len);
  }

  /** Beyond the first, no route of a chain is the head's own. */
  lemma OwnAreHosts(m: Nodes, e: Env, t: Trie, c: Context, f: Trie, node: int, off: nat, len: nat)
    requires PendingAt(m, e, t, c, f, node, off, len) && f.id in e.chains
    ensures forall r {:trigger r in e.chains[f.id]} :: r in e.chains[f.id] && r != f.id ==> r > ONES
  {
    hide *;
    var reg := e.masks.Keys - {node};
    PendingAtParts(m, e, t, c, f, node, off, len);
    PendingAll(m, e, t, node, off, len);
    AroundParts1(m, e, t, c, f, node, off, len);
    KeptLeaf(m, e, reg, f, UpBit(c), off, len);
    ChainedParts(m, e, e.chains[f.id], f.id, f.key, off, len);
    forall r {:trigger r in e.chains[f.id]} | r in e.chains[f.id] && r != f.id
      ensures r > ONES
    {
      MemberMask(m, e, r, f.key, off, len);
      if r <= ONES {
        HostIsFirst(m, e, e.chains[f.id], f, r, off, len);
      }
    }
  }

  /** A route behind the first of its chain has no place in the tree. */
  lemma SecondIsNotInTree(m: Nodes, e: Env, t: Trie, f: Trie, x: int, len: nat)
    requires PairedIn(m, e, t, len) && x in e.masks && x != f.id && f.Leaf? && Elsewhere(e, LeafIds(t), f.id, x)
    ensures x !in Ids(t)
  {
    hide *;
    PairedInIs(m, e, t, len);
    IdsSplit(t);
    RouteIsNoBranch(m, e, LeafIds(t), BranchIds(t), len, x);
    if x in LeafIds(t) {
      LeafChain(m, e, LeafIds(t), BranchIds(t), len, x);
      ElsewhereIs(e, LeafIds(t), f.id, x, x);
    }
  }

  lemma ElsewhereIs(e: Env, leaves: set<int>, f: int, r: int, g: int)
    requires Elsewhere(e, leaves, f, r) && g in leaves && g != f && g in e.chains
    ensures r !in e.chains[g]
  {
  }

  /** The stores that let the second route of a chain stand for it. */
  function Succeeded(m: Nodes, f: int, x: int): Nodes
    requires f in m && x in m && m[f].p in m && x != m[f].p
  {
    var t := m[f].p;
    var m1 := m[x := m[x].(p := t)];
    m1[t := if m1[t].l == f then m1[t].(l := x) else m1[t].(r := x)]
  }

  ghost predicate Successor(m: Nodes, m1: Nodes, f: Trie, f1: Trie, ch: seq<int>, i: nat)
    requires 2 <= |ch| && i < |ch|
  {
    if i == 0 then
      f.id in m && ch[1] in m && m[f.id].p in m && ch[1] != m[f.id].p && m1 == Succeeded(m, f.id, ch[1]) && f1 == Leaf(ch[1], m[ch[1]].key)
    else m1 == m && f1 == f
  }

  lemma DropPlaces(m: Nodes, e: Env, t: Trie, c: Context, f: Trie, node: int, i: nat, off: nat, len: nat)
    requires Quitting(m, e, t, c, f, node, i, off, len)
    ensures !c.Hole? && f.id in m && m[f.id].p == c.id && c.id in m && c.id in BranchIds(t) && c.id !in e.masks && f.Leaf? && Plug(c, f) == t
    ensures Formed(m, c, f) && Apart(c, f) && Ordered(c, f, 8 * off) && UpBit(c) < 8 * len && Shape(m, t, off, len) && BitsBelowAround(c, 8 * len)
    ensures m[c.id].l == f.id <==> c.InLeft?
    ensures BranchIds(t) !! e.masks.Keys
  {
    hide *;
    QuittingParts(m, e, t, c, f, node, i, off, len);
    PendingAtParts(m, e, t, c, f, node, off, len);
    PendingAll(m, e, t, node, off, len);
    AroundParts1(m, e, t, c, f, node, off, len);
    PlaceSide(m, c, f);
    UpIdOf(c, f.id);
    LeftSide(m, c, f);
    ShapeParts(m, t, off, len);
    PlugBits(c, f, 8 * len);
    ContextBranch(c, f, t);
    NoBranchIsRoute(m, e, t, len);
  }

  lemma ContextBranch(c: Context, f: Trie, t: Trie)
    requires Plug(c, f) == t && !c.Hole?
    ensures c.id in BranchIds(t)
  {
    PlugSets(c, f);
  }

  /** The tree with the other leaf in the place. */
  lemma SucceededShape(m: Nodes, m1: Nodes, e: Env, t: Trie, c: Context, f: Trie, f1: Trie, node: int, i: nat, v: Key, off: nat, len: nat)
    requires Quitting(m, e, t, c, f, node, i, off, len) && Successor(m, m1, f, f1, e.chains[f.id], i)
    requires OnPath(c, v) && SameBits(v, f.key, 8 * off, 8 * len)
    ensures Shape(m1, Plug(c, f1), off, len) && f1.Leaf? && f1.id == FirstLeft(e.chains[f.id], i) && f1.id !in IdsAround(c)
    ensures Steady(m, m1, e) && SameActivity(m, m1) && m1.Keys == m.Keys
    ensures LeafIds(Plug(c, f1)) == LeafIds(t) - {f.id} + {f1.id} && BranchIds(Plug(c, f1)) == BranchIds(t)
  {
    hide *;
    QuittingParts(m, e, t, c, f, node, i, off, len);
    DropSite(m, e, t, c, f, node, i, off, len);
    DropPlaces(m, e, t, c, f, node, i, off, len);
    SuccessorIs(m, m1, e, f, f1, e.chains[f.id], i);
    PlugIds(c, f);
    if i == 0 {
      var x := e.chains[f.id][1];
      var k := m[x].key;
      LeafNodeKey(m[x], len);
      MemberSame(m, e, x, f.key, off, len);
      SameBitsTransitive(v, f.key, k, 8 * off, 8 * len);
      FitsHere(c, f, off);
      OnPathSame(c, v, k, f.key, 8 * off, 8 * len);
      assert c.id != x;
      SucceededIsReheaded(m, m1, c, f, x, len);
      ReheadedShape(m, t, c, f, k, x, off, len);
      SucceededSteady(m, m1, e, c, f, x);
      SwappedLeaf(c, f, f1, t);
    } else {
      NothingMoved(m, e);
      SwappedLeaf(c, f, f, t);
      LeafApart(c, f);
    }
  }

  lemma SuccessorIs(m: Nodes, m1: Nodes, e: Env, f: Trie, f1: Trie, ch: seq<int>, i: nat)
    requires 2 <= |ch| && i < |ch| && Successor(m, m1, f, f1, ch, i) && f.Leaf? && ch[0] == f.id
    ensures f1.Leaf? && f1.id == FirstLeft(ch, i)
    ensures i == 0 ==> f.id in m && ch[1] in m && m[f.id].p in m && ch[1] != m[f.id].p && m1 == Succeeded(m, f.id, ch[1]) && f1 == Leaf(ch[1], m[ch[1]].key)
    ensures i > 0 ==> m1 == m && f1 == f
  {
    hide Succeeded;
  }

  lemma LeafNodeKey(n: Node, len: nat)
    requires LeafNode(n, len)
    ensures WellKeyed(n.key, len) && n == Node(-1, 0, 0, false, true, n.p, 0, 0, n.key)
  {
  }

  lemma FitsHere(c: Context, f: Trie, off: nat)
    requires Ordered(c, f, 8 * off) && f.Leaf?
    ensures Fits(c, f.key, 8 * off)
  {
    hide Patricia, PatriciaAround, Fits;
    assert HasKey(f, f.key);
  }

  lemma SucceededIsReheaded(m: Nodes, m1: Nodes, c: Context, f: Trie, x: int, len: nat)
    requires !c.Hole? && c.id in m && x in m && f.id in m && m[f.id].p == c.id && x != c.id && (m[c.id].l == f.id <==> c.InLeft?) && LeafNode(m[x], len)
    requires m1 == Succeeded(m, f.id, x)
    ensures m1 == Reheaded(m, c, m[x].key, x)
  {
    hide WellKeyed;
  }

  lemma SucceededSteady(m: Nodes, m1: Nodes, e: Env, c: Context, f: Trie, x: int)
    requires !c.Hole? && c.id in m && x in m && f.id in m && m[f.id].p == c.id && x != c.id && c.id !in e.masks && m1 == Succeeded(m, f.id, x)
    ensures Steady(m, m1, e) && SameActivity(m, m1) && m1.Keys == m.Keys
  {
  }

  lemma NothingMoved(m: Nodes, e: Env)
    ensures Steady(m, m, e) && SameActivity(m, m)
  {
  }

  lemma SwappedLeaf(c: Context, f: Trie, f1: Trie, t: Trie)
    requires f.Leaf? && f1.Leaf? && Plug(c, f) == t && Apart(c, f) && (f1 == f || f1.id !in Ids(t))
    ensures LeafIds(Plug(c, f1)) == LeafIds(t) - {f.id} + {f1.id} && BranchIds(Plug(c, f1)) == BranchIds(t) && f1.id !in IdsAround(c)
  {
    hide *;
    PlugSets(c, f);
    PlugSets(c, f1);
    PlugIds(c, f);
    LeafSets(f);
    LeafSets(f1);
    LeafApart(c, f);
  }

  lemma LeafSets(f: Trie)
    requires f.Leaf?
    ensures LeafIds(f) == {f.id} == Ids(f) && BranchIds(f) == {}
  {
  }

  lemma LeafApart(c: Context, f: Trie)
    requires Apart(c, f)
    ensures f.id !in IdsAround(c)
  {
    IdsSplit(f);
  }

  /** The route has left its chain. */
  lemma DroppedNow(m: Nodes, m1: Nodes, e: Env, e1: Env, t: Trie, c: Context, f: Trie, f1: Trie, node: int, i: nat, v: Key, off: nat, len: nat)
    requires Quitting(m, e, t, c, f, node, i, off, len) && Successor(m, m1, f, f1, e.chains[f.id], i)
    requires OnPath(c, v) && SameBits(v, f.key, 8 * off, 8 * len)
    requires e1 == Env(e.chains[f1.id := e.chains[f.id][..i] + e.chains[f.id][i + 1..]], e.masks, e.lists, e.listed)
    ensures Parting(m1, e1, Plug(c, f1), node, off, len)
    ensures OtherChains(e, e1, LeafIds(t), f.id) && f1.id in e1.chains && f1.id in e1.chains[f1.id] && Without(e.chains[f.id], e1.chains[f1.id], node)
  {
    hide *;
    var reg := e.masks.Keys - {node};
    QuittingParts(m, e, t, c, f, node, i, off, len);
    var ch := e.chains[f.id];
    PendingAtParts(m, e, t, c, f, node, off, len);
    PendingAll(m, e, t, node, off, len);
    AroundParts1(m, e, t, c, f, node, off, len);
    DropSite(m, e, t, c, f, node, i, off, len);
    SucceededShape(m, m1, e, t, c, f, f1, node, i, v, off, len);
    SuccessorIs(m, m1, e, f, f1, ch, i);
    SteadyKeys(m, m1, e);
    DroppedFrom(m, m1, e, e1, f, f1, i);
    DroppedKept(m, m1, e, e1, reg, c, f, f1, i, off, len);
    KeptPlug(m1, e1, reg, c, f1, off, len);
    HasAfterDrop(e, e1, c, f, f1, t, node);
    KeptLeaf(m, e, reg, f, UpBit(c), off, len);
    ChainedParts(m, e, ch, f.id, f.key, off, len);
    FirstLeftIs(e, ch, i, len);
    ChainsAfterDrop(m, e, e1, t, f, f1, node, i, len);
    OwnIds(node);
    OwnAfterDrop(m, m1, e, e1, f, f1, i, ZEROS, Zeros(len));
    OwnAfterDrop(m, m1, e, e1, f, f1, i, ONES, Ones(len));
    PartingFrom(m1, e1, Plug(c, f1), node, off, len);
  }

  lemma DroppedFrom(m: Nodes, m1: Nodes, e: Env, e1: Env, f: Trie, f1: Trie, i: nat)
    requires f.Leaf? && f.id in e.chains && 2 <= |e.chains[f.id]| && i < |e.chains[f.id]| && SameKeys(m, m1, e)
    requires i == 0 ==> e.chains[f.id][1] in m && f1 == Leaf(e.chains[f.id][1], m[e.chains[f.id][1]].key)
    requires i > 0 ==> f1 == f
    requires e1 == Env(e.chains[f1.id := e.chains[f.id][..i] + e.chains[f.id][i + 1..]], e.masks, e.lists, e.listed)
    ensures Dropped(m, m1, e, e1, f, f1, i)
  {
    hide SameKeys;
  }

  lemma HasAfterDrop(e: Env, e1: Env, c: Context, f: Trie, f1: Trie, t: Trie, node: int)
    requires Plug(c, f) == t && Untouched(e, e1, IdsAround(c)) && !HasAround(e, c, node) && e1.masks == e.masks
    requires forall r {:trigger Has(e, f, r)} {:trigger Has(e1, f1, r)} :: Has(e1, f1, r) <==> Has(e, f, r) && r != node
    requires forall r {:trigger r in e.masks} :: r in e.masks ==> Has(e, t, r)
    ensures forall r {:trigger r in e1.masks} :: r in e1.masks && r != node ==> Has(e1, Plug(c, f1), r)
    ensures !Has(e1, Plug(c, f1), node)
  {
    hide Untouched, Has;
    forall r
      ensures r in e1.masks && r != node ==> Has(e1, Plug(c, f1), r)
    {
      PlugHas(e, c, f, r);
      PlugHas(e1, c, f1, r);
      HasAroundFrame(e, e1, c, r);
      assert r in e1.masks ==> r in e.masks;
    }
    PlugHas(e1, c, f1, node);
    HasAroundFrame(e, e1, c, node);
  }

  lemma ChainsAfterDrop(m: Nodes, e: Env, e1: Env, t: Trie, f: Trie, f1: Trie, node: int, i: nat, len: nat)
    requires f.Leaf? && f.id in e.chains && 2 <= |e.chains[f.id]| && i < |e.chains[f.id]| && e.chains[f.id][i] == node && Ranked(e, e.chains[f.id], len)
    requires e1.chains == e.chains[f1.id := e.chains[f.id][..i] + e.chains[f.id][i + 1..]]
    requires f1.id == FirstLeft(e.chains[f.id], i) && (f1.id == f.id || f1.id !in LeafIds(t) || f1.id !in Ids(t))
    requires (e.chains[f.id][..i] + e.chains[f.id][i + 1..])[0] == f1.id
    ensures OtherChains(e, e1, LeafIds(t), f.id) && f1.id in e1.chains && f1.id in e1.chains[f1.id] && Without(e.chains[f.id], e1.chains[f1.id], node)
  {
    hide Ranked;
    IdsSplit(t);
    forall r {:trigger r in e.chains[f.id]} {:trigger r in e1.chains[f1.id]}
      ensures r in e1.chains[f1.id] <==> r in e.chains[f.id] && r != node
    {
      ChainOut(e, e.chains[f.id], i, r, len);
    }
    assert e1.chains[f1.id][0] in e1.chains[f1.id];
  }

  lemma OwnAfterDrop(m: Nodes, m1: Nodes, e: Env, e1: Env, f: Trie, f1: Trie, i: nat, k: int, key: Key)
    requires OwnLeaf(m, e, k, key) && Steady(m, m1, e) && e1.masks == e.masks && f.id in e.chains && i < |e.chains[f.id]|
    requires e1.chains == e.chains[f1.id := e.chains[f.id][..i] + e.chains[f.id][i + 1..]] && |e.chains[f.id]| >= 2
    requires (e.chains[f.id][..i] + e.chains[f.id][i + 1..])[0] == f1.id
    ensures OwnLeaf(m1, e1, k, key)
  {
  }

  // ---- a leaf leaves with its branch ----

  ghost predicate Alone(m: Nodes, e: Env, t: Trie, c: Context, f: Trie, node: int, off: nat, len: nat) {
    && PendingAt(m, e, t, c, f, node, off, len) && PairedIn(m, e, t, len) && node in e.chains && e.chains[node] == [node] && f.id == node && node > ONES
  }

  lemma AloneParts(m: Nodes, e: Env, t: Trie, c: Context, f: Trie, node: int, off: nat, len: nat)
    requires Alone(m, e, t, c, f, node, off, len)
    ensures PendingAt(m, e, t, c, f, node, off, len) && PairedIn(m, e, t, len) && node in e.chains && e.chains[node] == [node] && f.id == node && node > ONES
  {
    hide PendingAt, PairedIn;
  }

  lemma UnlinkSite(m: Nodes, e: Env, t: Trie, c: Context, f: Trie, node: int, off: nat, len: nat)
    requires Alone(m, e, t, c, f, node, off, len)
    ensures !c.Hole? && !c.up.Hole? && Unlinkable(m, c, f) && f.Leaf? && Plug(c, f) == t && UpBit(c) < 8 * len
    ensures Shape(m, t, off, len) && Formed(m, c, f) && Apart(c, f) && Ordered(c, f, 8 * off)
    ensures f.id in m && c.id in m && c.up.id in m && c.other.id in m && (m[c.other.id].b < 0 <==> c.other.Leaf?)
    ensures Elsewhere(e, LeafIds(t), node, node) && node in LeafIds(t) && node in e.masks
    ensures node in m && node + 1 in m && node + 1 !in e.masks && m[node + 1].active && node + 1 in BranchIds(t) && node + 1 != TOP
    ensures BranchIds(t) !! e.masks.Keys && c.id in e.lists && (c.other.Branch? ==> c.other.id in e.lists) && (c.other.Leaf? ==> c.other.id in e.chains)
  {
    hide *;
    AloneParts(m, e, t, c, f, node, off, len);
    PendingAtParts(m, e, t, c, f, node, off, len);
    PendingAll(m, e, t, node, off, len);
    AroundParts1(m, e, t, c, f, node, off, len);
    UnlinkPlaces(m, t, c, f, off, len);
    UnlinkFacts(m, c, f);
    SiblingTest(m, c, f);
    assert node in e.chains[node];
    ElsewhereAt(m, e, t, c, f, node, node, off, len);
    PairedInIs(m, e, t, len);
    RouteIsPair(m, e, LeafIds(t), BranchIds(t), len, node);
    LeafChain(m, e, LeafIds(t), BranchIds(t), len, node);
    OnlyActive(node, BranchIds(t));
    NoBranchIsRoute(m, e, t, len);
    TopIsNoRoute(m, e, LeafIds(t), BranchIds(t), len);
    AroundHere(m, e, e.masks.Keys - {node}, c, f, off, len);
    SiblingHeld(m, e, e.masks.Keys - {node}, c.other, c.bit, off, len);
  }

  lemma SiblingTest(m: Nodes, c: Context, f: Trie)
    requires Formed(m, c, f) && !c.Hole?
    ensures c.other.id in m && (m[c.other.id].b < 0 <==> c.other.Leaf?)
  {
  }

  lemma SiblingHeld(m: Nodes, e: Env, reg: set<int>, s: Trie, up: int, off: nat, len: nat)
    requires Kept(m, e, reg, s, up, off, len)
    ensures (s.Branch? ==> s.id in e.lists) && (s.Leaf? ==> s.id in e.chains)
  {
  }

  lemma OnlyActive(node: int, live: set<int>)
    requires OneActive([node], node, live) && node > ONES
    ensures node + 1 in live
  {
    var r :| Sole([node], live, r);
    assert r in Active([node], live);
  }

  /** What is known of the list to be handed down to a leaf. */
  lemma HandedDown(m: Nodes, e: Env, t: Trie, c: Context, f: Trie, node: int, off: nat, len: nat)
    requires Alone(m, e, t, c, f, node, off, len) && !c.Hole? && c.other.Leaf? && c.id in e.lists && c.other.id in e.chains
    ensures Descending(e.lists[c.id]) && Ranked(e, e.chains[c.other.id], len)
    ensures forall j {:trigger e.lists[c.id][j]} :: 0 <= j < |e.lists[c.id]| ==> HeldEntry(e, e.lists[c.id][j], e.chains[c.other.id])
  {
    hide *;
    var reg := e.masks.Keys - {node};
    AloneParts(m, e, t, c, f, node, off, len);
    PendingAtParts(m, e, t, c, f, node, off, len);
    AroundParts1(m, e, t, c, f, node, off, len);
    AroundHere(m, e, reg, c, f, off, len);
    KeptLeaf(m, e, reg, c.other, c.bit, off, len);
    ChainedParts(m, e, e.chains[c.other.id], c.other.id, c.other.key, off, len);
    ListingIs(e, reg, e.lists[c.id], Join(c, f), UpBit(c.up));
    forall j {:trigger e.lists[c.id][j]} | 0 <= j < |e.lists[c.id]|
      ensures HeldEntry(e, e.lists[c.id][j], e.chains[c.other.id])
    {
      DueRoute(e, reg, Join(c, f), UpBit(c.up), e.lists[c.id][j]);
      JoinIs(c, f);
      JoinHas(e, c, f, e.lists[c.id][j].leaf);
      HasInLeaf(e, f, e.lists[c.id][j].leaf);
      HasInLeaf(e, c.other, e.lists[c.id][j].leaf);
      MarkedAt(e, reg, e.chains[c.other.id], c.bit, e.lists[c.id][j].leaf);
      DueIsMarked(e, Join(c, f), e.lists[c.id][j], c);
      HeldFrom(e, e.lists[c.id][j], e.chains[c.other.id]);
    }
  }

  /** The entry of a route of the chain, which is marked as listed. */
  ghost predicate HeldEntry(e: Env, x: Entry, ch: seq<int>) {
    x.leaf in ch && x.leaf in e.listed && x.leaf in e.masks && e.masks[x.leaf] == Net(x.index)
  }

  lemma HeldFrom(e: Env, x: Entry, ch: seq<int>)
    requires x.leaf in ch && x.leaf in e.listed && x.leaf in e.masks && e.masks[x.leaf] == Net(x.index)
    ensures HeldEntry(e, x, ch)
  {
  }

  lemma DueIsMarked(e: Env, t: Trie, x: Entry, c: Context)
    requires !c.Hole? && t.Branch? && t.bit == c.bit && x.leaf in e.masks && e.masks[x.leaf] == Net(x.index) && x.index <= t.bit
    ensures Lifted(e, x.leaf, c.bit)
  {
  }

  /** The walk along the chain and the list, up to route k and entry j. */
  ghost predicate HandedTo(e: Env, l: seq<Entry>, ch: seq<int>, j: nat, k: nat, listed: set<int>) {
    && j <= |l| && k <= |ch| && listed == e.listed - Leaving(l[..j])
    && forall n {:trigger l[n]} :: j <= n < |l| ==> l[n].leaf in ch[k..]
  }

  lemma HandedStart(e: Env, l: seq<Entry>, ch: seq<int>)
    requires forall j {:trigger l[j]} :: 0 <= j < |l| ==> HeldEntry(e, l[j], ch)
    ensures HandedTo(e, l, ch, 0, 0, e.listed)
  {
    assert l[..0] == [] && ch[0..] == ch;
  }

  lemma HandedStep(e: Env, l: seq<Entry>, ch: seq<int>, j: nat, k: nat, listed: set<int>, len: nat)
    requires HandedTo(e, l, ch, j, k, listed) && j < |l| && k < |ch| && Descending(l) && Ranked(e, ch, len)
    requires forall j {:trigger l[j]} :: 0 <= j < |l| ==> HeldEntry(e, l[j], ch)
    ensures if ch[k] in listed && l[j].leaf == ch[k] then HandedTo(e, l, ch, j + 1, k + 1, listed - {ch[k]}) else HandedTo(e, l, ch, j, k + 1, listed)
  {
    hide RankOf;
    var r := ch[k];
    assert HeldEntry(e, l[j], ch);
    if l[j].leaf == r {
      NotYetLeft(e, l, ch, j, listed);
      assert l[..j + 1] == l[..j] + [l[j]];
      LeavingMore(l[..j], l[j]);
      forall n {:trigger l[n]} | j + 1 <= n < |l|
        ensures l[n].leaf in ch[k + 1..]
      {
        assert HeldEntry(e, l[n], ch);
        TailWithout(ch, k, l[n].leaf);
      }
    } else {
      forall n {:trigger l[n]} | j <= n < |l|
        ensures l[n].leaf in ch[k + 1..]
      {
        TailWithout(ch, k, l[n].leaf);
        if l[n].leaf == r {
          OutOfOrder(e, l, ch, j, n, k, len);
        }
      }
    }
  }

  lemma TailWithout(ch: seq<int>, k: nat, r: int)
    requires k < |ch| && r in ch[k..]
    ensures r == ch[k] || r in ch[k + 1..]
  {
    assert ch[k..] == [ch[k]] + ch[k + 1..];
  }

  lemma LeavingMore(l: seq<Entry>, x: Entry)
    ensures Leaving(l + [x]) == Leaving(l) + {x.leaf}
  {
    forall r | r in Leaving(l) + {x.leaf}
      ensures r in Leaving(l + [x])
    {
      if r == x.leaf {
        assert x in l + [x];
      } else {
        var y :| y in l && y.leaf == r;
        assert y in l + [x];
      }
    }
  }

  lemma NotYetLeft(e: Env, l: seq<Entry>, ch: seq<int>, j: nat, listed: set<int>)
    requires j < |l| && Descending(l) && listed == e.listed - Leaving(l[..j])
    requires forall j {:trigger l[j]} :: 0 <= j < |l| ==> HeldEntry(e, l[j], ch)
    ensures l[j].leaf in listed
  {
    assert HeldEntry(e, l[j], ch);
    forall x | x in l[..j]
      ensures x.leaf != l[j].leaf
    {
      var n :| 0 <= n < j && l[..j][n] == x;
      assert HeldEntry(e, l[n], ch);
      assert l[n].index > l[j].index;
    }
  }

  lemma OutOfOrder(e: Env, l: seq<Entry>, ch: seq<int>, j: nat, n: nat, k: nat, len: nat)
    requires j <= n < |l| && k < |ch| && Descending(l) && Ranked(e, ch, len) && HeldEntry(e, l[j], ch) && HeldEntry(e, l[n], ch)
    requires l[j].leaf in ch[k..] && l[j].leaf != ch[k]
    ensures l[n].leaf != ch[k]
  {
    TailWithout(ch, k, l[j].leaf);
    var p :| 0 <= p < |ch| - (k + 1) && ch[k + 1..][p] == l[j].leaf;
    assert ch[k + 1 + p] == l[j].leaf;
    assert RankOf(e, ch[k], len) > RankOf(e, ch[k + 1 + p], len);
    assert l[j].index >= l[n].index;
  }

  function RouteAt(l: seq<Entry>, j: nat): int {
    if j < |l| then l[j].leaf else -1
  }

  lemma RouteAtIs(l: seq<Entry>)
    ensures forall j {:trigger RouteAt(l, j)} {:trigger l[j]} :: 0 <= j < |l| ==> RouteAt(l, j) == l[j].leaf
  {
  }

  /** Nothing is left of the list: the assertion of the source holds. */
  lemma HandedEnd(e: Env, l: seq<Entry>, ch: seq<int>, j: nat, k: nat, listed: set<int>)
    requires HandedTo(e, l, ch, j, k, listed) && (j == |l| || k == |ch|)
    ensures j == |l| && listed == e.listed - Leaving(l)
  {
    RouteAtIs(l);
    assert k == |ch| ==> RouteAt(l, j) !in ch[k..];
    assert l[..|l|] == l;
  }

  lemma DemotedFrom(e: Env, e1: Env, c: Context)
    requires !c.Hole? && c.id in e.lists && e1.chains == e.chains && e1.masks == e.masks
    requires c.other.Branch? ==> c.other.id in e.lists && e1.lists == e.lists[c.other.id := e.lists[c.other.id] + e.lists[c.id]] && e1.listed == e.listed
    requires c.other.Leaf? ==> e1.lists == e.lists && e1.listed == e.listed - Leaving(e.lists[c.id])
    ensures Demoted(e, e1, c)
  {
    hide Leaving;
  }

  /** An empty list is handed down by doing nothing. */
  lemma NothingToHand(e: Env, c: Context)
    requires !c.Hole? && c.id in e.lists && e.lists[c.id] == [] && (c.other.Branch? ==> c.other.id in e.lists)
    ensures Demoted(e, e, c)
  {
    assert Leaving([]) == {};
    if c.other.Branch? {
      assert e.lists[c.other.id] + [] == e.lists[c.other.id];
    }
  }

  /** The leaf and the branch above it are out of the tree. */
  lemma DemotedNow(m: Nodes, m1: Nodes, e: Env, e1: Env, t: Trie, c: Context, f: Trie, node: int, off: nat, len: nat)
    requires Alone(m, e, t, c, f, node, off, len) && !c.Hole? && !c.up.Hole? && Unlinkable(m, c, f) && Demoted(e, e1, c)
    requires var x, p := c.other.id, c.up.id;
      var m' := m[p := if m[p].r == c.id then m[p].(r := x) else m[p].(l := x)];
      m1 == m'[x := m'[x].(p := p)]
    ensures var t1 := Plug(c.up, c.other);
      && Parting(m1, e1, t1, node, off, len) && Steady(m, m1, e) && SameActivity(m, m1) && m1.Keys == m.Keys
      && LeafIds(t1) == LeafIds(t) - {node} && BranchIds(t1) == BranchIds(t) - {c.id} && c.id !in Ids(t1) && c.id in BranchIds(t) && c.id != TOP
      && e1.chains == e.chains && e1.masks == e.masks
  {
    hide *;
    var reg := e.masks.Keys - {node};
    var t1 := Plug(c.up, c.other);
    AloneParts(m, e, t, c, f, node, off, len);
    UnlinkSite(m, e, t, c, f, node, off, len);
    PendingAtParts(m, e, t, c, f, node, off, len);
    PendingAll(m, e, t, node, off, len);
    AroundParts1(m, e, t, c, f, node, off, len);
    UnlinkedShape(m, m1, t, c, f, off, len);
    UpIsBranch(c, f, t);
    UnlinkedSteady(m, m1, e, c, f);
    SteadyKeys(m, m1, e);
    DemotedKept(m, m1, e, e1, reg, c, f, node, off, len);
    KeptPlug(m1, e1, reg, c.up, c.other, off, len);
    DemotedEnv(e, e1, c);
    HasAfterUnlink(e, e1, c, f, t, node);
    LessListed(e, e1, c, node);
    OwnSteady(m, m1, e, e1, ZEROS, Zeros(len));
    OwnSteady(m, m1, e, e1, ONES, Ones(len));
    PartingFrom(m1, e1, t1, node, off, len);
  }

  lemma UpIsBranch(c: Context, f: Trie, t: Trie)
    requires Plug(c, f) == t && !c.Hole? && !c.up.Hole?
    ensures c.up.id in BranchIds(t)
  {
    PlugSets(c, f);
  }

  lemma UnlinkedSteady(m: Nodes, m1: Nodes, e: Env, c: Context, f: Trie)
    requires !c.Hole? && !c.up.Hole? && Unlinkable(m, c, f) && c.up.id !in e.masks
    requires var x, p := c.other.id, c.up.id;
      var m' := m[p := if m[p].r == c.id then m[p].(r := x) else m[p].(l := x)];
      m1 == m'[x := m'[x].(p := p)]
    ensures Steady(m, m1, e) && SameActivity(m, m1) && m1.Keys == m.Keys
  {
  }

  lemma HasAfterUnlink(e: Env, e1: Env, c: Context, f: Trie, t: Trie, node: int)
    requires Plug(c, f) == t && !c.Hole? && f.Leaf? && f.id in e.chains && e.chains[f.id] == [node] && !HasAround(e, c, node) && e1.masks == e.masks
    requires forall r {:trigger Has(e, c.other, r)} {:trigger Has(e1, c.other, r)} :: Has(e1, c.other, r) <==> Has(e, c.other, r)
    requires forall r {:trigger HasAround(e, c.up, r)} {:trigger HasAround(e1, c.up, r)} :: HasAround(e1, c.up, r) <==> HasAround(e, c.up, r)
    requires forall r {:trigger r in e.masks} :: r in e.masks ==> Has(e, t, r)
    ensures forall r {:trigger r in e1.masks} :: r in e1.masks && r != node ==> Has(e1, Plug(c.up, c.other), r)
    ensures !Has(e1, Plug(c.up, c.other), node)
  {
    hide Has, HasAround;
    forall r
      ensures Has(e1, Plug(c.up, c.other), r) <==> HasAround(e, c.up, r) || Has(e, c.other, r)
      ensures Has(e, t, r) <==> HasAround(e, c.up, r) || Has(e, c.other, r) || r == node
    {
      PlugHas(e1, c.up, c.other, r);
      PlugHas(e, c, f, r);
      HasInLeaf(e, f, r);
      AroundSplit(e, c, r);
    }
    AroundSplit(e, c, node);
  }

  lemma AroundSplit(e: Env, c: Context, r: int)
    requires !c.Hole?
    ensures HasAround(e, c, r) <==> Has(e, c.other, r) || HasAround(e, c.up, r)
  {
  }

  lemma LessListed(e: Env, e1: Env, c: Context, node: int)
    requires !c.Hole? && Demoted(e, e1, c) && e.listed <= e.masks.Keys - {node}
    ensures e1.listed <= e.masks.Keys - {node}
  {
    hide Leaving;
  }

  // ---- the end ----

  /** Where the branch of the leaving pair is, and that it can move. */
  lemma MoveSite(m: Nodes, e: Env, t: Trie, node: int, z: int, off: nat, len: nat) returns (c: Context, s: Trie)
    requires Parting(m, e, t, node, off, len) && node + 1 in BranchIds(t) && z !in Ids(t) && node + 1 != TOP
    ensures Plug(c, s) == t && s.Branch? && s.id == node + 1 && Formed(m, c, s) && Apart(c, s) && Movable(m, c, s, node + 1, z) && s.id in e.lists
  {
    hide *;
    PartingParts(m, e, t, node, off, len);
    ShapeParts(m, t, off, len);
    c, s := PlaceOf(Hole, t, node + 1);
    PlugHole(t);
    MovePlaces(m, t, c, s, node + 1, z);
    KeptPlug(m, e, e.masks.Keys - {node}, c, s, off, len);
    KeptParts(m, e, e.masks.Keys - {node}, s, UpBit(c), off, len);
  }

  /** The pairs of the other routes, once the leaving pair is taken back. */
  lemma OthersLeft(m: Nodes, m2: Nodes, m': Nodes, e: Env, e': Env, t: Trie, node: int, len: nat)
    requires PairedIn(m, e, t, len) && Steady(m, m2, e) && m' == m2 - {node, node + 1} && e'.masks == e.masks - {node} && m.Keys <= m2.Keys && node in e.masks && node > ONES
    ensures OthersPaired(m, m', e, e', node)
  {
    hide *;
    PairedInIs(m, e, t, len);
    RouteIsPair(m, e, LeafIds(t), BranchIds(t), len, node);
    forall r {:trigger r in e'.masks} | r in e'.masks && r > ONES
      ensures r in m && r + 1 in m && r != node && r != node + 1 && r + 1 != node
    {
      RouteIsPair(m, e, LeafIds(t), BranchIds(t), len, r);
    }
    OthersLeftFrom(m, m2, m', e, e', node);
  }

  lemma OthersLeftFrom(m: Nodes, m2: Nodes, m': Nodes, e: Env, e': Env, node: int)
    requires Steady(m, m2, e) && m' == m2 - {node, node + 1} && e'.masks == e.masks - {node} && m.Keys <= m2.Keys
    requires forall r {:trigger r in e'.masks} :: r in e'.masks && r > ONES ==> r in m && r + 1 in m && r != node && r != node + 1 && r + 1 != node
    ensures OthersPaired(m, m', e, e', node)
  {
    forall r {:trigger r in e'.masks} | r in e'.masks && r > ONES && r in m && r + 1 in m
      ensures r in m' && m'[r] == m[r].(p := m'[r].p) && r + 1 in m'
    {
      assert r + 1 in m.Keys;
    }
  }

  lemma LessenedBy(m: Nodes, m2: Nodes, m': Nodes, e: Env, e': Env, node: int)
    requires Steady(m, m2, e) && m' == m2 - {node, node + 1} && e'.masks == e.masks - {node} && m2.Keys == m.Keys
    requires node in e.masks && node > ONES && node in m && node + 1 in m && node + 1 !in e.masks
    ensures Lessened(m, m', e, e', node)
  {
    assert m'.Keys == m2.Keys - {node, node + 1};
  }
}
