/** Why the table is as it should be after a route has been added. */
module RadixEnlists {
  import opened RadixKeys
  import opened RadixTrie
  import opened RadixNodes
  import opened RadixShape
  import opened RadixLists
  import opened RadixListings
  import opened RadixAdds
  import opened RadixTables
  import opened RadixLookups

  // ---- adding a route ----

  lemma SameKeyBits(v: Key, a: Key, off: nat, len: nat)
    requires off <= len <= |v| && len <= |a| && SameKey(v, a, off, len)
    ensures SameBits(v, a, 8 * off, 8 * len)
  {
    SameBytesSameBits(v, a, off, len);
  }

  lemma ExtendedParts(m: Nodes, m': Nodes, e: Env, e': Env, v: Key, mask: Mask, node: int)
    requires Extended(m, m', e, e', v, mask, node)
    ensures node in e'.masks && e'.masks[node] == mask
  {
    hide Grown;
  }

  lemma ExtendedStill(m: Nodes, m': Nodes, e: Env, e1: Env, e2: Env, v: Key, mask: Mask, node: int)
    requires Extended(m, m', e, e1, v, mask, node) && e2.masks == e1.masks
    ensures Extended(m, m', e, e2, v, mask, node)
  {
  }

  lemma InitialRouting(m: Nodes, e: Env, t: Trie, off: nat, len: nat)
    requires Shape(m, t, off, len) && t == Branch(TOP, 8 * off, Leaf(ZEROS, Zeros(len)), Leaf(ONES, Ones(len)))
    requires ZEROS in m && ONES in m && m[ZEROS].key == Zeros(len) && m[ONES].key == Ones(len)
    requires e == Env(map[ZEROS := [ZEROS], ONES := [ONES]], map[ZEROS := Host, ONES := Host], map[TOP := []], {})
    ensures Routing(m, e, t, off, len)
  {
    hide Shape, BitAt;
    var reg := e.masks.Keys;
    assert Member(m, e, ZEROS, Zeros(len), off, len) && Member(m, e, ONES, Ones(len), off, len);
    LeafKept(m, e, reg, t.left, t.bit, off, len);
    LeafKept(m, e, reg, t.right, t.bit, off, len);
    forall x {:trigger DueEntry(e, reg, t, -1, x)}
      ensures !DueEntry(e, reg, t, -1, x)
    {
      assert x.leaf in reg ==> x.leaf == ZEROS || x.leaf == ONES;
    }
    assert Listing(e, reg, [], t, -1);
    assert Has(e, t.left, ZEROS) && Has(e, t.right, ONES);
  }

  lemma NodeIsNew(m: Nodes, e: Env, t: Trie, node: int, off: nat, len: nat)
    requires Routing(m, e, t, off, len) && node !in m && node + 1 !in m
    ensures NewIn(e, t, node)
  {
    hide *;
    RoutingFacts(m, e, t, off, len);
    ShapeParts(m, t, off, len);
    IdsInNodes(m, Hole, t);
    MasksInNodes(m, e, t, node, off, len);
    NewInFrom(e, t, node);
  }

  lemma NewInFrom(e: Env, t: Trie, node: int)
    requires node !in e.masks && node !in Ids(t) && node + 1 !in Ids(t)
    ensures NewIn(e, t, node)
  {
  }

  lemma MasksInNodes(m: Nodes, e: Env, t: Trie, r: int, off: nat, len: nat)
    requires Routing(m, e, t, off, len)
    ensures r in e.masks ==> r in m
  {
    hide Kept, Shape, SameBits, Fitting, OwnLeaf, Has;
    if r in e.masks {
      var k := RouteHasKey(m, e, e.masks.Keys, t, -1, r, off, len);
    }
  }

  lemma {:induction false} IdsInNodes(m: Nodes, c: Context, t: Trie)
    requires Formed(m, c, t)
    ensures forall i {:trigger i in Ids(t)} :: i in Ids(t) ==> i in m
    decreases t
  {
    if t.Branch? {
      IdsInNodes(m, InLeft(t.id, t.bit, t.right, c), t.left);
      IdsInNodes(m, InRight(t.id, t.bit, t.left, c), t.right);
    }
  }

  lemma SameAsMember(m: Nodes, e: Env, r: int, k: Key, v: Key, mask: Mask, off: nat, len: nat)
    requires Member(m, e, r, k, off, len) && e.masks[r] == mask && SameBits(v, k, 8 * off, 8 * len)
    ensures SameRoute(m, e, r, v, mask, off, len)
  {
    hide Fitting, BitAt;
    SameBitsBack(v, k, m[r].key, 8 * off, 8 * len);
  }

  lemma PlaceBetween(m: Nodes, e: Env, ch: seq<int>, f: Trie, v: Key, i: nat, mask: Mask, off: nat, len: nat)
    requires f.Leaf? && Chained(m, e, ch, f.id, f.key, off, len) && i <= |ch| && Fitting(v, mask, off, len)
    requires forall j {:trigger ch[j]} :: 0 <= j < |ch| ==> ch[j] in e.masks
    requires forall j {:trigger ch[j]} :: 0 <= j < i ==> e.masks[ch[j]] != mask && !Sharper(mask, e.masks[ch[j]])
    requires i < |ch| ==> e.masks[ch[i]] != mask && Sharper(mask, e.masks[ch[i]])
    requires forall r {:trigger r in e.masks} :: r in e.masks && r <= ONES ==> e.masks[r].Host?
    ensures Between(e, ch, i, mask, len) && (i == 0 ==> f.id > ONES)
  {
    hide SameBits, BitAt;
    var w := Rank(mask, len);
    if i < |ch| {
      MemberRank(m, e, ch, f, i, off, len);
    }
    forall j {:trigger ch[j]} | 0 <= j < i
      ensures RankOf(e, ch[j], len) > w
    {
      MemberRank(m, e, ch, f, j, off, len);
    }
    forall j {:trigger ch[j]} | i <= j < |ch|
      ensures w > RankOf(e, ch[j], len)
    {
      assert i < j ==> RankOf(e, ch[i], len) > RankOf(e, ch[j], len);
    }
  }

  lemma MemberRank(m: Nodes, e: Env, ch: seq<int>, f: Trie, j: nat, off: nat, len: nat)
    requires f.Leaf? && Chained(m, e, ch, f.id, f.key, off, len) && j < |ch|
    ensures ch[j] in e.masks && RankOf(e, ch[j], len) == Rank(e.masks[ch[j]], len) && (e.masks[ch[j]].Net? ==> e.masks[ch[j]].index <= 8 * len)
  {
    hide SameBits, BitAt;
    assert ch[j] in ch;
  }

  /** There is no route with the key and mask: it would be in the chain. */
  lemma NoneInChain(m: Nodes, e: Env, t: Trie, c: Context, f: Trie, v: Key, mask: Mask, i: nat, off: nat, len: nat)
    requires AtLeaf(m, e, t, c, f, off, len) && f.id in e.chains && Between(e, e.chains[f.id], i, mask, len) && SameBits(v, f.key, 8 * off, 8 * len)
    ensures forall r :: !SameRoute(m, e, r, v, mask, off, len)
  {
    hide *;
    AtLeafFacts(m, e, t, c, f, off, len);
    ChainFacts(m, e, t, c, f, off, len);
    forall r
      ensures !SameRoute(m, e, r, v, mask, off, len)
    {
      if SameRoute(m, e, r, v, mask, off, len) {
        SameRouteFacts(m, e, t, r, v, mask, off, len);
        SameBitsTransitive(m[r].key, v, f.key, 8 * off, 8 * len);
        RouteInside(m, e, e.masks.Keys, c, f, f.key, r, 8 * len, off, len);
        InChain(e, f, r);
        NotBetween(e, e.chains[f.id], i, mask, r, len);
      }
    }
  }

  lemma SameRouteFacts(m: Nodes, e: Env, t: Trie, r: int, v: Key, mask: Mask, off: nat, len: nat)
    requires Routing(m, e, t, off, len) && SameRoute(m, e, r, v, mask, off, len)
    ensures r in m && r in e.masks && e.masks[r] == mask && SameBits(m[r].key, v, 8 * off, 8 * len) && Has(e, t, r)
  {
    hide Kept, Shape, SameBits, Has;
  }

  lemma NotBetween(e: Env, ch: seq<int>, i: nat, mask: Mask, r: int, len: nat)
    requires Between(e, ch, i, mask, len) && r in ch
    ensures r in e.masks ==> e.masks[r] != mask
  {
    var j :| 0 <= j < |ch| && ch[j] == r;
  }

  /** There is no route with the key and mask: its key would be in the tree. */
  lemma NoneInTree(m: Nodes, e: Env, t: Trie, c: Context, f: Trie, v: Key, b: nat, mask: Mask, off: nat, len: nat)
    requires AtLeaf(m, e, t, c, f, off, len) && f == Find(t, v) && Differ(v, f.key, b, off, len)
    ensures forall r :: !SameRoute(m, e, r, v, mask, off, len)
  {
    hide *;
    AtLeafFacts(m, e, t, c, f, off, len);
    DifferBounds(v, f.key, b, off, len);
    forall r
      ensures !SameRoute(m, e, r, v, mask, off, len)
    {
      if SameRoute(m, e, r, v, mask, off, len) {
        SameRouteFacts(m, e, t, r, v, mask, off, len);
        var k := RouteHasKey(m, e, e.masks.Keys, t, -1, r, off, len);
        MemberSame(m, e, r, k, off, len);
        SameBitsTransitive(k, m[r].key, v, 8 * off, 8 * len);
        FindAgrees(t, v, k, 8 * off, 8 * len);
        DifferAt(v, f.key, b, off, len);
        SameUntil(k, v, f.key, b, 8 * len, 8 * off);
      }
    }
  }

  lemma MemberSame(m: Nodes, e: Env, r: int, k: Key, off: nat, len: nat)
    requires Member(m, e, r, k, off, len)
    ensures r in m && SameBits(k, m[r].key, 8 * off, 8 * len) && SameBits(m[r].key, k, 8 * off, 8 * len)
  {
    hide Fitting, BitAt;
  }

  lemma DifferAt(v: Key, k: Key, b: nat, off: nat, len: nat)
    requires Differ(v, k, b, off, len)
    ensures BitAt(v, b) != BitAt(k, b)
  {
  }

  // the new leaf

  lemma NewSiteFacts(m: Nodes, e: Env, t: Trie, c: Context, s: Trie, v: Key, f: Trie, b: nat, node: int, off: nat, len: nat)
    requires Routing(m, e, t, off, len) && Plug(c, s) == t && Formed(m, c, s) && Apart(c, s) && Ordered(c, s, 8 * off) && !c.Hole? && UpBit(c) < b
    requires f.Leaf? && Deeper(s, b) && HasKey(s, f.key) && Differ(v, f.key, b, off, len) && NewIn(e, t, node)
    ensures PartsAt(s, v, 8 * off, b) && Neighbours(m, c, s, node) && node !in Ids(s) + IdsAround(c) && node + 1 !in Ids(s) + IdsAround(c)
    ensures Kept(m, e, e.masks.Keys, s, UpBit(c), off, len) && KeptAround(m, e, e.masks.Keys, c, s, off, len) && node !in e.masks
    ensures c.id in m && s.id in m && c.id != node && c.id != node + 1 && s.id != node && s.id != node + 1 && s.id != c.id
    ensures (m[s.id].b < 0 <==> s.Leaf?) && node !in Ids(t) && node + 1 !in Ids(t)
  {
    hide *;
    RoutingFacts(m, e, t, off, len);
    OrderedParts(c, s, 8 * off);
    DifferBounds(v, f.key, b, off, len);
    DifferAt(v, f.key, b, off, len);
    PlaceParts(s, v, f.key, 8 * off, b);
    NewInParts(e, t, node);
    AreNeighbours(m, c, s, node);
    FourApart(m, c, s, node);
    KeptPlug(m, e, e.masks.Keys, c, s, off, len);
    InNodes(m, c, s);
    LeafTest(m, c, s);
  }

  lemma FourApart(m: Nodes, c: Context, s: Trie, node: int)
    requires Neighbours(m, c, s, node)
    ensures !c.Hole? && c.id in m && s.id in m && c.id != node && c.id != node + 1 && s.id != node && s.id != node + 1 && s.id != c.id
  {
  }

  lemma NewInParts(e: Env, t: Trie, node: int)
    requires NewIn(e, t, node)
    ensures node !in e.masks && node !in Ids(t) && node + 1 !in Ids(t)
  {
  }

  lemma LeafTest(m: Nodes, c: Context, s: Trie)
    requires Formed(m, c, s) && s.id in m
    ensures m[s.id].b < 0 <==> s.Leaf?
  {
  }

  lemma SplicedNewLeaf(m: Nodes, m': Nodes, c: Context, s: Trie, v: Key, b: nat, mask: Mask, node: int, off: nat, len: nat)
    requires Neighbours(m, c, s, node) && m' == Spliced(m, c, s, v, b, node) && node !in m && node + 1 !in m && |v| == len && Fitting(v, mask, off, len)
    ensures NewLeaf(m, m', v, mask, node, off, len)
  {
    hide Fitting, BitAt;
  }

  lemma KeptBranch(m: Nodes, e: Env, reg: set<int>, t: Trie, up: int, off: nat, len: nat)
    requires t.Branch? && Kept(m, e, reg, t, up, off, len)
    ensures t.id in e.lists && Descending(e.lists[t.id])
  {
    hide DueEntry;
  }

  /** The routes of the chain up to i that come onto the list. */
  ghost predicate RisenTo(e: Env, ch: seq<int>, i: nat, b: nat, l: seq<Entry>, listed: set<int>) {
    && i <= |ch| && Descending(l)
    && (forall x {:trigger x in l} {:trigger Risen(e, ch[..i], b, x)} :: x in l <==> Risen(e, ch[..i], b, x))
    && forall r {:trigger r in listed} {:trigger r in e.listed} :: r in listed <==> r in e.listed || (r in ch[..i] && Rises(e, r, b))
  }

  lemma RisenStart(e: Env, ch: seq<int>, b: nat, l: seq<Entry>)
    requires l == []
    ensures RisenTo(e, ch, 0, b, l, e.listed)
  {
  }

  lemma RisenStep(e: Env, ch: seq<int>, i: nat, b: nat, l: seq<Entry>, listed: set<int>, len: nat)
    requires RisenTo(e, ch, i, b, l, listed) && i < |ch| && ch[i] in e.masks && Ranked(e, ch, len)
    ensures var r := ch[i];
      if e.masks[r].Net? && e.masks[r].index <= b && r !in listed
      then RisenTo(e, ch, i + 1, b, l + [Entry(e.masks[r].index, e.masks[r].index > 0, r)], listed + {r})
      else RisenTo(e, ch, i + 1, b, l, listed)
  {
    hide RankOf;
    var r := ch[i];
    PrefixIn(ch, i);
    FreshInChain(e, ch, i, len);
    if e.masks[r].Net? && e.masks[r].index <= b && r !in listed {
      var x := Entry(e.masks[r].index, e.masks[r].index > 0, r);
      LastDescends(e, ch, i, b, l, x, len);
    }
  }

  lemma PrefixIn(ch: seq<int>, i: nat)
    requires i < |ch|
    ensures forall r {:trigger r in ch[..i + 1]} :: r in ch[..i + 1] <==> r in ch[..i] || r == ch[i]
  {
    assert ch[..i + 1] == ch[..i] + [ch[i]];
  }

  /** The ranks differ, so no route is twice in the chain. */
  lemma FreshInChain(e: Env, ch: seq<int>, i: nat, len: nat)
    requires Ranked(e, ch, len) && i < |ch|
    ensures ch[i] !in ch[..i]
  {
    hide RankOf;
    forall j | 0 <= j < i
      ensures ch[..i][j] != ch[i]
    {
      assert RankOf(e, ch[j], len) > RankOf(e, ch[i], len);
    }
  }

  lemma LastDescends(e: Env, ch: seq<int>, i: nat, b: nat, l: seq<Entry>, x: Entry, len: nat)
    requires i < |ch| && Descending(l) && Ranked(e, ch, len) && x.leaf == ch[i] && x.leaf in e.masks && e.masks[x.leaf] == Net(x.index)
    requires forall y {:trigger y in l} {:trigger Risen(e, ch[..i], b, y)} :: y in l <==> Risen(e, ch[..i], b, y)
    ensures Descending(l + [x])
  {
    var l' := l + [x];
    forall j, k {:trigger l'[j], l'[k]} | 0 <= j < k < |l'|
      ensures l'[j].index > l'[k].index
    {
      if k == |l| {
        assert l[j] in l;
        var n :| 0 <= n < i && ch[..i][n] == l[j].leaf;
        assert ch[n] == l[j].leaf;
        assert RankOf(e, ch[n], len) > RankOf(e, ch[i], len);
      }
    }
  }

  lemma RisenEnd(e: Env, e1: Env, s: Trie, b: nat, node: int, mask: Mask, l0: seq<Entry>, l1: seq<Entry>)
    requires s.Leaf? && s.id in e.chains && RisenTo(e, e.chains[s.id], |e.chains[s.id]|, b, l1, e1.listed)
    requires e1.chains == e.chains[node := [node]] && e1.masks == e.masks[node := mask] && e1.lists == e.lists[node + 1 := l1]
    ensures Promoted(e, e1, s, b, node, mask, l0, l1)
  {
    hide Risen, Rises, Descending;
    assert e.chains[s.id][..|e.chains[s.id]|] == e.chains[s.id];
  }

  lemma SplitEnd(e: Env, e1: Env, s: Trie, b: nat, node: int, mask: Mask, l: seq<Entry>, i: nat)
    requires s.Branch? && s.id in e.lists && l == e.lists[s.id] && Descending(l) && i <= |l| && (i < |l| ==> l[i].index <= b)
    requires forall j {:trigger l[j]} :: 0 <= j < i ==> b < l[j].index
    requires e1 == Env(e.chains[node := [node]], e.masks[node := mask], e.lists[s.id := l[..i]][node + 1 := l[i..]], e.listed)
    ensures Promoted(e, e1, s, b, node, mask, l[..i], l[i..])
  {
    assert l == l[..i] + l[i..];
    forall j {:trigger l[i..][j]} | 0 <= j < |l| - i
      ensures l[i..][j].index <= b
    {
      assert j > 0 ==> l[i].index > l[i + j].index;
    }
  }

  lemma NewLeafPending(m: Nodes, m': Nodes, e: Env, e1: Env, t: Trie, c: Context, s: Trie, v: Key, b: nat, mask: Mask, node: int,
                       l0: seq<Entry>, l1: seq<Entry>, off: nat, len: nat)
    requires Routing(m, e, t, off, len) && Plug(c, s) == t && Apart(c, s) && Ordered(c, s, 8 * off) && !c.Hole? && NewIn(e, t, node) && UpBit(c) < b < 8 * len
    requires Kept(m, e, e.masks.Keys, s, UpBit(c), off, len) && KeptAround(m, e, e.masks.Keys, c, s, off, len) && Deeper(s, b)
    requires NewLeaf(m, m', v, mask, node, off, len) && Promoted(e, e1, s, b, node, mask, l0, l1) && PartsAt(s, v, 8 * off, b) && OnPath(c, v)
    requires Formed(m, c, s) && Neighbours(m, c, s, node) && m' == Spliced(m, c, s, v, b, node) && 8 * off <= b
    requires Shape(m', Plug(c, NewPair(s, v, b, node, node + 1)), off, len) && ONES < node
    requires Kept(m', e1, e.masks.Keys, NewPair(s, v, b, node, node + 1), UpBit(c), off, len)
    requires KeptAround(m', e1, e.masks.Keys, c, NewPair(s, v, b, node, node + 1), off, len)
    ensures var c1 := if BitAt(v, b) then InRight(node + 1, b, s, c) else InLeft(node + 1, b, s, c);
      PendingAt(m', e1, Plug(c, NewPair(s, v, b, node, node + 1)), c1, Leaf(node, v), node, off, len)
    ensures Extended(m, m', e, e1, v, mask, node)
  {
    hide *;
    var np := NewPair(s, v, b, node, node + 1);
    var c1, f1 := if BitAt(v, b) then InRight(node + 1, b, s, c) else InLeft(node + 1, b, s, c), Leaf(node, v);
    var reg := e.masks.Keys;
    NewInParts(e, t, node);
    PlugIds(c, s);
    PromotedEnv(e, e1, s, b, node, mask, l0, l1);
    MinusNew(e, e1, mask, node);
    NewPairPlace(c, s, v, b, node);
    SplicedFormed(m, m', c, s, v, b, node);
    NewPairOrdered(c, s, v, 8 * off, b, node, node + 1);
    NewPairDown(m', c, s, v, b, node, off);
    NewPairDistinct(c, s, v, b, node);
    PlugIds(c1, f1);
    KeptPlug(m', e1, reg, c, np, off, len);
    KeptPlug(m', e1, reg, c1, f1, off, len);
    PromotedAround(e, e1, c, s, b, node, mask, l0, l1);
    SiblingHas(e, e1, s, b, node, mask, l0, l1);
    NodeNotIn(m, e, s, UpBit(c), node, off, len);
    NotAround(m, e, e1, c, s, node, off, len);
    HasNewPair(e1, s, v, b, node);
    NotInNewPair(e1, c, s, v, b, node);
    AroundFrom(m', e1, Plug(c, np), c1, f1, node, off, len);
    RoutingParts(m, e, t, off, len);
    AllThere(e, e1, c, s, np, mask, node);
    PromotedMarks(e, e1, s, b, node, mask, l0, l1);
    GrownBy(m, m', e, e1, v, mask, node, off, len);
    OwnRemain(m, m', e, e1, mask, node, len, v, off);
    PromotedOwn(e, e1, s, b, node, mask, l0, l1);
    OwnIds(node);
    PendingFrom(m', e1, Plug(c, np), node, off, len);
    PendingAtFrom(m', e1, Plug(c, np), c1, f1, node, off, len);
    ExtendedFrom(m, m', e, e1, v, mask, node, off, len);
  }

  lemma MinusNew(e: Env, e1: Env, mask: Mask, node: int)
    requires node !in e.masks && e1.masks == e.masks[node := mask]
    ensures e1.masks.Keys - {node} == e.masks.Keys && node in e1.masks
  {
  }

  lemma NewPairPlace(c: Context, s: Trie, v: Key, b: nat, node: int)
    ensures var c1 := if BitAt(v, b) then InRight(node + 1, b, s, c) else InLeft(node + 1, b, s, c);
      Plug(c1, Leaf(node, v)) == Plug(c, NewPair(s, v, b, node, node + 1)) && UpBit(c1) == b && !c1.Hole? && Leaf(node, v).Leaf? && Leaf(node, v).id == node
  {
  }

  lemma NewPairDown(m: Nodes, c: Context, s: Trie, v: Key, b: nat, node: int, off: nat)
    requires Formed(m, c, NewPair(s, v, b, node, node + 1)) && Ordered(c, NewPair(s, v, b, node, node + 1), 8 * off)
    ensures var c1 := if BitAt(v, b) then InRight(node + 1, b, s, c) else InLeft(node + 1, b, s, c);
      Formed(m, c1, Leaf(node, v)) && Ordered(c1, Leaf(node, v), 8 * off)
  {
    hide Patricia, PatriciaAround, Fits, HasKey, Ordered, BitAt;
    var np := NewPair(s, v, b, node, node + 1);
    if BitAt(v, b) {
      OrderedDownRight(c, np, 8 * off);
    } else {
      OrderedDownLeft(c, np, 8 * off);
    }
  }

  lemma NotAround(m: Nodes, e: Env, e1: Env, c: Context, s: Trie, node: int, off: nat, len: nat)
    requires KeptAround(m, e, e.masks.Keys, c, s, off, len) && node !in e.masks && Untouched(e, e1, IdsAround(c))
    ensures !HasAround(e1, c, node)
  {
    hide *;
    HasAroundFrame(e, e1, c, node);
    if HasAround(e, c, node) {
      AroundIsMasked(m, e, e.masks.Keys, c, s, node, off, len);
    }
  }

  lemma NotInNewPair(e1: Env, c: Context, s: Trie, v: Key, b: nat, node: int)
    requires !HasAround(e1, c, node) && !Has(e1, s, node) && node in e1.chains && e1.chains[node] == [node]
    ensures var c1 := if BitAt(v, b) then InRight(node + 1, b, s, c) else InLeft(node + 1, b, s, c);
      !HasAround(e1, c1, node) && Has(e1, Leaf(node, v), node)
  {
  }

  lemma AroundFrom(m: Nodes, e: Env, t: Trie, c: Context, s: Trie, node: int, off: nat, len: nat)
    requires Plug(c, s) == t && Formed(m, c, s) && Apart(c, s) && Ordered(c, s, 8 * off) && UpBit(c) < 8 * len
    requires Kept(m, e, e.masks.Keys - {node}, s, UpBit(c), off, len) && KeptAround(m, e, e.masks.Keys - {node}, c, s, off, len)
    requires Has(e, s, node) && !HasAround(e, c, node)
    ensures Around(m, e, t, c, s, node, off, len)
  {
  }

  lemma AroundParts1(m: Nodes, e: Env, t: Trie, c: Context, s: Trie, node: int, off: nat, len: nat)
    requires Around(m, e, t, c, s, node, off, len)
    ensures Plug(c, s) == t && Formed(m, c, s) && Apart(c, s) && Ordered(c, s, 8 * off) && UpBit(c) < 8 * len
    ensures Kept(m, e, e.masks.Keys - {node}, s, UpBit(c), off, len) && KeptAround(m, e, e.masks.Keys - {node}, c, s, off, len)
    ensures Has(e, s, node) && !HasAround(e, c, node)
  {
  }

  lemma RoutingParts(m: Nodes, e: Env, t: Trie, off: nat, len: nat)
    requires Routing(m, e, t, off, len)
    ensures forall r {:trigger r in e.masks} :: r in e.masks ==> Has(e, t, r)
    ensures forall r {:trigger r in e.masks} :: r in e.masks && r <= ONES ==> e.masks[r].Host?
    ensures OwnLeaf(m, e, ZEROS, Zeros(len)) && OwnLeaf(m, e, ONES, Ones(len)) && e.listed <= e.masks.Keys
  {
    hide Shape, Kept, OwnLeaf, Has;
  }

  lemma AllThere(e: Env, e1: Env, c: Context, s: Trie, t1: Trie, mask: Mask, node: int)
    requires forall r {:trigger r in e.masks} :: r in e.masks ==> Has(e, Plug(c, s), r)
    requires Untouched(e, e1, IdsAround(c)) && e1.masks == e.masks[node := mask] && Has(e1, t1, node)
    requires forall r {:trigger Has(e, s, r)} {:trigger Has(e1, t1, r)} :: r in e.masks.Keys ==> (Has(e1, t1, r) <==> Has(e, s, r))
    ensures forall r {:trigger r in e1.masks} :: r in e1.masks ==> Has(e1, Plug(c, t1), r)
  {
    hide Untouched, Has;
    forall r {:trigger r in e1.masks} | r in e1.masks
      ensures Has(e1, Plug(c, t1), r)
    {
      PlugHas(e1, c, t1, r);
      if r != node {
        assert r in e.masks;
        PlugHas(e, c, s, r);
        HasAroundFrame(e, e1, c, r);
      }
    }
  }

  lemma PromotedMarks(e: Env, e1: Env, s: Trie, b: nat, node: int, mask: Mask, l0: seq<Entry>, l1: seq<Entry>)
    requires Promoted(e, e1, s, b, node, mask, l0, l1) && e.listed <= e.masks.Keys
    ensures e1.listed <= e.masks.Keys
  {
    hide Risen, Descending;
    forall r | r in e1.listed
      ensures r in e.masks.Keys
    {
      assert s.Branch? ==> r in e.listed;
    }
  }

  lemma PromotedOwn(e: Env, e1: Env, s: Trie, b: nat, node: int, mask: Mask, l0: seq<Entry>, l1: seq<Entry>)
    requires Promoted(e, e1, s, b, node, mask, l0, l1)
    ensures e1.chains == e.chains[node := [node]]
  {
  }

  /** The head's own leaves are left alone. */
  lemma OwnRemain(m: Nodes, m': Nodes, e: Env, e1: Env, mask: Mask, node: int, len: nat, v: Key, off: nat)
    requires OwnLeaf(m, e, ZEROS, Zeros(len)) && OwnLeaf(m, e, ONES, Ones(len)) && NewLeaf(m, m', v, mask, node, off, len) && ONES < node
    requires e1.masks == e.masks[node := mask] && forall r {:trigger r in e.masks} :: r in e.masks && r <= ONES ==> e.masks[r].Host?
    ensures forall r {:trigger r in e1.masks} :: r in e1.masks && r <= ONES ==> e1.masks[r].Host?
    ensures e1.chains == e.chains[node := [node]] ==> OwnLeaf(m', e1, ZEROS, Zeros(len)) && OwnLeaf(m', e1, ONES, Ones(len))
  {
    hide Fitting;
  }

  lemma PendingFrom(m: Nodes, e: Env, t: Trie, node: int, off: nat, len: nat)
    requires Shape(m, t, off, len) && node in e.masks && e.listed <= e.masks.Keys - {node}
    requires forall r {:trigger r in e.masks} :: r in e.masks ==> Has(e, t, r)
    requires OwnLeaf(m, e, ZEROS, Zeros(len)) && OwnLeaf(m, e, ONES, Ones(len))
    requires forall r {:trigger r in e.masks} :: r in e.masks && r <= ONES ==> e.masks[r].Host?
    ensures Pending(m, e, t, node, off, len)
  {
  }

  lemma PendingAtFrom(m: Nodes, e: Env, t: Trie, c: Context, f: Trie, node: int, off: nat, len: nat)
    requires Pending(m, e, t, node, off, len) && Around(m, e, t, c, f, node, off, len) && f.Leaf? && !c.Hole?
    ensures PendingAt(m, e, t, c, f, node, off, len)
  {
  }

  lemma ExtendedFrom(m: Nodes, m': Nodes, e: Env, e1: Env, v: Key, mask: Mask, node: int, off: nat, len: nat)
    requires NewLeaf(m, m', v, mask, node, off, len) && e1.masks == e.masks[node := mask] && node !in e.masks && Grown(m, m', e, e1)
    ensures Extended(m, m', e, e1, v, mask, node)
  {
    hide Fitting, Grown;
  }

  // a new place in a chain

  lemma QueueSite(m: Nodes, e: Env, t: Trie, c: Context, f: Trie, node: int, off: nat, len: nat)
    requires AtLeaf(m, e, t, c, f, off, len) && NewIn(e, t, node) && node !in m
    ensures node !in e.masks && node !in Ids(t) && node !in Ids(f) + IdsAround(c) && !c.Hole? && f.id in m && m[f.id].p == c.id && c.id in m && c.id != node
    ensures (m[c.id].l == f.id <==> c.InLeft?) && Kept(m, e, e.masks.Keys, f, UpBit(c), off, len) && KeptAround(m, e, e.masks.Keys, c, f, off, len)
  {
    hide *;
    AtLeafFacts(m, e, t, c, f, off, len);
    NewInParts(e, t, node);
    PlugIds(c, f);
    PlaceSide(m, c, f);
    UpIdOf(c, f.id);
    LeftSide(m, c, f);
    KeptPlug(m, e, e.masks.Keys, c, f, off, len);
  }

  lemma LeftSide(m: Nodes, c: Context, t: Trie)
    requires Formed(m, c, t) && Apart(c, t) && !c.Hole?
    ensures c.id in m && (m[c.id].l == t.id <==> c.InLeft?)
  {
    IdsSplit(t);
    IdsSplit(c.other);
  }

  lemma BetweenBounds(e: Env, ch: seq<int>, i: nat, mask: Mask, len: nat)
    requires Between(e, ch, i, mask, len)
    ensures i <= |ch|
  {
  }

  lemma ReheadedBy(m: Nodes, m': Nodes, c: Context, f: Trie, v: Key, node: int)
    requires !c.Hole? && c.id in m && c.id != node && (m[c.id].l == f.id <==> c.InLeft?)
    requires var m1 := m[node := Node(-1, 0, 0, false, true, c.id, 0, 0, v)];
      m' == m1[c.id := if m1[c.id].l == f.id then m1[c.id].(l := node) else m1[c.id].(r := node)]
    ensures m' == Reheaded(m, c, v, node)
  {
  }

  lemma AtLeafShape(m: Nodes, e: Env, t: Trie, c: Context, f: Trie, off: nat, len: nat)
    requires AtLeaf(m, e, t, c, f, off, len)
    ensures Shape(m, t, off, len)
  {
    hide Shape, Kept;
  }

  /** A route behind the first is not in the tree itself. */
  lemma BesideShape(m: Nodes, m': Nodes, e: Env, t: Trie, c: Context, f: Trie, node: int, off: nat, len: nat)
    requires AtLeaf(m, e, t, c, f, off, len) && node !in Ids(t) && node in m' && m' == m[node := m'[node]]
    ensures Shape(m', t, off, len) && Formed(m', c, f)
  {
    hide *;
    AtLeafShape(m, e, t, c, f, off, len);
    AtLeafFacts(m, e, t, c, f, off, len);
    PlugIds(c, f);
    AgreeBeside(m, m', Ids(t), node);
    SubsetAgrees(m, m', Ids(t), Ids(f));
    SubsetAgrees(m, m', Ids(t), IdsAround(c));
    ShapeFrame(m, m', t, off, len);
    FormedFrame(m, m', c, f);
  }

  lemma AgreeBeside(m: Nodes, m': Nodes, ids: set<int>, node: int)
    requires node !in ids && node in m' && m' == m[node := m'[node]]
    ensures Agree(m, m', ids)
  {
  }

  lemma QueuedBy(m: Nodes, m': Nodes, e: Env, e1: Env, c: Context, f: Trie, f1: Trie, v: Key, mask: Mask, node: int, i: nat, off: nat, len: nat)
    requires f.Leaf? && f.id in e.chains && Between(e, e.chains[f.id], i, mask, len) && SameBits(v, f.key, 8 * off, 8 * len)
    requires f1 == (if i == 0 then Leaf(node, v) else f) && node !in e.masks && node !in m && |v| == len && Fitting(v, mask, off, len)
    requires var ch := e.chains[f.id];
      e1 == Env(e.chains[if i == 0 then node else f.id := ch[..i] + [node] + ch[i..]], e.masks[node := mask], e.lists, e.listed)
    requires i == 0 ==> !c.Hole? && c.id in m && c.id != node && m' == Reheaded(m, c, v, node)
    requires i > 0 ==> m' == m[node := Node(-1, 0, 0, false, true, 0, 0, 0, v)]
    ensures Queued(m, m', e, e1, f, f1, v, mask, node, i, off, len)
  {
    hide Fitting, SameBits, RankOf, Rank;
    assert NewLeaf(m, m', v, mask, node, off, len);
  }

  lemma QueuedPending(m: Nodes, m': Nodes, e: Env, e1: Env, t: Trie, c: Context, f: Trie, f1: Trie, v: Key, mask: Mask, node: int, i: nat, off: nat, len: nat)
    requires AtLeaf(m, e, t, c, f, off, len) && Queued(m, m', e, e1, f, f1, v, mask, node, i, off, len) && node !in Ids(f) + IdsAround(c) && ONES < node
    requires Kept(m', e1, e.masks.Keys, f1, UpBit(c), off, len) && KeptAround(m', e1, e.masks.Keys, c, f1, off, len)
    requires KeptAround(m, e, e.masks.Keys, c, f, off, len)
    requires Shape(m', Plug(c, f1), off, len) && Formed(m', c, f1) && Apart(c, f1) && Ordered(c, f1, 8 * off)
    ensures PendingAt(m', e1, Plug(c, f1), c, f1, node, off, len)
    ensures Extended(m, m', e, e1, v, mask, node)
  {
    hide *;
    AtLeafFacts(m, e, t, c, f, off, len);
    RoutingParts(m, e, t, off, len);
    QueuedParts(m, m', e, e1, f, f1, v, mask, node, i, off, len);
    MinusNew(e, e1, mask, node);
    QueuedGrows(m, m', e, e1, f, f1, v, mask, node, i, off, len);
    QueuedHas(m, m', e, e1, f, f1, v, mask, node, i, off, len);
    QueuedAround(m, m', e, e1, c, f, f1, v, mask, node, i, off, len);
    NotAround(m, e, e1, c, f, node, off, len);
    AroundFrom(m', e1, Plug(c, f1), c, f1, node, off, len);
    AllThere(e, e1, c, f, f1, mask, node);
    OwnRemain(m, m', e, e1, mask, node, len, v, off);
    QueuedOwn(m, m', e, e1, f, f1, v, mask, node, i, off, len);
    PendingFrom(m', e1, Plug(c, f1), node, off, len);
    PendingAtFrom(m', e1, Plug(c, f1), c, f1, node, off, len);
    ExtendedFrom(m, m', e, e1, v, mask, node, off, len);
  }

  lemma QueuedParts(m: Nodes, m': Nodes, e: Env, e1: Env, f: Trie, f1: Trie, v: Key, mask: Mask, node: int, i: nat, off: nat, len: nat)
    requires Queued(m, m', e, e1, f, f1, v, mask, node, i, off, len)
    ensures e1.masks == e.masks[node := mask] && node !in e.masks && NewLeaf(m, m', v, mask, node, off, len) && e1.listed == e.listed && f1.Leaf?
  {
    hide Fitting, SameBits, RankOf, Rank;
  }

  lemma QueuedOwn(m: Nodes, m': Nodes, e: Env, e1: Env, f: Trie, f1: Trie, v: Key, mask: Mask, node: int, i: nat, off: nat, len: nat)
    requires Queued(m, m', e, e1, f, f1, v, mask, node, i, off, len) && OwnLeaf(m, e, ZEROS, Zeros(len)) && OwnLeaf(m, e, ONES, Ones(len)) && ONES < node
    ensures OwnLeaf(m', e1, ZEROS, Zeros(len)) && OwnLeaf(m', e1, ONES, Ones(len))
  {
    hide Fitting, SameBits, RankOf, Rank;
  }

  // the list above

  lemma PendingParts(m: Nodes, e: Env, t: Trie, c: Context, f: Trie, node: int, off: nat, len: nat)
    requires PendingAt(m, e, t, c, f, node, off, len)
    ensures Pending(m, e, t, node, off, len) && Around(m, e, t, c, f, node, off, len) && f.Leaf? && !c.Hole? && node in e.masks
    ensures f.id in m && m[f.id].p == c.id && c.id in m && m[c.id].b == c.bit && UpBit(c) == c.bit && m[c.id].p == UpId(c.up, c.id) && m[c.id].p in m
    ensures (c.id == TOP <==> c.up.Hole?) && (!c.up.Hole? ==> m[m[c.id].p].b == UpBit(c.up))
  {
    hide *;
    PendingAtParts(m, e, t, c, f, node, off, len);
    AroundParts1(m, e, t, c, f, node, off, len);
    PlaceSide(m, c, f);
    UpIdOf(c, f.id);
    JoinIs(c, f);
    FormedUp(m, c, f);
    UpIdOf(c.up, c.id);
    UpPlace(m, t, c.up, Join(c, f), node, e, off, len);
  }

  lemma PendingAtParts(m: Nodes, e: Env, t: Trie, c: Context, f: Trie, node: int, off: nat, len: nat)
    requires PendingAt(m, e, t, c, f, node, off, len)
    ensures Pending(m, e, t, node, off, len) && Around(m, e, t, c, f, node, off, len) && f.Leaf? && !c.Hole? && node in e.masks
  {
    hide Around;
  }

  lemma PendingShape(m: Nodes, e: Env, t: Trie, node: int, off: nat, len: nat)
    requires Pending(m, e, t, node, off, len)
    ensures Shape(m, t, off, len) && node in e.masks && e.listed <= e.masks.Keys - {node} && t.id == TOP
  {
    hide Has, Formed, Ordered;
  }

  /** The node at a place that is not a leaf, and the one above. */
  lemma UpPlace(m: Nodes, t: Trie, x: Context, s: Trie, node: int, e: Env, off: nat, len: nat)
    requires Pending(m, e, t, node, off, len) && Plug(x, s) == t && Formed(m, x, s) && Apart(x, s) && s.Branch?
    ensures s.id in m && m[s.id].b == s.bit && m[s.id].p == UpId(x, s.id) && m[s.id].p in m && (s.id == TOP <==> x.Hole?)
    ensures !x.Hole? ==> x.id in m && m[x.id].b == x.bit == UpBit(x)
  {
    hide Pending, Apart, Plug;
    PendingShape(m, e, t, node, off, len);
    HoleIsTop(x, s, t);
  }

  lemma StaysOff(m: Nodes, e: Env, t: Trie, c: Context, f: Trie, node: int, off: nat, len: nat)
    requires PendingAt(m, e, t, c, f, node, off, len) && (e.masks[node].Host? || e.masks[node].index > UpBit(c))
    ensures Routing(m, e, t, off, len)
  {
    hide *;
    PendingAtParts(m, e, t, c, f, node, off, len);
    AroundParts1(m, e, t, c, f, node, off, len);
    NotLiftedHere(m, e, t, c, node, off, len);
    Unlisted(m, e, e.masks.Keys - {node}, node, c, f, off, len);
    PlusNew(e, node);
    KeptPlug(m, e, e.masks.Keys, c, f, off, len);
    PendingRouting(m, e, e, t, node, off, len);
  }

  lemma NotLiftedHere(m: Nodes, e: Env, t: Trie, c: Context, node: int, off: nat, len: nat)
    requires Pending(m, e, t, node, off, len) && (e.masks[node].Host? || e.masks[node].index > UpBit(c))
    ensures !Lifted(e, node, UpBit(c)) && node !in e.listed && node !in e.masks.Keys - {node}
  {
    hide Shape, Has;
  }

  lemma PlusNew(e: Env, node: int)
    requires node in e.masks
    ensures e.masks.Keys - {node} + {node} == e.masks.Keys
  {
  }

  /** With the new route registered too, the routing is complete. */
  lemma PendingRouting(m: Nodes, e: Env, e': Env, t: Trie, node: int, off: nat, len: nat)
    requires Pending(m, e, t, node, off, len) && Kept(m, e', e'.masks.Keys, t, -1, off, len)
    requires e'.chains == e.chains && e'.masks == e.masks && (e'.listed == e.listed || e'.listed == e.listed + {node})
    ensures Routing(m, e', t, off, len)
  {
    hide Shape, Has, Kept;
    forall r {:trigger r in e'.masks} | r in e'.masks
      ensures Has(e', t, r)
    {
      SameHas(e, e', t, r);
    }
  }

  lemma PendingRises(m: Nodes, e: Env, t: Trie, c: Context, f: Trie, node: int, off: nat, len: nat)
    requires PendingAt(m, e, t, c, f, node, off, len) && e.masks[node].Net? && e.masks[node].index <= c.bit
    ensures Rising(m, e, t, c.up, Join(c, f), f, node, off, len) && Join(c, f).id == c.id
  {
    hide *;
    PendingAtParts(m, e, t, c, f, node, off, len);
    JoinIs(c, f);
    AroundUp(m, e, t, c, f, node, off, len);
    RisingFrom(m, e, t, c.up, Join(c, f), f, node, off, len);
  }

  lemma RisingFrom(m: Nodes, e: Env, t: Trie, c: Context, s: Trie, f: Trie, node: int, off: nat, len: nat)
    requires Pending(m, e, t, node, off, len) && Around(m, e, t, c, s, node, off, len) && s.Branch?
    requires e.masks[node].Net? && e.masks[node].index <= s.bit
    ensures Rising(m, e, t, c, s, f, node, off, len)
  {
  }

  lemma RisingParts(m: Nodes, e: Env, t: Trie, c: Context, s: Trie, f: Trie, node: int, off: nat, len: nat)
    requires Rising(m, e, t, c, s, f, node, off, len)
    ensures Pending(m, e, t, node, off, len) && Around(m, e, t, c, s, node, off, len) && s.Branch? && node in e.masks
    ensures e.masks[node].Net? && e.masks[node].index <= s.bit && s.id in e.lists && s.id in m && m[s.id].b == s.bit
    ensures Listing(e, e.masks.Keys - {node}, e.lists[s.id], s, UpBit(c))
  {
    hide Pending, Listing, KeptAround, Ordered, Apart;
    PendingShape(m, e, t, node, off, len);
    InNodes(m, c, s);
  }

  lemma AroundUp(m: Nodes, e: Env, t: Trie, c: Context, s: Trie, node: int, off: nat, len: nat)
    requires Around(m, e, t, c, s, node, off, len) && !c.Hole?
    ensures Around(m, e, t, c.up, Join(c, s), node, off, len)
  {
    hide *;
    AroundParts1(m, e, t, c, s, node, off, len);
    JoinIs(c, s);
    FormedUp(m, c, s);
    OrderedUp(c, s, 8 * off);
    UpLower(c, s, 8 * off);
    KeptPlug(m, e, e.masks.Keys - {node}, c, s, off, len);
    KeptPlug(m, e, e.masks.Keys - {node}, c.up, Join(c, s), off, len);
    JoinHas(e, c, s, node);
    UpHasAround(e, c, node);
    AroundFrom(m, e, t, c.up, Join(c, s), node, off, len);
  }

  lemma UpLower(c: Context, s: Trie, lo: nat)
    requires Ordered(c, s, lo) && !c.Hole?
    ensures UpBit(c.up) < UpBit(c)
  {
    hide Patricia, Fits, HasKey;
  }

  lemma UpHasAround(e: Env, c: Context, r: int)
    requires !c.Hole? && !HasAround(e, c, r)
    ensures !HasAround(e, c.up, r) && !Has(e, c.other, r)
  {
  }

  lemma RisesOn(m: Nodes, e: Env, t: Trie, c: Context, s: Trie, f: Trie, node: int, off: nat, len: nat)
    requires Rising(m, e, t, c, s, f, node, off, len) && !c.Hole? && e.masks[node].index <= UpBit(c)
    ensures Rising(m, e, t, c.up, Join(c, s), f, node, off, len) && Join(c, s).id == c.id && UpId(c, s.id) == c.id
    ensures c.id in m && m[c.id].p == UpId(c.up, c.id) && m[c.id].p in m && (c.id == TOP <==> c.up.Hole?)
    ensures !c.up.Hole? ==> m[m[c.id].p].b == UpBit(c.up)
  {
    hide *;
    RisingParts(m, e, t, c, s, f, node, off, len);
    JoinIs(c, s);
    UpIdOf(c, s.id);
    UpIdOf(c.up, c.id);
    AroundUp(m, e, t, c, s, node, off, len);
    AroundParts1(m, e, t, c.up, Join(c, s), node, off, len);
    UpPlace(m, t, c.up, Join(c, s), node, e, off, len);
    RisingFrom(m, e, t, c.up, Join(c, s), f, node, off, len);
  }

  /** No other route on the list has a mask of that length: it would have the same key. */
  lemma NoTwin(m: Nodes, e: Env, t: Trie, c: Context, x: Context, s: Trie, f: Trie, node: int, l: seq<Entry>, off: nat, len: nat)
    requires PendingAt(m, e, t, c, f, node, off, len) && Rising(m, e, t, x, s, f, node, off, len) && s.id in e.lists && l == e.lists[s.id]
    ensures Descending(l) && forall j {:trigger l[j]} :: 0 <= j < |l| ==> l[j].index != e.masks[node].index
  {
    hide *;
    RisingParts(m, e, t, x, s, f, node, off, len);
    PendingAtParts(m, e, t, c, f, node, off, len);
    ListingIs(e, e.masks.Keys - {node}, l, s, UpBit(x));
    forall j {:trigger l[j]} | 0 <= j < |l|
      ensures l[j].index != e.masks[node].index
    {
      if l[j].index == e.masks[node].index {
        Twin(m, e, t, c, x, s, f, node, l, j, off, len);
      }
    }
  }

  lemma ListingIs(e: Env, reg: set<int>, l: seq<Entry>, s: Trie, up: int)
    requires Listing(e, reg, l, s, up)
    ensures Descending(l) && forall j {:trigger l[j]} :: 0 <= j < |l| ==> DueEntry(e, reg, s, up, l[j])
  {
    hide DueEntry, Descending;
    forall j {:trigger l[j]} | 0 <= j < |l|
      ensures DueEntry(e, reg, s, up, l[j])
    {
      assert l[j] in l;
    }
  }

  lemma Twin(m: Nodes, e: Env, t: Trie, c: Context, x: Context, s: Trie, f: Trie, node: int, l: seq<Entry>, j: nat, off: nat, len: nat)
    requires PendingAt(m, e, t, c, f, node, off, len) && Rising(m, e, t, x, s, f, node, off, len) && s.id in e.lists && l == e.lists[s.id]
    requires j < |l| && node in e.masks && e.masks[node].Net?
    ensures l[j].index != e.masks[node].index
  {
    hide *;
    var reg, n, r := e.masks.Keys - {node}, e.masks[node].index, l[j].leaf;
    RisingParts(m, e, t, x, s, f, node, off, len);
    PendingAtParts(m, e, t, c, f, node, off, len);
    AroundParts1(m, e, t, x, s, node, off, len);
    AroundParts1(m, e, t, c, f, node, off, len);
    ListingIs(e, reg, l, s, UpBit(x));
    DueRoute(e, reg, s, UpBit(x), l[j]);
    PendingHas(m, e, t, node, r, off, len);
    var k1 := RouteHasKey(m, e, reg, s, UpBit(x), r, off, len);
    var k2 := RouteHasKey(m, e, reg, s, UpBit(x), node, off, len);
    OrderedParts(x, s, 8 * off);
    KeysAgree(s, k1, k2, 8 * off, n);
    KeptLeaf(m, e, reg, f, UpBit(c), off, len);
    InChain(e, f, node);
    InChain(e, f, r);
    ChainedParts(m, e, e.chains[f.id], f.id, f.key, off, len);
    if l[j].index == n {
      TwinBits(m, e, r, node, k1, k2, n, off, len);
      MemberSame(m, e, node, f.key, off, len);
      SameBitsTransitive(m[r].key, m[node].key, f.key, 8 * off, 8 * len);
      LeafHasKey(f);
      RouteInside(m, e, reg, c, f, f.key, r, 8 * len, off, len);
      TwoRanks(e, e.chains[f.id], r, node, len);
    }
  }

  lemma DueRoute(e: Env, reg: set<int>, s: Trie, up: int, x: Entry)
    requires DueEntry(e, reg, s, up, x)
    ensures Has(e, s, x.leaf) && x.leaf in reg && x.leaf in e.masks && e.masks[x.leaf] == Net(x.index) && x.index <= s.bit
  {
  }

  lemma PendingHas(m: Nodes, e: Env, t: Trie, node: int, r: int, off: nat, len: nat)
    requires Pending(m, e, t, node, off, len) && r in e.masks
    ensures Has(e, t, r)
  {
    hide Shape, Has;
  }

  /** Two keys that agree under a mask and are zero beyond it. */
  lemma TwinBits(m: Nodes, e: Env, r: int, node: int, k1: Key, k2: Key, n: nat, off: nat, len: nat)
    requires Member(m, e, r, k1, off, len) && Member(m, e, node, k2, off, len) && SameBits(k1, k2, 8 * off, n)
    requires e.masks[r] == Net(n) && e.masks[node] == Net(n)
    ensures r in m && node in m && SameBits(m[r].key, m[node].key, 8 * off, 8 * len)
  {
    hide BitAt;
    var a, b := m[r].key, m[node].key;
    forall i: nat {:trigger BitAt(a, i)} {:trigger BitAt(b, i)} | 8 * off <= i < 8 * len
      ensures BitAt(a, i) == BitAt(b, i)
    {
      assert BitAt(a, i) == BitAt(k1, i) && BitAt(b, i) == BitAt(k2, i);
    }
  }

  lemma TwoRanks(e: Env, ch: seq<int>, r: int, node: int, len: nat)
    requires Ranked(e, ch, len) && r in ch && node in ch && r in e.masks && node in e.masks && e.masks[r] == e.masks[node]
    ensures r == node
  {
    hide Rank;
    var i :| 0 <= i < |ch| && ch[i] == r;
    var j :| 0 <= j < |ch| && ch[j] == node;
  }

  /** The list with the new entry. */
  lemma ListedNow(m: Nodes, e: Env, e': Env, t: Trie, x: Context, s: Trie, f: Trie, node: int, l: seq<Entry>, j: nat, off: nat, len: nat)
    requires Rising(m, e, t, x, s, f, node, off, len) && s.id in e.lists && l == e.lists[s.id] && j <= |l| && UpBit(x) < e.masks[node].index
    requires Descending(l) && forall k {:trigger l[k]} :: 0 <= k < |l| ==> l[k].index != e.masks[node].index
    requires forall k {:trigger l[k]} :: 0 <= k < j ==> e.masks[node].index < l[k].index
    requires j < |l| ==> l[j].index <= e.masks[node].index
    requires var n := Entry(e.masks[node].index, e.masks[node].index > 0, node);
      e' == Env(e.chains, e.masks, e.lists[s.id := l[..j] + [n] + l[j..]], e.listed + {node})
    ensures Routing(m, e', t, off, len)
  {
    hide *;
    RisingParts(m, e, t, x, s, f, node, off, len);
    AroundParts1(m, e, t, x, s, node, off, len);
    TwoParts(l, j, e.masks[node].index);
    Enlisted(m, e, e', e.masks.Keys - {node}, node, x, s, l[..j], l[j..], off, len);
    PlusNew(e, node);
    KeptPlug(m, e', e.masks.Keys, x, s, off, len);
    PendingRouting(m, e, e', t, node, off, len);
  }

  lemma TwoParts(l: seq<Entry>, j: nat, n: nat)
    requires j <= |l| && Descending(l) && forall k {:trigger l[k]} :: 0 <= k < |l| ==> l[k].index != n
    requires forall k {:trigger l[k]} :: 0 <= k < j ==> n < l[k].index
    requires j < |l| ==> l[j].index <= n
    ensures l == l[..j] + l[j..]
    ensures forall k {:trigger l[..j][k]} :: 0 <= k < |l[..j]| ==> l[..j][k].index > n
    ensures forall k {:trigger l[j..][k]} :: 0 <= k < |l[j..]| ==> n > l[j..][k].index
  {
    forall k {:trigger l[j..][k]} | 0 <= k < |l| - j
      ensures n > l[j..][k].index
    {
      assert k > 0 ==> l[j].index > l[j + k].index;
    }
  }
}
