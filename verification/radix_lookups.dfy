/** Why the lookup finds the most specific route: the leaf's chain first, then the lists upwards. */
module RadixLookups {
  import opened RadixKeys
  import opened RadixTrie
  import opened RadixNodes
  import opened RadixShape
  import opened RadixLists
  import opened RadixTables

  predicate OnlyOwn(e: Env) {
    ONES in e.chains && e.chains[ONES] == [ONES]
  }

  lemma RoutingFacts(m: Nodes, e: Env, t: Trie, off: nat, len: nat)
    requires Routing(m, e, t, off, len)
    ensures Shape(m, t, off, len) && Kept(m, e, e.masks.Keys, t, -1, off, len) && 0 < off < len < 256
    ensures Patricia(t, 8 * off) && Sentinels(t, len) && BitsBelow(t, 8 * len)
    ensures OwnLeaf(m, e, ZEROS, Zeros(len)) && OwnLeaf(m, e, ONES, Ones(len))
  {
    hide Kept;
    ShapeParts(m, t, off, len);
  }

  lemma KeyLength(v: Key, len: nat)
    requires WellKeyed(v, len)
    ensures |v| == len
  {
  }

  lemma StartSame(v: Key, a: Key, off: nat)
    requires off <= |v| && off <= |a|
    ensures v[off..off] == a[off..off]
  {
  }

  lemma FoundLeaf(m: Nodes, e: Env, t: Trie, c: Context, f: Trie, v: Key, off: nat, len: nat)
    requires Routing(m, e, t, off, len) && f.Leaf? && Plug(c, f) == t && Formed(m, c, f) && Apart(c, f) && Ordered(c, f, 8 * off)
    ensures AtLeaf(m, e, t, c, f, off, len)
  {
    hide Kept, Formed, Apart, Ordered;
    RoutingFacts(m, e, t, off, len);
    LeafFacts(m, t, off, len, c, f);
    ShapeParts(m, t, off, len);
    PlugBits(c, f, 8 * len);
    assert BitsBelowAround(c, 8 * len);
    assert c.Hole? ==> t == f;
  }

  /** What the chain of a leaf holds. */
  lemma ChainFacts(m: Nodes, e: Env, t: Trie, c: Context, f: Trie, off: nat, len: nat)
    requires AtLeaf(m, e, t, c, f, off, len)
    ensures f.id in e.chains && |e.chains[f.id]| > 0 && e.chains[f.id][0] == f.id && f.id in e.masks
    ensures Chained(m, e, e.chains[f.id], f.id, f.key, off, len) && KeptAround(m, e, e.masks.Keys, c, f, off, len)
    ensures e.masks[f.id].Net? ==> MaskLength(e.masks[f.id].index) <= len
    ensures m[f.id].root <==> f.id <= ONES
    ensures f.id <= ONES ==> (f.id == ZEROS || f.id == ONES) && e.masks[f.id].Host?
    ensures forall r {:trigger r in e.chains[f.id]} :: r in e.chains[f.id] ==> r in e.masks && Member(m, e, r, f.key, off, len)
  {
    hide Shape, Apart, Ordered, Plug, PatriciaAround, KeptAround, Member, Ranked, SameBits;
    KeptPlug(m, e, e.masks.Keys, c, f, off, len);
    OwnLeaves(m, t, c, f, off, len);
    var ch := e.chains[f.id];
    assert ch[0] in ch;
    assert Member(m, e, f.id, f.key, off, len);
    MemberMask(m, e, f.id, f.key, off, len);
    forall r {:trigger r in ch} | r in ch
      ensures r in e.masks
    {
      MemberMask(m, e, r, f.key, off, len);
    }
  }

  lemma MemberMask(m: Nodes, e: Env, r: int, k: Key, off: nat, len: nat)
    requires Member(m, e, r, k, off, len)
    ensures r in m && r in e.masks && (e.masks[r].Net? ==> MaskLength(e.masks[r].index) <= len && e.masks[r].index <= 8 * len)
  {
    hide SameBits, BitAt;
  }

  /** The outer leaves are the head's own. */
  lemma OwnLeaves(m: Nodes, t: Trie, c: Context, f: Trie, off: nat, len: nat)
    requires Shape(m, t, off, len) && f.Leaf? && Plug(c, f) == t && Formed(m, c, f)
    ensures f.id in m && (m[f.id].root <==> f.id <= ONES)
    ensures f.id <= ONES ==> f == Leaf(ZEROS, Zeros(len)) || f == Leaf(ONES, Ones(len))
  {
    hide Patricia, Ordered, Distinct, Laid, BitsBelow;
    PlugLeaves(c, f);
    PlugIds(c, f);
    var s, i := Leaves(t), |LeavesBefore(c)|;
    assert s[i] == f;
    assert f.id in Ids(t);
    assert f.id in m by {
      hide LaidAround;
      InMemory(m, c, f);
    }
  }

  lemma InMemory(m: Nodes, c: Context, f: Trie)
    requires Formed(m, c, f)
    ensures f.id in m
  {
  }

  // ---- the leaf the address leads to ----

  lemma WidthReached(k: Mask, cp: nat, vlen: int, len: nat)
    requires cp >= vlen && vlen == if k.Host? then len else MaskLength(k.index)
    ensures Width(k, len) <= 8 * cp
  {
  }

  lemma MemberCovers(m: Nodes, e: Env, r: int, k: Key, v: Key, n: nat, off: nat, len: nat)
    requires Member(m, e, r, k, off, len) && SameBits(v, k, 8 * off, n) && Width(e.masks[r], len) <= n && Width(e.masks[r], len) <= 8 * len
    ensures Covers(m, e, r, v, off, len)
  {
    hide Fitting, BitAt;
    var w := Width(e.masks[r], len);
    SameBitsPrefix(m[r].key, k, 8 * off, 8 * len, w);
    SameBitsPrefix(v, k, 8 * off, n, w);
    SameBitsBack(v, k, m[r].key, 8 * off, w);
  }

  /** The first route of the chain that covers the address is the best one. */
  lemma BestOfChain(m: Nodes, e: Env, t: Trie, c: Context, f: Trie, v: Key, i: nat, off: nat, len: nat)
    requires AtLeaf(m, e, t, c, f, off, len) && f == Find(t, v) && f.id in e.chains && i < |e.chains[f.id]|
    requires IsRoute(e, e.chains[f.id][i]) && Covers(m, e, e.chains[f.id][i], v, off, len)
    requires forall j {:trigger e.chains[f.id][j]} :: 0 <= j < i ==> e.chains[f.id][j] <= ONES || !Covers(m, e, e.chains[f.id][j], v, off, len)
    ensures Best(m, e, e.chains[f.id][i], v, off, len)
  {
    hide *;
    AtLeafFacts(m, e, t, c, f, off, len);
    ChainFacts(m, e, t, c, f, off, len);
    var ch := e.chains[f.id];
    var r := ch[i];
    InChain(e, f, r);
    forall x {:trigger IsRoute(e, x)} | IsRoute(e, x) && Covers(m, e, x, v, off, len)
      ensures RankOf(e, x, len) <= RankOf(e, r, len)
    {
      if RankOf(e, x, len) > RankOf(e, r, len) {
        RouteHas(m, e, t, x, off, len);
        OutrankingIsThere(m, e, e.masks.Keys, t, c, f, v, r, x, off, len);
        InChain(e, f, x);
        RankedOrder(m, e, ch, f, x, i, off, len);
      }
    }
    BestFrom(m, e, r, v, off, len);
  }

  lemma BestFrom(m: Nodes, e: Env, r: int, v: Key, off: nat, len: nat)
    requires IsRoute(e, r) && Covers(m, e, r, v, off, len) && Bounded(m, e, v, RankOf(e, r, len), off, len)
    ensures Best(m, e, r, v, off, len)
  {
  }

  lemma BoundedFrom(m: Nodes, e: Env, v: Key, limit: int, off: nat, len: nat)
    requires forall x {:trigger IsRoute(e, x)} :: IsRoute(e, x) && Covers(m, e, x, v, off, len) ==> RankOf(e, x, len) <= limit
    ensures Bounded(m, e, v, limit, off, len)
  {
  }

  lemma InChain(e: Env, f: Trie, r: int)
    requires f.Leaf?
    ensures Has(e, f, r) <==> f.id in e.chains && r in e.chains[f.id]
  {
  }

  lemma RouteHas(m: Nodes, e: Env, t: Trie, x: int, off: nat, len: nat)
    requires Routing(m, e, t, off, len) && IsRoute(e, x)
    ensures Has(e, t, x) && x in e.masks && x > ONES
  {
  }

  lemma AtLeafFacts(m: Nodes, e: Env, t: Trie, c: Context, f: Trie, off: nat, len: nat)
    requires AtLeaf(m, e, t, c, f, off, len)
    ensures Routing(m, e, t, off, len) && f.Leaf? && Plug(c, f) == t && Formed(m, c, f) && Apart(c, f) && Ordered(c, f, 8 * off)
    ensures f.id in m && m[f.id].key == f.key && |f.key| >= len && UpBit(c) < 8 * len && !c.Hole?
    ensures Kept(m, e, e.masks.Keys, t, -1, off, len) && Patricia(t, 8 * off) && 0 < off < len < 256 && HasKey(f, f.key)
    ensures OwnLeaf(m, e, ZEROS, Zeros(len)) && OwnLeaf(m, e, ONES, Ones(len)) && Sentinels(t, len)
    ensures forall r {:trigger r in e.masks} :: r in e.masks && r <= ONES ==> e.masks[r].Host?
  {
    hide Shape, Kept, Formed, Apart, Ordered;
    RoutingFacts(m, e, t, off, len);
  }

  lemma RankedOrder(m: Nodes, e: Env, ch: seq<int>, f: Trie, x: int, i: nat, off: nat, len: nat)
    requires f.Leaf? && Chained(m, e, ch, f.id, f.key, off, len) && x in ch && i < |ch| && RankOf(e, x, len) > RankOf(e, ch[i], len)
    ensures exists j :: 0 <= j < i && ch[j] == x
  {
    hide RankOf, Member;
    var j :| 0 <= j < |ch| && ch[j] == x;
  }

  /** What the comparison of the whole mask tells. */
  lemma ExactLeaf(m: Nodes, e: Env, t: Trie, c: Context, f: Trie, v: Key, cp: nat, off: nat, len: nat)
    requires AtLeaf(m, e, t, c, f, off, len) && f == Find(t, v) && f.id in e.masks && f.id in e.chains && cp <= len
    requires SameBits(v, f.key, 8 * off, 8 * cp) && Width(e.masks[f.id], len) <= 8 * cp
    ensures f.id > ONES ==> Best(m, e, f.id, v, off, len)
    ensures f.id <= ONES && |e.chains[f.id]| > 1 ==> e.chains[f.id][1] > ONES && Best(m, e, e.chains[f.id][1], v, off, len)
    ensures f.id == ZEROS && |e.chains[f.id]| <= 1 ==> Bounded(m, e, v, -1, off, len)
    ensures f.id == ONES || f.id == ZEROS || f.id > ONES
    ensures f.id == ONES ==> SameBits(v, Ones(len), 8 * off, 8 * len)
    ensures f.id != ONES ==> !SameBits(v, Ones(len), 8 * off, 8 * len)
    ensures f.id == ONES ==> (|e.chains[f.id]| <= 1 <==> OnlyOwn(e))
  {
    hide *;
    AtLeafFacts(m, e, t, c, f, off, len);
    ChainFacts(m, e, t, c, f, off, len);
    var ch := e.chains[f.id];
    MemberAt(m, e, ch, f, 0, off, len);
    MemberCovers(m, e, f.id, f.key, v, 8 * cp, off, len);
    AllOnesLeadThere(m, e, t, c, f, v, off, len);
    OwnIds(f.id);
    if f.id > ONES {
      IsRouteFrom(e, f.id);
      BestOfChain(m, e, t, c, f, v, 0, off, len);
    } else {
      HostWidth(e.masks[f.id], cp, len);
      OwnLeafKey(m, e, t, c, f, off, len);
      OnlyOwnChain(e, f.id);
      if |ch| > 1 {
        SecondIsRoute(m, e, ch, f, off, len);
        MemberAt(m, e, ch, f, 1, off, len);
        MemberCovers(m, e, ch[1], f.key, v, 8 * cp, off, len);
        IsRouteFrom(e, ch[1]);
        BestOfChain(m, e, t, c, f, v, 1, off, len);
      } else if f.id == ZEROS {
        ZerosAlone(m, e, t, c, f, v, off, len);
      }
    }
  }

  lemma IsRouteFrom(e: Env, r: int)
    requires r in e.masks && r > ONES
    ensures IsRoute(e, r)
  {
  }

  lemma OwnIds(i: int)
    ensures i == ZEROS || i == ONES ==> i <= ONES && i != NONE
    ensures ZEROS != ONES && NONE < ZEROS < ONES
  {
  }

  lemma HostWidth(k: Mask, cp: nat, len: nat)
    requires Width(k, len) <= 8 * cp && cp <= len
    ensures k.Host? ==> cp == len
  {
  }

  lemma MemberAt(m: Nodes, e: Env, ch: seq<int>, f: Trie, i: nat, off: nat, len: nat)
    requires f.Leaf? && Chained(m, e, ch, f.id, f.key, off, len) && i < |ch|
    ensures Member(m, e, ch[i], f.key, off, len) && ch[i] in e.masks && Width(e.masks[ch[i]], len) <= 8 * len
  {
    hide SameBits, BitAt;
    assert ch[i] in ch;
  }

  lemma OnlyOwnChain(e: Env, i: int)
    requires i in e.chains && |e.chains[i]| > 0 && e.chains[i][0] == i
    ensures i == ONES ==> (|e.chains[i]| <= 1 <==> OnlyOwn(e))
  {
    if |e.chains[i]| == 1 {
      assert e.chains[i] == [i];
    }
  }

  lemma OwnLeafKey(m: Nodes, e: Env, t: Trie, c: Context, f: Trie, off: nat, len: nat)
    requires AtLeaf(m, e, t, c, f, off, len)
    ensures f.id <= ONES ==> f == Leaf(ZEROS, Zeros(len)) || f == Leaf(ONES, Ones(len))
    ensures f.id == ZEROS ==> f.key == Zeros(len)
    ensures f.id == ONES ==> f.key == Ones(len)
  {
    hide Kept, Ordered, Apart, Formed, Shape;
    OwnLeaves(m, t, c, f, off, len);
  }

  /** Behind the head's own leaf come routes. */
  lemma SecondIsRoute(m: Nodes, e: Env, ch: seq<int>, f: Trie, off: nat, len: nat)
    requires f.Leaf? && Chained(m, e, ch, f.id, f.key, off, len) && |ch| > 1
    requires forall r {:trigger r in e.masks} :: r in e.masks && r <= ONES ==> e.masks[r].Host?
    ensures ch[1] > ONES
  {
    hide SameBits, BitAt;
    assert ch[0] in ch && ch[1] in ch;
    assert RankOf(e, ch[0], len) > RankOf(e, ch[1], len);
  }

  /** No route but those in its chain covers the address zero. */
  lemma ZerosAlone(m: Nodes, e: Env, t: Trie, c: Context, f: Trie, v: Key, off: nat, len: nat)
    requires AtLeaf(m, e, t, c, f, off, len) && f == Find(t, v) && f.id == ZEROS && f.key == Zeros(len)
    requires f.id in e.chains && |e.chains[f.id]| <= 1 && (|e.chains[f.id]| > 0 ==> e.chains[f.id][0] == f.id)
    ensures Bounded(m, e, v, -1, off, len)
  {
    hide *;
    AtLeafFacts(m, e, t, c, f, off, len);
    ChainFacts(m, e, t, c, f, off, len);
    forall x {:trigger IsRoute(e, x)} | IsRoute(e, x)
      ensures !Covers(m, e, x, v, off, len)
    {
      ZerosUncovered(m, e, t, c, f, v, x, off, len);
    }
    BoundedFrom(m, e, v, -1, off, len);
  }

  lemma ZerosUncovered(m: Nodes, e: Env, t: Trie, c: Context, f: Trie, v: Key, x: int, off: nat, len: nat)
    requires AtLeaf(m, e, t, c, f, off, len) && f == Find(t, v) && f.id == ZEROS && f.key == Zeros(len) && IsRoute(e, x)
    requires f.id in e.chains && |e.chains[f.id]| <= 1 && (|e.chains[f.id]| > 0 ==> e.chains[f.id][0] == f.id)
    ensures !Covers(m, e, x, v, off, len)
  {
    hide *;
    AtLeafFacts(m, e, t, c, f, off, len);
    ChainFacts(m, e, t, c, f, off, len);
    SentinelBits(off, len);
    RouteHas(m, e, t, x, off, len);
    if Covers(m, e, x, v, off, len) {
      CoverAgrees(m, e, e.masks.Keys, t, v, x, off, len);
      RouteFits(m, e, t, x, off, len);
      LongerAgrees(m[x].key, f.key, e.masks[x], 0, off, len);
      RouteInside(m, e, e.masks.Keys, c, f, f.key, x, 8 * len, off, len);
      InChain(e, f, x);
      OwnIds(f.id);
      assert false;
    }
  }

  lemma RouteFits(m: Nodes, e: Env, t: Trie, x: int, off: nat, len: nat)
    requires Routing(m, e, t, off, len) && x in e.masks && Has(e, t, x)
    ensures x in m && Fitting(m[x].key, e.masks[x], off, len) && |m[x].key| == len && Width(e.masks[x], len) <= 8 * len
  {
    hide Kept, Shape, BitAt, SameBits, Has;
    var k := RouteHasKey(m, e, e.masks.Keys, t, -1, x, off, len);
  }

  /** The address of all ones leads to the head's own leaf with that key. */
  lemma AllOnesLeadThere(m: Nodes, e: Env, t: Trie, c: Context, f: Trie, v: Key, off: nat, len: nat)
    requires AtLeaf(m, e, t, c, f, off, len) && f == Find(t, v) && f.id in e.chains
    ensures SameBits(v, Ones(len), 8 * off, 8 * len) ==> f.id == ONES
  {
    hide *;
    AtLeafFacts(m, e, t, c, f, off, len);
    ChainFacts(m, e, t, c, f, off, len);
    if SameBits(v, Ones(len), 8 * off, 8 * len) {
      OnesInTree(m, t, off, len);
      SameBitsFlip(v, Ones(len), 8 * off, 8 * len);
      FindAgrees(t, v, Ones(len), 8 * off, 8 * len);
      OwnRoute(m, e, t, off, len);
      RouteInside(m, e, e.masks.Keys, c, f, f.key, ONES, 8 * len, off, len);
      InChain(e, f, ONES);
      HostIsFirst(m, e, e.chains[f.id], f, ONES, off, len);
    }
  }

  lemma OnesInTree(m: Nodes, t: Trie, off: nat, len: nat)
    requires Sentinels(t, len)
    ensures HasKey(t, Ones(len))
  {
    LeavesAreKeys(t, |Leaves(t)| - 1);
  }

  lemma OwnRoute(m: Nodes, e: Env, t: Trie, off: nat, len: nat)
    requires Routing(m, e, t, off, len)
    ensures ONES in e.masks && ONES in m && m[ONES].key == Ones(len) && Has(e, t, ONES) && e.masks[ONES].Host?
  {
    hide Kept, Shape, Has;
  }

  lemma HostIsFirst(m: Nodes, e: Env, ch: seq<int>, f: Trie, r: int, off: nat, len: nat)
    requires f.Leaf? && Chained(m, e, ch, f.id, f.key, off, len) && r in ch && r in e.masks && e.masks[r].Host?
    ensures r == f.id
  {
    hide SameBits, BitAt;
    var j :| 0 <= j < |ch| && ch[j] == r;
    assert ch[0] in ch;
    assert 0 < j ==> RankOf(e, ch[0], len) > RankOf(e, ch[j], len);
  }

  lemma NotAllOnes(m: Nodes, e: Env, t: Trie, c: Context, f: Trie, v: Key, b: nat, off: nat, len: nat)
    requires AtLeaf(m, e, t, c, f, off, len) && f == Find(t, v) && f.id in e.chains && 8 * off <= b < 8 * len && BitAt(v, b) != BitAt(f.key, b)
    ensures !SameBits(v, Ones(len), 8 * off, 8 * len)
  {
    hide *;
    AllOnesLeadThere(m, e, t, c, f, v, off, len);
    OwnLeafKey(m, e, t, c, f, off, len);
    SameAt(v, Ones(len), 8 * off, 8 * len, b);
  }

  lemma SameAt(a: Key, c: Key, lo: nat, hi: int, b: nat)
    requires lo <= b < hi
    ensures SameBits(a, c, lo, hi) ==> BitAt(a, b) == BitAt(c, b)
  {
  }

  // ---- the chain and the lists ----

  /** b is the first bit at which the address and the leaf's key differ. */
  ghost predicate Differ(v: Key, k: Key, b: nat, off: nat, len: nat) {
    8 * off <= b < 8 * len && SameBits(v, k, 8 * off, b) && BitAt(v, b) != BitAt(k, b)
  }

  lemma DifferFrom(v: Key, k: Key, b: nat, off: nat, len: nat)
    requires 8 * off <= b < 8 * len && SameBits(v, k, 8 * off, b) && BitAt(v, b) != BitAt(k, b)
    ensures Differ(v, k, b, off, len)
  {
  }

  /** The test of a route in the chain, whether its mask ends before the bit; the empty mask is not
      normal, and satisfied by every address. */
  predicate Serves(e: Env, r: int, b: nat) {
    r in e.masks && e.masks[r].Net? && (e.masks[r].index == 0 || e.masks[r].index <= b)
  }

  lemma HeadSkipped(e: Env, ch: seq<int>, i: int, b: nat)
    requires |ch| > 0 && ch[0] in e.masks && i == if e.masks[ch[0]].Host? then 1 else 0
    ensures 0 <= i <= |ch| && forall j {:trigger ch[j]} :: 0 <= j < i ==> !Serves(e, ch[j], b)
  {
  }

  /** A covering route has a mask that ends before the bit at which the address leaves the key. */
  lemma CoverServes(m: Nodes, e: Env, t: Trie, f: Trie, v: Key, b: nat, x: int, off: nat, len: nat)
    requires Routing(m, e, t, off, len) && f.Leaf? && f == Find(t, v) && Differ(v, f.key, b, off, len)
    requires IsRoute(e, x) && Covers(m, e, x, v, off, len)
    ensures Serves(e, x, b) && RankOf(e, x, len) == e.masks[x].index <= b
    ensures x in m && SameBits(m[x].key, f.key, 8 * off, e.masks[x].index) && Has(e, t, x)
  {
    hide *;
    RoutingFacts(m, e, t, off, len);
    RouteHas(m, e, t, x, off, len);
    CoverAgrees(m, e, e.masks.Keys, t, v, x, off, len);
    ServesFrom(m, e, v, f.key, b, x, off, len);
  }

  lemma ServesFrom(m: Nodes, e: Env, v: Key, k: Key, b: nat, x: int, off: nat, len: nat)
    requires Differ(v, k, b, off, len) && Covers(m, e, x, v, off, len) && SameBits(m[x].key, k, 8 * off, Width(e.masks[x], len))
    ensures Serves(e, x, b) && RankOf(e, x, len) == e.masks[x].index <= b
    ensures x in m && SameBits(m[x].key, k, 8 * off, e.masks[x].index)
  {
    hide BitAt;
    SameUntil(m[x].key, v, k, b, Width(e.masks[x], len), 8 * off);
  }

  lemma SameUntil(x: Key, v: Key, k: Key, b: nat, n: nat, lo: nat)
    requires SameBits(x, v, lo, n) && SameBits(x, k, lo, n) && lo <= b && BitAt(v, b) != BitAt(k, b)
    ensures n <= b
  {
    hide BitAt;
    assert BitAt(x, b) == BitAt(v, b) || BitAt(x, b) == BitAt(k, b);
  }

  lemma ChainHit(m: Nodes, e: Env, t: Trie, c: Context, f: Trie, v: Key, b: nat, i: nat, off: nat, len: nat)
    requires AtLeaf(m, e, t, c, f, off, len) && f == Find(t, v) && Differ(v, f.key, b, off, len)
    requires f.id in e.chains && i < |e.chains[f.id]| && Serves(e, e.chains[f.id][i], b)
    requires forall j {:trigger e.chains[f.id][j]} :: 0 <= j < i ==> !Serves(e, e.chains[f.id][j], b)
    ensures Best(m, e, e.chains[f.id][i], v, off, len) && e.chains[f.id][i] > ONES
  {
    hide *;
    AtLeafFacts(m, e, t, c, f, off, len);
    ChainFacts(m, e, t, c, f, off, len);
    var ch := e.chains[f.id];
    MemberAt(m, e, ch, f, i, off, len);
    ServingRoute(m, e, ch[i], f.key, v, b, off, len);
    forall j {:trigger ch[j]} | 0 <= j < i
      ensures ch[j] <= ONES || !Covers(m, e, ch[j], v, off, len)
    {
      if ch[j] > ONES && Covers(m, e, ch[j], v, off, len) {
        MemberAt(m, e, ch, f, j, off, len);
        IsRouteFrom(e, ch[j]);
        CoverServes(m, e, t, f, v, b, ch[j], off, len);
      }
    }
    BestOfChain(m, e, t, c, f, v, i, off, len);
  }

  lemma ServingRoute(m: Nodes, e: Env, r: int, k: Key, v: Key, b: nat, off: nat, len: nat)
    requires Serves(e, r, b) && Member(m, e, r, k, off, len) && Differ(v, k, b, off, len)
    requires forall x {:trigger x in e.masks} :: x in e.masks && x <= ONES ==> e.masks[x].Host?
    ensures IsRoute(e, r) && r > ONES && Covers(m, e, r, v, off, len)
  {
    hide BitAt, SameBits, Fitting;
    MemberMask(m, e, r, k, off, len);
    if e.masks[r].index == 0 {
      EmptyCovers(m, e, r, v, off, len);
    } else {
      MemberCovers(m, e, r, k, v, b, off, len);
    }
  }

  lemma EmptyCovers(m: Nodes, e: Env, r: int, v: Key, off: nat, len: nat)
    requires r in m && r in e.masks && e.masks[r] == Net(0)
    ensures Covers(m, e, r, v, off, len)
  {
  }

  /** When no route of the chain serves, the covering routes have shorter masks than the bits that
      were tested on the way. */
  lemma ChainMissed(m: Nodes, e: Env, t: Trie, c: Context, f: Trie, v: Key, b: nat, off: nat, len: nat)
    requires AtLeaf(m, e, t, c, f, off, len) && f == Find(t, v) && Differ(v, f.key, b, off, len)
    requires f.id in e.chains && forall j {:trigger e.chains[f.id][j]} :: 0 <= j < |e.chains[f.id]| ==> !Serves(e, e.chains[f.id][j], b)
    ensures Bounded(m, e, v, UpBit(c), off, len)
  {
    hide *;
    AtLeafFacts(m, e, t, c, f, off, len);
    ChainFacts(m, e, t, c, f, off, len);
    forall x {:trigger IsRoute(e, x)} | IsRoute(e, x) && Covers(m, e, x, v, off, len)
      ensures RankOf(e, x, len) <= UpBit(c)
    {
      CoverServes(m, e, t, f, v, b, x, off, len);
      ServesNet(e, x, b);
      if RankOf(e, x, len) > UpBit(c) {
        DifferBounds(v, f.key, b, off, len);
        RouteInside(m, e, e.masks.Keys, c, f, f.key, x, e.masks[x].index, off, len);
        InChain(e, f, x);
      }
    }
    BoundedFrom(m, e, v, UpBit(c), off, len);
  }

  lemma DifferBounds(v: Key, k: Key, b: nat, off: nat, len: nat)
    requires Differ(v, k, b, off, len)
    ensures 8 * off <= b < 8 * len && SameBits(v, k, 8 * off, b)
  {
  }

  /** A place on the way up from the leaf. */
  ghost predicate OnWay(m: Nodes, e: Env, t: Trie, x: Context, s: Trie, f: Trie, off: nat, len: nat) {
    && Routing(m, e, t, off, len) && f.Leaf? && Plug(x, s) == t && Formed(m, x, s) && Apart(x, s) && Ordered(x, s, 8 * off)
    && KeptAround(m, e, e.masks.Keys, x, s, off, len) && HasKey(s, f.key) && UpBit(x) < 8 * len && BitsBelow(s, 8 * len)
  }

  lemma OnWayStart(m: Nodes, e: Env, t: Trie, c: Context, f: Trie, off: nat, len: nat)
    requires AtLeaf(m, e, t, c, f, off, len) && KeptAround(m, e, e.masks.Keys, c, f, off, len)
    ensures OnWay(m, e, t, c, f, f, off, len)
  {
    hide Routing, Formed, Apart, Ordered, KeptAround;
  }

  /** One step up. */
  lemma OnWayUp(m: Nodes, e: Env, t: Trie, x: Context, s: Trie, f: Trie, off: nat, len: nat)
    requires OnWay(m, e, t, x, s, f, off, len) && s.id != TOP
    ensures !x.Hole? && s.id in m && m[s.id].p == x.id && x.id in e.lists && OnWay(m, e, t, x.up, Join(x, s), f, off, len)
    ensures Listing(e, e.masks.Keys, e.lists[x.id], Join(x, s), UpBit(x.up)) && UpBit(x) == x.bit < 8 * len
    ensures Formed(m, x.up, Join(x, s)) && Apart(x.up, Join(x, s)) && Patricia(Join(x, s), 8 * off)
    ensures BitsBelow(Join(x, s), 8 * len) && Join(x, s).id == x.id
  {
    hide *;
    OnWayParts(m, e, t, x, s, f, off, len);
    RoutingFacts(m, e, t, off, len);
    ShapeParts(m, t, off, len);
    HoleIsTop(x, s, t);
    PlaceSide(m, x, s);
    UpIdOf(x, s.id);
    FormedUp(m, x, s);
    JoinIs(x, s);
    OrderedUp(x, s, 8 * off);
    OrderedParts(x.up, Join(x, s), 8 * off);
    KeptUp(m, e, x, s, off, len);
    JoinHasKey(x, s, f.key);
    PlugBits(x.up, Join(x, s), 8 * len);
    UpBits(x, s, 8 * len);
    OnWayFrom(m, e, t, x.up, Join(x, s), f, off, len);
  }

  lemma OnWayParts(m: Nodes, e: Env, t: Trie, x: Context, s: Trie, f: Trie, off: nat, len: nat)
    requires OnWay(m, e, t, x, s, f, off, len)
    ensures Routing(m, e, t, off, len) && f.Leaf? && Plug(x, s) == t && Formed(m, x, s) && Apart(x, s) && Ordered(x, s, 8 * off)
    ensures KeptAround(m, e, e.masks.Keys, x, s, off, len) && HasKey(s, f.key) && UpBit(x) < 8 * len && BitsBelow(s, 8 * len)
  {
  }

  lemma OnWayFrom(m: Nodes, e: Env, t: Trie, x: Context, s: Trie, f: Trie, off: nat, len: nat)
    requires Routing(m, e, t, off, len) && f.Leaf? && Plug(x, s) == t && Formed(m, x, s) && Apart(x, s) && Ordered(x, s, 8 * off)
    requires KeptAround(m, e, e.masks.Keys, x, s, off, len) && HasKey(s, f.key) && UpBit(x) < 8 * len && BitsBelow(s, 8 * len)
    ensures OnWay(m, e, t, x, s, f, off, len)
  {
  }

  lemma HoleIsTop(x: Context, s: Trie, t: Trie)
    requires Plug(x, s) == t && Apart(x, s)
    ensures x.Hole? <==> s.id == t.id
  {
    if !x.Hole? {
      TopAround(x, s, t);
    }
  }

  lemma HoleBit(x: Context)
    ensures x.Hole? ==> UpBit(x) == -1
  {
  }

  lemma UpIdOf(x: Context, i: int)
    ensures !x.Hole? ==> UpId(x, i) == x.id
  {
  }

  lemma JoinIs(x: Context, s: Trie)
    requires !x.Hole?
    ensures Join(x, s) == if x.InLeft? then Branch(x.id, x.bit, s, x.other) else Branch(x.id, x.bit, x.other, s)
    ensures Join(x, s).Branch? && Join(x, s).id == x.id && Join(x, s).bit == x.bit && UpBit(x) == x.bit && Plug(x.up, Join(x, s)) == Plug(x, s)
  {
  }

  lemma OrderedParts(x: Context, s: Trie, lo: nat)
    requires Ordered(x, s, lo)
    ensures Patricia(s, lo) && UpBit(x) < if s.Branch? then s.bit else UpBit(x) + 1
  {
  }

  lemma KeptUp(m: Nodes, e: Env, x: Context, s: Trie, off: nat, len: nat)
    requires KeptAround(m, e, e.masks.Keys, x, s, off, len) && !x.Hole?
    ensures x.id in e.lists && Listing(e, e.masks.Keys, e.lists[x.id], Join(x, s), UpBit(x.up))
    ensures KeptAround(m, e, e.masks.Keys, x.up, Join(x, s), off, len)
  {
    hide Listing, Kept;
  }

  lemma JoinHasKey(x: Context, s: Trie, k: Key)
    requires !x.Hole? && HasKey(s, k)
    ensures HasKey(Join(x, s), k)
  {
  }

  lemma UpBits(x: Context, s: Trie, n: nat)
    requires !x.Hole? && BitsBelow(s, n) && UpBit(x) < n && BitsBelowAround(x.up, n) && BitsBelow(Join(x, s), n)
    ensures UpBit(x.up) < n && UpBit(x) == x.bit < n
  {
  }

  lemma AtTop(m: Nodes, e: Env, t: Trie, x: Context, s: Trie, f: Trie, off: nat, len: nat)
    requires OnWay(m, e, t, x, s, f, off, len) && s.id == TOP
    ensures UpBit(x) == -1
  {
    hide Routing, Kept, KeptAround, Formed, Ordered, Apart;
    RoutingFacts(m, e, t, off, len);
    ShapeParts(m, t, off, len);
    HoleIsTop(x, s, t);
  }

  /** An entry of the list above the place. */
  lemma EntryFacts(m: Nodes, e: Env, t: Trie, x: Context, s: Trie, f: Trie, j: nat, off: nat, len: nat)
    requires OnWay(m, e, t, x, s, f, off, len) && !x.Hole? && x.id in e.lists && j < |e.lists[x.id]|
    requires Listing(e, e.masks.Keys, e.lists[x.id], Join(x, s), UpBit(x.up))
    ensures var n := e.lists[x.id][j];
      && DueEntry(e, e.masks.Keys, Join(x, s), UpBit(x.up), n) && IsRoute(e, n.leaf) && RankOf(e, n.leaf, len) == n.index
      && n.leaf in e.masks && e.masks[n.leaf] == Net(n.index) && UpBit(x.up) < n.index && Has(e, t, n.leaf) && (n.normal <==> n.index > 0)
      && n.index <= UpBit(x)
  {
    hide Shape, Kept, KeptAround, Formed, Apart, Ordered, HasKey, BitsBelow, OwnLeaf;
    var n := e.lists[x.id][j];
    assert n in e.lists[x.id];
    PlugHas(e, x.up, Join(x, s), n.leaf);
    assert Plug(x.up, Join(x, s)) == t;
  }

  /** The route of an entry agrees with the leaf's key under its mask. */
  lemma EntryAgrees(m: Nodes, e: Env, t: Trie, x: Context, s: Trie, f: Trie, j: nat, off: nat, len: nat)
    requires OnWay(m, e, t, x, s, f, off, len) && s.id != TOP && !x.Hole? && x.id in e.lists && j < |e.lists[x.id]|
    ensures var n := e.lists[x.id][j];
      n.leaf in m && SameBits(m[n.leaf].key, f.key, 8 * off, n.index)
  {
    hide *;
    OnWayUp(m, e, t, x, s, f, off, len);
    EntryFacts(m, e, t, x, s, f, j, off, len);
    OnWayParts(m, e, t, x.up, Join(x, s), f, off, len);
    OnWayParts(m, e, t, x, s, f, off, len);
    RoutingFacts(m, e, t, off, len);
    KeptPlug(m, e, e.masks.Keys, x.up, Join(x, s), off, len);
    var n := e.lists[x.id][j];
    EntryBelow(e, x, s, n);
    var k := RouteHasKey(m, e, e.masks.Keys, Join(x, s), UpBit(x.up), n.leaf, off, len);
    JoinHasKey(x, s, f.key);
    JoinIs(x, s);
    KeysAgree(Join(x, s), k, f.key, 8 * off, n.index);
    MemberAgrees(m, e, n.leaf, k, f.key, n.index, off, len);
  }

  lemma EntryBelow(e: Env, x: Context, s: Trie, n: Entry)
    requires !x.Hole? && DueEntry(e, e.masks.Keys, Join(x, s), UpBit(x.up), n)
    ensures Has(e, Join(x, s), n.leaf) && n.index <= Join(x, s).bit
  {
  }

  lemma MemberAgrees(m: Nodes, e: Env, r: int, k: Key, f: Key, n: nat, off: nat, len: nat)
    requires Member(m, e, r, k, off, len) && SameBits(k, f, 8 * off, n) && e.masks[r] == Net(n)
    ensures r in m && SameBits(m[r].key, f, 8 * off, n)
  {
    hide BitAt;
    SameBitsPrefix(m[r].key, k, 8 * off, 8 * len, n);
    SameBitsTransitive(m[r].key, k, f, 8 * off, n);
  }

  /** A covering route with a mask longer than what is tested above the next node is on its list. */
  lemma CoverListed(m: Nodes, e: Env, t: Trie, x: Context, s: Trie, f: Trie, v: Key, b: nat, r: int, off: nat, len: nat)
    requires OnWay(m, e, t, x, s, f, off, len) && s.id != TOP && Bounded(m, e, v, UpBit(x), off, len) && f == Find(t, v)
    requires Differ(v, f.key, b, off, len) && IsRoute(e, r) && Covers(m, e, r, v, off, len) && !x.Hole? && RankOf(e, r, len) > UpBit(x.up)
    ensures x.id in e.lists && r in e.masks && e.masks[r].Net? && RankOf(e, r, len) == e.masks[r].index <= b
    ensures Entry(e.masks[r].index, e.masks[r].index > 0, r) in e.lists[x.id]
  {
    hide *;
    OnWayUp(m, e, t, x, s, f, off, len);
    OnWayParts(m, e, t, x, s, f, off, len);
    OnWayParts(m, e, t, x.up, Join(x, s), f, off, len);
    CoverServes(m, e, t, f, v, b, r, off, len);
    DifferBounds(v, f.key, b, off, len);
    ServesNet(e, r, b);
    BoundedAt(m, e, v, UpBit(x), r, off, len);
    JoinIs(x, s);
    RouteInside(m, e, e.masks.Keys, x.up, Join(x, s), f.key, r, e.masks[r].index, off, len);
    ListedThen(e, x, s, r);
  }

  lemma ServesNet(e: Env, r: int, b: nat)
    requires Serves(e, r, b)
    ensures r in e.masks && e.masks[r].Net?
  {
  }

  lemma BoundedAt(m: Nodes, e: Env, v: Key, limit: int, r: int, off: nat, len: nat)
    requires Bounded(m, e, v, limit, off, len) && IsRoute(e, r) && Covers(m, e, r, v, off, len)
    ensures RankOf(e, r, len) <= limit
  {
  }

  lemma ListedThen(e: Env, x: Context, s: Trie, r: int)
    requires !x.Hole? && x.id in e.lists && Listing(e, e.masks.Keys, e.lists[x.id], Join(x, s), UpBit(x.up))
    requires Has(e, Join(x, s), r) && r in e.masks && e.masks[r].Net? && UpBit(x.up) < e.masks[r].index <= x.bit
    ensures Entry(e.masks[r].index, e.masks[r].index > 0, r) in e.lists[x.id]
  {
    hide Has;
    assert DueEntry(e, e.masks.Keys, Join(x, s), UpBit(x.up), Entry(e.masks[r].index, e.masks[r].index > 0, r));
  }

  /** The first entry that applies is the best route. */
  lemma ListHit(m: Nodes, e: Env, t: Trie, x: Context, s: Trie, f: Trie, v: Key, b: nat, j: nat, off: nat, len: nat)
    requires OnWay(m, e, t, x, s, f, off, len) && s.id != TOP && Bounded(m, e, v, UpBit(x), off, len) && f == Find(t, v)
    requires Differ(v, f.key, b, off, len) && !x.Hole? && x.id in e.lists && j < |e.lists[x.id]|
    requires e.lists[x.id][j].normal ==> e.lists[x.id][j].index <= b
    requires forall k {:trigger e.lists[x.id][k]} :: 0 <= k < j ==> e.lists[x.id][k].normal && b < e.lists[x.id][k].index
    ensures Best(m, e, e.lists[x.id][j].leaf, v, off, len) && e.lists[x.id][j].leaf > ONES
  {
    hide *;
    OnWayUp(m, e, t, x, s, f, off, len);
    EntryFacts(m, e, t, x, s, f, j, off, len);
    EntryAgrees(m, e, t, x, s, f, j, off, len);
    var l := e.lists[x.id];
    var n := l[j];
    EntryCovers(m, e, n, f.key, v, b, off, len);
    forall r {:trigger IsRoute(e, r)} | IsRoute(e, r) && Covers(m, e, r, v, off, len)
      ensures RankOf(e, r, len) <= n.index
    {
      if RankOf(e, r, len) > n.index {
        CoverListed(m, e, t, x, s, f, v, b, r, off, len);
        ListingDescends(e, x, s);
        EarlierEntry(l, j, Entry(e.masks[r].index, e.masks[r].index > 0, r), b);
      }
    }
    BoundedFrom(m, e, v, n.index, off, len);
    BestFrom(m, e, n.leaf, v, off, len);
    OwnRouteId(e, n.leaf);
  }

  lemma OwnRouteId(e: Env, r: int)
    requires IsRoute(e, r)
    ensures r > ONES
  {
  }

  lemma EntryCovers(m: Nodes, e: Env, n: Entry, k: Key, v: Key, b: nat, off: nat, len: nat)
    requires n.leaf in m && n.leaf in e.masks && e.masks[n.leaf] == Net(n.index) && SameBits(m[n.leaf].key, k, 8 * off, n.index)
    requires Differ(v, k, b, off, len) && (n.normal ==> n.index <= b) && (n.normal <==> n.index > 0)
    ensures Covers(m, e, n.leaf, v, off, len)
  {
    hide BitAt;
    if n.normal {
      SameBitsPrefix(v, k, 8 * off, b, n.index);
      SameBitsBack(v, k, m[n.leaf].key, 8 * off, n.index);
    }
  }

  lemma ListingDescends(e: Env, x: Context, s: Trie)
    requires !x.Hole? && x.id in e.lists && Listing(e, e.masks.Keys, e.lists[x.id], Join(x, s), UpBit(x.up))
    ensures Descending(e.lists[x.id])
  {
    hide DueEntry;
  }

  lemma EarlierEntry(l: seq<Entry>, j: nat, n: Entry, b: nat)
    requires Descending(l) && j < |l| && n in l && n.index > l[j].index
    requires forall k {:trigger l[k]} :: 0 <= k < j ==> l[k].normal && b < l[k].index
    ensures b < n.index
  {
    var i :| 0 <= i < |l| && l[i] == n;
    assert l[i].index > l[j].index;
  }

  /** When no entry applies, the covering routes are listed further up. */
  lemma ListMissed(m: Nodes, e: Env, t: Trie, x: Context, s: Trie, f: Trie, v: Key, b: nat, off: nat, len: nat)
    requires OnWay(m, e, t, x, s, f, off, len) && s.id != TOP && Bounded(m, e, v, UpBit(x), off, len) && f == Find(t, v)
    requires Differ(v, f.key, b, off, len) && !x.Hole? && x.id in e.lists
    requires forall k {:trigger e.lists[x.id][k]} :: 0 <= k < |e.lists[x.id]| ==> e.lists[x.id][k].normal && b < e.lists[x.id][k].index
    ensures Bounded(m, e, v, UpBit(x.up), off, len)
  {
    hide *;
    var l := e.lists[x.id];
    forall r {:trigger IsRoute(e, r)} | IsRoute(e, r) && Covers(m, e, r, v, off, len)
      ensures RankOf(e, r, len) <= UpBit(x.up)
    {
      if RankOf(e, r, len) > UpBit(x.up) {
        CoverListed(m, e, t, x, s, f, v, b, r, off, len);
        NotListed(l, Entry(e.masks[r].index, e.masks[r].index > 0, r), b);
      }
    }
    BoundedFrom(m, e, v, UpBit(x.up), off, len);
  }

  lemma NotListed(l: seq<Entry>, n: Entry, b: nat)
    requires n in l
    requires forall k {:trigger l[k]} :: 0 <= k < |l| ==> l[k].normal && b < l[k].index
    ensures b < n.index
  {
    var i :| 0 <= i < |l| && l[i] == n;
  }

  // ---- the empty mask ----

  /** r is the route with the empty mask, and it is below t. */
  ghost predicate ZeroRoute(m: Nodes, e: Env, t: Trie, r: int, up: int, off: nat, len: nat) {
    Kept(m, e, e.masks.Keys, t, up, off, len) && Has(e, t, r) && r in e.masks && e.masks[r] == Net(0)
  }

  lemma EmptyMask(m: Nodes, e: Env, t: Trie, x: Context, s: Trie, f: Trie, n: Entry, off: nat, len: nat)
    requires OnWay(m, e, t, x, s, f, off, len) && s.id != TOP && !x.Hole? && x.id in e.lists && n in e.lists[x.id] && !n.normal
    ensures ZeroRoute(m, e, Join(x, s), n.leaf, UpBit(x.up), off, len)
  {
    hide *;
    OnWayUp(m, e, t, x, s, f, off, len);
    OnWayParts(m, e, t, x.up, Join(x, s), f, off, len);
    RoutingFacts(m, e, t, off, len);
    KeptPlug(m, e, e.masks.Keys, x.up, Join(x, s), off, len);
    EmptyEntry(m, e, x, s, n, off, len);
  }

  lemma EmptyEntry(m: Nodes, e: Env, x: Context, s: Trie, n: Entry, off: nat, len: nat)
    requires !x.Hole? && x.id in e.lists && n in e.lists[x.id] && !n.normal && Listing(e, e.masks.Keys, e.lists[x.id], Join(x, s), UpBit(x.up))
    requires Kept(m, e, e.masks.Keys, Join(x, s), UpBit(x.up), off, len)
    ensures ZeroRoute(m, e, Join(x, s), n.leaf, UpBit(x.up), off, len)
  {
    hide Kept, Has;
    assert DueEntry(e, e.masks.Keys, Join(x, s), UpBit(x.up), n);
  }

  lemma InNodes(m: Nodes, c: Context, s: Trie)
    requires Formed(m, c, s)
    ensures s.id in m
  {
  }

  lemma BranchHere(m: Nodes, c: Context, s: Trie)
    requires Formed(m, c, s) && s.id in m && m[s.id].b >= 0
    ensures s.Branch?
  {
  }

  lemma LeafHere(m: Nodes, c: Context, s: Trie)
    requires Formed(m, c, s) && s.id in m && m[s.id].b < 0
    ensures s.Leaf?
  {
  }

  /** The key of the route has no bit set, so the route is to the left of every branch. */
  lemma ZeroGoesLeft(m: Nodes, e: Env, t: Trie, r: int, up: int, off: nat, len: nat)
    requires ZeroRoute(m, e, t, r, up, off, len) && Patricia(t, 8 * off) && BitsBelow(t, 8 * len) && t.Branch?
    ensures ZeroRoute(m, e, t.left, r, t.bit, off, len) && Patricia(t.left, 8 * off) && BitsBelow(t.left, 8 * len)
  {
    hide Listing, Chained, Marked, BitAt, Find, Member;
    if Has(e, t.right, r) {
      var k := RouteHasKey(m, e, e.masks.Keys, t.right, t.bit, r, off, len);
      FindHasKey(t.left, k);
      assert Before(Find(t.left, k).key, k, 8 * off, t.bit);
      ZeroBit(m, e, r, k, t.bit, off, len);
    }
  }

  lemma ZeroBit(m: Nodes, e: Env, r: int, k: Key, b: nat, off: nat, len: nat)
    requires Member(m, e, r, k, off, len) && e.masks[r] == Net(0) && 8 * off <= b < 8 * len
    ensures !BitAt(k, b)
  {
    hide BitAt;
    assert BitAt(m[r].key, b) == BitAt(k, b);
  }

  lemma ZeroInChain(m: Nodes, e: Env, s: Trie, r: int, up: int, off: nat, len: nat)
    requires ZeroRoute(m, e, s, r, up, off, len) && s.Leaf?
    ensures s.id in e.chains && r in e.chains[s.id] && Ranked(e, e.chains[s.id], len) && r in e.masks && e.masks[r] == Net(0)
    ensures forall i {:trigger e.chains[s.id][i]} :: 0 <= i < |e.chains[s.id]| ==> e.chains[s.id][i] in e.masks
  {
    hide SameBits, Fitting, Marked, Ranked;
    var ch := e.chains[s.id];
    forall i {:trigger ch[i]} | 0 <= i < |ch|
      ensures ch[i] in e.masks
    {
      assert ch[i] in ch;
      assert Member(m, e, ch[i], s.key, off, len);
    }
  }

  lemma OneEmptyMask(e: Env, ch: seq<int>, i: nat, r: int, len: nat)
    requires Ranked(e, ch, len) && r in ch && r in e.masks && e.masks[r] == Net(0) && i <= |ch|
    requires forall j {:trigger ch[j]} :: 0 <= j < |ch| ==> ch[j] in e.masks
    requires forall j {:trigger ch[j]} :: 0 <= j < i ==> e.masks[ch[j]] != Net(0)
    requires i < |ch| ==> e.masks[ch[i]] == Net(0)
    ensures i < |ch| && ch[i] == r
  {
    var k :| 0 <= k < |ch| && ch[k] == r;
    assert i <= k;
    assert i < k ==> RankOf(e, ch[i], len) > RankOf(e, ch[k], len);
  }

  lemma RootPlace(t: Trie)
    requires Distinct(t)
    ensures Apart(Hole, t) && UpBit(Hole) == -1 && Plug(Hole, t) == t
  {
  }

  /** The leaf that has a route in its chain. */
  lemma {:induction false} LeafOf(m: Nodes, e: Env, reg: set<int>, c0: Context, t: Trie, up: int, r: int, off: nat, len: nat) returns (c: Context, f: Trie)
    requires Formed(m, c0, t) && Apart(c0, t) && Ordered(c0, t, 8 * off) && Kept(m, e, reg, t, up, off, len) && UpBit(c0) == up && Has(e, t, r)
    ensures f.Leaf? && Plug(c, f) == Plug(c0, t) && Formed(m, c, f) && Apart(c, f) && Ordered(c, f, 8 * off) && Has(e, f, r)
    ensures Kept(m, e, reg, f, UpBit(c), off, len)
    decreases t
  {
    hide Listing, Chained, Marked, Ordered, Patricia, PatriciaAround, Fits;
    if t.Leaf? {
      c, f := c0, t;
    } else if Has(e, t.left, r) {
      OrderedDownLeft(c0, t, 8 * off);
      c, f := LeafOf(m, e, reg, InLeft(t.id, t.bit, t.right, c0), t.left, t.bit, r, off, len);
    } else {
      OrderedDownRight(c0, t, 8 * off);
      c, f := LeafOf(m, e, reg, InRight(t.id, t.bit, t.left, c0), t.right, t.bit, r, off, len);
    }
  }
}
