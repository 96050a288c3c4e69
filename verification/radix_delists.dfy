/** How chains and lists change when a route is deleted: it leaves its list, its chain, and the lists
    of a branch that goes with it are handed down. */
module RadixDelists {
  import opened RadixKeys
  import opened RadixTrie
  import opened RadixNodes
  import opened RadixLists
  import opened RadixListings
  import opened RadixAdds

  // ---- a route leaves its list ----

  lemma ListingShrinks(e: Env, e': Env, reg: set<int>, node: int, l: seq<Entry>, t: Trie, up: int)
    requires Listing(e, reg, l, t, up) && Relisted(e, e', node) && !Due(e, reg, t, up, node)
    ensures Listing(e', reg - {node}, l, t, up)
  {
    hide Has, Descending;
    forall x {:trigger x in l} {:trigger DueEntry(e', reg - {node}, t, up, x)}
      ensures x in l <==> DueEntry(e', reg - {node}, t, up, x)
    {
      SameHas(e, e', t, x.leaf);
      assert DueEntry(e', reg - {node}, t, up, x) <==> DueEntry(e, reg, t, up, x);
    }
  }

  lemma MarkedShrinks(e: Env, e': Env, reg: set<int>, node: int, ch: seq<int>, up: int)
    requires Marked(e, reg, ch, up) && Relisted(e, e', node)
    ensures Marked(e', reg - {node}, ch, up)
  {
    forall r {:trigger r in ch} | r in ch && r in reg - {node}
      ensures r in e'.listed <==> Lifted(e', r, up)
    {
    }
  }

  /** Below a node, either the route is not there, or its entry is further up. */
  lemma {:induction false} BelowShrinks(m: Nodes, e: Env, e': Env, reg: set<int>, node: int, t: Trie, up: int, lo: nat, off: nat, len: nat)
    requires Kept(m, e, reg, t, up, off, len) && Relisted(e, e', node) && SameLists(e, e', Ids(t)) && Patricia(t, lo) && Deeper(t, up)
    requires Has(e, t, node) ==> !Due(e, reg, t, up, node) && (Lifted(e, node, up) || node !in reg || !(node in e.masks && e.masks[node].Net?))
    ensures Kept(m, e', reg - {node}, t, up, off, len)
    decreases t
  {
    hide Listing, Chained, Marked, Relisted, SameLists;
    assert t.id in Ids(t);
    SameListsPart(e, e', Ids(t), {t.id});
    if t.Branch? {
      OneList(e, e', t.id);
      ListingShrinks(e, e', reg, node, e.lists[t.id], t, up);
      SameListsPart(e, e', Ids(t), Ids(t.left));
      SameListsPart(e, e', Ids(t), Ids(t.right));
      BelowShrinks(m, e, e', reg, node, t.left, t.bit, lo, off, len);
      BelowShrinks(m, e, e', reg, node, t.right, t.bit, lo, off, len);
    } else {
      SameEnvChains(e, e', node);
      SameChained(m, e, e', e.chains[t.id], t.id, t.key, off, len);
      MarkedShrinks(e, e', reg, node, e.chains[t.id], up);
    }
  }

  /** Above, the mask is longer than what any node tests. */
  lemma {:induction false} AroundShrinks(m: Nodes, e: Env, e': Env, reg: set<int>, node: int, x: Context, s: Trie, lo: nat, off: nat, len: nat)
    requires KeptAround(m, e, reg, x, s, off, len) && Relisted(e, e', node) && SameLists(e, e', IdsAround(x)) && PatriciaAround(x, lo)
    requires !HasAround(e, x, node) && !Lifted(e, node, UpBit(x))
    ensures KeptAround(m, e', reg - {node}, x, s, off, len)
    decreases x
  {
    hide Listing, Kept, Relisted, SameLists, Has, Patricia, Fits;
    if !x.Hole? {
      SameListsPart(e, e', IdsAround(x), {x.id});
      OneList(e, e', x.id);
      NotDueUp(e, reg, x, s, node);
      ListingShrinks(e, e', reg, node, e.lists[x.id], Join(x, s), UpBit(x.up));
      SameListsPart(e, e', IdsAround(x), Ids(x.other));
      SameListsPart(e, e', IdsAround(x), IdsAround(x.up));
      BelowShrinks(m, e, e', reg, node, x.other, x.bit, lo, off, len);
      NotLiftedAbove(e, node, x);
      AroundShrinks(m, e, e', reg, node, x.up, Join(x, s), lo, off, len);
    }
  }

  lemma NotDueUp(e: Env, reg: set<int>, x: Context, s: Trie, node: int)
    requires !x.Hole? && !Lifted(e, node, UpBit(x))
    ensures !Due(e, reg, Join(x, s), UpBit(x.up), node)
  {
  }

  /** A list without the entry of one route. */
  lemma ListingRemoved(e: Env, e': Env, reg: set<int>, node: int, l: seq<Entry>, j: nat, t: Trie, up: int)
    requires Listing(e, reg, l, t, up) && Relisted(e, e', node) && j < |l| && l[j].leaf == node
    ensures Listing(e', reg - {node}, l[..j] + l[j + 1..], t, up)
  {
    hide Has, Descending;
    var l' := l[..j] + l[j + 1..];
    DescendingRemoved(l, j);
    forall x {:trigger x in l'} {:trigger DueEntry(e', reg - {node}, t, up, x)}
      ensures x in l' <==> DueEntry(e', reg - {node}, t, up, x)
    {
      SameHas(e, e', t, x.leaf);
      EntryOut(l, j, x);
      assert l[j] in l && DueEntry(e, reg, t, up, l[j]);
      assert x.leaf != node ==> (DueEntry(e', reg - {node}, t, up, x) <==> DueEntry(e, reg, t, up, x));
    }
  }

  lemma EntryOut(l: seq<Entry>, j: nat, x: Entry)
    requires j < |l| && Descending(l)
    ensures x in l[..j] + l[j + 1..] <==> x in l && x != l[j]
  {
    var l' := l[..j] + l[j + 1..];
    if x in l && x != l[j] {
      var i :| 0 <= i < |l| && l[i] == x;
      assert l'[if i < j then i else i - 1] == x;
    }
    if x in l' {
      var i :| 0 <= i < |l'| && l'[i] == x;
      assert l[if i < j then i else i + 1] == x;
    }
  }

  lemma DescendingRemoved(l: seq<Entry>, j: nat)
    requires Descending(l) && j < |l|
    ensures Descending(l[..j] + l[j + 1..]) && Descending(l)
  {
    var l' := l[..j] + l[j + 1..];
    forall a, b {:trigger l'[a], l'[b]} | 0 <= a < b < |l'|
      ensures l'[a].index > l'[b].index
    {
      assert l'[a] == l[if a < j then a else a + 1] && l'[b] == l[if b < j then b else b + 1];
    }
  }

  /** The entry that a route has on the list at the place where it is due. */
  lemma EntryFound(e: Env, reg: set<int>, node: int, l: seq<Entry>, t: Trie, up: int) returns (j: nat)
    requires Listing(e, reg, l, t, up) && Due(e, reg, t, up, node)
    ensures j < |l| && l[j].leaf == node
  {
    hide Has, Descending;
    var x := Entry(e.masks[node].index, e.masks[node].index > 0, node);
    assert DueEntry(e, reg, t, up, x);
    j :| 0 <= j < |l| && l[j] == x;
  }

  /** The route leaves the list at the place, the highest node that its mask allows. */
  lemma Delisted(m: Nodes, e: Env, e': Env, reg: set<int>, node: int, x: Context, s: Trie, j: nat, off: nat, len: nat)
    requires s.Branch? && s.id in e.lists && j < |e.lists[s.id]| && e.lists[s.id][j].leaf == node && node in e.masks && e.masks[node].Net?
    requires e' == e.(lists := e.lists[s.id := e.lists[s.id][..j] + e.lists[s.id][j + 1..]], listed := e.listed - {node})
    requires Kept(m, e, reg, s, UpBit(x), off, len) && KeptAround(m, e, reg, x, s, off, len) && Apart(x, s) && Ordered(x, s, 8 * off)
    requires Has(e, s, node) && !HasAround(e, x, node) && UpBit(x) < e.masks[node].index <= s.bit
    ensures Kept(m, e', reg - {node}, s, UpBit(x), off, len) && KeptAround(m, e', reg - {node}, x, s, off, len)
  {
    hide Listing, KeptAround, Has, Patricia, HasKey, Fits;
    var l := e.lists[s.id];
    ListingRemoved(e, e', reg, node, l, j, s, UpBit(x));
    OrderedBelow(x, s, 8 * off);
    ApartLists(e, e', x, s, l[..j] + l[j + 1..]);
    NotDueBelow(e, reg, s.left, s.bit, node);
    NotDueBelow(e, reg, s.right, s.bit, node);
    BelowShrinks(m, e, e', reg, node, s.left, s.bit, 8 * off, off, len);
    BelowShrinks(m, e, e', reg, node, s.right, s.bit, 8 * off, off, len);
    AroundShrinks(m, e, e', reg, node, x, s, 8 * off, off, len);
  }

  lemma NotDueBelow(e: Env, reg: set<int>, t: Trie, up: int, node: int)
    requires Lifted(e, node, up)
    ensures !Due(e, reg, t, up, node)
  {
  }

  /** A route that is on no list. */
  lemma NeverListed(m: Nodes, e: Env, reg: set<int>, node: int, x: Context, f: Trie, off: nat, len: nat)
    requires f.Leaf? && Kept(m, e, reg, f, UpBit(x), off, len) && KeptAround(m, e, reg, x, f, off, len) && Ordered(x, f, 8 * off)
    requires !HasAround(e, x, node) && !Lifted(e, node, UpBit(x))
    ensures Kept(m, e, reg - {node}, f, UpBit(x), off, len) && KeptAround(m, e, reg - {node}, x, f, off, len)
  {
    hide Listing, KeptAround, Has, Patricia, HasKey, Fits, Chained;
    MarkedShrinks(e, e, reg, node, e.chains[f.id], UpBit(x));
    AroundShrinks(m, e, e, reg, node, x, f, 8 * off, off, len);
  }

  // ---- a route leaves its chain ----

  /** The chain without its route at position i; another leaf stands for it if that was the first. */
  ghost predicate Dropped(m: Nodes, m': Nodes, e: Env, e': Env, f: Trie, f': Trie, i: nat) {
    && f.Leaf? && f.id in e.chains && i < |e.chains[f.id]| && 2 <= |e.chains[f.id]|
    && (if i == 0 then e.chains[f.id][1] in m && f' == Leaf(e.chains[f.id][1], m[e.chains[f.id][1]].key) else f' == f)
    && e' == e.(chains := e.chains[f'.id := e.chains[f.id][..i] + e.chains[f.id][i + 1..]])
    && SameKeys(m, m', e)
  }

  /** The routes have the keys that they had. */
  ghost predicate SameKeys(m: Nodes, m': Nodes, e: Env) {
    forall r {:trigger r in m} {:trigger r in m'} :: r in m && r in e.masks ==> r in m' && m'[r].key == m[r].key
  }

  lemma SameKeysGrown(m: Nodes, m': Nodes, e: Env, e': Env)
    requires SameKeys(m, m', e) && e'.masks == e.masks
    ensures Grown(m, m', e, e')
  {
  }

  lemma DroppedParts(m: Nodes, m': Nodes, e: Env, e': Env, f: Trie, f': Trie, i: nat)
    requires Dropped(m, m', e, e', f, f', i)
    ensures f.Leaf? && f'.Leaf? && f.id in e.chains && i < |e.chains[f.id]| && 2 <= |e.chains[f.id]| && f'.id in e'.chains
    ensures e'.chains[f'.id] == e.chains[f.id][..i] + e.chains[f.id][i + 1..] && e'.masks == e.masks && e'.lists == e.lists && e'.listed == e.listed
    ensures SameKeys(m, m', e) && (i > 0 ==> f' == f) && (i == 0 ==> f'.id == e.chains[f.id][1] && f'.id in m && f'.key == m[f'.id].key)
    ensures e'.chains == e.chains[f'.id := e.chains[f.id][..i] + e.chains[f.id][i + 1..]]
  {
  }

  lemma DroppedKept(m: Nodes, m': Nodes, e: Env, e': Env, reg: set<int>, c: Context, f: Trie, f': Trie, i: nat, off: nat, len: nat)
    requires Dropped(m, m', e, e', f, f', i) && Apart(c, f) && f'.id !in IdsAround(c) && reg <= e.masks.Keys && e.chains[f.id][i] !in reg
    requires Kept(m, e, reg, f, UpBit(c), off, len) && KeptAround(m, e, reg, c, f, off, len)
    ensures Kept(m', e', reg, f', UpBit(c), off, len) && KeptAround(m', e', reg, c, f', off, len)
    ensures forall r {:trigger Has(e, f, r)} {:trigger Has(e', f', r)} :: Has(e', f', r) <==> Has(e, f, r) && r != e.chains[f.id][i]
    ensures Untouched(e, e', IdsAround(c))
  {
    hide *;
    DroppedParts(m, m', e, e', f, f', i);
    var ch, node := e.chains[f.id], e.chains[f.id][i];
    SameKeysGrown(m, m', e, e');
    KeptLeaf(m, e, reg, f, UpBit(c), off, len);
    ChainedParts(m, e, ch, f.id, f.key, off, len);
    forall r {:trigger Has(e, f, r)} {:trigger Has(e', f', r)}
      ensures Has(e', f', r) <==> Has(e, f, r) && r != node
    {
      ChainOut(e, ch, i, r, len);
      HasInLeaf(e, f, r);
      HasInLeaf(e', f', r);
    }
    OthersUntouched(e, e', c, f'.id);
    NoMarkChanges(e, e', reg, c);
    AroundKept(m, m', e, e', reg, c, f, f', off, len);
    DroppedChained(m, m', e, e', f, f', i, off, len);
    DroppedMarked(e, e', reg, f, f', i, UpBit(c));
    LeafKept(m', e', reg, f', UpBit(c), off, len);
  }

  lemma HasInLeaf(e: Env, f: Trie, r: int)
    requires f.Leaf?
    ensures Has(e, f, r) <==> f.id in e.chains && r in e.chains[f.id]
  {
  }

  lemma OthersUntouched(e: Env, e': Env, c: Context, f: int)
    requires f !in IdsAround(c) && f in e'.chains && e'.chains == e.chains[f := e'.chains[f]] && e'.lists == e.lists
    ensures Untouched(e, e', IdsAround(c))
  {
  }

  lemma NoMarkChanges(e: Env, e': Env, reg: set<int>, c: Context)
    requires e'.listed == e.listed
    ensures SameMarksAround(e, e', reg, c)
  {
  }

  /** The ranks differ, so the route is in the chain once. */
  lemma ChainOut(e: Env, ch: seq<int>, i: nat, r: int, len: nat)
    requires i < |ch| && Ranked(e, ch, len)
    ensures r in ch[..i] + ch[i + 1..] <==> r in ch && r != ch[i]
  {
    hide RankOf;
    var l := ch[..i] + ch[i + 1..];
    if r in ch && r != ch[i] {
      var j :| 0 <= j < |ch| && ch[j] == r;
      assert l[if j < i then j else j - 1] == r;
    }
    if r in l {
      var j :| 0 <= j < |l| && l[j] == r;
      var k := if j < i then j else j + 1;
      assert ch[k] == r;
      assert k < i ==> RankOf(e, ch[k], len) > RankOf(e, ch[i], len);
      assert i < k ==> RankOf(e, ch[i], len) > RankOf(e, ch[k], len);
    }
  }

  lemma DroppedChained(m: Nodes, m': Nodes, e: Env, e': Env, f: Trie, f': Trie, i: nat, off: nat, len: nat)
    requires Dropped(m, m', e, e', f, f', i) && Chained(m, e, e.chains[f.id], f.id, f.key, off, len) && Grown(m, m', e, e')
    ensures f'.id in e'.chains && Chained(m', e', e'.chains[f'.id], f'.id, f'.key, off, len)
  {
    hide *;
    DroppedParts(m, m', e, e', f, f', i);
    var ch, ch' := e.chains[f.id], e'.chains[f'.id];
    ChainedParts(m, e, ch, f.id, f.key, off, len);
    ChainedFrame(m, m', e, e', ch, f.id, f.key, off, len);
    ChainedParts(m', e', ch, f.id, f.key, off, len);
    assert ch[1] in ch;
    forall r {:trigger r in ch'} | r in ch'
      ensures Member(m', e', r, f'.key, off, len)
    {
      ChainOut(e, ch, i, r, len);
      DroppedKey(m, m', e, e', f, f', i);
      MemberOfDropped(m', e', f.key, f'.key, if i == 0 then ch[1] else r, r, off, len, i);
    }
    RankedDropped(e', ch, i, len);
    ChainedFrom(m', e', ch', f'.id, f'.key, off, len);
  }

  lemma DroppedKey(m: Nodes, m': Nodes, e: Env, e': Env, f: Trie, f': Trie, i: nat)
    requires Dropped(m, m', e, e', f, f', i) && forall r {:trigger r in e.chains[f.id]} :: r in e.chains[f.id] ==> r in e.masks
    ensures i == 0 ==> f'.id in m' && f'.key == m'[f'.id].key
  {
    assert e.chains[f.id][1] in e.chains[f.id];
  }

  lemma MemberOfDropped(m': Nodes, e': Env, k: Key, k': Key, x: int, r: int, off: nat, len: nat, i: nat)
    requires Member(m', e', r, k, off, len) && (i > 0 ==> k' == k)
    requires i == 0 ==> Member(m', e', x, k, off, len) && x in m' && k' == m'[x].key
    ensures Member(m', e', r, k', off, len)
  {
    hide Fitting, BitAt;
    if i == 0 {
      SameBitsBack(m'[r].key, k, m'[x].key, 8 * off, 8 * len);
      SameBitsFlip(m'[x].key, m'[r].key, 8 * off, 8 * len);
    }
  }

  lemma RankedDropped(e: Env, ch: seq<int>, i: nat, len: nat)
    requires Ranked(e, ch, len) && i < |ch|
    ensures Ranked(e, ch[..i] + ch[i + 1..], len)
  {
    hide RankOf;
    var l := ch[..i] + ch[i + 1..];
    forall x, y {:trigger l[x], l[y]} | 0 <= x < y < |l|
      ensures RankOf(e, l[x], len) > RankOf(e, l[y], len)
    {
      assert l[x] == ch[if x < i then x else x + 1] && l[y] == ch[if y < i then y else y + 1];
    }
  }

  lemma DroppedMarked(e: Env, e': Env, reg: set<int>, f: Trie, f': Trie, i: nat, up: int)
    requires f.Leaf? && f'.Leaf? && f.id in e.chains && f'.id in e'.chains && i < |e.chains[f.id]| && Marked(e, reg, e.chains[f.id], up)
    requires e'.masks == e.masks && e'.listed == e.listed && e'.chains[f'.id] == e.chains[f.id][..i] + e.chains[f.id][i + 1..]
    ensures Marked(e', reg, e'.chains[f'.id], up)
  {
    forall r {:trigger r in e'.chains[f'.id]} | r in e'.chains[f'.id] && r in reg
      ensures r in e'.listed <==> Lifted(e', r, up)
    {
      assert r in e.chains[f.id];
    }
  }

  // ---- a branch goes, and its list is handed down ----

  /** The list of the branch above f, of which only routes in the sibling are left. */
  ghost predicate Demoted(e: Env, e': Env, c: Context)
    requires !c.Hole?
  {
    && c.id in e.lists && e'.chains == e.chains && e'.masks == e.masks
    && (c.other.Branch? ==> c.other.id in e.lists && e'.lists == e.lists[c.other.id := e.lists[c.other.id] + e.lists[c.id]] && e'.listed == e.listed)
    && (c.other.Leaf? ==> e'.lists == e.lists && e'.listed == e.listed - Leaving(e.lists[c.id]))
  }

  /** The routes on a list. */
  function Leaving(l: seq<Entry>): set<int> {
    set x | x in l :: x.leaf
  }

  lemma DemotedKept(m: Nodes, m': Nodes, e: Env, e': Env, reg: set<int>, c: Context, f: Trie, node: int, off: nat, len: nat)
    requires !c.Hole? && Demoted(e, e', c) && SameKeys(m, m', e) && reg <= e.masks.Keys && node !in reg
    requires f.Leaf? && f.id in e.chains && e.chains[f.id] == [node] && Apart(c, f) && Ordered(c, f, 8 * off)
    requires Kept(m, e, reg, f, UpBit(c), off, len) && KeptAround(m, e, reg, c, f, off, len) && UpBit(c) < 8 * len
    ensures Kept(m', e', reg, c.other, UpBit(c.up), off, len) && KeptAround(m', e', reg, c.up, c.other, off, len)
    ensures forall r {:trigger Has(e, c.other, r)} {:trigger Has(e', c.other, r)} :: Has(e', c.other, r) <==> Has(e, c.other, r)
    ensures forall r {:trigger HasAround(e, c.up, r)} {:trigger HasAround(e', c.up, r)} :: HasAround(e', c.up, r) <==> HasAround(e, c.up, r)
  {
    hide *;
    var s := c.other;
    AroundHere(m, e, reg, c, f, off, len);
    DemotedEnv(e, e', c);
    SameKeysGrown(m, m', e, e');
    forall r {:trigger Has(e, s, r)} {:trigger Has(e', s, r)}
      ensures Has(e', s, r) <==> Has(e, s, r)
    {
      SameHas(e, e', s, r);
    }
    forall r {:trigger HasAround(e, c.up, r)} {:trigger HasAround(e', c.up, r)}
      ensures HasAround(e', c.up, r) <==> HasAround(e, c.up, r)
    {
      SameHasAround(e, e', c.up, r);
    }
    forall r {:trigger Has(e, Join(c, f), r)} {:trigger Has(e', s, r)} | r in reg
      ensures Has(e', s, r) <==> Has(e, Join(c, f), r)
    {
      JoinHas(e, c, f, r);
      HasInLeaf(e, f, r);
    }
    DemotedAround(m, e, e', reg, c, f, node, off, len);
    AroundKept(m, m', e, e', reg, c.up, Join(c, f), s, off, len);
    DemotedOrder(c, f, off);
    if s.Branch? {
      LongerList(m, m', e, e', reg, c, f, off, len);
    } else {
      UnmarkedLeaf(m, m', e, e', reg, c, f, off, len);
    }
  }

  lemma AroundHere(m: Nodes, e: Env, reg: set<int>, c: Context, f: Trie, off: nat, len: nat)
    requires !c.Hole? && KeptAround(m, e, reg, c, f, off, len)
    ensures c.id in e.lists && Listing(e, reg, e.lists[c.id], Join(c, f), UpBit(c.up)) && UpBit(c) == c.bit
    ensures Kept(m, e, reg, c.other, c.bit, off, len) && KeptAround(m, e, reg, c.up, Join(c, f), off, len)
  {
  }

  lemma DemotedEnv(e: Env, e': Env, c: Context)
    requires !c.Hole? && Demoted(e, e', c)
    ensures c.id in e.lists && e'.chains == e.chains && e'.masks == e.masks
    ensures c.other.Branch? ==> c.other.id in e.lists && e'.lists == e.lists[c.other.id := e.lists[c.other.id] + e.lists[c.id]] && e'.listed == e.listed
    ensures c.other.Leaf? ==> e'.lists == e.lists && e'.listed == e.listed - Leaving(e.lists[c.id])
  {
    hide Leaving;
  }

  lemma {:induction false} SameHasAround(e: Env, e': Env, x: Context, r: int)
    requires e'.chains == e.chains
    ensures HasAround(e', x, r) <==> HasAround(e, x, r)
    decreases x
  {
    if !x.Hole? {
      SameHas(e, e', x.other, r);
      SameHasAround(e, e', x.up, r);
    }
  }

  lemma DemotedOrder(c: Context, f: Trie, off: nat)
    requires !c.Hole? && Ordered(c, f, 8 * off)
    ensures UpBit(c.up) < c.bit && (c.other.Branch? ==> c.bit < c.other.bit) && Join(c, f).Branch? && Join(c, f).bit == c.bit
    ensures Patricia(c.other, 8 * off) && Deeper(c.other, c.bit)
  {
    hide Fits;
  }

  /** Around the branch that goes, no list and no mark changes. */
  lemma DemotedAround(m: Nodes, e: Env, e': Env, reg: set<int>, c: Context, f: Trie, node: int, off: nat, len: nat)
    requires !c.Hole? && Demoted(e, e', c) && Kept(m, e, reg, f, UpBit(c), off, len) && Apart(c, f) && Ordered(c, f, 8 * off) && KeptAround(m, e, reg, c, f, off, len) && UpBit(c) < 8 * len
    ensures Untouched(e, e', IdsAround(c.up)) && SameMarksAround(e, e', reg, c.up)
  {
    hide *;
    DemotedEnv(e, e', c);
    OthersApart(e, e', c, f);
    AroundHere(m, e, reg, c, f, off, len);
    DemotedOrder(c, f, off);
    if c.other.Leaf? {
      forall r {:trigger HasAround(e, c.up, r)} {:trigger r in e'.listed} | r in reg && HasAround(e, c.up, r)
        ensures r in e'.listed <==> r in e.listed
      {
        NotLeaving(m, e, reg, c, f, r, off, len);
      }
      MarksAroundFrom(e, e', reg, c.up);
    } else {
      NoMarkChanges(e, e', reg, c.up);
    }
  }

  lemma MarksAroundFrom(e: Env, e': Env, reg: set<int>, x: Context)
    requires forall r {:trigger HasAround(e, x, r)} {:trigger r in e'.listed} :: r in reg && HasAround(e, x, r) ==> (r in e'.listed <==> r in e.listed)
    ensures SameMarksAround(e, e', reg, x)
  {
  }

  lemma OthersApart(e: Env, e': Env, c: Context, f: Trie)
    requires !c.Hole? && Apart(c, f) && e'.chains == e.chains && (e'.lists == e.lists || exists l {:trigger e.lists[c.other.id := l]} :: e'.lists == e.lists[c.other.id := l])
    ensures Untouched(e, e', IdsAround(c.up)) && (c.other.Branch? ==> Untouched(e, e', Ids(c.other.left)) && Untouched(e, e', Ids(c.other.right)))
    ensures c.other.Leaf? && e'.lists == e.lists ==> Untouched(e, e', Ids(c.other))
  {
    assert c.other.id in Ids(c.other);
  }

  /** A route is in one place only. */
  lemma NotTwice(m: Nodes, e: Env, reg: set<int>, x: Context, s: Trie, r: int, off: nat, len: nat)
    requires Kept(m, e, reg, s, UpBit(x), off, len) && KeptAround(m, e, reg, x, s, off, len) && Ordered(x, s, 8 * off) && UpBit(x) < 8 * len
    ensures !(Has(e, s, r) && HasAround(e, x, r))
  {
    hide Kept, KeptAround, Patricia, PatriciaAround, Fits, SameBits, Has, HasAround, Fitting;
    if Has(e, s, r) && HasAround(e, x, r) {
      var k := RouteHasKey(m, e, reg, s, UpBit(x), r, off, len);
      AroundParts(m, e, reg, x, s, k, r, 8 * len, off, len);
    }
  }

  lemma JoinKept(m: Nodes, e: Env, reg: set<int>, c: Context, f: Trie, off: nat, len: nat)
    requires !c.Hole? && Kept(m, e, reg, f, UpBit(c), off, len) && KeptAround(m, e, reg, c, f, off, len)
    ensures Kept(m, e, reg, Join(c, f), UpBit(c.up), off, len) && KeptAround(m, e, reg, c.up, Join(c, f), off, len)
  {
    hide Listing, Chained, Marked;
  }

  /** A route above the branch has no entry on the list of the branch. */
  lemma NotLeaving(m: Nodes, e: Env, reg: set<int>, c: Context, f: Trie, r: int, off: nat, len: nat)
    requires !c.Hole? && Kept(m, e, reg, f, UpBit(c), off, len) && KeptAround(m, e, reg, c, f, off, len) && Ordered(c, f, 8 * off) && UpBit(c) < 8 * len
    requires HasAround(e, c.up, r) && c.id in e.lists
    ensures r !in Leaving(e.lists[c.id])
  {
    hide *;
    JoinKept(m, e, reg, c, f, off, len);
    AroundHere(m, e, reg, c, f, off, len);
    OrderedJoin(c, f, 8 * off);
    NotTwice(m, e, reg, c.up, Join(c, f), r, off, len);
    if r in Leaving(e.lists[c.id]) {
      LeavingIsThere(e, reg, e.lists[c.id], Join(c, f), UpBit(c.up), r);
    }
  }

  lemma OrderedJoin(c: Context, f: Trie, lo: nat)
    requires !c.Hole? && Ordered(c, f, lo)
    ensures Ordered(c.up, Join(c, f), lo) && UpBit(c.up) < UpBit(c)
  {
    hide Patricia, Fits, HasKey;
    OrderedUp(c, f, lo);
  }

  lemma LeavingIsThere(e: Env, reg: set<int>, l: seq<Entry>, t: Trie, up: int, r: int)
    requires Listing(e, reg, l, t, up) && r in Leaving(l)
    ensures Has(e, t, r) && r in reg && Due(e, reg, t, up, r)
  {
    hide Has, Descending;
    var x :| x in l && x.leaf == r;
    assert DueEntry(e, reg, t, up, x);
  }

  lemma DueLeaves(e: Env, reg: set<int>, l: seq<Entry>, t: Trie, up: int, r: int)
    requires Listing(e, reg, l, t, up) && Due(e, reg, t, up, r)
    ensures r in Leaving(l)
  {
    hide Has, Descending;
    assert DueEntry(e, reg, t, up, Entry(e.masks[r].index, e.masks[r].index > 0, r));
  }

  /** A branch takes the list over: its own entries have longer masks. */
  lemma LongerList(m: Nodes, m': Nodes, e: Env, e': Env, reg: set<int>, c: Context, f: Trie, off: nat, len: nat)
    requires !c.Hole? && c.other.Branch? && Demoted(e, e', c) && Grown(m, m', e, e') && reg <= e.masks.Keys && Apart(c, f) && Ordered(c, f, 8 * off)
    requires KeptAround(m, e, reg, c, f, off, len)
    requires forall r {:trigger Has(e, Join(c, f), r)} {:trigger Has(e', c.other, r)} :: r in reg ==> (Has(e', c.other, r) <==> Has(e, Join(c, f), r))
    requires forall r {:trigger Has(e, c.other, r)} {:trigger Has(e', c.other, r)} :: Has(e', c.other, r) <==> Has(e, c.other, r)
    ensures Kept(m', e', reg, c.other, UpBit(c.up), off, len)
  {
    hide *;
    var s := c.other;
    AroundHere(m, e, reg, c, f, off, len);
    DemotedEnv(e, e', c);
    DemotedOrder(c, f, off);
    OthersApart(e, e', c, f);
    KeptParts(m, e, reg, s, c.bit, off, len);
    NoMarks(e, e', reg, s.left);
    NoMarks(e, e', reg, s.right);
    KeptFrame(m, m', e, e', reg, s.left, s.bit, off, len);
    KeptFrame(m, m', e, e', reg, s.right, s.bit, off, len);
    JoinedListing(m, m', e, e', reg, e.lists[s.id], e.lists[c.id], Join(c, f), s, UpBit(c.up), c.bit);
    KeptFromParts(m', e', reg, s, UpBit(c.up), off, len);
  }

  lemma KeptParts(m: Nodes, e: Env, reg: set<int>, t: Trie, up: int, off: nat, len: nat)
    requires t.Branch? && Kept(m, e, reg, t, up, off, len)
    ensures t.id in e.lists && Listing(e, reg, e.lists[t.id], t, up)
    ensures Kept(m, e, reg, t.left, t.bit, off, len) && Kept(m, e, reg, t.right, t.bit, off, len)
  {
    hide Listing, Chained, Marked;
  }

  lemma KeptFromParts(m: Nodes, e: Env, reg: set<int>, t: Trie, up: int, off: nat, len: nat)
    requires t.Branch? && t.id in e.lists && Listing(e, reg, e.lists[t.id], t, up)
    requires Kept(m, e, reg, t.left, t.bit, off, len) && Kept(m, e, reg, t.right, t.bit, off, len)
    ensures Kept(m, e, reg, t, up, off, len)
  {
    hide Listing, Chained, Marked;
  }

  lemma NoMarks(e: Env, e': Env, reg: set<int>, t: Trie)
    requires e'.listed == e.listed
    ensures SameMarks(e, e', reg, t)
  {
  }

  lemma JoinedListing(m: Nodes, m': Nodes, e: Env, e': Env, reg: set<int>, l0: seq<Entry>, l1: seq<Entry>, t: Trie, s: Trie, up: int, b: int)
    requires s.Branch? && t.Branch? && t.bit == b < s.bit && up < b && Listing(e, reg, l0, s, b) && Listing(e, reg, l1, t, up)
    requires Grown(m, m', e, e') && reg <= e.masks.Keys
    requires forall r {:trigger Has(e, t, r)} {:trigger Has(e', s, r)} :: r in reg ==> (Has(e', s, r) <==> Has(e, t, r))
    requires forall r {:trigger Has(e, s, r)} {:trigger Has(e', s, r)} :: Has(e', s, r) <==> Has(e, s, r)
    ensures Listing(e', reg, l0 + l1, s, up)
  {
    hide Has, Descending;
    DescendingJoined(e, reg, l0, l1, t, s, up, b);
    forall x {:trigger x in l0 + l1} {:trigger DueEntry(e', reg, s, up, x)}
      ensures x in l0 + l1 <==> DueEntry(e', reg, s, up, x)
    {
      assert x.leaf in reg ==> x.leaf in e.masks;
      assert x in l0 <==> DueEntry(e, reg, s, b, x);
      assert x in l1 <==> DueEntry(e, reg, t, up, x);
    }
  }

  lemma DescendingJoined(e: Env, reg: set<int>, l0: seq<Entry>, l1: seq<Entry>, t: Trie, s: Trie, up: int, b: int)
    requires t.Branch? && t.bit == b && Listing(e, reg, l0, s, b) && Listing(e, reg, l1, t, up)
    ensures Descending(l0 + l1)
  {
    hide Has;
    var l := l0 + l1;
    forall i, j {:trigger l[i], l[j]} | 0 <= i < j < |l|
      ensures l[i].index > l[j].index
    {
      if i < |l0| && j >= |l0| {
        assert l0[i] in l0 && l1[j - |l0|] in l1;
        assert DueEntry(e, reg, s, b, l0[i]) && DueEntry(e, reg, t, up, l1[j - |l0|]);
      }
    }
  }

  /** A leaf's routes that were on the list are no longer marked. */
  lemma UnmarkedLeaf(m: Nodes, m': Nodes, e: Env, e': Env, reg: set<int>, c: Context, f: Trie, off: nat, len: nat)
    requires !c.Hole? && c.other.Leaf? && Demoted(e, e', c) && Grown(m, m', e, e') && Ordered(c, f, 8 * off)
    requires KeptAround(m, e, reg, c, f, off, len)
    ensures Kept(m', e', reg, c.other, UpBit(c.up), off, len)
  {
    hide *;
    var s := c.other;
    AroundHere(m, e, reg, c, f, off, len);
    DemotedEnv(e, e', c);
    DemotedOrder(c, f, off);
    KeptLeaf(m, e, reg, s, c.bit, off, len);
    ChainedFrame(m, m', e, e', e.chains[s.id], s.id, s.key, off, len);
    forall r {:trigger r in e.chains[s.id]} | r in e.chains[s.id] && r in reg
      ensures r in e'.listed <==> Lifted(e', r, UpBit(c.up))
    {
      MarkedAt(e, reg, e.chains[s.id], c.bit, r);
      HasInLeaf(e, s, r);
      JoinHas(e, c, f, r);
      if r in Leaving(e.lists[c.id]) {
        LeavingIsThere(e, reg, e.lists[c.id], Join(c, f), UpBit(c.up), r);
        DueIsLifted(e, e', reg, Join(c, f), UpBit(c.up), r, c.bit);
      } else {
        if Due(e, reg, Join(c, f), UpBit(c.up), r) {
          DueLeaves(e, reg, e.lists[c.id], Join(c, f), UpBit(c.up), r);
        }
        NotDueIsSame(e, e', reg, Join(c, f), UpBit(c.up), r, c.bit);
      }
    }
    MarkedFrom(e', reg, e'.chains[s.id], UpBit(c.up));
    LeafKept(m', e', reg, s, UpBit(c.up), off, len);
  }

  lemma MarkedAt(e: Env, reg: set<int>, ch: seq<int>, up: int, r: int)
    requires Marked(e, reg, ch, up) && r in ch && r in reg
    ensures r in e.listed <==> Lifted(e, r, up)
  {
  }

  lemma MarkedFrom(e: Env, reg: set<int>, ch: seq<int>, up: int)
    requires forall r {:trigger r in ch} :: r in ch && r in reg ==> (r in e.listed <==> Lifted(e, r, up))
    ensures Marked(e, reg, ch, up)
  {
  }

  lemma DueIsLifted(e: Env, e': Env, reg: set<int>, t: Trie, up: int, r: int, b: int)
    requires Due(e, reg, t, up, r) && e'.masks == e.masks
    ensures !Lifted(e', r, up)
  {
  }

  lemma NotDueIsSame(e: Env, e': Env, reg: set<int>, t: Trie, up: int, r: int, b: int)
    requires !Due(e, reg, t, up, r) && Has(e, t, r) && r in reg && t.Branch? && t.bit == b && up < b && e'.masks == e.masks
    ensures Lifted(e', r, up) <==> Lifted(e, r, b)
  {
  }

  // ---- a branch takes the place of another ----

  lemma RenamedKept(m: Nodes, m': Nodes, e: Env, e': Env, reg: set<int>, c: Context, s: Trie, t: int, off: nat, len: nat)
    requires s.Branch? && s.id in e.lists && e' == e.(lists := e.lists[t := e.lists[s.id]]) && SameKeys(m, m', e) && reg <= e.masks.Keys
    requires Apart(c, s) && t !in Ids(s) + IdsAround(c)
    requires Kept(m, e, reg, Plug(c, s), -1, off, len)
    ensures Kept(m', e', reg, Plug(c, Branch(t, s.bit, s.left, s.right)), -1, off, len)
    ensures forall r {:trigger Has(e, Plug(c, s), r)} {:trigger Has(e', Plug(c, Branch(t, s.bit, s.left, s.right)), r)} ::
      Has(e', Plug(c, Branch(t, s.bit, s.left, s.right)), r) <==> Has(e, Plug(c, s), r)
  {
    hide *;
    var s' := Branch(t, s.bit, s.left, s.right);
    KeptPlug(m, e, reg, c, s, off, len);
    SameKeysGrown(m, m', e, e');
    RenamedApart(e, e', c, s, t);
    forall r {:trigger Has(e, s, r)} {:trigger Has(e', s', r)}
      ensures Has(e', s', r) <==> Has(e, s, r)
    {
      RenamedHas(e, e', s, t, r);
    }
    forall r {:trigger Has(e, Plug(c, s), r)} {:trigger Has(e', Plug(c, s'), r)}
      ensures Has(e', Plug(c, s'), r) <==> Has(e, Plug(c, s), r)
    {
      PlugHas(e, c, s, r);
      PlugHas(e', c, s', r);
      SameHasAround(e, e', c, r);
    }
    NoMarkChanges(e, e', reg, c);
    AroundKept(m, m', e, e', reg, c, s, s', off, len);
    KeptParts(m, e, reg, s, UpBit(c), off, len);
    ListingFrame(m, m', e, e', reg, e.lists[s.id], s, s', UpBit(c));
    NoMarks(e, e', reg, s.left);
    NoMarks(e, e', reg, s.right);
    KeptFrame(m, m', e, e', reg, s.left, s.bit, off, len);
    KeptFrame(m, m', e, e', reg, s.right, s.bit, off, len);
    KeptFromParts(m', e', reg, s', UpBit(c), off, len);
    KeptPlug(m', e', reg, c, s', off, len);
  }

  lemma RenamedApart(e: Env, e': Env, c: Context, s: Trie, t: int)
    requires s.Branch? && t !in Ids(s) + IdsAround(c) && e'.chains == e.chains && s.id in e.lists && e'.lists == e.lists[t := e.lists[s.id]]
    ensures Untouched(e, e', IdsAround(c)) && Untouched(e, e', Ids(s.left)) && Untouched(e, e', Ids(s.right))
  {
  }

  lemma RenamedHas(e: Env, e': Env, s: Trie, t: int, r: int)
    requires s.Branch? && e'.chains == e.chains
    ensures Has(e', Branch(t, s.bit, s.left, s.right), r) <==> Has(e, s, r)
  {
    SameHas(e, e', s.left, r);
    SameHas(e, e', s.right, r);
  }

  // ---- the route is forgotten ----

  /** Nothing is left of the route at node but its mask and its nodes. */
  lemma {:induction false} ForgottenKept(m: Nodes, m': Nodes, e: Env, e': Env, reg: set<int>, t: Trie, up: int, node: int, off: nat, len: nat)
    requires Kept(m, e, reg, t, up, off, len) && !Has(e, t, node) && node !in reg && e' == e.(masks := e.masks - {node})
    requires forall r {:trigger r in m} {:trigger r in m'} :: r in m && r in e.masks && r != node ==> r in m' && m'[r].key == m[r].key
    ensures Kept(m', e', reg, t, up, off, len)
    decreases t
  {
    hide Listing, Chained, Marked;
    if t.Branch? {
      ForgottenListing(e, e', reg, e.lists[t.id], t, up, node);
      ForgottenKept(m, m', e, e', reg, t.left, t.bit, node, off, len);
      ForgottenKept(m, m', e, e', reg, t.right, t.bit, node, off, len);
    } else {
      ForgottenChained(m, m', e, e', e.chains[t.id], t.id, t.key, node, off, len);
      ForgottenMarked(e, e', reg, e.chains[t.id], up, node);
    }
  }

  lemma ForgottenListing(e: Env, e': Env, reg: set<int>, l: seq<Entry>, t: Trie, up: int, node: int)
    requires Listing(e, reg, l, t, up) && node !in reg && e' == e.(masks := e.masks - {node})
    ensures Listing(e', reg, l, t, up)
  {
    hide Has, Descending;
    forall x {:trigger x in l} {:trigger DueEntry(e', reg, t, up, x)}
      ensures x in l <==> DueEntry(e', reg, t, up, x)
    {
      SameHas(e, e', t, x.leaf);
      assert DueEntry(e', reg, t, up, x) <==> DueEntry(e, reg, t, up, x);
    }
  }

  lemma ForgottenMarked(e: Env, e': Env, reg: set<int>, ch: seq<int>, up: int, node: int)
    requires Marked(e, reg, ch, up) && node !in reg && e' == e.(masks := e.masks - {node})
    ensures Marked(e', reg, ch, up)
  {
  }

  lemma ForgottenChained(m: Nodes, m': Nodes, e: Env, e': Env, ch: seq<int>, f: int, k: Key, node: int, off: nat, len: nat)
    requires Chained(m, e, ch, f, k, off, len) && node !in ch && e' == e.(masks := e.masks - {node})
    requires forall r {:trigger r in m} {:trigger r in m'} :: r in m && r in e.masks && r != node ==> r in m' && m'[r].key == m[r].key
    ensures Chained(m', e', ch, f, k, off, len)
  {
    hide SameBits, Fitting;
    forall r {:trigger r in ch} | r in ch
      ensures Member(m', e', r, k, off, len) && RankOf(e', r, len) == RankOf(e, r, len)
    {
      assert Member(m, e, r, k, off, len);
    }
    SameRanks(e, e', ch, len);
  }
}
