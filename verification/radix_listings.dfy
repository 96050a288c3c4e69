/** How chains and lists change when a route is added: what stays around the place, and how a route
    comes onto the list of the highest node that its mask allows. */
module RadixListings {
  import opened RadixKeys
  import opened RadixTrie
  import opened RadixNodes
  import opened RadixLists

  /** Routes stay what they are. */
  ghost predicate Grown(m: Nodes, m': Nodes, e: Env, e': Env) {
    forall r {:trigger r in e.masks} {:trigger r in e'.masks} :: r in e.masks ==>
      r in e'.masks && e'.masks[r] == e.masks[r] && (r in m ==> r in m' && m'[r].key == m[r].key)
  }

  /** Nothing is changed at these nodes. */
  ghost predicate Untouched(e: Env, e': Env, ids: set<int>) {
    forall i {:trigger i in ids} :: i in ids ==>
      && (i in e.chains <==> i in e'.chains) && (i in e.chains ==> e'.chains[i] == e.chains[i])
      && (i in e.lists <==> i in e'.lists) && (i in e.lists ==> e'.lists[i] == e.lists[i])
  }

  /** No route below t becomes listed, or stops being so. */
  ghost predicate SameMarks(e: Env, e': Env, reg: set<int>, t: Trie) {
    forall r {:trigger Has(e, t, r)} {:trigger r in e'.listed} :: r in reg && Has(e, t, r) ==> (r in e'.listed <==> r in e.listed)
  }

  ghost predicate SameMarksAround(e: Env, e': Env, reg: set<int>, x: Context) {
    forall r {:trigger HasAround(e, x, r)} {:trigger r in e'.listed} :: r in reg && HasAround(e, x, r) ==> (r in e'.listed <==> r in e.listed)
  }

  lemma UntouchedPart(e: Env, e': Env, ids: set<int>, part: set<int>)
    requires Untouched(e, e', ids) && part <= ids
    ensures Untouched(e, e', part)
  {
    forall i {:trigger i in part} | i in part
      ensures (i in e.chains <==> i in e'.chains) && (i in e.chains ==> e'.chains[i] == e.chains[i])
        && (i in e.lists <==> i in e'.lists) && (i in e.lists ==> e'.lists[i] == e.lists[i])
    {
      assert i in ids;
    }
  }

  lemma {:induction false} HasFrame(e: Env, e': Env, t: Trie, r: int)
    requires Untouched(e, e', Ids(t))
    ensures Has(e', t, r) <==> Has(e, t, r)
    decreases t
  {
    if t.Branch? {
      UntouchedPart(e, e', Ids(t), Ids(t.left));
      UntouchedPart(e, e', Ids(t), Ids(t.right));
      HasFrame(e, e', t.left, r);
      HasFrame(e, e', t.right, r);
    } else {
      assert t.id in Ids(t);
    }
  }

  lemma MemberFrame(m: Nodes, m': Nodes, e: Env, e': Env, r: int, k: Key, off: nat, len: nat)
    requires Grown(m, m', e, e') && Member(m, e, r, k, off, len)
    ensures Member(m', e', r, k, off, len)
  {
    hide SameBits, Fitting;
  }

  lemma ChainedFrame(m: Nodes, m': Nodes, e: Env, e': Env, ch: seq<int>, f: int, k: Key, off: nat, len: nat)
    requires Grown(m, m', e, e') && Chained(m, e, ch, f, k, off, len)
    ensures Chained(m', e', ch, f, k, off, len)
  {
    hide Member, Grown, RankOf;
    forall r {:trigger r in ch} | r in ch
      ensures Member(m', e', r, k, off, len) && RankOf(e', r, len) == RankOf(e, r, len)
    {
      MemberFrame(m, m', e, e', r, k, off, len);
      RankFrame(m, m', e, e', r, k, off, len);
    }
    SameRanks(e, e', ch, len);
  }

  lemma SameRanks(e: Env, e': Env, ch: seq<int>, len: nat)
    requires Ranked(e, ch, len) && forall r {:trigger r in ch} :: r in ch ==> RankOf(e', r, len) == RankOf(e, r, len)
    ensures Ranked(e', ch, len)
  {
    hide RankOf;
    forall i, j {:trigger ch[i], ch[j]} | 0 <= i < j < |ch|
      ensures RankOf(e', ch[i], len) > RankOf(e', ch[j], len)
    {
      assert ch[i] in ch && ch[j] in ch;
    }
  }

  lemma RankFrame(m: Nodes, m': Nodes, e: Env, e': Env, r: int, k: Key, off: nat, len: nat)
    requires Grown(m, m', e, e') && Member(m, e, r, k, off, len)
    ensures RankOf(e', r, len) == RankOf(e, r, len)
  {
    hide SameBits, Fitting;
  }

  lemma MarkedFrame(m: Nodes, m': Nodes, e: Env, e': Env, reg: set<int>, t: Trie, up: int)
    requires t.Leaf? && t.id in e.chains && Marked(e, reg, e.chains[t.id], up) && SameMarks(e, e', reg, t) && Grown(m, m', e, e') && reg <= e.masks.Keys
    ensures Marked(e', reg, e.chains[t.id], up)
  {
    var ch := e.chains[t.id];
    forall r {:trigger r in ch} | r in ch && r in reg
      ensures r in e'.listed <==> Lifted(e', r, up)
    {
      assert Has(e, t, r);
      assert r in e.masks;
    }
  }

  /** The entries that are due do not change with what is elsewhere. */
  lemma ListingFrame(m: Nodes, m': Nodes, e: Env, e': Env, reg: set<int>, l: seq<Entry>, t: Trie, t': Trie, up: int)
    requires Listing(e, reg, l, t, up) && Grown(m, m', e, e') && reg <= e.masks.Keys && t.Branch? && t'.Branch? && t.bit == t'.bit
    requires forall r {:trigger Has(e, t, r)} {:trigger Has(e', t', r)} :: r in reg ==> (Has(e', t', r) <==> Has(e, t, r))
    ensures Listing(e', reg, l, t', up)
  {
    hide Has, Descending;
    forall x {:trigger x in l} {:trigger DueEntry(e', reg, t', up, x)}
      ensures x in l <==> DueEntry(e', reg, t', up, x)
    {
      assert x.leaf in reg ==> x.leaf in e.masks;
      assert DueEntry(e', reg, t', up, x) <==> DueEntry(e, reg, t, up, x);
    }
  }

  lemma {:induction false} KeptFrame(m: Nodes, m': Nodes, e: Env, e': Env, reg: set<int>, t: Trie, up: int, off: nat, len: nat)
    requires Kept(m, e, reg, t, up, off, len) && Grown(m, m', e, e') && reg <= e.masks.Keys
    requires Untouched(e, e', Ids(t)) && SameMarks(e, e', reg, t)
    ensures Kept(m', e', reg, t, up, off, len)
    decreases t
  {
    hide Listing, Chained, Marked, Grown, Untouched, SameMarks;
    UntouchedHere(e, e', t);
    if t.Branch? {
      forall r {:trigger Has(e, t, r)} {:trigger Has(e', t, r)}
        ensures Has(e', t, r) <==> Has(e, t, r)
      {
        HasFrame(e, e', t, r);
      }
      ListingFrame(m, m', e, e', reg, e.lists[t.id], t, t, up);
      UntouchedPart(e, e', Ids(t), Ids(t.left));
      UntouchedPart(e, e', Ids(t), Ids(t.right));
      SameMarksBelow(e, e', reg, t);
      KeptFrame(m, m', e, e', reg, t.left, t.bit, off, len);
      KeptFrame(m, m', e, e', reg, t.right, t.bit, off, len);
    } else {
      ChainedFrame(m, m', e, e', e.chains[t.id], t.id, t.key, off, len);
      MarkedFrame(m, m', e, e', reg, t, up);
    }
  }

  lemma UntouchedHere(e: Env, e': Env, t: Trie)
    requires Untouched(e, e', Ids(t))
    ensures t.id in e.chains ==> t.id in e'.chains && e'.chains[t.id] == e.chains[t.id]
    ensures t.id in e.lists ==> t.id in e'.lists && e'.lists[t.id] == e.lists[t.id]
  {
    assert t.id in Ids(t);
  }

  lemma SameMarksBelow(e: Env, e': Env, reg: set<int>, t: Trie)
    requires SameMarks(e, e', reg, t) && t.Branch?
    ensures SameMarks(e, e', reg, t.left) && SameMarks(e, e', reg, t.right)
  {
    forall r {:trigger Has(e, t.left, r)} {:trigger Has(e, t.right, r)} | r in reg && (Has(e, t.left, r) || Has(e, t.right, r))
      ensures r in e'.listed <==> r in e.listed
    {
      assert Has(e, t, r);
    }
  }

  lemma SameMarksUp(e: Env, e': Env, reg: set<int>, x: Context)
    requires SameMarksAround(e, e', reg, x) && !x.Hole?
    ensures SameMarks(e, e', reg, x.other) && SameMarksAround(e, e', reg, x.up)
  {
    forall r {:trigger Has(e, x.other, r)} {:trigger HasAround(e, x.up, r)} | r in reg && (Has(e, x.other, r) || HasAround(e, x.up, r))
      ensures r in e'.listed <==> r in e.listed
    {
      assert HasAround(e, x, r);
    }
  }

  /** What is around a place stays when the routes in the place do. */
  lemma {:induction false} AroundKept(m: Nodes, m': Nodes, e: Env, e': Env, reg: set<int>, x: Context, t: Trie, t': Trie, off: nat, len: nat)
    requires KeptAround(m, e, reg, x, t, off, len) && Grown(m, m', e, e') && reg <= e.masks.Keys
    requires Untouched(e, e', IdsAround(x)) && SameMarksAround(e, e', reg, x)
    requires forall r {:trigger Has(e, t, r)} {:trigger Has(e', t', r)} :: r in reg ==> (Has(e', t', r) <==> Has(e, t, r))
    ensures KeptAround(m', e', reg, x, t', off, len)
    decreases x
  {
    hide Listing, Kept, Grown, Untouched, SameMarks, SameMarksAround, Has;
    if !x.Hole? {
      var s, s' := Join(x, t), Join(x, t');
      UntouchedPart(e, e', IdsAround(x), Ids(x.other));
      UntouchedPart(e, e', IdsAround(x), IdsAround(x.up));
      UntouchedAt(e, e', IdsAround(x), x.id);
      SameMarksUp(e, e', reg, x);
      forall r {:trigger Has(e, s, r)} {:trigger Has(e', s', r)} | r in reg
        ensures Has(e', s', r) <==> Has(e, s, r)
      {
        HasFrame(e, e', x.other, r);
        JoinHas(e, x, t, r);
        JoinHas(e', x, t', r);
      }
      ListingFrame(m, m', e, e', reg, e.lists[x.id], s, s', UpBit(x.up));
      KeptFrame(m, m', e, e', reg, x.other, x.bit, off, len);
      AroundKept(m, m', e, e', reg, x.up, s, s', off, len);
    }
  }

  lemma UntouchedAt(e: Env, e': Env, ids: set<int>, i: int)
    requires Untouched(e, e', ids) && i in ids
    ensures i in e.lists ==> i in e'.lists && e'.lists[i] == e.lists[i]
  {
  }

  lemma JoinHas(e: Env, x: Context, t: Trie, r: int)
    requires !x.Hole?
    ensures Has(e, Join(x, t), r) <==> Has(e, t, r) || Has(e, x.other, r)
  {
  }

  // ---- one more route is registered ----

  /** The environments differ in one list, and in the mark of one route. */
  ghost predicate Relisted(e: Env, e': Env, node: int) {
    && e'.chains == e.chains && e'.masks == e.masks
    && forall r {:trigger r in e.listed} {:trigger r in e'.listed} :: r != node ==> (r in e'.listed <==> r in e.listed)
  }

  ghost predicate SameLists(e: Env, e': Env, ids: set<int>) {
    forall i {:trigger i in ids} :: i in ids ==> (i in e.lists <==> i in e'.lists) && (i in e.lists ==> e'.lists[i] == e.lists[i])
  }

  lemma {:induction false} SameHas(e: Env, e': Env, t: Trie, r: int)
    requires e'.chains == e.chains
    ensures Has(e', t, r) <==> Has(e, t, r)
    decreases t
  {
    if t.Branch? {
      SameHas(e, e', t.left, r);
      SameHas(e, e', t.right, r);
    }
  }

  lemma SameListsPart(e: Env, e': Env, ids: set<int>, part: set<int>)
    requires SameLists(e, e', ids) && part <= ids
    ensures SameLists(e, e', part)
  {
    forall i {:trigger i in part} | i in part
      ensures (i in e.lists <==> i in e'.lists) && (i in e.lists ==> e'.lists[i] == e.lists[i])
    {
      assert i in ids;
    }
  }

  /** A list on which the new route is not due. */
  lemma ListingGrows(e: Env, e': Env, reg: set<int>, node: int, l: seq<Entry>, t: Trie, up: int)
    requires Listing(e, reg, l, t, up) && Relisted(e, e', node) && node !in reg && !Due(e, reg + {node}, t, up, node)
    ensures Listing(e', reg + {node}, l, t, up)
  {
    hide Has, Descending;
    forall x {:trigger x in l} {:trigger DueEntry(e', reg + {node}, t, up, x)}
      ensures x in l <==> DueEntry(e', reg + {node}, t, up, x)
    {
      SameHas(e, e', t, x.leaf);
      assert DueEntry(e', reg + {node}, t, up, x) <==> DueEntry(e, reg, t, up, x);
    }
  }

  lemma SameChained(m: Nodes, e: Env, e': Env, ch: seq<int>, f: int, k: Key, off: nat, len: nat)
    requires Chained(m, e, ch, f, k, off, len) && e'.masks == e.masks
    ensures Chained(m, e', ch, f, k, off, len)
  {
    hide SameBits, Fitting;
    forall r {:trigger r in ch} | r in ch
      ensures Member(m, e', r, k, off, len) && RankOf(e', r, len) == RankOf(e, r, len)
    {
      assert Member(m, e, r, k, off, len);
    }
  }

  lemma MarkedGrows(e: Env, e': Env, reg: set<int>, node: int, ch: seq<int>, up: int)
    requires Marked(e, reg, ch, up) && Relisted(e, e', node)
    requires node in ch ==> (node in e'.listed <==> Lifted(e, node, up))
    ensures Marked(e', reg + {node}, ch, up)
  {
    forall r {:trigger r in ch} | r in ch && r in reg + {node}
      ensures r in e'.listed <==> Lifted(e', r, up)
    {
    }
  }

  /** Below a node, either the route is not there, or it is listed further up. */
  lemma {:induction false} BelowGrows(m: Nodes, e: Env, e': Env, reg: set<int>, node: int, t: Trie, up: int, lo: nat, off: nat, len: nat)
    requires Kept(m, e, reg, t, up, off, len) && Relisted(e, e', node) && node !in reg && SameLists(e, e', Ids(t)) && Patricia(t, lo) && Deeper(t, up)
    requires Has(e, t, node) ==> Lifted(e, node, up) && node in e'.listed
    ensures Kept(m, e', reg + {node}, t, up, off, len)
    decreases t
  {
    hide Listing, Chained, Marked, Relisted, SameLists;
    assert t.id in Ids(t);
    SameListsPart(e, e', Ids(t), {t.id});
    if t.Branch? {
      OneList(e, e', t.id);
      ListingGrows(e, e', reg, node, e.lists[t.id], t, up);
      SameListsPart(e, e', Ids(t), Ids(t.left));
      SameListsPart(e, e', Ids(t), Ids(t.right));
      BelowGrows(m, e, e', reg, node, t.left, t.bit, lo, off, len);
      BelowGrows(m, e, e', reg, node, t.right, t.bit, lo, off, len);
    } else {
      SameEnvChains(e, e', node);
      SameChained(m, e, e', e.chains[t.id], t.id, t.key, off, len);
      MarkedGrows(e, e', reg, node, e.chains[t.id], up);
    }
  }

  lemma OneList(e: Env, e': Env, i: int)
    requires SameLists(e, e', {i}) && i in e.lists
    ensures i in e'.lists && e'.lists[i] == e.lists[i]
  {
    assert i in {i};
  }

  lemma SameEnvChains(e: Env, e': Env, node: int)
    requires Relisted(e, e', node)
    ensures e'.chains == e.chains && e'.masks == e.masks
  {
  }

  /** Above, the mask is longer than what any node tests. */
  lemma {:induction false} AroundGrows(m: Nodes, e: Env, e': Env, reg: set<int>, node: int, x: Context, s: Trie, lo: nat, off: nat, len: nat)
    requires KeptAround(m, e, reg, x, s, off, len) && Relisted(e, e', node) && node !in reg && SameLists(e, e', IdsAround(x)) && PatriciaAround(x, lo)
    requires !HasAround(e, x, node) && !Lifted(e, node, UpBit(x))
    ensures KeptAround(m, e', reg + {node}, x, s, off, len)
    decreases x
  {
    hide Listing, Kept, Relisted, SameLists, Has, Patricia, Fits;
    if !x.Hole? {
      SameListsPart(e, e', IdsAround(x), {x.id});
      OneList(e, e', x.id);
      NotDueAbove(e, reg, x, s, node);
      ListingGrows(e, e', reg, node, e.lists[x.id], Join(x, s), UpBit(x.up));
      SameListsPart(e, e', IdsAround(x), Ids(x.other));
      SameListsPart(e, e', IdsAround(x), IdsAround(x.up));
      BelowGrows(m, e, e', reg, node, x.other, x.bit, lo, off, len);
      NotLiftedAbove(e, node, x);
      AroundGrows(m, e, e', reg, node, x.up, Join(x, s), lo, off, len);
    }
  }

  lemma NotDueAbove(e: Env, reg: set<int>, x: Context, s: Trie, node: int)
    requires !x.Hole? && !Lifted(e, node, UpBit(x))
    ensures !Due(e, reg + {node}, Join(x, s), UpBit(x.up), node)
  {
  }

  lemma NotLiftedAbove(e: Env, node: int, x: Context)
    requires !x.Hole? && !Lifted(e, node, UpBit(x)) && UpBit(x.up) < x.bit
    ensures !Lifted(e, node, UpBit(x.up))
  {
  }

  /** The place of a new entry in a list. */
  lemma ListingInserted(e: Env, e': Env, reg: set<int>, node: int, a: seq<Entry>, b: seq<Entry>, n: Entry, t: Trie, up: int)
    requires Listing(e, reg, a + b, t, up) && Relisted(e, e', node) && node !in reg && Due(e, reg + {node}, t, up, node)
    requires n == Entry(e.masks[node].index, e.masks[node].index > 0, node)
    requires forall i {:trigger a[i]} :: 0 <= i < |a| ==> a[i].index > n.index
    requires forall i {:trigger b[i]} :: 0 <= i < |b| ==> n.index > b[i].index
    ensures Listing(e', reg + {node}, a + [n] + b, t, up)
  {
    hide Has, Descending;
    DescendingInserted(a, b, n);
    forall x {:trigger x in a + [n] + b} {:trigger DueEntry(e', reg + {node}, t, up, x)}
      ensures x in a + [n] + b <==> DueEntry(e', reg + {node}, t, up, x)
    {
      SameHas(e, e', t, x.leaf);
      EntryIn(a, b, n, x);
      assert x.leaf != node ==> (DueEntry(e', reg + {node}, t, up, x) <==> DueEntry(e, reg, t, up, x));
      assert x in a + b ==> DueEntry(e, reg, t, up, x);
    }
  }

  lemma EntryIn(a: seq<Entry>, b: seq<Entry>, n: Entry, x: Entry)
    ensures x in a + [n] + b <==> x in a + b || x == n
  {
    if x in a + b {
      var i :| 0 <= i < |a + b| && (a + b)[i] == x;
      assert (a + [n] + b)[if i < |a| then i else i + 1] == x;
    }
    assert (a + [n] + b)[|a|] == n;
  }

  lemma DescendingInserted(a: seq<Entry>, b: seq<Entry>, n: Entry)
    requires Descending(a + b)
    requires forall i {:trigger a[i]} :: 0 <= i < |a| ==> a[i].index > n.index
    requires forall i {:trigger b[i]} :: 0 <= i < |b| ==> n.index > b[i].index
    ensures Descending(a + [n] + b)
  {
    var l, l' := a + b, a + [n] + b;
    forall i, j {:trigger l'[i], l'[j]} | 0 <= i < j < |l'|
      ensures l'[i].index > l'[j].index
    {
      if i != |a| && j != |a| {
        assert l'[i] == l[if i < |a| then i else i - 1] && l'[j] == l[if j < |a| then j else j - 1];
      }
    }
  }

  /** The route comes onto the list at the place: the highest node that its mask allows. */
  lemma Enlisted(m: Nodes, e: Env, e': Env, reg: set<int>, node: int, x: Context, s: Trie, a: seq<Entry>, b: seq<Entry>, off: nat, len: nat)
    requires s.Branch? && s.id in e.lists && e.lists[s.id] == a + b && node in e.masks && e.masks[node].Net?
    requires var n := Entry(e.masks[node].index, e.masks[node].index > 0, node);
      && (forall i {:trigger a[i]} :: 0 <= i < |a| ==> a[i].index > n.index)
      && (forall i {:trigger b[i]} :: 0 <= i < |b| ==> n.index > b[i].index)
      && e' == e.(lists := e.lists[s.id := a + [n] + b], listed := e.listed + {node})
    requires Kept(m, e, reg, s, UpBit(x), off, len) && KeptAround(m, e, reg, x, s, off, len) && node !in reg && Apart(x, s) && Ordered(x, s, 8 * off)
    requires Has(e, s, node) && !HasAround(e, x, node) && UpBit(x) < e.masks[node].index <= s.bit
    ensures Kept(m, e', reg + {node}, s, UpBit(x), off, len) && KeptAround(m, e', reg + {node}, x, s, off, len)
  {
    hide Listing, KeptAround, Has, Patricia, HasKey, Fits;
    var n := Entry(e.masks[node].index, e.masks[node].index > 0, node);
    ListingInserted(e, e', reg, node, a, b, n, s, UpBit(x));
    OrderedBelow(x, s, 8 * off);
    ApartLists(e, e', x, s, a + [n] + b);
    BelowGrows(m, e, e', reg, node, s.left, s.bit, 8 * off, off, len);
    BelowGrows(m, e, e', reg, node, s.right, s.bit, 8 * off, off, len);
    AroundGrows(m, e, e', reg, node, x, s, 8 * off, off, len);
  }

  lemma OrderedBelow(x: Context, s: Trie, lo: nat)
    requires Ordered(x, s, lo) && s.Branch?
    ensures Patricia(s.left, lo) && Patricia(s.right, lo) && Deeper(s.left, s.bit) && Deeper(s.right, s.bit) && PatriciaAround(x, lo)
  {
  }

  lemma ApartLists(e: Env, e': Env, x: Context, s: Trie, l: seq<Entry>)
    requires Apart(x, s) && s.Branch? && e'.lists == e.lists[s.id := l]
    ensures SameLists(e, e', Ids(s.left)) && SameLists(e, e', Ids(s.right)) && SameLists(e, e', IdsAround(x))
  {
    assert s.id in Ids(s);
  }

  /** A route that stays off the lists. */
  lemma Unlisted(m: Nodes, e: Env, reg: set<int>, node: int, x: Context, f: Trie, off: nat, len: nat)
    requires f.Leaf? && Kept(m, e, reg, f, UpBit(x), off, len) && KeptAround(m, e, reg, x, f, off, len) && node !in reg && Ordered(x, f, 8 * off)
    requires !HasAround(e, x, node) && !Lifted(e, node, UpBit(x)) && node !in e.listed
    ensures Kept(m, e, reg + {node}, f, UpBit(x), off, len) && KeptAround(m, e, reg + {node}, x, f, off, len)
  {
    hide Listing, KeptAround, Has, Patricia, HasKey, Fits, Chained;
    MarkedGrows(e, e, reg, node, e.chains[f.id], UpBit(x));
    AroundGrows(m, e, e, reg, node, x, f, 8 * off, off, len);
  }
}
