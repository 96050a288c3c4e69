/** Routes to networks in a radix tree: chains of routes that share a key, and the lists of masks at
    the nodes above them. */
module RadixLists {
  import opened RadixKeys
  import opened RadixTrie
  import opened RadixNodes

  /** `rn_mask`: none for a host route; otherwise a mask of ones up to a bit, told by that bit.  The
      empty mask is told by zero. */
  datatype Mask = Host | Net(index: nat)

  /** `struct squid_radix_mask`.  The route is used through a normal mask only. */
  datatype Entry = Entry(index: nat, normal: bool, leaf: int)

  /** What nodes hold besides the tree: `rn_dupedkey` as the chain from a leaf on, `rn_mask`,
      `rn_mklist` of a branch as the list from there on, and whether it is set at a leaf. */
  datatype Env = Env(chains: map<int, seq<int>>, masks: map<int, Mask>, lists: map<int, seq<Entry>>, listed: set<int>)

  /** The number of leading bits of a key that a mask lets through. */
  function Width(k: Mask, len: nat): nat {
    if k.Host? then 8 * len else k.index
  }

  /** Host routes come before all others. */
  function Rank(k: Mask, len: nat): nat {
    if k.Host? then 8 * len + 1 else k.index
  }

  /** Key and mask is the key, and the mask is none, empty, or longer than what is never compared. */
  ghost predicate Fitting(key: Key, k: Mask, off: nat, len: nat) {
    && (k.Net? ==> k.index == 0 || 8 * off < k.index <= 8 * len)
    && forall b: nat {:trigger BitAt(key, b)} :: 8 * off <= b < 8 * len && Width(k, len) <= b ==> !BitAt(key, b)
  }

  // ---- chains ----

  /** r is a route with the key k. */
  ghost predicate Member(m: Nodes, e: Env, r: int, k: Key, off: nat, len: nat) {
    && r in m && r in e.masks && |m[r].key| == len
    && SameBits(m[r].key, k, 8 * off, 8 * len) && Fitting(m[r].key, e.masks[r], off, len)
  }

  /** The chain of a leaf holds routes with the leaf's key, the most specific first. */
  ghost predicate Chained(m: Nodes, e: Env, ch: seq<int>, f: int, k: Key, off: nat, len: nat) {
    && ch != [] && ch[0] == f
    && (forall r {:trigger r in ch} :: r in ch ==> Member(m, e, r, k, off, len))
    && Ranked(e, ch, len)
  }

  ghost predicate Ranked(e: Env, ch: seq<int>, len: nat) {
    forall i, j {:trigger ch[i], ch[j]} :: 0 <= i < j < |ch| ==> RankOf(e, ch[i], len) > RankOf(e, ch[j], len)
  }

  function RankOf(e: Env, r: int, len: nat): int {
    if r in e.masks then Rank(e.masks[r], len) else -1
  }

  /** r is a route in the chain of a leaf of t. */
  predicate Has(e: Env, t: Trie, r: int) {
    match t
    case Leaf(id, _) => id in e.chains && r in e.chains[id]
    case Branch(_, _, l, rt) => Has(e, l, r) || Has(e, rt, r)
  }

  predicate HasAround(e: Env, x: Context, r: int) {
    match x
    case Hole => false
    case _ => Has(e, x.other, r) || HasAround(e, x.up, r)
  }

  lemma {:induction false} PlugHas(e: Env, x: Context, t: Trie, r: int)
    ensures Has(e, Plug(x, t), r) <==> HasAround(e, x, r) || Has(e, t, r)
    decreases x
  {
    match x
    case Hole =>
    case InLeft(id, bit, other, up) => PlugHas(e, up, Branch(id, bit, t, other), r);
    case InRight(id, bit, other, up) => PlugHas(e, up, Branch(id, bit, other, t), r);
  }

  // ---- lists ----

  /** The list at the branch t, whose parent tests bit up, has an entry for route r: t is the highest
      node above r that tests no bit of r's mask. */
  predicate Due(e: Env, reg: set<int>, t: Trie, up: int, r: int) {
    t.Branch? && r in reg && r in e.masks && e.masks[r].Net? && up < e.masks[r].index <= t.bit && Has(e, t, r)
  }

  predicate DueEntry(e: Env, reg: set<int>, t: Trie, up: int, x: Entry) {
    Due(e, reg, t, up, x.leaf) && x == Entry(e.masks[x.leaf].index, e.masks[x.leaf].index > 0, x.leaf)
  }

  predicate Descending(l: seq<Entry>) {
    forall i, j {:trigger l[i], l[j]} :: 0 <= i < j < |l| ==> l[i].index > l[j].index
  }

  ghost predicate Listing(e: Env, reg: set<int>, l: seq<Entry>, t: Trie, up: int) {
    Descending(l) && forall x {:trigger x in l} {:trigger DueEntry(e, reg, t, up, x)} :: x in l <==> DueEntry(e, reg, t, up, x)
  }

  /** The routes of a chain that are on some list are marked so. */
  ghost predicate Marked(e: Env, reg: set<int>, ch: seq<int>, up: int) {
    forall r {:trigger r in ch} :: r in ch && r in reg ==> (r in e.listed <==> Lifted(e, r, up))
  }

  predicate Lifted(e: Env, r: int, up: int) {
    r in e.masks && e.masks[r].Net? && e.masks[r].index <= up
  }

  /** All routes of reg below t are where they belong. */
  ghost predicate Kept(m: Nodes, e: Env, reg: set<int>, t: Trie, up: int, off: nat, len: nat) {
    match t
    case Leaf(id, k) => id in e.chains && Chained(m, e, e.chains[id], id, k, off, len) && Marked(e, reg, e.chains[id], up)
    case Branch(id, bit, l, r) =>
      && id in e.lists && Listing(e, reg, e.lists[id], t, up)
      && Kept(m, e, reg, l, bit, off, len) && Kept(m, e, reg, r, bit, off, len)
  }

  function Join(x: Context, t: Trie): Trie
    requires !x.Hole?
  {
    if x.InLeft? then Branch(x.id, x.bit, t, x.other) else Branch(x.id, x.bit, x.other, t)
  }

  ghost predicate KeptAround(m: Nodes, e: Env, reg: set<int>, x: Context, t: Trie, off: nat, len: nat)
    decreases x
  {
    !x.Hole? ==>
      && x.id in e.lists && Listing(e, reg, e.lists[x.id], Join(x, t), UpBit(x.up))
      && Kept(m, e, reg, x.other, x.bit, off, len) && KeptAround(m, e, reg, x.up, Join(x, t), off, len)
  }

  lemma {:induction false} KeptPlug(m: Nodes, e: Env, reg: set<int>, x: Context, t: Trie, off: nat, len: nat)
    ensures Kept(m, e, reg, Plug(x, t), -1, off, len) <==> Kept(m, e, reg, t, UpBit(x), off, len) && KeptAround(m, e, reg, x, t, off, len)
    decreases x
  {
    hide Listing, Chained, Marked;
    if !x.Hole? {
      KeptPlug(m, e, reg, x.up, Join(x, t), off, len);
      assert Plug(x, t) == Plug(x.up, Join(x, t));
    }
  }

  // ---- where a route is ----

  /** A route below t has the key of a leaf there. */
  lemma {:induction false} RouteHasKey(m: Nodes, e: Env, reg: set<int>, t: Trie, up: int, r: int, off: nat, len: nat) returns (k: Key)
    requires Kept(m, e, reg, t, up, off, len) && Has(e, t, r)
    ensures HasKey(t, k) && Member(m, e, r, k, off, len)
    decreases t
  {
    hide Listing, Marked, Member;
    if t.Leaf? {
      k := t.key;
    } else if Has(e, t.left, r) {
      k := RouteHasKey(m, e, reg, t.left, t.bit, r, off, len);
    } else {
      k := RouteHasKey(m, e, reg, t.right, t.bit, r, off, len);
    }
  }

  /** Keys around a place part from those in it at bits tested above it. */
  lemma {:induction false} AroundParts(m: Nodes, e: Env, reg: set<int>, x: Context, t: Trie, f: Key, r: int, n: nat, off: nat, len: nat)
    requires KeptAround(m, e, reg, x, t, off, len) && HasAround(e, x, r)
    requires PatriciaAround(x, 8 * off) && Fits(x, f, 8 * off) && UpBit(x) < n <= 8 * len
    ensures r in m && !SameBits(m[r].key, f, 8 * off, n)
    decreases x
  {
    hide Listing, BitAt, Member, Chained, Marked, Patricia, HasKey;
    if Has(e, x.other, r) {
      var k := RouteHasKey(m, e, reg, x.other, x.bit, r, off, len);
      PartsBefore(m, e, x, r, k, f, n, off, len);
    } else {
      AroundParts(m, e, reg, x.up, Join(x, t), f, r, n, off, len);
    }
  }

  lemma PartsBefore(m: Nodes, e: Env, x: Context, r: int, k: Key, f: Key, n: nat, off: nat, len: nat)
    requires !x.Hole? && HasKey(x.other, k) && Member(m, e, r, k, off, len) && Fits(x, f, 8 * off) && x.bit < n <= 8 * len
    ensures r in m && !SameBits(m[r].key, f, 8 * off, n)
  {
    hide Fitting, BitAt;
    assert Before(f, k, 8 * off, x.bit) || Before(k, f, 8 * off, x.bit);
    assert BitAt(m[r].key, x.bit) == BitAt(k, x.bit);
    assert BitAt(f, x.bit) != BitAt(k, x.bit);
  }

  /** A route that agrees with a key at the place on all bits tested above it, and further, is in
      the place. */
  lemma RouteInside(m: Nodes, e: Env, reg: set<int>, x: Context, t: Trie, f: Key, r: int, n: nat, off: nat, len: nat)
    requires KeptAround(m, e, reg, x, t, off, len) && Has(e, Plug(x, t), r) && Ordered(x, t, 8 * off) && HasKey(t, f)
    requires r in m && SameBits(m[r].key, f, 8 * off, n) && UpBit(x) < n <= 8 * len
    ensures Has(e, t, r)
  {
    hide KeptAround, SameBits, Patricia;
    PlugHas(e, x, t, r);
    assert Fits(x, f, 8 * off);
    if HasAround(e, x, r) {
      AroundParts(m, e, reg, x, t, f, r, n, off, len);
    }
  }

  // ---- where an address goes ----

  /** A key that agrees with v on the first bits agrees on them with the leaf that v leads to. */
  lemma {:induction false} FindAgrees(t: Trie, v: Key, k: Key, lo: nat, n: nat)
    requires Patricia(t, lo) && HasKey(t, k) && SameBits(k, v, lo, n)
    ensures SameBits(k, Find(t, v).key, lo, n)
    decreases t
  {
    hide BitAt;
    if t.Branch? {
      var side := if BitAt(v, t.bit) then t.right else t.left;
      if HasKey(side, k) {
        FindAgrees(side, v, k, lo, n);
      } else {
        FindHasKey(side, v);
        var f := Find(side, v).key;
        OtherSide(t, v, k, f, lo, n);
      }
    }
  }

  lemma OtherSide(t: Trie, v: Key, k: Key, f: Key, lo: nat, n: nat)
    requires Patricia(t, lo) && t.Branch? && HasKey(t, k) && SameBits(k, v, lo, n)
    requires HasKey(if BitAt(v, t.bit) then t.right else t.left, f) && !HasKey(if BitAt(v, t.bit) then t.right else t.left, k)
    ensures SameBits(k, f, lo, n)
  {
    hide BitAt;
    var bit: nat := t.bit;
    if BitAt(v, bit) {
      assert HasKey(t.left, k) && HasKey(t.right, f);
      assert Before(k, f, lo, bit);
    } else {
      assert HasKey(t.right, k) && HasKey(t.left, f);
      assert Before(f, k, lo, bit);
    }
    assert bit < n ==> BitAt(k, bit) == BitAt(v, bit);
  }

  // ---- which route is the best for an address ----

  /** Route r covers the address v. */
  ghost predicate Covers(m: Nodes, e: Env, r: int, v: Key, off: nat, len: nat) {
    r in m && r in e.masks && SameBits(m[r].key, v, 8 * off, Width(e.masks[r], len))
  }

  /** A covering route agrees, under its mask, with the leaf that the address leads to. */
  lemma CoverAgrees(m: Nodes, e: Env, reg: set<int>, t: Trie, v: Key, r: int, off: nat, len: nat)
    requires Patricia(t, 8 * off) && Kept(m, e, reg, t, -1, off, len) && Has(e, t, r) && Covers(m, e, r, v, off, len)
    ensures SameBits(m[r].key, Find(t, v).key, 8 * off, Width(e.masks[r], len))
  {
    hide BitAt, Patricia, HasKey, Find, Has;
    var k := RouteHasKey(m, e, reg, t, -1, r, off, len);
    var n := Width(e.masks[r], len);
    SameBitsPrefix(m[r].key, k, 8 * off, 8 * len, n);
    SameBitsTransitive(k, m[r].key, v, 8 * off, n);
    FindAgrees(t, v, k, 8 * off, n);
    SameBitsTransitive(m[r].key, k, Find(t, v).key, 8 * off, n);
  }

  /** The routes of a key that is zero from a bit on: one that goes further agrees with it, and is
      zero further on, only if it has the same key. */
  lemma LongerAgrees(k: Key, f: Key, mk: Mask, n: nat, off: nat, len: nat)
    requires Fitting(k, mk, off, len) && SameBits(k, f, 8 * off, Width(mk, len)) && n <= Width(mk, len)
    requires forall b: nat {:trigger BitAt(f, b)} :: 8 * off <= b < 8 * len && n <= b ==> !BitAt(f, b)
    ensures SameBits(k, f, 8 * off, 8 * len)
  {
    forall i: nat {:trigger BitAt(k, i)} {:trigger BitAt(f, i)} | 8 * off <= i < 8 * len
      ensures BitAt(k, i) == BitAt(f, i)
    {
    }
  }

  /** A route that covers v and outranks a route of the leaf that v leads to is itself there. */
  lemma OutrankingIsThere(m: Nodes, e: Env, reg: set<int>, t: Trie, c: Context, f: Trie, v: Key, x: int, r: int, off: nat, len: nat)
    requires Kept(m, e, reg, t, -1, off, len) && Ordered(c, f, 8 * off) && Patricia(t, 8 * off) && t == Plug(c, f) && f == Find(t, v) && UpBit(c) < 8 * len
    requires Has(e, f, x) && Has(e, t, r) && Covers(m, e, r, v, off, len) && RankOf(e, r, len) > RankOf(e, x, len)
    ensures Has(e, f, r)
  {
    hide BitAt, Patricia, HasKey, Find, KeptAround, PatriciaAround, Fits;
    KeptPlug(m, e, reg, c, f, off, len);
    CoverAgrees(m, e, reg, t, v, r, off, len);
    var k := RouteHasKey(m, e, reg, t, -1, r, off, len);
    assert Member(m, e, x, f.key, off, len);
    ZeroFrom(m, e, x, f.key, off, len);
    LongerAgrees(m[r].key, f.key, e.masks[r], Width(e.masks[x], len), off, len);
    assert HasKey(f, f.key) by {
      LeafHasKey(f);
    }
    RouteInside(m, e, reg, c, f, f.key, r, 8 * len, off, len);
  }

  lemma LeafHasKey(f: Trie)
    requires f.Leaf?
    ensures HasKey(f, f.key)
  {
  }

  lemma ZeroFrom(m: Nodes, e: Env, x: int, k: Key, off: nat, len: nat)
    requires Member(m, e, x, k, off, len)
    ensures forall b: nat {:trigger BitAt(k, b)} :: 8 * off <= b < 8 * len && Width(e.masks[x], len) <= b ==> !BitAt(k, b)
  {
    forall b: nat {:trigger BitAt(k, b)} | 8 * off <= b < 8 * len && Width(e.masks[x], len) <= b
      ensures !BitAt(k, b)
    {
      assert BitAt(m[x].key, b) == BitAt(k, b);
    }
  }
}
