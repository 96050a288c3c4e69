/** Where the table does not do what its description promises: the address of all ones, and deletion
    without a mask. */
module RadixFindings {
  import opened Wrappers
  import opened RadixKeys
  import opened RadixShape
  import opened RadixLists
  import opened RadixDeletes
  import opened RadixTableRuns

  /** The default route of a table for keys of five bytes, and the address of all ones. */
  const DEFAULT_ROUTE := Route([5, 0, 0, 0, 0], Net(0))
  const BROADCAST: Key := [5, 255, 255, 255, 255]

  lemma ByteBits()
    ensures forall i: nat {:trigger BitAt(DEFAULT_ROUTE.key, i)} :: 8 <= i ==> !BitAt(DEFAULT_ROUTE.key, i)
    ensures BitAt(Ones(5), 8)
  {
    forall i: nat {:trigger BitAt(DEFAULT_ROUTE.key, i)} | 8 <= i
      ensures !BitAt(DEFAULT_ROUTE.key, i)
    {
      ZeroShift(MaskBit(i));
    }
    OnesShift(MaskBit(8));
  }

  /** A table with the default route serves every address, but finds nothing for the address of all
      ones. */
  lemma AllOnesIsMissed(answer: Answer)
    ensures Proper(Add(DEFAULT_ROUTE), 1, 5) && Proper(Find(BROADCAST), 1, 5) && After({}, Add(DEFAULT_ROUTE), 1, 5) == {DEFAULT_ROUTE}
    ensures MostSpecific({DEFAULT_ROUTE}, DEFAULT_ROUTE, BROADCAST, 1, 5)
    ensures Answers({DEFAULT_ROUTE}, Find(BROADCAST), answer, 1, 5) ==> answer == Got(Option.None)
  {
    hide BitAt;
    ByteBits();
    SameBytesSameBits(BROADCAST, Ones(5), 1, 5);
    assert Fitting(DEFAULT_ROUTE.key, DEFAULT_ROUTE.mask, 1, 5);
    assert Serving(DEFAULT_ROUTE, BROADCAST, 1, 5) && AllOnes(BROADCAST, 1, 5);
    assert !BitAt(DEFAULT_ROUTE.key, 8);
    assert !OnesRouted({DEFAULT_ROUTE}, 1, 5);
  }

  /** A deletion without a mask takes a route to a network, if that is all there is with the key. */
  lemma NetworkIsDeleted()
    ensures var a := Route([5, 10, 0, 0, 0], Net(16));
      Proper(Add(a), 1, 5) && After({}, Add(a), 1, 5) == {a} && Hit({a}, a, a.key, Host, 1, 5)
  {
    var a := Route([5, 10, 0, 0, 0], Net(16));
    forall b: nat {:trigger BitAt(a.key, b)} | 16 <= b
      ensures !BitAt(a.key, b)
    {
      ZeroShift(MaskBit(b));
    }
    assert Fitting(a.key, a.mask, 1, 5);
    assert a.key[1] == 10 && Shift(10, 1) == Shift(5, 0);
    assert BitAt(a.key, 14) by {
      assert MaskBit(14) == 1 && 14 / 8 == 1;
    }
    assert !BitAt(a.key, 15) by {
      assert MaskBit(15) == 0 && 15 / 8 == 1 && Shift(10, 0) == 10;
    }
    SentinelBits(1, 5);
    hide BitAt;
    assert !BitAt(Zeros(5), 14) && BitAt(Ones(5), 15);
    assert SameBitsAs(a, a.key, 1, 5);
    assert !OwnHost(a, 1, 5) && !Taken({}, a, 1, 5);
  }

  /** It takes a host route exactly if there is one with the key. */
  lemma HostRouteGoesFirst(held: set<Route>, x: Route, v: Key, off: nat, len: nat)
    requires Hit(held, x, v, Host, off, len)
    requires forall y {:trigger y in held} :: y in held ==> (y.mask.Net? ==> y.mask.index <= 8 * len)
    ensures x.mask.Host? <==> exists y {:trigger y in held} :: y in held && SameBitsAs(y, v, off, len) && y.mask.Host?
  {
    hide SameBitsAs, OwnAddress;
    if y :| y in held && SameBitsAs(y, v, off, len) && y.mask.Host? {
      assert Rank(y.mask, len) <= Rank(x.mask, len);
    }
  }
}
