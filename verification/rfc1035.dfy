/** rfc1035.c: domain names and message headers as sections 3.1 and 4.1 of RFC 1035 lay them out. */
module Rfc1035 {
  import opened Bytes
  import opened Wrappers

  const MAX_LABEL := 63
  const DOT: Byte := 46

  type Label = seq<Byte>

  // ---- names as text ----

  /** How many characters come before the next dot. */
  function Leading(s: seq<Byte>): (n: nat)
    ensures n <= |s| && (s != [] && s[0] != DOT ==> n > 0)
  {
    if s == [] || s[0] == DOT then 0 else 1 + Leading(s[1..])
  }

  /** What strtok finds between dots: runs of other characters, never empty. */
  function Labels(s: seq<Byte>): seq<Label>
    decreases |s|
  {
    if s == [] then []
    else if s[0] == DOT then Labels(s[1..])
    else [s[..Leading(s)]] + Labels(s[Leading(s)..])
  }

  function Cut(l: Label): (c: Label)
    ensures |c| <= MAX_LABEL
  {
    if |l| > MAX_LABEL then l[..MAX_LABEL] else l
  }

  function CutAll(ls: seq<Label>): (cs: seq<Label>)
    ensures |cs| == |ls|
  {
    if ls == [] then [] else [Cut(ls[0])] + CutAll(ls[1..])
  }

  /** Labels with a dot after each. */
  function Dotted(ls: seq<Label>): seq<Byte> {
    if ls == [] then [] else ls[0] + [DOT] + Dotted(ls[1..])
  }

  /** Labels with a dot between them. */
  function Joined(ls: seq<Label>): seq<Byte> {
    if ls == [] then [] else if |ls| == 1 then ls[0] else ls[0] + [DOT] + Joined(ls[1..])
  }

  function Length(ls: seq<Label>): nat {
    if ls == [] then 0 else |ls[0]| + 1 + Length(ls[1..])
  }

  /** A label as a message can hold it. */
  ghost predicate Plain(l: Label) {
    0 < |l| <= MAX_LABEL && DOT !in l
  }

  ghost predicate AllPlain(ls: seq<Label>) {
    ls == [] || (Plain(ls[0]) && AllPlain(ls[1..]))
  }

  // ---- names as octets ----

  function LabelBytes(l: Label): seq<Byte>
    requires |l| <= MAX_LABEL
  {
    [|l|] + l
  }

  function LabelsBytes(ls: seq<Label>): seq<Byte> {
    if ls == [] then [] else LabelBytes(Cut(ls[0])) + LabelsBytes(ls[1..])
  }

  function NameBytes(name: seq<Byte>): seq<Byte> {
    LabelsBytes(Labels(name)) + [0]
  }

  function PointerBytes(p: nat): seq<Byte>
    requires p < 0x4000
  {
    [192 + p / 256, p % 256]
  }

  // ---- packing ----

  /** A null label is the empty sequence. */
  method LabelPack(buf: array<Byte>, at: nat, sz: nat, l: Label) returns (off: nat)
    requires at + sz <= buf.Length && |Cut(l)| + 1 <= sz
    modifies buf
    ensures off == |Cut(l)| + 1
    ensures buf[..] == old(buf[..at]) + LabelBytes(Cut(l)) + old(buf[at + off..])
  {
    var len := |l|;
    if len > MAX_LABEL {
      len := MAX_LABEL;
    }
    ghost var was := buf[..];
    buf[at] := len;
    off := 1;
    MemCpy(buf, at + off, l[..len]);
    off := off + len;
    assert l[..len] == Cut(l);
    assert buf[..] == was[..at] + [len] + l[..len] + was[at + off..];
    assert was[..at] + ([len] + l[..len]) == was[..at] + [len] + l[..len];
  }

  lemma DotSkipped(s: seq<Byte>, p: nat)
    requires p < |s| && s[p] == DOT
    ensures Labels(s[p..]) == Labels(s[p + 1..])
  {
    assert s[p..][1..] == s[p + 1..];
  }

  lemma OneMoreLeading(s: seq<Byte>, p: nat)
    requires p < |s| && s[p] != DOT
    ensures Leading(s[p..]) == 1 + Leading(s[p + 1..])
  {
    assert s[p..][1..] == s[p + 1..];
  }

  lemma TokenFound(s: seq<Byte>, from: nat, to: nat)
    requires from <= to <= |s| && (from < |s| ==> s[from] != DOT) && (to < |s| ==> s[to] == DOT)
    requires Leading(s[from..]) == (to - from) + Leading(s[to..])
    ensures Labels(s[from..]) == if from == |s| then [] else [s[from..to]] + Labels(s[to..])
    ensures from < |s| ==> from < to
  {
    assert Leading(s[to..]) == 0;
    if from < |s| {
      assert s[from..][..to - from] == s[from..to] && s[from..][to - from..] == s[to..];
    }
  }

  /** One call of strtok: where the next token begins and ends. */
  method NextToken(s: seq<Byte>, p: nat) returns (from: nat, to: nat)
    requires p <= |s|
    ensures p <= from <= to <= |s|
    ensures Labels(s[p..]) == if from == |s| then [] else [s[from..to]] + Labels(s[to..])
    ensures from < |s| ==> from < to
  {
    hide *;
    from := p;
    while from < |s| && s[from] == DOT
      invariant p <= from <= |s| && Labels(s[from..]) == Labels(s[p..])
    {
      DotSkipped(s, from);
      from := from + 1;
    }
    to := from;
    while to < |s| && s[to] != DOT
      invariant from <= to <= |s| && Leading(s[from..]) == (to - from) + Leading(s[to..])
    {
      OneMoreLeading(s, to);
      to := to + 1;
    }
    TokenFound(s, from, to);
  }

  /** The next label goes after what has been packed so far. */
  method PackNext(buf: array<Byte>, at: nat, off: nat, sz: nat, l: Label, ghost was: seq<Byte>, ghost done: seq<Byte>)
      returns (off': nat, ghost done': seq<Byte>)
    requires at + sz <= buf.Length && off == |done| && Written(was, buf[..], at, done) && off + |LabelBytes(Cut(l))| <= sz
    modifies buf
    ensures done' == done + LabelBytes(Cut(l)) && off' == |done'| && Written(was, buf[..], at, done')
  {
    hide *;
    LabelsBytesFirst(l, []);
    ghost var before := buf[..];
    WrittenIs(was, before, at, done);
    var n := LabelPack(buf, at + off, sz - off, l);
    done', off' := done + LabelBytes(Cut(l)), off + n;
    WrittenMore(was, before, buf[..], at, done, LabelBytes(Cut(l)));
  }

  method NamePack(buf: array<Byte>, at: nat, sz: nat, name: seq<Byte>) returns (off: nat)
    requires at + sz <= buf.Length && |NameBytes(name)| <= sz
    modifies buf
    ensures off == |NameBytes(name)|
    ensures buf[..] == old(buf[..at]) + NameBytes(name) + old(buf[at + off..])
  {
    hide *;
    off := 0;
    ghost var was, done := buf[..], [];
    NameBytesIs(name);
    NothingWritten(was, at);
    var t, p := NextToken(name, 0);
    assert name[0..] == name;
    RestIs(name, t, p);
    while t < |name|
      invariant t <= p <= |name| && (t < |name| ==> t < p)
      invariant off == |done| && Written(was, buf[..], at, done)
      invariant LabelsBytes(Labels(name)) == done + LabelsBytes(Rest(name, t, p))
      decreases |name| - t
    {
      PackedFirst(done, name, t, p);
      off, done := PackNext(buf, at, off, sz, name[t..p], was, done);
      t, p := NextToken(name, p);
      RestIs(name, t, p);
    }
    NoLabels();
    RestIs(name, t, p);
    assert done == LabelsBytes(Labels(name));
    off, done := PackNext(buf, at, off, sz, [], was, done);
    WrittenIs(was, buf[..], at, NameBytes(name));
  }

  /** The labels from the token just found on. */
  function Rest(name: seq<Byte>, t: nat, p: nat): seq<Label>
    requires t <= p <= |name|
  {
    if t == |name| then [] else [name[t..p]] + Labels(name[p..])
  }

  lemma RestIs(name: seq<Byte>, t: nat, p: nat)
    requires t <= p <= |name|
    ensures Rest(name, t, p) == if t == |name| then [] else [name[t..p]] + Labels(name[p..])
  {
  }

  lemma PackedFirst(done: seq<Byte>, name: seq<Byte>, t: nat, p: nat)
    requires t <= p <= |name| && t < |name|
    ensures done + LabelsBytes(Rest(name, t, p)) == done + LabelBytes(Cut(name[t..p])) + LabelsBytes(Labels(name[p..]))
  {
    hide LabelsBytes, LabelBytes, Labels;
    LabelsBytesFirst(name[t..p], Labels(name[p..]));
  }

  /** So much has been written from at on, and nothing else. */
  ghost predicate Written(was: seq<Byte>, now: seq<Byte>, at: nat, done: seq<Byte>) {
    at + |done| <= |was| && now == was[..at] + done + was[at + |done|..]
  }

  lemma NothingWritten(was: seq<Byte>, at: nat)
    requires at <= |was|
    ensures Written(was, was, at, [])
  {
  }

  lemma WrittenMore(was: seq<Byte>, before: seq<Byte>, after: seq<Byte>, at: nat, done: seq<Byte>, more: seq<Byte>)
    requires Written(was, before, at, done) && at + |done| + |more| <= |was|
    requires after == before[..at + |done|] + more + before[at + |done| + |more|..]
    ensures Written(was, after, at, done + more)
  {
  }

  lemma WrittenIs(was: seq<Byte>, now: seq<Byte>, at: nat, done: seq<Byte>)
    requires Written(was, now, at, done)
    ensures at + |done| <= |was| && now == was[..at] + done + was[at + |done|..]
  {
  }

  lemma NameBytesIs(name: seq<Byte>)
    ensures NameBytes(name) == LabelsBytes(Labels(name)) + [0]
  {
    hide LabelsBytes, Labels;
  }

  lemma NoLabels()
    ensures LabelsBytes([]) == [] && LabelBytes(Cut([])) == [0] && Cut([]) == []
  {
  }

  lemma LabelsBytesFirst(l: Label, ls: seq<Label>)
    ensures LabelsBytes([l] + ls) == LabelBytes(Cut(l)) + LabelsBytes(ls)
    ensures |LabelBytes(Cut(l))| == |Cut(l)| + 1
  {
    assert ([l] + ls)[1..] == ls;
  }

  // ---- what a name in a message says ----

  /** Labels, and whether the text ends in a dot because the last pointer leads to no label; next is the offset afterwards. */
  datatype Reading = Fail | Name(labels: seq<Label>, dangling: bool, next: nat)

  function Text(ls: seq<Label>, dangling: bool): seq<Byte> {
    Joined(ls) + (if dangling then [DOT] else [])
  }

  function Pointer(m: seq<Byte>, off: nat): nat
    requires off + 1 < |m|
  {
    (m[off] as int) % 64 * 256 + m[off + 1]
  }

  /** The name at off when room octets are left for its text. */
  function Read(m: seq<Byte>, off: nat, room: nat, depth: nat): Reading
    requires off < |m|
    decreases 66 - depth, |m| - off
  {
    var c := m[off];
    if c > 191 then
      if depth > 64 || off + 2 >= |m| || Pointer(m, off) >= |m| then Fail
      else
        var r := Read(m, Pointer(m, off), room, depth + 1);
        if r.Fail? then Fail else Name(r.labels, r.dangling, off + 2)
    else if c > MAX_LABEL then Fail
    else if c == 0 then Name([], false, off + 1)
    else if c + 1 > room || off + 1 + c >= |m| then Fail
    else if c + 1 == room then Name([m[off + 1..off + 1 + c]], false, off + 1 + c)
    else Before(m[off + 1..off + 1 + c], Read(m, off + 1 + c, room - c - 1, depth), m[off + 1 + c] > 191)
  }

  function Before(l: Label, r: Reading, pointer: bool): Reading {
    if r.Fail? then Fail else Name([l] + r.labels, r.dangling || (r.labels == [] && pointer), r.next)
  }

  /** Several labels before. */
  function After(done: seq<Label>, r: Reading, pointer: bool): Reading {
    if r.Fail? then Fail else Name(done + r.labels, r.dangling || (done != [] && r.labels == [] && pointer), r.next)
  }

  /** The octets at off spell these labels with at most so many pointers on the way. */
  ghost predicate Spells(m: seq<Byte>, off: nat, ls: seq<Label>, dangling: bool, hops: nat)
    decreases hops, |ls|
  {
    && off < |m|
    && if m[off] > 191 then
         hops > 0 && off + 2 < |m| && Pointer(m, off) < |m| && Spells(m, Pointer(m, off), ls, dangling, hops - 1)
       else if ls == [] then
         m[off] == 0 && !dangling
       else
         && 0 < m[off] <= MAX_LABEL && off + 1 + m[off] < |m| && ls[0] == m[off + 1..off + 1 + m[off]]
         && if |ls| == 1 then dangling == (m[off + 1 + m[off]] > 191) && Spells(m, off + 1 + m[off], [], false, hops)
            else Spells(m, off + 1 + m[off], ls[1..], dangling, hops)
  }

  /** Just after the name, at the place where it was found. */
  function Next(m: seq<Byte>, off: nat): nat
    decreases |m| - off
  {
    if off >= |m| then off
    else if m[off] > 191 then off + 2
    else if m[off] == 0 then off + 1
    else Next(m, off + 1 + m[off])
  }

  /** The labels that fit in room octets, each with one more for the dot: all of them, or just those that fill the room exactly. */
  function Fit(ls: seq<Label>, room: nat): Option<seq<Label>> {
    if ls == [] then Some([])
    else if |ls[0]| + 1 > room then None
    else if |ls[0]| + 1 == room then Some([ls[0]])
    else
      var f := Fit(ls[1..], room - |ls[0]| - 1);
      if f.None? then None else Some([ls[0]] + f.value)
  }

  lemma {:induction false} FitIs(ls: seq<Label>, room: nat)
    ensures Fit(ls, room) == Some(ls) <==> Length(ls) <= room
    ensures Fit(ls, room).Some? ==> Fit(ls, room).value <= ls
    ensures Fit(ls, room).Some? && Fit(ls, room).value != ls ==> Length(Fit(ls, room).value) == room
  {
    if ls != [] && |ls[0]| + 1 < room {
      FitIs(ls[1..], room - |ls[0]| - 1);
      assert ls == [ls[0]] + ls[1..];
    } else if ls != [] {
      assert ls == [ls[0]] + ls[1..] && (|ls| == 1 ==> ls == [ls[0]]);
      assert if ls[1..] == [] then Length(ls[1..]) == 0 else Length(ls[1..]) > 0;
    }
  }

  /** First labels that fill the room are what is kept. */
  lemma {:induction false} FitFilled(ls: seq<Label>, room: nat, k: nat)
    requires 0 < k <= |ls| && Length(ls[..k]) == room
    ensures Fit(ls, room) == Some(ls[..k])
  {
    var p, rest := ls[..k], ls[1..];
    assert p[0] == ls[0] && p[1..] == rest[..k - 1];
    if k == 1 {
      assert p == [ls[0]];
    } else {
      assert Length(rest[..k - 1]) > 0;
      FitFilled(rest, room - |ls[0]| - 1, k - 1);
      assert p == [ls[0]] + rest[..k - 1];
    }
  }

  /** The text of some first labels, but not of all, and its NUL take the whole room. */
  ghost predicate FilledEarly(ls: seq<Label>, room: nat) {
    exists k {:trigger ls[..k]} :: 0 < k < |ls| && |Joined(ls[..k])| + 1 == room
  }

  /** All labels are kept exactly when the text and its NUL fit; some of them are, and success is
      reported, exactly when they do not fit and first labels fill the room. */
  lemma NameFits(ls: seq<Label>, room: nat)
    requires room > 0
    ensures Fit(ls, room) == Some(ls) <==> |Joined(ls)| + 1 <= room
    ensures Fit(ls, room).Some? && Fit(ls, room).value != ls <==> |Joined(ls)| + 1 > room && FilledEarly(ls, room)
  {
    hide Fit, Joined, Length;
    FitIs(ls, room);
    JoinedFits(ls, room);
    if Fit(ls, room).Some? && Fit(ls, room).value != ls {
      var p := Fit(ls, room).value;
      assert p == ls[..|p|];
      JoinedFilled(p, room);
    }
    if FilledEarly(ls, room) {
      var k :| 0 < k < |ls| && |Joined(ls[..k])| + 1 == room;
      JoinedLength(ls[..k]);
      FitFilled(ls, room, k);
    }
  }

  lemma JoinedFits(ls: seq<Label>, room: nat)
    requires room > 0
    ensures Length(ls) <= room <==> |Joined(ls)| + 1 <= room
  {
    if ls != [] {
      JoinedLength(ls);
    }
  }

  lemma JoinedFilled(p: seq<Label>, room: nat)
    requires room > 0 && Length(p) == room
    ensures p != [] && |Joined(p)| + 1 == room
  {
    JoinedLength(p);
  }

  lemma {:induction false} JoinedLength(ls: seq<Label>)
    requires ls != []
    ensures |Joined(ls)| + 1 == Length(ls)
  {
    if |ls| > 1 {
      JoinedLength(ls[1..]);
    }
  }

  // ---- reading a name that is spelled out ----

  lemma {:induction false} ReadSpelled(m: seq<Byte>, off: nat, ls: seq<Label>, dangling: bool, hops: nat, room: nat, depth: nat)
    requires Spells(m, off, ls, dangling, hops) && hops + depth <= 65
    ensures Read(m, off, room, depth).Name? <==> Fit(ls, room).Some?
    ensures Read(m, off, room, depth).Name? ==> Read(m, off, room, depth).labels == Fit(ls, room).value
    ensures Length(ls) < room ==> Read(m, off, room, depth) == Name(ls, dangling, Next(m, off))
    decreases hops, |ls|
  {
    var c := m[off];
    if c > 191 {
      ReadSpelled(m, Pointer(m, off), ls, dangling, hops - 1, room, depth + 1);
    } else if ls != [] {
      if c + 1 < room {
        ReadSpelled(m, off + 1 + c, ls[1..], if |ls| == 1 then false else dangling, hops, room - c - 1, depth);
        assert ls == [ls[0]] + ls[1..];
      }
    }
  }

  lemma {:induction false} NotDangling(m: seq<Byte>, off: nat, room: nat, depth: nat)
    requires off < |m| && Read(m, off, room, depth).Name? && Read(m, off, room, depth).labels == []
    ensures !Read(m, off, room, depth).dangling
    decreases 66 - depth
  {
    if m[off] > 191 {
      NotDangling(m, Pointer(m, off), room, depth + 1);
    }
  }

  /** And what is read with room to spare is spelled there. */
  lemma {:induction false} SpelledRead(m: seq<Byte>, off: nat, room: nat, depth: nat)
    requires off < |m| && Read(m, off, room, depth).Name? && Length(Read(m, off, room, depth).labels) < room && depth <= 65
    ensures Spells(m, off, Read(m, off, room, depth).labels, Read(m, off, room, depth).dangling, 65 - depth)
    decreases 66 - depth, |m| - off
  {
    var c, r := m[off], Read(m, off, room, depth);
    if c > 191 {
      SpelledRead(m, Pointer(m, off), room, depth + 1);
    } else if c > 0 {
      var rest := Read(m, off + 1 + c, room - c - 1, depth);
      assert r.labels[1..] == rest.labels;
      if rest.labels == [] {
        NotDangling(m, off + 1 + c, room - c - 1, depth);
      }
      SpelledRead(m, off + 1 + c, room - c - 1, depth);
    }
  }

  // ---- packed names ----

  /** The octets from off on begin with these. */
  ghost predicate At(m: seq<Byte>, off: nat, b: seq<Byte>) {
    off + |b| <= |m| && m[off..off + |b|] == b
  }

  ghost predicate NoneEmpty(ls: seq<Label>) {
    ls == [] || (ls[0] != [] && NoneEmpty(ls[1..]))
  }

  lemma {:induction false} LabelsNotEmpty(s: seq<Byte>)
    ensures NoneEmpty(Labels(s))
    decreases |s|
  {
    if s != [] {
      if s[0] == DOT {
        LabelsNotEmpty(s[1..]);
      } else {
        LabelsNotEmpty(s[Leading(s)..]);
        assert Labels(s)[1..] == Labels(s[Leading(s)..]);
      }
    }
  }

  lemma AtSplit(m: seq<Byte>, off: nat, a: seq<Byte>, b: seq<Byte>)
    requires At(m, off, a + b)
    ensures At(m, off, a) && At(m, off + |a|, b)
  {
    var w := m[off..off + |a + b|];
    assert m[off..off + |a|] == w[..|a|] && m[off + |a|..off + |a| + |b|] == w[|a|..];
  }

  lemma SpellsLabel(m: seq<Byte>, off: nat, l: Label, rest: seq<Label>, dangling: bool, hops: nat)
    requires 0 < |l| <= MAX_LABEL && At(m, off, LabelBytes(l)) && Spells(m, off + 1 + |l|, rest, dangling && rest != [], hops)
    requires rest == [] ==> dangling == (m[off + 1 + |l|] > 191)
    ensures Spells(m, off, [l] + rest, dangling, hops) && Next(m, off) == Next(m, off + 1 + |l|)
  {
    AtSplit(m, off, [|l|], l);
    assert m[off] == m[off..off + 1][0];
    assert ([l] + rest)[1..] == rest;
  }

  lemma LabelsBytesAt(m: seq<Byte>, off: nat, ls: seq<Label>)
    requires ls != [] && At(m, off, LabelsBytes(ls))
    ensures At(m, off, LabelBytes(Cut(ls[0]))) && At(m, off + 1 + |Cut(ls[0])|, LabelsBytes(ls[1..]))
    ensures |LabelsBytes(ls)| == 1 + |Cut(ls[0])| + |LabelsBytes(ls[1..])|
  {
    hide At, Cut;
    assert LabelsBytes(ls) == LabelBytes(Cut(ls[0])) + LabelsBytes(ls[1..]);
    AtSplit(m, off, LabelBytes(Cut(ls[0])), LabelsBytes(ls[1..]));
  }

  lemma CutAllFirst(ls: seq<Label>, more: seq<Label>)
    requires ls != []
    ensures CutAll(ls) + more == [Cut(ls[0])] + (CutAll(ls[1..]) + more)
  {
  }

  /** Packed labels, then whatever spells the other labels: all together are spelled. */
  lemma {:induction false} PackedBefore(m: seq<Byte>, off: nat, ls: seq<Label>, more: seq<Label>, dangling: bool, hops: nat)
    requires NoneEmpty(ls) && At(m, off, LabelsBytes(ls)) && Spells(m, off + |LabelsBytes(ls)|, more, dangling && more != [], hops)
    requires more == [] ==> dangling == (ls != [] && m[off + |LabelsBytes(ls)|] > 191)
    ensures Spells(m, off, CutAll(ls) + more, dangling, hops)
    ensures Next(m, off) == Next(m, off + |LabelsBytes(ls)|)
    decreases |ls|
  {
    hide LabelsBytes, LabelBytes, Cut, CutAll, At, Spells, Next;
    if ls == [] {
      NoLabels();
      CutNone(more);
    } else {
      var rest := ls[1..];
      LabelsBytesAt(m, off, ls);
      SpellsIn(m, off + |LabelsBytes(ls)|, more, dangling && more != [], hops);
      PackedBefore(m, off + 1 + |Cut(ls[0])|, rest, more, dangling && (rest != [] || more != []), hops);
      CutAllFirst(ls, more);
      CutNotEmpty(ls[0]);
      if rest == [] {
        NoLabels();
        CutNone(more);
      }
      SpellsLabel(m, off, Cut(ls[0]), CutAll(rest) + more, dangling, hops);
    }
  }

  lemma SpellsIn(m: seq<Byte>, off: nat, ls: seq<Label>, dangling: bool, hops: nat)
    requires Spells(m, off, ls, dangling, hops)
    ensures off < |m|
  {
  }

  lemma CutNone(more: seq<Label>)
    ensures CutAll([]) + more == more
  {
  }

  lemma CutNotEmpty(l: Label)
    requires l != []
    ensures 0 < |Cut(l)| <= MAX_LABEL
  {
  }

  /** Unpacking what was packed gives the non-empty labels, cut to 63 octets, and stops just after the name. */
  lemma UnpackPacked(m: seq<Byte>, off: nat, name: seq<Byte>, room: nat, depth: nat)
    requires At(m, off, NameBytes(name)) && depth <= 65
    ensures Read(m, off, room, depth).Name? <==> Fit(CutAll(Labels(name)), room).Some?
    ensures Length(CutAll(Labels(name))) < room
      ==> Read(m, off, room, depth) == Name(CutAll(Labels(name)), false, off + |NameBytes(name)|)
  {
    hide *;
    var ls := Labels(name);
    NameBytesIs(name);
    AtSplit(m, off, LabelsBytes(ls), [0]);
    LabelsNotEmpty(name);
    EndSpelled(m, off + |LabelsBytes(ls)|);
    PackedBefore(m, off, ls, [], false, 0);
    assert CutAll(ls) + [] == CutAll(ls);
    ReadSpelled(m, off, CutAll(ls), false, 0, room, depth);
  }

  lemma EndSpelled(m: seq<Byte>, off: nat)
    requires At(m, off, [0])
    ensures Spells(m, off, [], false, 0) && Next(m, off) == off + 1 && m[off] == 0
  {
    assert m[off..off + 1][0] == m[off];
  }

  /** A tail of a name may be replaced by a pointer to a copy of it elsewhere in the message. */
  lemma PointerSpelled(m: seq<Byte>, off: nat, ls: seq<Label>, p: nat, more: seq<Label>, dangling: bool, hops: nat)
    requires NoneEmpty(ls) && p < 0x4000 && At(m, off, LabelsBytes(ls) + PointerBytes(p)) && off + |LabelsBytes(ls)| + 2 < |m|
    requires p < |m| && Spells(m, p, more, dangling, hops) && (more == [] ==> !dangling)
    ensures Spells(m, off, CutAll(ls) + more, dangling || (more == [] && ls != []), hops + 1)
    ensures Next(m, off) == off + |LabelsBytes(ls)| + 2
  {
    hide *;
    var q := off + |LabelsBytes(ls)|;
    AtSplit(m, off, LabelsBytes(ls), PointerBytes(p));
    PointerAt(m, q, p, more, dangling && more != [], hops);
    PackedBefore(m, off, ls, more, dangling || (more == [] && ls != []), hops + 1);
  }

  lemma PointerAt(m: seq<Byte>, q: nat, p: nat, more: seq<Label>, dangling: bool, hops: nat)
    requires p < 0x4000 && At(m, q, PointerBytes(p)) && q + 2 < |m| && p < |m| && Spells(m, p, more, dangling, hops)
    ensures Spells(m, q, more, dangling, hops + 1) && m[q] > 191 && Next(m, q) == q + 2
  {
    var w := m[q..q + 2];
    assert m[q] == w[0] && m[q + 1] == w[1];
    assert Pointer(m, q) == p;
  }

  /** The compressed name reads as the whole name does, except that a dot is left behind, also,
      when labels come before a pointer to none. */
  lemma CompressionKeepsText(m: seq<Byte>, off: nat, ls: seq<Label>, p: nat, more: seq<Label>, dangling: bool, hops: nat, room: nat, depth: nat)
    requires NoneEmpty(ls) && p < 0x4000 && At(m, off, LabelsBytes(ls) + PointerBytes(p)) && off + |LabelsBytes(ls)| + 2 < |m|
    requires p < |m| && Spells(m, p, more, dangling, hops) && hops + 1 + depth <= 65 && Length(CutAll(ls) + more) < room
    ensures Read(m, off, room, depth) == Name(CutAll(ls) + more, dangling || (more == [] && ls != []), off + |LabelsBytes(ls)| + 2)
  {
    hide *;
    if more == [] {
      RootNotDangling(m, p, dangling, hops);
    }
    PointerSpelled(m, off, ls, p, more, dangling, hops);
    ReadSpelled(m, off, CutAll(ls) + more, dangling || (more == [] && ls != []), hops + 1, room, depth);
  }

  lemma {:induction false} RootNotDangling(m: seq<Byte>, p: nat, dangling: bool, hops: nat)
    requires Spells(m, p, [], dangling, hops)
    ensures !dangling
    decreases hops
  {
    if m[p] > 191 {
      RootNotDangling(m, Pointer(m, p), dangling, hops - 1);
    }
  }

  // ---- names whose labels fit come back as they were ----

  lemma {:induction false} LeadingOf(l: Label, rest: seq<Byte>)
    requires DOT !in l && (rest == [] || rest[0] == DOT)
    ensures Leading(l + rest) == |l|
  {
    if l == [] {
      assert l + rest == rest;
    } else {
      assert (l + rest)[0] == l[0] && (l + rest)[1..] == l[1..] + rest;
      LeadingOf(l[1..], rest);
    }
  }

  lemma LabelsFirst(l: Label, rest: seq<Byte>)
    requires l != [] && DOT !in l && (rest == [] || rest[0] == DOT)
    ensures Labels(l + rest) == [l] + Labels(rest)
  {
    LeadingOf(l, rest);
    var s := l + rest;
    assert s[0] == l[0] && l[0] in l && s[..|l|] == l && s[|l|..] == rest;
  }

  lemma {:induction false} LabelsJoined(ls: seq<Label>)
    requires AllPlain(ls)
    ensures Labels(Joined(ls)) == ls && CutAll(ls) == ls
  {
    if ls != [] {
      LabelsJoined(ls[1..]);
      var rest := if |ls| == 1 then [] else [DOT] + Joined(ls[1..]);
      assert Joined(ls) == ls[0] + rest;
      LabelsFirst(ls[0], rest);
      assert |ls| > 1 ==> rest[1..] == Joined(ls[1..]);
      assert ls == [ls[0]] + ls[1..];
    }
  }

  /** A name of labels that a message can hold is packed and unpacked to itself. */
  lemma NameRoundTrip(m: seq<Byte>, off: nat, ls: seq<Label>, room: nat, depth: nat)
    requires AllPlain(ls) && At(m, off, NameBytes(Joined(ls))) && depth <= 65 && Length(ls) < room
    ensures Read(m, off, room, depth) == Name(ls, false, off + |NameBytes(Joined(ls))|) && Text(ls, false) == Joined(ls)
  {
    hide Read, NameBytes, At, Joined, Length, AllPlain, Labels, CutAll;
    LabelsJoined(ls);
    UnpackPacked(m, off, Joined(ls), room, depth);
  }

  // ---- unpacking ----

  lemma {:induction false} DottedMore(ls: seq<Label>, l: Label)
    ensures Dotted(ls + [l]) == Dotted(ls) + l + [DOT] && |Dotted(ls)| == Length(ls)
  {
    if ls == [] {
      assert ls + [l] == [l] && Dotted([l]) == l + [DOT] + Dotted([]);
    } else {
      assert (ls + [l])[0] == ls[0] && (ls + [l])[1..] == ls[1..] + [l];
      DottedMore(ls[1..], l);
      assert Dotted(ls + [l]) == ls[0] + [DOT] + (Dotted(ls[1..]) + l + [DOT]);
    }
  }

  lemma {:induction false} DottedJoined(ls: seq<Label>)
    ensures ls != [] ==> Dotted(ls) == Joined(ls) + [DOT]
  {
    if |ls| == 1 {
      assert Dotted(ls) == ls[0] + [DOT] + Dotted([]);
    } else if ls != [] {
      DottedJoined(ls[1..]);
      assert ls[0] + [DOT] + (Joined(ls[1..]) + [DOT]) == ls[0] + [DOT] + Joined(ls[1..]) + [DOT];
    }
  }

  lemma {:induction false} JoinedAfter(done: seq<Label>, ls: seq<Label>)
    requires ls != []
    ensures Joined(done + ls) == Dotted(done) + Joined(ls)
  {
    if done == [] {
      assert done + ls == ls;
    } else {
      var all := done + ls;
      assert all[0] == done[0] && all[1..] == done[1..] + ls;
      JoinedAfter(done[1..], ls);
      assert done[0] + [DOT] + Dotted(done[1..]) + Joined(ls) == done[0] + [DOT] + (Dotted(done[1..]) + Joined(ls));
    }
  }

  lemma TextAfter(done: seq<Label>, ls: seq<Label>, dangling: bool)
    requires ls == [] ==> !dangling
    ensures Dotted(done) + Text(ls, dangling) == Text(done + ls, dangling || (done != [] && ls == []))
  {
    hide Joined, Dotted;
    if ls == [] {
      DottedJoined(done);
      DottedNone(done);
      DottedNone(ls);
      assert done + ls == done;
    } else {
      JoinedAfter(done, ls);
    }
  }

  /** The same reading, some labels later. */
  lemma AfterLabel(done: seq<Label>, l: Label, r: Reading, pointer: bool, before: bool)
    ensures After(done, Before(l, r, pointer), before) == After(done + [l], r, pointer)
  {
    if r.Name? {
      assert done + ([l] + r.labels) == done + [l] + r.labels;
    }
  }

  lemma ReadIs(m: seq<Byte>, off: nat, room: nat, depth: nat)
    requires off < |m|
    ensures m[off] > 191 && (depth > 64 || off + 2 >= |m|) ==> Read(m, off, room, depth) == Fail
    ensures m[off] > 191 && depth <= 64 && off + 2 < |m| && Pointer(m, off) >= |m| ==> Read(m, off, room, depth) == Fail
    ensures MAX_LABEL < m[off] <= 191 ==> Read(m, off, room, depth) == Fail
    ensures m[off] == 0 ==> Read(m, off, room, depth) == Name([], false, off + 1)
    ensures 0 < m[off] <= MAX_LABEL && (m[off] + 1 > room || off + 1 + m[off] >= |m|) ==> Read(m, off, room, depth) == Fail
  {
  }

  lemma ReadPointer(m: seq<Byte>, off: nat, room: nat, depth: nat)
    requires off + 2 < |m| && m[off] > 191 && depth <= 64 && Pointer(m, off) < |m|
    ensures var r := Read(m, Pointer(m, off), room, depth + 1);
      Read(m, off, room, depth) == if r.Fail? then Fail else Name(r.labels, r.dangling, off + 2)
  {
  }

  lemma ReadLabel(m: seq<Byte>, off: nat, room: nat, depth: nat)
    requires off < |m| && 0 < m[off] <= MAX_LABEL && m[off] + 1 <= room && off + 1 + m[off] < |m|
    ensures var l := m[off + 1..off + 1 + m[off]];
      Read(m, off, room, depth) == if m[off] + 1 == room then Name([l], false, off + 1 + m[off])
        else Before(l, Read(m, off + 1 + m[off], room - m[off] - 1, depth), m[off + 1 + m[off]] > 191)
  {
  }

  /** Copied labels so far; what is still to be read completes the reading. */
  ghost predicate Reached(m: seq<Byte>, off: nat, p: nat, s: seq<Byte>, no: nat, done: seq<Label>, depth: nat) {
    && off < |m| && p < |m| && no < |s| && |Dotted(done)| == no && s[..no] == Dotted(done)
    && Read(m, off, |s|, depth) == After(done, Read(m, p, |s| - no, depth), m[p] > 191)
  }

  lemma ReachedFirst(m: seq<Byte>, off: nat, s: seq<Byte>, depth: nat)
    requires off < |m| && s != []
    ensures Reached(m, off, off, s, 0, [], depth)
  {
    var r := Read(m, off, |s|, depth);
    if r.Name? {
      assert [] + r.labels == r.labels;
    }
  }

  lemma ReachedIs(m: seq<Byte>, off: nat, p: nat, s: seq<Byte>, no: nat, done: seq<Label>, depth: nat)
    requires Reached(m, off, p, s, no, done, depth)
    ensures p < |m| && no < |s| && off < |m|
    ensures Read(m, p, |s| - no, depth) == Fail ==> Read(m, off, |s|, depth) == Fail
  {
  }

  /** The label is copied and room is left. */
  lemma ReachedNext(m: seq<Byte>, off: nat, p: nat, s: seq<Byte>, s': seq<Byte>, no: nat, done: seq<Label>, depth: nat)
    requires Reached(m, off, p, s, no, done, depth) && 0 < m[p] <= MAX_LABEL && no + m[p] + 1 < |s| && p + 1 + m[p] < |m|
    requires Copied(s, s', no, m[p + 1..p + 1 + m[p]])
    ensures Reached(m, off, p + 1 + m[p], s', no + m[p] + 1, done + [m[p + 1..p + 1 + m[p]]], depth)
  {
    hide Read, Dotted, Before, After;
    var l := m[p + 1..p + 1 + m[p]];
    ReadLabel(m, p, |s| - no, depth);
    DottedMore(done, l);
    AfterLabel(done, l, Read(m, p + 1 + m[p], |s| - no - m[p] - 1, depth), m[p + 1 + m[p]] > 191, m[p] > 191);
  }

  /** A label and a dot are written at no. */
  ghost predicate Copied(s: seq<Byte>, s': seq<Byte>, no: nat, l: Label) {
    |s'| == |s| && no + |l| + 1 <= |s| && s'[..no + |l| + 1] == s[..no] + l + [DOT]
  }

  /** The label fills the room. */
  lemma ReachedFull(m: seq<Byte>, off: nat, p: nat, s: seq<Byte>, s': seq<Byte>, no: nat, done: seq<Label>, depth: nat)
    requires Reached(m, off, p, s, no, done, depth) && 0 < m[p] <= MAX_LABEL && no + m[p] + 1 == |s| && p + 1 + m[p] < |m|
    requires Copied(s, s', no, m[p + 1..p + 1 + m[p]])
    ensures Read(m, off, |s|, depth) == Name(done + [m[p + 1..p + 1 + m[p]]], false, p + 1 + m[p])
    ensures |Dotted(done + [m[p + 1..p + 1 + m[p]]])| == |s| && s' == Dotted(done + [m[p + 1..p + 1 + m[p]]])
  {
    hide Read, Dotted, Before;
    var l := m[p + 1..p + 1 + m[p]];
    ReadLabel(m, p, |s| - no, depth);
    DottedMore(done, l);
    DottedMore(done + [l], []);
    assert s'[..|s|] == s';
  }

  lemma ReachedEnd(m: seq<Byte>, off: nat, p: nat, s: seq<Byte>, no: nat, done: seq<Label>, depth: nat)
    requires Reached(m, off, p, s, no, done, depth) && m[p] == 0
    ensures Read(m, off, |s|, depth) == Name(done, false, p + 1) && |Dotted(done)| == no && s[..no] == Dotted(done)
  {
    hide Read, Dotted;
    ReadIs(m, p, |s| - no, depth);
    assert done + [] == done;
  }

  /** The rest of the text was written by following a pointer. */
  lemma ReachedPointer(m: seq<Byte>, off: nat, p: nat, s: seq<Byte>, s': seq<Byte>, no: nat, done: seq<Label>, depth: nat)
    requires Reached(m, off, p, s, no, done, depth) && m[p] > 191 && depth <= 64 && p + 2 < |m| && Pointer(m, p) < |m|
    requires |s'| == |s| && s'[..no] == s[..no]
    ensures var r := Read(m, Pointer(m, p), |s| - no, depth + 1);
      var all := Read(m, off, |s|, depth);
      && (r.Fail? <==> all.Fail?)
      && (r.Name? ==> all.next == p + 2)
      && (r.Name? && Ends(s'[no..], Text(r.labels, r.dangling)) ==> Ends(s', Text(all.labels, all.dangling)))
  {
    hide Read, Dotted, Text;
    var r := Read(m, Pointer(m, p), |s| - no, depth + 1);
    ReadPointer(m, p, |s| - no, depth);
    if r.Name? && Ends(s'[no..], Text(r.labels, r.dangling)) {
      if r.labels == [] {
        NotDangling(m, Pointer(m, p), |s| - no, depth + 1);
      }
      TextAfter(done, r.labels, r.dangling);
      var text := Dotted(done) + Text(r.labels, r.dangling);
      assert s'[..|text|] == s'[..no] + s'[no..][..|text| - no];
    }
  }

  /** The last dot becomes the NUL. */
  lemma ClosedEnds(s: seq<Byte>, s': seq<Byte>, done: seq<Label>)
    requires |Dotted(done)| <= |s| && s[..|Dotted(done)|] == Dotted(done) && s != []
    requires s' == s[(if |Dotted(done)| > 0 then |Dotted(done)| - 1 else 0) := 0]
    ensures Ends(s', Text(done, false))
  {
    hide Dotted, Joined;
    DottedJoined(done);
    DottedNone(done);
    assert Text(done, false) == Joined(done);
    var n := |Joined(done)|;
    assert s'[..n] == s[..n];
    if done != [] {
      assert s[..n + 1][..n] == s[..n];
    }
  }

  lemma DottedNone(done: seq<Label>)
    ensures done == [] <==> Dotted(done) == []
    ensures done == [] ==> Joined(done) == []
  {
  }

  // ---- the part of the array that the name may take ----

  ghost predicate Framed(was: seq<Byte>, now: seq<Byte>, at: nat, ns: nat) {
    at + ns <= |was| && |now| == |was| && now[..at] == was[..at] && now[at + ns..] == was[at + ns..]
  }

  lemma FramedSelf(s: seq<Byte>, at: nat, ns: nat)
    requires at + ns <= |s|
    ensures Framed(s, s, at, ns)
  {
  }

  lemma FramedIs(was: seq<Byte>, now: seq<Byte>, at: nat, ns: nat)
    requires Framed(was, now, at, ns)
    ensures at + ns <= |was| == |now| && now[..at] == was[..at] && now[at + ns..] == was[at + ns..]
  {
  }

  /** A change to the tail of the name. */
  lemma FramedTail(was: seq<Byte>, before: seq<Byte>, now: seq<Byte>, at: nat, ns: nat, no: nat)
    requires Framed(was, before, at, ns) && no <= ns && |now| == |before|
    requires now[..at + no] == before[..at + no] && now[at + ns..] == before[at + ns..]
    ensures Framed(was, now, at, ns) && now[at..at + ns][..no] == before[at..at + ns][..no] && now[at..at + ns][no..] == now[at + no..at + ns]
  {
    assert now[..at] == now[..at + no][..at] && before[..at] == before[..at + no][..at];
    assert now[at..at + ns][..no] == now[..at + no][at..] && before[at..at + ns][..no] == before[..at + no][at..];
  }

  lemma LabelPut(was: seq<Byte>, before: seq<Byte>, now: seq<Byte>, at: nat, ns: nat, no: nat, l: Label)
    requires Framed(was, before, at, ns) && no + |l| + 1 <= ns
    requires now == before[..at + no] + (l + [DOT]) + before[at + no + |l| + 1..]
    ensures Framed(was, now, at, ns) && Copied(before[at..at + ns], now[at..at + ns], no, l)
  {
    var k := no + |l| + 1;
    assert now[..at] == before[..at];
    assert now[at + ns..] == before[at + ns..];
    assert now[at..at + ns][..k] == now[at..at + k];
    assert now[at..at + k] == now[..at + no][at..] + now[at + no..at + k];
    assert now[at + no..at + k] == l + [DOT];
    assert now[..at + no][at..] == before[..at + no][at..] == before[at..at + ns][..no];
    assert before[at..at + ns][..no] + (l + [DOT]) == before[at..at + ns][..no] + l + [DOT];
  }

  method PutByte(a: array<Byte>, i: nat, b: Byte)
    requires i < a.Length
    modifies a
    ensures a[..] == old(a[..])[i := b]
  {
    a[i] := b;
  }

  method PutLabel(name: array<Byte>, at: nat, ns: nat, no: nat, l: Label, ghost was: seq<Byte>) returns (no': nat)
    requires Framed(was, name[..], at, ns) && no + |l| + 1 <= ns
    modifies name
    ensures no' == no + |l| + 1 && Framed(was, name[..], at, ns) && Copied(old(name[..])[at..at + ns], name[..][at..at + ns], no, l)
  {
    hide *;
    ghost var before := name[..];
    FramedIs(was, before, at, ns);
    MemCpy(name, at + no, l);
    ghost var mid := name[..];
    PutByte(name, at + no + |l|, DOT);
    no' := no + |l| + 1;
    DotPut(before, mid, name[..], at + no, l);
    LabelPut(was, before, name[..], at, ns, no, l);
  }

  lemma DotPut(before: seq<Byte>, mid: seq<Byte>, now: seq<Byte>, p: nat, l: Label)
    requires p + |l| < |before| && mid == before[..p] + l + before[p + |l|..] && now == mid[p + |l| := DOT]
    ensures now == before[..p] + (l + [DOT]) + before[p + |l| + 1..]
  {
  }

  /** The NUL over the last dot, or alone. */
  method Close(name: array<Byte>, at: nat, ns: nat, no: nat, ghost done: seq<Label>, ghost was: seq<Byte>)
    requires Framed(was, name[..], at, ns) && ns > 0 && no <= ns && |Dotted(done)| == no && name[..][at..at + ns][..no] == Dotted(done)
    modifies name
    ensures Framed(was, name[..], at, ns) && Ends(name[..][at..at + ns], Text(done, false))
  {
    hide *;
    ghost var before := name[..];
    FramedIs(was, before, at, ns);
    var z := if no > 0 then no - 1 else 0;
    PutByte(name, at + z, 0);
    ZeroPut(was, before, name[..], at, ns, z);
    ClosedEnds(before[at..at + ns], name[..][at..at + ns], done);
  }

  lemma ZeroPut(was: seq<Byte>, before: seq<Byte>, now: seq<Byte>, at: nat, ns: nat, z: nat)
    requires Framed(was, before, at, ns) && z < ns && now == before[at + z := 0]
    ensures Framed(was, now, at, ns) && now[at..at + ns] == before[at..at + ns][z := 0]
  {
  }

  lemma PointerIs(m: seq<Byte>, off: nat)
    requires off + 1 < |m|
    ensures Pointer(m, off) == (m[off] as int) % 64 * 256 + m[off + 1]
  {
  }

  /** The reading comes to a pointer in the last octet and fetches the octet after the message with it. */
  predicate ReadsAfter(m: seq<Byte>, off: nat, room: nat, depth: nat)
    requires off < |m|
    decreases 66 - depth, |m| - off
  {
    var c := m[off];
    if c > 191 then
      && depth <= 64
      && (off + 1 == |m| || (off + 2 < |m| && Pointer(m, off) < |m| && ReadsAfter(m, Pointer(m, off), room, depth + 1)))
    else
      0 < c <= MAX_LABEL && c + 1 < room && off + 1 + c < |m| && ReadsAfter(m, off + 1 + c, room - c - 1, depth)
  }

  /** Then the reading fails whatever that octet is, and the message ends in the first octet of a pointer. */
  lemma {:induction false} ReadsAfterFails(m: seq<Byte>, off: nat, room: nat, depth: nat)
    requires off < |m| && ReadsAfter(m, off, room, depth)
    ensures Read(m, off, room, depth) == Fail && m[|m| - 1] > 191
    decreases 66 - depth, |m| - off
  {
    var c := m[off];
    if c > 191 {
      if off + 1 < |m| {
        ReadsAfterFails(m, Pointer(m, off), room, depth + 1);
      }
    } else {
      ReadsAfterFails(m, off + 1 + c, room - c - 1, depth);
    }
  }

  /** The shortest such message; every one that ends so is read after its end when its last octet is come to. */
  lemma PointerCutShort(m: seq<Byte>, room: nat, depth: nat)
    requires m != []
    ensures ReadsAfter(m, |m| - 1, room, depth) <==> m[|m| - 1] > 191 && depth <= 64
    ensures ReadsAfter([192], 0, room, 0) && Read([192], 0, room, 0) == Fail
  {
    ReadsAfterFails([192], 0, room, 0);
  }

  lemma ReadsAfterIs(m: seq<Byte>, off: nat, room: nat, depth: nat)
    requires off < |m|
    ensures m[off] > 191 && off + 1 == |m| ==> (ReadsAfter(m, off, room, depth) <==> depth <= 64)
    ensures m[off] > 191 && off + 1 < |m| ==> (ReadsAfter(m, off, room, depth) <==>
      depth <= 64 && off + 2 < |m| && Pointer(m, off) < |m| && ReadsAfter(m, Pointer(m, off), room, depth + 1))
    ensures MAX_LABEL < m[off] <= 191 || m[off] == 0 || m[off] + 1 >= room || off + 1 + m[off] >= |m| ==> m[off] <= 191 ==> !ReadsAfter(m, off, room, depth)
    ensures 0 < m[off] <= MAX_LABEL && m[off] + 1 < room && off + 1 + m[off] < |m| ==>
      (ReadsAfter(m, off, room, depth) <==> ReadsAfter(m, off + 1 + m[off], room - m[off] - 1, depth))
  {
  }

  /** The message is not written; off is where the name was, next where it ends.  The octet after the
      message is fetched where ReadsAfter says so, and does not matter. */
  method NameUnpack(buf: seq<Byte>, after: Byte, off: nat, name: array<Byte>, at: nat, ns: nat, rdepth: nat)
      returns (error: bool, next: nat, ghost fetched: bool)
    requires off < |buf| && ns > 0 && at + ns <= name.Length
    modifies name
    ensures name[..at] == old(name[..at]) && name[at + ns..] == old(name[at + ns..])
    ensures error <==> Read(buf, off, ns, rdepth).Fail?
    ensures fetched <==> ReadsAfter(buf, off, ns, rdepth)
    ensures !error ==> next == Read(buf, off, ns, rdepth).next
    ensures !error ==> Ends(name[at..at + ns], Text(Read(buf, off, ns, rdepth).labels, Read(buf, off, ns, rdepth).dangling))
    decreases 66 - rdepth
  {
    hide *;
    ghost var was, done := name[..], [];
    var no := 0;
    next, error, fetched := off, false, false;
    FramedSelf(was, at, ns);
    ReachedFirst(buf, off, name[..][at..at + ns], rdepth);
    while true
      invariant 0 <= next < |buf| && 0 <= no < ns && Reached(buf, off, next, name[..][at..at + ns], no, done, rdepth)
      invariant Framed(was, name[..], at, ns) && !fetched
      invariant ReadsAfter(buf, off, ns, rdepth) == ReadsAfter(buf, next, ns - no, rdepth)
      decreases |buf| - next
    {
      ghost var all := name[..];
      ghost var s := all[at..at + ns];
      FramedIs(was, all, at, ns);
      ReachedIs(buf, off, next, s, no, done, rdepth);
      ReadIs(buf, next, ns - no, rdepth);
      ReadsAfterIs(buf, next, ns - no, rdepth);
      var c: int := buf[next];
      if c > 191 {
        if rdepth > 64 { return true, next, false; }
        fetched := next + 1 == |buf|;
        var second := if next + 1 < |buf| then buf[next + 1] else after;
        if next + 2 >= |buf| { return true, next + 2, fetched; }
        var ptr := c % 64 * 256 + second;
        PointerIs(buf, next);
        if ptr >= |buf| { return true, next + 2, false; }
        var end;
        error, end, fetched := NameUnpack(buf, after, ptr, name, at + no, ns - no, rdepth + 1);
        FramedTail(was, all, name[..], at, ns, no);
        ReachedPointer(buf, off, next, s, name[..][at..at + ns], no, done, rdepth);
        FramedIs(was, name[..], at, ns);
        next := next + 2;
        return;
      } else if c > MAX_LABEL {
        return true, next, false;
      } else if c == 0 {
        ReachedEnd(buf, off, next, s, no, done, rdepth);
        next := next + 1;
        break;
      }
      if c > ns - no - 1 { return true, next + 1, false; }
      if next + 1 + c >= |buf| { return true, next + 1, false; }
      var l := buf[next + 1..next + 1 + c];
      ghost var no0, p := no, next;
      no := PutLabel(name, at, ns, no, l, was);
      next := next + 1 + c;
      done := done + [l];
      if no >= ns {
        ReachedFull(buf, off, p, s, name[..][at..at + ns], no0, done[..|done| - 1], rdepth);
        break;
      }
      ReachedNext(buf, off, p, s, name[..][at..at + ns], no0, done[..|done| - 1], rdepth);
    }
    Close(name, at, ns, no, done, was);
    FramedIs(was, name[..], at, ns);
  }

  // ---- where a text is not the name ----

  /** A name that is too long is reported as read when its first labels fill the room exactly. */
  lemma LongNameCutShort()
    ensures Read([1, 97, 1, 98, 0], 0, 2, 0) == Name([[97]], false, 2)
    ensures Spells([1, 97, 1, 98, 0], 0, [[97], [98]], false, 0)
  {
    var m: seq<Byte> := [1, 97, 1, 98, 0];
    assert m[1..2] == [97] && m[3..4] == [98];
    EndSpelledHere(m, 4);
    assert At(m, 2, LabelBytes([98])) by { assert m[2..4] == [1, 98]; }
    SpellsLabel(m, 2, [98], [], false, 0);
    assert At(m, 0, LabelBytes([97])) by { assert m[0..2] == [1, 97]; }
    SpellsLabel(m, 0, [97], [[98]], false, 0);
    assert [[97]] + [[98]] == [[97], [98]];
    ReadLabel(m, 0, 2, 0);
  }

  lemma EndSpelledHere(m: seq<Byte>, off: nat)
    requires off < |m| && m[off] == 0
    ensures Spells(m, off, [], false, 0)
  {
  }

  /** A pointer to the root after a label leaves the dot behind the label in the text. */
  lemma PointerToRootLeavesDot(room: nat)
    requires room > 2
    ensures Read([1, 97, 192, 4, 0], 0, room, 0) == Name([[97]], true, 4) && Text([[97]], true) == [97, DOT]
  {
    var m: seq<Byte> := [1, 97, 192, 4, 0];
    assert m[1..2] == [97];
    assert Pointer(m, 2) == 4;
    ReadIs(m, 4, room - 2, 1);
    ReadPointer(m, 2, room - 2, 0);
    ReadLabel(m, 0, room, 0);
  }

  // ---- headers (section 4.1.1) ----

  type Short = s: int | 0 <= s < 0x1_0000
  type Bit = b: int | 0 <= b < 2
  type Nibble = n: int | 0 <= n < 16

  datatype Header = Header(id: Short, qr: Bit, opcode: Nibble, aa: Bit, tc: Bit, rd: Bit, ra: Bit, rcode: Nibble,
    qdcount: Short, ancount: Short, nscount: Short, arcount: Short)

  function ShortBytes(s: Short): seq<Byte> {
    [s / 256, s % 256]
  }

  function BytesShort(a: Byte, b: Byte): Short {
    (a as int) * 256 + b
  }

  /** The bit fields do not overlap, so that or is plus; bits 4 to 6 are zero. */
  function Flags(h: Header): Short {
    0x8000 * (h.qr as int) + 0x800 * (h.opcode as int) + 0x400 * (h.aa as int) + 0x200 * (h.tc as int)
      + 0x100 * (h.rd as int) + 0x80 * (h.ra as int) + h.rcode
  }

  function HeaderBytes(h: Header): seq<Byte> {
    ShortBytes(h.id) + ShortBytes(Flags(h)) + ShortBytes(h.qdcount) + ShortBytes(h.ancount) + ShortBytes(h.nscount) + ShortBytes(h.arcount)
  }

  function HeaderOf(id: Short, t: Short, qd: Short, an: Short, ns: Short, ar: Short): Header {
    Header(id, t / 0x8000 % 2, t / 0x800 % 16, t / 0x400 % 2, t / 0x200 % 2, t / 0x100 % 2, t / 0x80 % 2, t % 16, qd, an, ns, ar)
  }

  method HeaderPack(buf: array<Byte>, sz: nat, hdr: Header) returns (off: nat)
    requires 12 <= sz <= buf.Length
    modifies buf
    ensures off == 12 && buf[..] == HeaderBytes(hdr) + old(buf[..])[12..]
  {
    hide *;
    ghost var was, done := buf[..], [];
    NothingWritten(was, 0);
    off, done := PutShort(buf, 0, hdr.id, was, done);
    off, done := PutShort(buf, off, Flags(hdr), was, done);
    off, done := PutCounts(buf, off, hdr, was, done);
    HeaderBytesAre(hdr, done);
    WrittenFirst(was, buf[..], done);
  }

  lemma WrittenFirst(was: seq<Byte>, now: seq<Byte>, done: seq<Byte>)
    requires Written(was, now, 0, done)
    ensures |done| <= |was| && now == done + was[|done|..]
  {
  }

  lemma HeaderBytesAre(h: Header, done: seq<Byte>)
    requires done == [] + ShortBytes(h.id) + ShortBytes(Flags(h)) + ShortBytes(h.qdcount) + ShortBytes(h.ancount) + ShortBytes(h.nscount) + ShortBytes(h.arcount)
    ensures HeaderBytes(h) == done && |done| == 12
  {
    hide Flags;
  }

  method PutShort(buf: array<Byte>, off: nat, s: Short, ghost was: seq<Byte>, ghost done: seq<Byte>)
      returns (off': nat, ghost done': seq<Byte>)
    requires off + 2 <= buf.Length && off == |done| && Written(was, buf[..], 0, done)
    modifies buf
    ensures done' == done + ShortBytes(s) && off' == off + 2 == |done'| && Written(was, buf[..], 0, done')
  {
    hide *;
    ghost var before := buf[..];
    ShortLength(s);
    WrittenIs(was, before, 0, done);
    MemCpy(buf, off, ShortBytes(s));
    off', done' := off + 2, done + ShortBytes(s);
    WrittenMore(was, before, buf[..], 0, done, ShortBytes(s));
  }

  method PutCounts(buf: array<Byte>, off: nat, hdr: Header, ghost was: seq<Byte>, ghost done: seq<Byte>)
      returns (off': nat, ghost done': seq<Byte>)
    requires off + 8 <= buf.Length && off == |done| && Written(was, buf[..], 0, done)
    modifies buf
    ensures done' == done + ShortBytes(hdr.qdcount) + ShortBytes(hdr.ancount) + ShortBytes(hdr.nscount) + ShortBytes(hdr.arcount)
    ensures off' == off + 8 == |done'| && Written(was, buf[..], 0, done')
  {
    hide *;
    off', done' := PutShort(buf, off, hdr.qdcount, was, done);
    off', done' := PutShort(buf, off', hdr.ancount, was, done');
    off', done' := PutShort(buf, off', hdr.nscount, was, done');
    off', done' := PutShort(buf, off', hdr.arcount, was, done');
  }

  lemma ShortLength(s: Short)
    ensures |ShortBytes(s)| == 2
  {
  }

  /** A message shorter than twelve octets has no header. */
  method HeaderUnpack(buf: seq<Byte>) returns (error: bool, off: nat, h: Header)
    ensures error <==> |buf| < 12
    ensures !error ==> off == 12 && h == Unpacked(buf)
  {
    off, error := 0, false;
    if |buf| < 12 {
      h := HeaderOf(0, 0, 0, 0, 0, 0);
      return true, off, h;
    }
    h := HeaderOf(BytesShort(buf[0], buf[1]), BytesShort(buf[2], buf[3]), BytesShort(buf[4], buf[5]),
      BytesShort(buf[6], buf[7]), BytesShort(buf[8], buf[9]), BytesShort(buf[10], buf[11]));
    off := 12;
  }

  function Unpacked(buf: seq<Byte>): Header
    requires |buf| >= 12
  {
    HeaderOf(BytesShort(buf[0], buf[1]), BytesShort(buf[2], buf[3]), BytesShort(buf[4], buf[5]),
      BytesShort(buf[6], buf[7]), BytesShort(buf[8], buf[9]), BytesShort(buf[10], buf[11]))
  }

  lemma ShortBack(s: Short)
    ensures BytesShort(s / 256, s % 256) == s
  {
  }

  lemma BytesBack(a: Byte, b: Byte)
    ensures ShortBytes(BytesShort(a, b)) == [a, b]
  {
  }

  lemma FlagsHigh(h: Header)
    ensures var t := Flags(h); t / 0x800 % 16 == h.opcode && t / 0x8000 == h.qr && t / 0x400 % 2 == h.aa
  {
    var t := Flags(h);
    assert t / 0x400 == 0x20 * (h.qr as int) + 2 * (h.opcode as int) + h.aa;
    assert t / 0x800 == 0x10 * (h.qr as int) + h.opcode;
    assert t / 0x8000 == h.qr;
  }

  lemma FlagsLow(h: Header)
    ensures var t := Flags(h); t / 0x200 % 2 == h.tc && t / 0x100 % 2 == h.rd && t / 0x80 % 2 == h.ra && t % 16 == h.rcode
  {
    var t, k := Flags(h), 0x20 * (h.qr as int) + 2 * (h.opcode as int) + h.aa;
    assert t == 0x400 * k + 0x200 * (h.tc as int) + 0x100 * (h.rd as int) + 0x80 * (h.ra as int) + h.rcode;
    assert t / 0x80 == 2 * (4 * k + 2 * (h.tc as int) + h.rd) + h.ra;
    assert t / 0x100 == 2 * (2 * k + h.tc) + h.rd;
    assert t / 0x200 == 2 * k + h.tc;
    assert t == 16 * (0x40 * k + 0x20 * (h.tc as int) + 0x10 * (h.rd as int) + 8 * (h.ra as int)) + h.rcode;
  }

  lemma FlagsBack(h: Header)
    ensures var t := Flags(h); HeaderOf(h.id, t, h.qdcount, h.ancount, h.nscount, h.arcount) == h
  {
    hide Flags;
    FlagsHigh(h);
    FlagsLow(h);
  }

  /** A packed header is unpacked to itself. */
  lemma HeaderRoundTrip(h: Header, rest: seq<Byte>)
    ensures |HeaderBytes(h)| == 12 && Unpacked(HeaderBytes(h) + rest) == h
  {
    hide Flags, HeaderOf, BytesShort;
    ShortBack(h.id);
    ShortBack(Flags(h));
    ShortBack(h.qdcount);
    ShortBack(h.ancount);
    ShortBack(h.nscount);
    ShortBack(h.arcount);
    FlagsBack(h);
  }

  lemma ByteBits(a: Byte)
    ensures a == 0x80 * (a / 0x80) + 8 * (a / 8 % 16) + 4 * (a / 4 % 2) + 2 * (a / 2 % 2) + a % 2
  {
    assert a == 2 * (a / 2) + a % 2;
    assert a / 2 == 2 * (a / 4) + a / 2 % 2;
    assert a / 4 == 2 * (a / 8) + a / 4 % 2;
    assert a / 8 == 16 * (a / 0x80) + a / 8 % 16;
  }

  lemma ShortBits(a: Byte, b: Byte)
    ensures var t := BytesShort(a, b);
      t / 0x8000 % 2 == a / 0x80 && t / 0x800 % 16 == a / 8 % 16 && t / 0x400 % 2 == a / 4 % 2 && t / 0x200 % 2 == a / 2 % 2
      && t / 0x100 % 2 == a % 2 && t / 0x80 % 2 == b / 0x80 && t % 16 == b % 16
  {
    var t := BytesShort(a, b);
    assert t / 0x100 == a;
    assert t / 0x200 == a / 2;
    assert t / 0x400 == a / 4;
    assert t / 0x800 == a / 8;
    assert t / 0x8000 == a / 0x80;
    assert t / 0x80 == 2 * (a as int) + b / 0x80;
  }

  lemma FlagsOctets(a: Byte, b: Byte, h: Header)
    requires var t := BytesShort(a, b); h == HeaderOf(h.id, t, h.qdcount, h.ancount, h.nscount, h.arcount)
    ensures ShortBytes(Flags(h)) == [a, b % 16 + b / 0x80 * 0x80]
  {
    hide BytesShort;
    ShortBits(a, b);
    ByteBits(a);
    var low := b % 16 + b / 0x80 * 0x80;
    assert Flags(h) == 0x100 * (a as int) + low && 0 <= low < 256;
  }

  lemma UnpackedParts(buf: seq<Byte>)
    requires |buf| >= 12
    ensures var h := Unpacked(buf); h == HeaderOf(h.id, BytesShort(buf[2], buf[3]), h.qdcount, h.ancount, h.nscount, h.arcount)
    ensures Unpacked(buf).id == BytesShort(buf[0], buf[1]) && Unpacked(buf).qdcount == BytesShort(buf[4], buf[5])
    ensures Unpacked(buf).ancount == BytesShort(buf[6], buf[7]) && Unpacked(buf).nscount == BytesShort(buf[8], buf[9])
    ensures Unpacked(buf).arcount == BytesShort(buf[10], buf[11])
  {
    hide BytesShort;
  }

  /** Packing an unpacked header gives the octets back, with the reserved bits 4 to 6 of the flags cleared. */
  lemma HeaderOctets(buf: seq<Byte>)
    requires |buf| >= 12
    ensures HeaderBytes(Unpacked(buf)) == buf[..12][3 := buf[3] % 16 + buf[3] / 0x80 * 0x80]
  {
    hide Flags, HeaderOf, BytesShort, ShortBytes;
    UnpackedParts(buf);
    BytesBack(buf[0], buf[1]);
    FlagsOctets(buf[2], buf[3], Unpacked(buf));
    BytesBack(buf[4], buf[5]);
    BytesBack(buf[6], buf[7]);
    BytesBack(buf[8], buf[9]);
    BytesBack(buf[10], buf[11]);
  }
}
