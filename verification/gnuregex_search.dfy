/** `re_search_2` on one string: with a fastmap it skips starts, and finds what trying every start in
    turn would find. */
module RegexSearch {
  import opened Wrappers
  import opened RegexLanguage
  import opened RegexCode
  import opened RegexMeaning
  import opened RegexCourse
  import opened RegexPlaces
  import opened RegexMatch
  import opened RegexFastmap
  import opened RegexIdle
  import RegexBudget
  import RegexDecides
  import opened RegexTakes

  datatype Found = Found(start: int) | NotFound | Error

  /** What a search works with: the program as compiled, the string, the room for failure points and
      the number of commands a match may take. */
  datatype Setting = Setting(code: Code, text: Text, room: Room, steps: nat)

  // ---- the searches ----

  /** The i-th start of a search over range, forwards or backwards. */
  function Start(startpos: int, range: int, i: int): int {
    if range >= 0 then startpos + i else startpos - i
  }

  function Abs(range: int): nat {
    if range >= 0 then range else -range
  }

  /** The starts that a search with this map does not try.  A forward search whose last start comes
      after skipped ones tries it, whatever the map says: the skipping loop ends there unlooked. */
  predicate Skipped(fast: Option<Fastmap>, text: Text, startpos: int, range: int, i: int)
    requires fast.Some? ==> |fast.value| == 256
  {
    var start := Start(startpos, range, i);
    fast.Some?
    && if 0 <= start < |text| then
         !fast.value[text[start]] && !(0 < i == range && 0 < start && !fast.value[text[start - 1]])
       else start == |text| && range >= 0
  }

  /** Every start in turn, but for those that the map rules out, until the matcher says something else
      than that there is no match. */
  function Search(env: Setting, fast: Option<Fastmap>, startpos: int, range: int, i: nat): Found
    requires i <= Abs(range) && (fast.Some? ==> |fast.value| == 256)
    decreases Abs(range) - i
  {
    var start := Start(startpos, range, i);
    var v := if Skipped(fast, env.text, startpos, range, i) then Mismatch else Verdict(env.code, env.text, env.room, start, env.steps);
    match v
    case Matched(_) => Found(start)
    case Mismatch => if i == Abs(range) then NotFound else Search(env, fast, startpos, range, i + 1)
    case _ => Error
  }

  /** The search that tries every start. */
  function PlainSearch(env: Setting, startpos: int, range: int): Found {
    Search(env, Option.None, startpos, range, 0)
  }

  /** The range, cut so that the search stays within the string. */
  function Clipped(total: nat, startpos: int, range: int): int {
    if startpos + range < -1 then -1 - startpos
    else if startpos + range > total then total - startpos
    else range
  }

  // ---- one step of a search ----

  lemma SearchOn(env: Setting, fast: Option<Fastmap>, startpos: int, range: int, i: nat)
    requires i <= Abs(range) && (fast.Some? ==> |fast.value| == 256)
    ensures var start := Start(startpos, range, i);
      var v := Verdict(env.code, env.text, env.room, start, env.steps);
      var r := Search(env, fast, startpos, range, i);
      if Skipped(fast, env.text, startpos, range, i) || v == Mismatch then
        r == if i == Abs(range) then NotFound else Search(env, fast, startpos, range, i + 1)
      else if v.Matched? then r == Found(start)
      else r == Error
  {
    hide Verdict, Skipped, Start, Abs;
  }

  // ---- skipping loses nothing ----

  /** A start at which a covering map rules a match out has no match. */
  lemma SkippedIsNoMatch(alts: Alts, env: Setting, fast: Option<Fastmap>, startpos: int, range: int, i: int)
    requires Laid(alts) && env.code == AltBytes(alts) && fast.Some? && |fast.value| == 256 && Covers(alts, fast.value)
    requires Skipped(fast, env.text, startpos, range, i)
    ensures !Verdict(env.code, env.text, env.room, Start(startpos, range, i), env.steps).Matched?
  {
    hide Verdict, Laid, AltBytes, Denotes, Covers, Skipped, Start;
    var start := Start(startpos, range, i);
    var v := Verdict(env.code, env.text, env.room, start, env.steps);
    VerdictRight(alts, env.text, env.room, start, env.steps);
    NoWordAt(alts, fast, env.text, startpos, range, i, if v.Matched? then v.length else 0);
  }

  lemma NoWordAt(alts: Alts, fast: Option<Fastmap>, text: Text, startpos: int, range: int, i: int, n: nat)
    requires fast.Some? && |fast.value| == 256 && Covers(alts, fast.value) && Skipped(fast, text, startpos, range, i)
    ensures var start := Start(startpos, range, i); 0 <= start && start + n <= |text| ==> !Denotes(MeansAlts(alts), text[start..start + n])
  {
    hide Denotes;
    var start := Start(startpos, range, i);
    if 0 <= start && start + n <= |text| {
      var w := text[start..start + n];
      assert n > 0 ==> w[0] == text[start];
      CoveredWord(alts, fast.value, w);
    }
  }

  lemma CoveredWord(alts: Alts, fast: Fastmap, w: Text)
    requires |fast| == 256 && Covers(alts, fast) && (w != [] ==> !fast[w[0]])
    ensures !Denotes(MeansAlts(alts), w)
  {
    hide Denotes;
  }

  /** The search with a covering map finds what the plain search finds, unless the plain search gives
      up at a start that the map rules out. */
  lemma {:induction false} SkippingAgrees(alts: Alts, env: Setting, fast: Option<Fastmap>, startpos: int, range: int, i: nat)
    requires Laid(alts) && env.code == AltBytes(alts) && i <= Abs(range)
    requires fast.Some? ==> |fast.value| == 256 && Covers(alts, fast.value)
    ensures var plain := Search(env, Option.None, startpos, range, i);
      Search(env, fast, startpos, range, i) == plain || plain == Error
    decreases Abs(range) - i
  {
    hide Verdict, Laid, AltBytes, Covers, Start, Skipped, Search;
    var start := Start(startpos, range, i);
    SearchOn(env, fast, startpos, range, i);
    SearchOn(env, Option.None, startpos, range, i);
    NothingSkipped(env.text, startpos, range, i);
    if Skipped(fast, env.text, startpos, range, i) {
      WithMap(fast, env.text, startpos, range, i);
      SkippedIsNoMatch(alts, env, fast, startpos, range, i);
    }
    if i < Abs(range) {
      SkippingAgrees(alts, env, fast, startpos, range, i + 1);
    }
  }

  /** With enough steps and memory, the search with a covering map is the plain search. */
  lemma SkippingIsExact(alts: Alts, env: Setting, fast: Option<Fastmap>, startpos: int, range: int)
    requires RegexBudget.Tame(alts) && env.code == AltBytes(alts) && RegexBudget.Budget(alts, env.text) <= env.steps
    requires (forall stack :: env.room(stack)) && (fast.Some? ==> |fast.value| == 256 && Covers(alts, fast.value))
    ensures Search(env, fast, startpos, range, 0) == PlainSearch(env, startpos, range) != Error
  {
    hide Search, AltBytes, Covers, RegexBudget.Budget;
    SkippingAgrees(alts, env, fast, startpos, range, 0);
    NoError(alts, env, startpos, range, 0);
    PlainIs(env, startpos, range);
  }

  lemma {:induction false} NoError(alts: Alts, env: Setting, startpos: int, range: int, i: nat)
    requires RegexBudget.Tame(alts) && env.code == AltBytes(alts) && RegexBudget.Budget(alts, env.text) <= env.steps
    requires i <= Abs(range) && forall stack :: env.room(stack)
    ensures Search(env, Option.None, startpos, range, i) != Error
    decreases Abs(range) - i
  {
    hide Search, AltBytes, RegexBudget.Tame, RegexBudget.Budget, Verdict;
    SearchOn(env, Option.None, startpos, range, i);
    NothingSkipped(env.text, startpos, range, i);
    RegexBudget.VerdictDecides(alts, env.text, env.room, Start(startpos, range, i), env.steps);
    if i < Abs(range) {
      NoError(alts, env, startpos, range, i + 1);
    }
  }

  lemma NothingSkipped(text: Text, startpos: int, range: int, i: int)
    ensures !Skipped(Option.None, text, startpos, range, i)
  {
  }

  lemma WithMap(fast: Option<Fastmap>, text: Text, startpos: int, range: int, i: int)
    requires (fast.Some? ==> |fast.value| == 256) && Skipped(fast, text, startpos, range, i)
    ensures fast.Some?
  {
  }

  /** What is found is the start of a match. */
  lemma {:induction false} FoundIsMatch(alts: Alts, env: Setting, fast: Option<Fastmap>, startpos: int, range: int, i: nat)
    requires Laid(alts) && env.code == AltBytes(alts) && i <= Abs(range) && (fast.Some? ==> |fast.value| == 256)
    ensures var r := Search(env, fast, startpos, range, i);
      r.Found? ==> BeginsAt(MeansAlts(alts), env.text, r.start)
    decreases Abs(range) - i
  {
    hide Verdict, Laid, AltBytes, Denotes, Skipped, Search;
    var start := Start(startpos, range, i);
    SearchOn(env, fast, startpos, range, i);
    VerdictRight(alts, env.text, env.room, start, env.steps);
    if i < Abs(range) {
      FoundIsMatch(alts, env, fast, startpos, range, i + 1);
    }
    var v := Verdict(env.code, env.text, env.room, start, env.steps);
    if v.Matched? {
      assert Prefix(env.text, start, v.length) == env.text[start..start + v.length];
    }
  }

  // ---- what a search finds ----

  /** The i-th start is the first one at which a string that r denotes begins. */
  ghost predicate FirstAt(r: Regex, text: Text, startpos: int, range: int, i: nat) {
    i <= Abs(range) && BeginsAt(r, text, Start(startpos, range, i)) && NoneBefore(r, text, startpos, range, i)
  }

  ghost predicate NoneBefore(r: Regex, text: Text, startpos: int, range: int, n: nat) {
    forall j: nat {:trigger Start(startpos, range, j)} :: j < n ==> !BeginsAt(r, text, Start(startpos, range, j))
  }

  /** The plain search finds the first start at which the pattern takes a string. */
  lemma {:induction false} PlainFinds(alts: Alts, env: Setting, startpos: int, range: int, i: nat)
    requires RegexBudget.Tame(alts) && env.code == AltBytes(alts) && RegexBudget.Budget(alts, env.text) <= env.steps && forall stack :: env.room(stack)
    requires i <= Abs(range) && NoneBefore(TakesAlts(alts), env.text, startpos, range, i)
    ensures var r := Search(env, Option.None, startpos, range, i);
      || (r == NotFound && NoneBefore(TakesAlts(alts), env.text, startpos, range, Abs(range) + 1))
      || (r.Found? && exists k: nat :: r.start == Start(startpos, range, k) && FirstAt(TakesAlts(alts), env.text, startpos, range, k))
    decreases Abs(range) - i
  {
    hide *;
    SearchOn(env, Option.None, startpos, range, i);
    NothingSkipped(env.text, startpos, range, i);
    var start := Start(startpos, range, i);
    RegexDecides.MatchesWhatItTakes(alts, env.text, env.room, start, env.steps);
    FirstIs(TakesAlts(alts), env.text, startpos, range, i);
    if !BeginsAt(TakesAlts(alts), env.text, start) && i < Abs(range) {
      PlainFinds(alts, env, startpos, range, i + 1);
    }
  }

  lemma FirstIs(r: Regex, text: Text, startpos: int, range: int, i: nat)
    requires NoneBefore(r, text, startpos, range, i)
    ensures BeginsAt(r, text, Start(startpos, range, i)) && i <= Abs(range) ==> FirstAt(r, text, startpos, range, i)
    ensures !BeginsAt(r, text, Start(startpos, range, i)) ==> NoneBefore(r, text, startpos, range, i + 1)
  {
    hide BeginsAt, Start;
    if !BeginsAt(r, text, Start(startpos, range, i)) {
      forall j: nat {:trigger Start(startpos, range, j)} | j < i + 1
        ensures !BeginsAt(r, text, Start(startpos, range, j))
      {
      }
    }
  }

  /** With enough steps and memory, and with a covering map or without one, a search finds the first
      start at which a string begins that the pattern takes, and nothing only if there is none. */
  lemma SearchFinds(alts: Alts, env: Setting, fast: Option<Fastmap>, startpos: int, range: int)
    requires RegexBudget.Tame(alts) && env.code == AltBytes(alts) && RegexBudget.Budget(alts, env.text) <= env.steps && forall stack :: env.room(stack)
    requires fast.Some? ==> |fast.value| == 256 && Covers(alts, fast.value)
    ensures var r := Search(env, fast, startpos, range, 0);
      || (r == NotFound && NoneBefore(TakesAlts(alts), env.text, startpos, range, Abs(range) + 1))
      || (r.Found? && exists k: nat :: r.start == Start(startpos, range, k) && FirstAt(TakesAlts(alts), env.text, startpos, range, k))
  {
    hide *;
    NothingBefore(TakesAlts(alts), env.text, startpos, range);
    SkippingIsExact(alts, env, fast, startpos, range);
    PlainIs(env, startpos, range);
    PlainFinds(alts, env, startpos, range, 0);
  }

  lemma NothingBefore(r: Regex, text: Text, startpos: int, range: int)
    ensures NoneBefore(r, text, startpos, range, 0)
  {
  }

  // ---- re_search_2 ----

  /** What became of a stale map: it was not needed, or what its compilation came to. */
  datatype Update = Kept | Compiled(out: Walked)

  /** `re_search_2` for a program and, unless it is null, a fastmap that is accurate or not.  If it is
      not, it is compiled, and `canBeNull` is then the updated note that the pattern matches the empty
      string.  When the compilation strays, what the code does is left open, and the answer means nothing.
      A backward search may run on to -1, and then consults the byte before the string. */
  method ReSearch(buffer: array<Byte>, used: nat, next: Byte, fastmap: array?<bool>, accurate: bool, nullKnown: bool, text: Text, before: Byte,
                  startpos: int, range: int, room: Room, steps: nat, ghost alts: Alts) returns (r: Found, update: Update, canBeNull: bool)
    requires used <= buffer.Length && Program(alts, buffer[..used])
    requires used < buffer.Length ==> next == buffer[used]
    requires fastmap != null ==> fastmap.Length == 256 && (accurate && !nullKnown ==> Covers(alts, fastmap[..]))
    modifies buffer, fastmap
    ensures Program(alts, buffer[..used])
    ensures update == Kept <==> fastmap == null || accurate || startpos < 0 || startpos > |text|
    ensures update == Kept ==> canBeNull == nullKnown
    ensures update == Compiled(Done) ==> (canBeNull <==> Nullable(alts))
    ensures update == Compiled(Stray) ==> next == ON_FAILURE_JUMP && EmptyEnd(alts) && Denotes(MeansFront(alts.front), [])
    ensures startpos < 0 || startpos > |text| ==> r == NotFound
    ensures update == Compiled(NoStack) ==> r == Error
    ensures 0 <= startpos <= |text| && (update == Kept || update == Compiled(Done)) ==>
      var env, fast := Setting(AltBytes(alts), text, room, steps), if fastmap != null && !canBeNull then Some(fastmap[..]) else Option.None;
      var plain := PlainSearch(env, startpos, Clipped(|text|, startpos, range));
      && r == Search(env, fast, startpos, Clipped(|text|, startpos, range), 0)
      && (r == plain || plain == Error)
    ensures r.Found? ==> BeginsAt(MeansAlts(alts), text, r.start)
  {
    hide *;
    update, canBeNull := Kept, nullKnown;
    if startpos < 0 || startpos > |text| {
      return NotFound, update, canBeNull;
    }
    ProgramIsLaid(alts, buffer[..used]);
    ClippedInside(|text|, startpos, range);
    var left := Clipped(|text|, startpos, range);
    if fastmap != null && !accurate {
      ghost var was := buffer[..used];
      var out;
      ghost var over, cut;
      out, canBeNull, over, cut := CompileFastmap(buffer, used, next, fastmap, alts);
      update := Compiled(out);
      assert buffer[..used] == was;
      if out != Done {
        return Error, update, canBeNull;
      }
    }
    var skip := fastmap != null && !canBeNull;
    ghost var fast := if skip then Some(fastmap[..]) else Option.None;
    ghost var env := Setting(AltBytes(alts), text, room, steps);
    r := Scan(buffer, used, fastmap, skip, text, before, startpos, left, room, steps, alts);
    SkippingAgrees(alts, env, fast, startpos, left, 0);
    FoundIsMatch(alts, env, fast, startpos, left, 0);
    PlainIs(env, startpos, left);
  }

  lemma PlainIs(env: Setting, startpos: int, range: int)
    ensures PlainSearch(env, startpos, range) == Search(env, Option.None, startpos, range, 0)
  {
    hide Search;
  }

  lemma ClippedInside(total: nat, startpos: int, range: int)
    requires 0 <= startpos <= total
    ensures -1 <= startpos + Clipped(total, startpos, range) <= total && 0 <= Abs(range)
  {
  }

  /** The inner loop of a forward search, over the characters that cannot begin a match. */
  method Skip(fastmap: array<bool>, text: Text, at0: nat, left: nat, ghost env: Setting, ghost startpos: int, ghost searched: nat)
    returns (at: nat, range: nat)
    requires fastmap.Length == 256 && env.text == text && at0 + left <= |text| && startpos + searched == at0 + left && 0 <= startpos <= at0
    requires left > 0
    ensures at0 <= at && at + range == at0 + left
    ensures range > 0 ==> at < |text| && fastmap[text[at]]
    ensures at < |text| ==> !Skipped(Some(fastmap[..]), text, startpos, searched, at - startpos)
    ensures Search(env, Some(fastmap[..]), startpos, searched, at0 - startpos) == Search(env, Some(fastmap[..]), startpos, searched, at - startpos)
  {
    hide Verdict, Search;
    at, range := at0, left;
    while range > 0 && !fastmap[text[at]]
      invariant at0 <= at && at + range == at0 + left && (at0 < at ==> !fastmap[text[at - 1]])
      invariant Search(env, Some(fastmap[..]), startpos, searched, at0 - startpos) == Search(env, Some(fastmap[..]), startpos, searched, at - startpos)
      decreases range
    {
      SearchOn(env, Some(fastmap[..]), startpos, searched, at - startpos);
      range, at := range - 1, at + 1;
    }
  }

  /** A search that goes on from at, with so much of its range left. */
  ghost predicate Gone(startpos: int, searched: int, at: int, range: int) {
    startpos + searched == at + range && if searched >= 0 then startpos <= at && range >= 0 else at <= startpos && range <= 0
  }

  lemma SearchAt(env: Setting, fast: Option<Fastmap>, startpos: int, searched: int, at: int, range: int)
    requires Gone(startpos, searched, at, range) && (fast.Some? ==> |fast.value| == 256)
    ensures var i := Abs(at - startpos);
      var v := Verdict(env.code, env.text, env.room, at, env.steps);
      && i <= Abs(searched)
      && var r := Search(env, fast, startpos, searched, i);
      && (Skipped(fast, env.text, startpos, searched, i) || v == Mismatch ==>
          if range == 0 then r == NotFound
          else
            var next := if range > 0 then at + 1 else at - 1;
            var left := if range > 0 then range - 1 else range + 1;
            Gone(startpos, searched, next, left) && Abs(left) < Abs(range) && Abs(next - startpos) <= Abs(searched)
            && r == Search(env, fast, startpos, searched, Abs(next - startpos)))
      && (!Skipped(fast, env.text, startpos, searched, i) && v.Matched? ==> r == Found(at))
      && (!Skipped(fast, env.text, startpos, searched, i) && !v.Matched? && v != Mismatch ==> r == Error)
  {
    hide Verdict, Search, Skipped;
    SearchOn(env, fast, startpos, searched, Abs(at - startpos));
  }

  /** Which starts are skipped, but for those that the inner loop skips. */
  lemma SkippedAt(fast: Option<Fastmap>, text: Text, startpos: int, searched: int, at: int, range: int)
    requires Gone(startpos, searched, at, range) && (fast.Some? ==> |fast.value| == 256) && at <= |text|
    ensures var i := Abs(at - startpos);
      && (fast.None? ==> !Skipped(fast, text, startpos, searched, i))
      && (fast.Some? && at == |text| ==> (Skipped(fast, text, startpos, searched, i) <==> searched >= 0))
      && (fast.Some? && at < 0 ==> !Skipped(fast, text, startpos, searched, i))
      && (fast.Some? && 0 <= at < |text| && fast.value[text[at]] ==> !Skipped(fast, text, startpos, searched, i))
      && (fast.Some? && 0 <= at < |text| && !fast.value[text[at]] && range <= 0 && (0 < searched && at > startpos && at > 0 ==> fast.value[text[at - 1]]) ==>
          Skipped(fast, text, startpos, searched, i))
  {
  }

  lemma GoneInside(total: nat, startpos: int, searched: int, at: int, range: int)
    requires 0 <= startpos <= total && -1 <= startpos + searched <= total && Gone(startpos, searched, at, range)
    ensures -1 <= at <= total && Abs(at - startpos) <= Abs(searched)
    ensures range > 0 ==> searched > 0 && 0 <= startpos <= at && at + range == startpos + searched <= total && Abs(at - startpos) == at - startpos
    ensures range >= 0 && at == total ==> searched >= 0
    ensures 0 < searched && range <= 0 ==> range == 0 && at > startpos
  {
  }

  lemma RangeIs(range: int)
    ensures range >= 0 ==> Abs(range) == range
  {
  }

  lemma GoneStart(startpos: int, searched: int)
    ensures Gone(startpos, searched, startpos, searched) && Abs(startpos - startpos) == 0 <= Abs(searched)
  {
  }

  lemma GoneOn(startpos: int, searched: int, at: int, at': int, range: int)
    requires startpos <= at <= at' && range >= 0 && at' + range == startpos + searched
    ensures Gone(startpos, searched, at', range) && Abs(at' - startpos) == at' - startpos && Abs(range) == range
  {
  }

  /** The loop over the starts. */
  method Scan(buffer: array<Byte>, used: nat, fastmap: array?<bool>, skip: bool, text: Text, before: Byte, startpos: int, searched: int, room: Room,
              steps: nat, ghost alts: Alts)
    returns (r: Found)
    requires used <= buffer.Length && Program(alts, buffer[..used]) && 0 <= startpos <= |text|
    requires -1 <= startpos + searched <= |text|
    requires skip ==> fastmap != null && fastmap.Length == 256
    modifies buffer
    ensures Program(alts, buffer[..used])
    ensures fastmap != null ==> fastmap[..] == old(fastmap[..])
    ensures r == Search(Setting(AltBytes(alts), text, room, steps), if skip then Some(fastmap[..]) else Option.None, startpos, searched, 0)
  {
    hide *;
    GoneStart(startpos, searched);
    var at, range := startpos, searched;
    ghost var fast := if skip then Some(fastmap[..]) else Option.None;
    ghost var env := Setting(AltBytes(alts), text, room, steps);
    while true
      invariant used <= buffer.Length && Program(alts, buffer[..used]) && (fastmap != null ==> fastmap[..] == old(fastmap[..]))
      invariant Gone(startpos, searched, at, range) && Abs(at - startpos) <= Abs(searched)
      invariant skip && 0 < searched && range == 0 && at > 0 ==> at <= |text| && (at > startpos ==> fastmap[text[at - 1]])
      invariant Search(env, fast, startpos, searched, 0) == Search(env, fast, startpos, searched, Abs(at - startpos))
      decreases Abs(range)
    {
      GoneInside(|text|, startpos, searched, at, range);
      RangeIs(range);
      var go := true;
      if skip && at < |text| {
        if range > 0 {
          ghost var at0, range0 := at, range;
          at, range := Skip(fastmap, text, at, range, env, startpos, searched);
          GoneOn(startpos, searched, at0, at, range);
          assert Abs(range) <= Abs(range0);
        } else {
          var c: Byte := if at >= 0 then text[at] else before;
          go := fastmap[c];
        }
      }
      GoneInside(|text|, startpos, searched, at, range);
      SearchAt(env, fast, startpos, searched, at, range);
      SkippedAt(fast, text, startpos, searched, at, range);
      if go && range >= 0 && at == |text| && skip {
        return NotFound;
      }
      if go {
        var v := ReMatch(buffer, used, text, at, room, steps, alts);
        if v.Matched? {
          return Found(at);
        }
        if v != Mismatch {
          return Error;
        }
      } else {
        VerdictIs(AltBytes(alts), text, room, at, steps);
      }
      if range == 0 {
        return NotFound;
      } else if range > 0 {
        range, at := range - 1, at + 1;
      } else {
        range, at := range + 1, at - 1;
      }
    }
  }
}
