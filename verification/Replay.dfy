/** The durable consumed-jti cache (internal/sts/replay.go). */
module Replay {
  import opened Wrappers
  import opened Claims
  import opened AppendLog
  import opened Utf8

  datatype Entry = Entry(jti: string, until: int)

  // `log` is None for a cache built without a file.
  datatype Cache = Cache(seen: map<string, int>, log: Option<Disk<Entry>>)

  datatype Verdict = Consumed | Replayed | EmptyJti | WriteFailed

  // The bytes json.Marshal spends on a string between its quotes: quotes,
  // backslashes and five control characters take two, other control
  // characters, `<`, `>`, `&`, U+2028, U+2029 and each invalid byte take six.
  function JsonLength(s: string): nat
    decreases |s|
  {
    if s == "" then 0
    else
      var n := RuneLength(s);
      if n == 0 then 6 + JsonLength(s[1..])
      else (if n == 1 then AsciiLength(s[0]) else if IsLineSeparator(s[..n]) then 6 else n) + JsonLength(s[n..])
  }

  function AsciiLength(c: char): nat {
    if c == '"' || c == '\\' || c == '\n' || c == '\r' || c == '\t' || c == '\U{08}' || c == '\U{0C}' then 2
    else if c as int < 0x20 || c == '<' || c == '>' || c == '&' then 6
    else 1
  }

  predicate IsLineSeparator(s: string) {
    s == "\U{E2}\U{80}\U{A8}" || s == "\U{E2}\U{80}\U{A9}"
  }

  // Decimal digits, and a sign.
  function IntLength(i: int): nat
    decreases if i < 0 then 1 - i else i
  {
    if i < 0 then 1 + IntLength(-i) else if i < 10 then 1 else 1 + IntLength(i / 10)
  }

  function CountIn(s: string, chars: set<char>): nat {
    if s == "" then 0 else (if s[0] in chars then 1 else 0) + CountIn(s[1..], chars)
  }

  function CountControl(s: string): nat {
    if s == "" then 0 else (if s[0] < ' ' then 1 else 0) + CountControl(s[1..])
  }

  const SHORT_CONTROL := {'\n', '\r', '\t', '\U{08}', '\U{0C}'}

  // On ASCII: one byte more for each two-byte escape, five for each of six.
  lemma {:induction false} JsonLengthOfAscii(s: string)
    requires forall c | c in s :: c < '\U{80}'
    ensures JsonLength(s) == |s| + CountIn(s, {'"', '\\'}) + 5 * CountIn(s, {'<', '>', '&'})
                             + 5 * CountControl(s) - 4 * CountIn(s, SHORT_CONTROL)
  {
    if s != "" {
      hide AsciiLength;
      assert s[0] in s && forall c | c in s[1..] :: c in s;
      assert s == [s[0]] + s[1..];
      JsonLengthAscii(s[0], s[1..]);
      AsciiLengthMeans(s[0]);
      JsonLengthOfAscii(s[1..]);
    }
  }

  lemma AsciiLengthMeans(c: char)
    ensures AsciiLength(c) == 1 + (if c in {'"', '\\'} then 1 else 0) + (if c in {'<', '>', '&'} then 5 else 0)
                              + (if c < ' ' then 5 else 0) - (if c in SHORT_CONTROL then 4 else 0)
  {
  }

  function Power10(n: nat): nat {
    if n == 0 then 1 else 10 * Power10(n - 1)
  }

  // The digits of i: the least number of them that can hold it.
  lemma {:induction false} IntLengthMeans(i: int)
    requires i >= 0
    ensures 1 <= IntLength(i) && i < Power10(IntLength(i)) && (i >= 10 ==> Power10(IntLength(i) - 1) <= i)
    ensures IntLength(-i) == if i == 0 then 1 else IntLength(i) + 1
  {
    if i >= 10 {
      IntLengthMeans(i / 10);
    }
  }

  // {"jti":"...","until":...}
  function LineLength(e: Entry): nat {
    |"{\"jti\":\"\",\"until\":}"| + JsonLength(e.jti) + IntLength(e.until)
  }

  // One Write and Sync of an encoded entry. Nothing bounds its length.
  function Record(d: Disk<Entry>, e: Entry, io: IO): Disk<Entry> {
    Append(d, e, LineLength(e), io)
  }

  // Forget what has expired at second `now`.
  function Purge(seen: map<string, int>, now: int): map<string, int> {
    map k | k in seen && seen[k] >= now :: seen[k]
  }

  predicate Known(seen: map<string, int>, keys: seq<string>, now: int) {
    exists i | 0 <= i < |keys| :: keys[i] != "" && keys[i] in seen && seen[keys[i]] >= now
  }

  function ConsumeVerdict(c: Cache, jti: string, exp: int, aliases: seq<string>, now: int, io: IO): Verdict {
    if jti == "" then EmptyJti
    else if Known(Purge(c.seen, now), [jti] + aliases, now) then Replayed
    else if ReplayUntil(exp) < now then Replayed
    else if c.log.Some? && !io.Synced? then WriteFailed
    else Consumed
  }

  function ConsumeNext(c: Cache, jti: string, exp: int, aliases: seq<string>, now: int, io: IO): (c': Cache)
    ensures c'.log.Some? <==> c.log.Some?
  {
    var kept := Purge(c.seen, now);
    var until := ReplayUntil(exp);
    match ConsumeVerdict(c, jti, exp, aliases, now, io)
    case EmptyJti => c
    case Replayed => c.(seen := kept)
    case WriteFailed => Cache(kept, Some(Record(c.log.value, Entry(jti, until), io)))
    case Consumed => Cache(kept[jti := until],
                           if c.log.None? then None else Some(Record(c.log.value, Entry(jti, until), io)))
  }

  // One of the keys, the jti or an alias, is in the map with a deadline not
  // passed.
  ghost predicate HeldAny(seen: map<string, int>, keys: seq<string>, now: int) {
    exists k :: k in keys && k != "" && k in seen && now <= seen[k]
  }

  // Which verdict is given, for every cache, key, alias and write outcome.
  lemma VerdictMeans(c: Cache, jti: string, exp: int, aliases: seq<string>, now: int, io: IO)
    ensures var v := ConsumeVerdict(c, jti, exp, aliases, now, io);
      var spent := HeldAny(c.seen, [jti] + aliases, now) || (if exp > 0 then exp + 30 else 0) < now;
      && (v == EmptyJti <==> jti == "")
      && (v == Replayed <==> jti != "" && spent)
      && (v == WriteFailed <==> jti != "" && !spent && c.log.Some? && io != Synced)
      && (v == Consumed <==> jti != "" && !spent && (c.log.Some? ==> io == Synced))
  {
    var keys := [jti] + aliases;
    if Known(Purge(c.seen, now), keys, now) {
      var i :| 0 <= i < |keys| && keys[i] != "" && keys[i] in Purge(c.seen, now);
      assert keys[i] in keys;
    }
    if HeldAny(c.seen, keys, now) {
      var k :| k in keys && k != "" && k in c.seen && now <= c.seen[k];
      var i :| 0 <= i < |keys| && keys[i] == k;
      assert keys[i] in Purge(c.seen, now);
    }
  }

  // What a consume leaves: of the map the entries not passed, and the new one
  // on success; of the log everything, and one more line if one was tried.
  lemma ConsumeLeaves(c: Cache, jti: string, exp: int, aliases: seq<string>, now: int, io: IO)
    requires jti != ""
    ensures var v, c' := ConsumeVerdict(c, jti, exp, aliases, now, io), ConsumeNext(c, jti, exp, aliases, now, io);
      var until := if exp > 0 then exp + 30 else 0;
      && (forall k :: k in c'.seen <==> (k in c.seen && now <= c.seen[k]) || (v == Consumed && k == jti))
      && (forall k | k in c'.seen :: c'.seen[k] == if v == Consumed && k == jti then until else c.seen[k])
      && (c.log.Some? ==>
            && c'.log.Some? && c.log.value.pieces <= c'.log.value.pieces
            && Records(c'.log.value.pieces) == Records(c.log.value.pieces)
                 + if v == Replayed || io in {NothingWritten, Torn} then [] else [Entry(jti, until)])
  {
    if c.log.Some? {
      RecordsOfAppend(c.log.value, Entry(jti, ReplayUntil(exp)), LineLength(Entry(jti, ReplayUntil(exp))), io);
    }
  }

  // The map rebuilt from the log: the last live record of each jti.
  function Latest(entries: seq<Entry>, now: int): map<string, int> {
    if entries == [] then map[]
    else
      var before := Latest(entries[..|entries| - 1], now);
      var e := entries[|entries| - 1];
      if e.until < now then before else before[e.jti := e.until]
  }

  lemma LatestSnoc(entries: seq<Entry>, e: Entry, now: int)
    ensures Latest(entries + [e], now)
         == if e.until < now then Latest(entries, now) else Latest(entries, now)[e.jti := e.until]
  {
    assert (entries + [e])[..|entries|] == entries;
  }

  // Entry i is the last live record of its jti.
  ghost predicate LastLive(entries: seq<Entry>, i: int, now: int) {
    && 0 <= i < |entries| && now <= entries[i].until
    && forall j | i < j < |entries| && entries[j].jti == entries[i].jti :: entries[j].until < now
  }

  // What reopening covers: exactly the jtis with a live record, each as its
  // last live record says.
  lemma {:induction false} LatestMeans(entries: seq<Entry>, now: int, jti: string, until: int)
    ensures jti in Latest(entries, now) && Latest(entries, now)[jti] == until
       <==> exists i :: LastLive(entries, i, now) && entries[i] == Entry(jti, until)
  {
    if entries != [] {
      var init, e := entries[..|entries| - 1], entries[|entries| - 1];
      LatestMeans(init, now, jti, until);
      LastLiveSnoc(init, e, now);
      assert entries == init + [e];
      if e.until >= now && e.jti == jti {
        assert LastLive(entries, |init|, now);
      }
    }
  }

  lemma LastLiveSnoc(init: seq<Entry>, e: Entry, now: int)
    ensures forall i | 0 <= i < |init| ::
      LastLive(init + [e], i, now) <==> LastLive(init, i, now) && (e.jti == init[i].jti ==> e.until < now)
    ensures LastLive(init + [e], |init|, now) <==> now <= e.until
  {
    var all := init + [e];
    assert forall j | 0 <= j < |init| :: all[j] == init[j];
    forall i | 0 <= i < |init|
      ensures LastLive(all, i, now) <==> LastLive(init, i, now) && (e.jti == init[i].jti ==> e.until < now)
    {
      if LastLive(all, i, now) {
        assert all[|init|] == e;
        forall j | i < j < |init| && init[j].jti == init[i].jti ensures init[j].until < now {
          assert all[j].jti == all[i].jti;
        }
      }
    }
  }

  lemma NothingRead(pieces: seq<Piece<Entry>>, now: int)
    ensures Records(pieces[..0]) == [] && Latest([], now) == map[]
  {
  }

  predicate Decodes(e: Entry) {
    e.jti != "" && e.until > 0
  }

  ghost predicate Recoverable(pieces: seq<Piece<Entry>>) {
    Readable(pieces) && forall e | e in Records(pieces) :: Decodes(e)
  }

  // None: opening the log fails.
  ghost function Recovered(pieces: seq<Piece<Entry>>, now: int): Option<map<string, int>> {
    if Recoverable(pieces) then Some(Latest(Records(pieces), now)) else None
  }

  class ReplayCache {
    var seen: map<string, int>
    var log: Option<Disk<Entry>>

    ghost function State(): Cache
      reads this
    {
      Cache(seen, log)
    }

    constructor ()
      ensures State() == Cache(map[], None)
    {
      seen, log := map[], None;
    }

    // OpenReplayCache on a file holding `disk`; `ok` is false when it fails.
    constructor Open(disk: Disk<Entry>)
      ensures State() == Cache(map[], Some(disk))
    {
      seen, log := map[], Some(disk);
    }

    method Recover(now: int) returns (ok: bool)
      requires log.Some? && seen == map[]
      modifies this
      ensures log == old(log)
      ensures ok <==> Recovered(log.value.pieces, now).Some?
      ensures ok ==> Some(seen) == Recovered(log.value.pieces, now)
    {
      hide Records, Latest, Decodes;
      var pieces := log.value.pieces;
      var i := 0;
      NothingRead(pieces, now);
      while i < |pieces|
        invariant 0 <= i <= |pieces| && log == old(log)
        invariant forall k | 0 <= k < i :: LineOk(pieces, k)
        invariant forall e | e in Records(pieces[..i]) :: Decodes(e)
        invariant seen == Latest(Records(pieces[..i]), now)
      {
        match pieces[i] {
          case Newline =>
            assert pieces[..i + 1] == pieces[..i] + [pieces[i]];
            RecordsConcat(pieces[..i], [pieces[i]]);
            RecordsOfOne(pieces[i]);
            assert Records(pieces[..i + 1]) == Records(pieces[..i]);
          case Fragment =>
            assert !LineOk(pieces, i);
            return false;
          case Body(e, length) =>
            RecordAt(pieces, i);
            LatestSnoc(Records(pieces[..i]), e, now);
            if length + 1 > MAX_LINE_BYTES || (i + 1 < |pieces| && !pieces[i + 1].Newline?) {
              assert !LineOk(pieces, i);
              return false;
            }
            if !Decodes(e) {
              return false;
            }
            if e.until >= now {
              seen := seen[e.jti := e.until];
            }
        }
        i := i + 1;
      }
      assert pieces[..i] == pieces;
      return true;
    }

    method PurgeLocked(now: int)
      modifies this
      ensures State() == Cache(Purge(old(seen), now), old(log))
    {
      var keys := seen.Keys;
      while keys != {}
        invariant log == old(log)
        invariant keys <= old(seen).Keys
        invariant seen == map k | k in old(seen) && (k in keys || old(seen)[k] >= now) :: old(seen)[k]
      {
        var k :| k in keys;
        if seen[k] < now {
          seen := seen - {k};
        }
        keys := keys - {k};
      }
    }

    method Consume(jti: string, exp: int, aliases: seq<string>, now: int, io: IO) returns (v: Verdict)
      modifies this
      ensures v == ConsumeVerdict(old(State()), jti, exp, aliases, now, io)
      ensures State() == ConsumeNext(old(State()), jti, exp, aliases, now, io)
    {
      if jti == "" {
        return EmptyJti;
      }
      var until := ReplayUntil(exp);
      PurgeLocked(now);
      var keys := [jti] + aliases;
      for i := 0 to |keys|
        invariant State() == Cache(Purge(old(seen), now), old(log))
        invariant !Known(seen, keys[..i], now)
      {
        var k := keys[i];
        assert forall n | 0 <= n < i :: keys[..i][n] == keys[n];
        if k != "" && k in seen && seen[k] >= now {
          return Replayed;
        }
      }
      assert keys[..|keys|] == keys;
      if until < now {
        return Replayed;
      }
      if log.Some? {
        log := Some(Record(log.value, Entry(jti, until), io));
        if !io.Synced? {
          return WriteFailed;
        }
      }
      seen := seen[jti := until];
      return Consumed;
    }
  }

  /******* One jti over a whole run *******/

  // The last record of jti in the log.
  function LastFor(entries: seq<Entry>, jti: string): Option<int> {
    if entries == [] then None
    else if entries[|entries| - 1].jti == jti then Some(entries[|entries| - 1].until)
    else LastFor(entries[..|entries| - 1], jti)
  }

  // jti is recorded through `until`, on stable storage, and nothing later in
  // the log speaks of it: no crash can lose or shadow the record.
  ghost predicate Logged(d: Disk<Entry>, jti: string, until: int) {
    && ValidDisk(d)
    && LastFor(Records(d.pieces[..d.synced]), jti) == Some(until)
    && LastFor(Records(d.pieces[d.synced..]), jti) == None
  }

  ghost predicate Remembers(seen: map<string, int>, jti: string, until: int) {
    jti in seen && seen[jti] == until
  }

  lemma {:induction false} LastForConcat(a: seq<Entry>, b: seq<Entry>, jti: string)
    ensures LastFor(a + b, jti) == if LastFor(b, jti).Some? then LastFor(b, jti) else LastFor(a, jti)
  {
    if b == [] {
      assert a + b == a;
    } else {
      var b' := b[..|b| - 1];
      LastForConcat(a, b', jti);
      assert (a + b)[..|a + b| - 1] == a + b';
    }
  }

  lemma LoggedIsLast(d: Disk<Entry>, jti: string, until: int)
    requires Logged(d, jti, until)
    ensures LastFor(Records(d.pieces), jti) == Some(until)
  {
    hide Records, LastFor;
    RecordsSplit(d.pieces, d.synced);
    LastForConcat(Records(d.pieces[..d.synced]), Records(d.pieces[d.synced..]), jti);
  }

  lemma {:induction false} LatestOfLast(entries: seq<Entry>, jti: string, until: int, now: int)
    requires LastFor(entries, jti) == Some(until) && until >= now
    ensures Remembers(Latest(entries, now), jti, until)
  {
    var e := entries[|entries| - 1];
    if e.jti != jti {
      LatestOfLast(entries[..|entries| - 1], jti, until, now);
    }
  }

  lemma AppendLogs(d: Disk<Entry>, jti: string, until: int)
    requires ValidDisk(d)
    ensures Logged(Record(d, Entry(jti, until), Synced), jti, until)
  {
    var e := Entry(jti, until);
    var d' := Record(d, e, Synced);
    RecordsOfAppend(d, e, LineLength(e), Synced);
    assert d'.pieces[..d'.synced] == d'.pieces;
    assert d'.pieces[d'.synced..] == [];
  }

  // One more record about another jti changes nothing about this one.
  lemma LastForWritten(entries: seq<Entry>, e: Entry, io: IO, jti: string)
    requires e.jti != jti
    ensures LastFor(entries + Records(Written(e, LineLength(e), io)), jti) == LastFor(entries, jti)
  {
    hide Records, LastFor, LineLength;
    RecordsWritten(e, LineLength(e), io);
    LastForConcat(entries, Records(Written(e, LineLength(e), io)), jti);
    LastForOne(e, jti);
  }

  lemma LastForOne(e: Entry, jti: string)
    ensures LastFor([], jti) == None
    ensures LastFor([e], jti) == if e.jti == jti then Some(e.until) else None
  {
    assert [e][..0] == [];
  }

  lemma AppendKeepsLogged(d: Disk<Entry>, jti: string, until: int, e: Entry, io: IO)
    requires Logged(d, jti, until) && e.jti != jti
    ensures Logged(Record(d, e, io), jti, until)
  {
    hide Records, LastFor, LineLength;
    var d', written := Record(d, e, io), Written(e, LineLength(e), io);
    var head, tail := d.pieces[..d.synced], d.pieces[d.synced..];
    RecordsConcat(tail, written);
    LastForWritten(Records(tail), e, io, jti);
    if io.Synced? {
      RecordsConcat(head, tail + written);
      assert d'.pieces == head + (tail + written);
      LastForConcat(Records(head), Records(tail + written), jti);
      assert d'.pieces[..d'.synced] == d'.pieces && d'.pieces[d'.synced..] == [];
      NothingRead(d.pieces, 0);
      assert d.pieces[..0] == [];
      LastForOne(e, jti);
    } else {
      assert d'.pieces[..d.synced] == head && d'.pieces[d.synced..] == tail + written;
    }
  }

  // Neither a kill nor a power failure loses or shadows the record.
  lemma LossKeepsLogged(d: Disk<Entry>, jti: string, until: int, loss: Loss)
    requires Logged(d, jti, until) && CanLose(d, loss)
    ensures Logged(After(d, loss), jti, until)
  {
    if loss.PowerLost? {
      CrashKeepsLogged(d, jti, until, loss.keep, loss.torn);
    }
  }

  lemma CrashKeepsLogged(d: Disk<Entry>, jti: string, until: int, keep: nat, torn: bool)
    requires Logged(d, jti, until) && CanSurvive(d, keep)
    ensures Logged(Crash(d, keep, torn), jti, until)
  {
    hide Records, LastFor;
    var d' := Crash(d, keep, torn);
    RecordsOfCrash(d, keep, torn);
    NothingRead(d.pieces, 0);
    LastForOne(Entry(jti, until), jti);
    assert d.pieces[..0] == [];
    var tail := d.pieces[d.synced..];
    assert tail[..keep - d.synced] == d.pieces[d.synced..keep];
    RecordsSplit(tail, keep - d.synced);
    LastForConcat(Records(d.pieces[d.synced..keep]), Records(tail[keep - d.synced..]), jti);
    LastForConcat(Records(d.pieces[..d.synced]), Records(d.pieces[d.synced..keep]), jti);
    assert d'.pieces[..d'.synced] == d'.pieces && d'.pieces[d'.synced..] == [];
  }

  // A consumed jti: a success records it, and while the clock readings stay
  // at or below its deadline every later call keeps it and refuses it.
  ghost predicate Holds(c: Cache, jti: string, until: int) {
    Remembers(c.seen, jti, until) && (c.log.Some? ==> Logged(c.log.value, jti, until))
  }

  lemma ConsumeRecords(c: Cache, jti: string, exp: int, aliases: seq<string>, now: int, io: IO)
    requires c.log.Some? ==> ValidDisk(c.log.value)
    requires ConsumeVerdict(c, jti, exp, aliases, now, io) == Consumed
    ensures Holds(ConsumeNext(c, jti, exp, aliases, now, io), jti, ReplayUntil(exp))
    ensures ReplayUntil(exp) >= now
  {
    if c.log.Some? {
      AppendLogs(c.log.value, jti, ReplayUntil(exp));
    }
  }

  lemma ConsumeKeeps(c: Cache, held: string, until: int,
                     jti: string, exp: int, aliases: seq<string>, now: int, io: IO)
    requires Holds(c, held, until) && now <= until
    ensures Holds(ConsumeNext(c, jti, exp, aliases, now, io), held, until)
    ensures jti == held ==> !ConsumeVerdict(c, jti, exp, aliases, now, io).Consumed?
  {
    assert jti == held && jti != "" ==> Known(Purge(c.seen, now), [jti] + aliases, now) by {
      assert ([jti] + aliases)[0] == jti;
    }
    var v := ConsumeVerdict(c, jti, exp, aliases, now, io);
    if c.log.Some? && (v.WriteFailed? || v.Consumed?) {
      AppendKeepsLogged(c.log.value, held, until, Entry(jti, ReplayUntil(exp)), io);
    }
  }

  /******* What an acknowledged entry does to the next start *******/

  // After an acknowledged consume the log opens again exactly when it had
  // ended in a newline, the entry's line fits the scanner, and its deadline is
  // past 1970: neither bound is checked before the write.
  lemma ReopenAfterConsumeIff(c: Cache, jti: string, exp: int, aliases: seq<string>, now: int, later: int)
    requires c.log.Some? && Recovered(c.log.value.pieces, now).Some?
    requires ConsumeVerdict(c, jti, exp, aliases, now, Synced) == Consumed
    ensures var e := Entry(jti, ReplayUntil(exp));
      Recovered(ConsumeNext(c, jti, exp, aliases, now, Synced).log.value.pieces, later).Some?
      <==> Terminated(c.log.value.pieces) && LineLength(e) < MAX_LINE_BYTES && exp > 0
  {
    hide Readable, Records, LineLength;
    var pieces, e := c.log.value.pieces, Entry(jti, ReplayUntil(exp));
    RecordsOfAppend(c.log.value, e, LineLength(e), Synced);
    ReadableAfterWriteIff(pieces, e, LineLength(e));
    assert Decodes(e) <==> exp > 0;
    assert e in Records(pieces) + [e];
    assert forall r | r in Records(pieces) + [e] :: r in Records(pieces) || r == e;
  }

  function Repeat(c: char, n: nat): string {
    if n == 0 then "" else [c] + Repeat(c, n - 1)
  }

  lemma JsonLengthAscii(c: char, s: string)
    requires In(c, 0, 0x7F)
    ensures JsonLength([c] + s) == AsciiLength(c) + JsonLength(s)
  {
    assert RuneLength([c] + s) == 1 && ([c] + s)[1..] == s;
  }

  lemma {:induction false} EscapedRepeat(n: nat)
    ensures |Repeat('<', n)| == n && JsonLength(Repeat('<', n)) == 6 * n
  {
    if n > 0 {
      EscapedRepeat(n - 1);
      JsonLengthAscii('<', Repeat('<', n - 1));
    }
  }
}
