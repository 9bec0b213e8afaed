/** The hash-chained audit log (internal/audit/logger.go). */
module Audit {
  import opened Wrappers
  import opened Utf8
  import opened AppendLog

  // Formatted is what Append writes from its clock (RFC 3339, so ASCII and
  // short); RawText is any other timestamp text.
  datatype Timestamp = Formatted(nanos: int) | RawText(text: string)

  // SHA-256 as a free constructor: injective, and never equal to a text that
  // is not a hash of a payload. The payload is the event with its hash cleared.
  datatype Digest = Sha256(payload: Event) | Text(text: string)

  datatype Event = Event(
    timestamp: Timestamp, eventType: string, reasonCode: string,
    txn: string, jti: string, agentId: string, workload: string, principal: string,
    audience: string, scope: string, depth: int, hops: seq<string>,
    hash: Digest, prevHash: Digest, chainIndex: nat)

  const GENESIS := Text("sha256:" + "e3b0c44298fc1c14" + "9afbf4c8996fb924" + "27ae41e490166ae4" + "ba7b5b37bcd8deac")
  const MAX_EVENT_HOPS: nat := 32

  /******* Canonical form *******/

  function BoundTimestamp(t: Timestamp): Timestamp {
    if t.Formatted? then t else RawText(BoundEventString(t.text))
  }

  function BoundDigest(d: Digest): Digest {
    if d.Sha256? then d else Text(BoundEventString(d.text))
  }

  function BoundHops(hops: seq<string>): (r: seq<string>)
    ensures |r| == |hops|
    ensures forall i | 0 <= i < |r| :: r[i] == BoundEventString(hops[i])
  {
    if hops == [] then [] else [BoundEventString(hops[0])] + BoundHops(hops[1..])
  }

  function Canonical(e: Event): Event {
    Event(BoundTimestamp(e.timestamp), BoundEventString(e.eventType), BoundEventString(e.reasonCode),
          BoundEventString(e.txn), BoundEventString(e.jti), BoundEventString(e.agentId),
          BoundEventString(e.workload), BoundEventString(e.principal),
          BoundEventString(e.audience), BoundEventString(e.scope), e.depth,
          BoundHops(if |e.hops| > MAX_EVENT_HOPS then e.hops[..MAX_EVENT_HOPS] else e.hops),
          BoundDigest(e.hash), BoundDigest(e.prevHash), e.chainIndex)
  }

  // The loop over Hops inside canonicalizeEvent.
  method CanonicalHops(hops: seq<string>) returns (out: seq<string>)
    ensures out == BoundHops(if |hops| > MAX_EVENT_HOPS then hops[..MAX_EVENT_HOPS] else hops)
  {
    var kept := if |hops| > MAX_EVENT_HOPS then hops[..MAX_EVENT_HOPS] else hops;
    out := [];
    for i := 0 to |kept|
      invariant |out| == i && forall k | 0 <= k < i :: out[k] == BoundEventString(kept[k])
    {
      var h := BoundEventStringOf(kept[i]);
      out := out + [h];
    }
  }

  lemma BoundHopsIdempotent(hops: seq<string>)
    ensures BoundHops(BoundHops(hops)) == BoundHops(hops)
  {
    forall i | 0 <= i < |hops| ensures BoundEventString(BoundEventString(hops[i])) == BoundEventString(hops[i]) {
      BoundIdempotent(hops[i]);
    }
  }

  lemma CanonicalIdempotent(e: Event)
    ensures Canonical(Canonical(e)) == Canonical(e)
  {
    hide BoundEventString;
    if e.timestamp.RawText? { BoundIdempotent(e.timestamp.text); }
    BoundIdempotent(e.eventType);
    BoundIdempotent(e.reasonCode);
    BoundIdempotent(e.txn);
    BoundIdempotent(e.jti);
    BoundIdempotent(e.agentId);
    BoundIdempotent(e.workload);
    BoundIdempotent(e.principal);
    BoundIdempotent(e.audience);
    BoundIdempotent(e.scope);
    BoundHopsIdempotent(if |e.hops| > MAX_EVENT_HOPS then e.hops[..MAX_EVENT_HOPS] else e.hops);
    if e.hash.Text? { BoundIdempotent(e.hash.text); }
    if e.prevHash.Text? { BoundIdempotent(e.prevHash.text); }
  }

  // eventCanonEqual: depth and chain_index are not strings and not compared.
  predicate CanonEqual(a: Event, b: Event) {
    a.(depth := b.depth, chainIndex := b.chainIndex) == b
  }

  function PayloadHash(e: Event): Digest {
    Sha256(Canonical(e).(hash := Text("")))
  }

  /******* Verification *******/

  predicate Complete(e: Event) {
    e.eventType != "" && e.reasonCode != "" && e.hash != Text("") && e.prevHash != Text("") && e.chainIndex != 0
  }

  predicate VerifyEvent(e: Event, prev: Digest, wantIndex: nat) {
    && e.prevHash == prev
    && e.chainIndex == wantIndex
    && CanonEqual(e, Canonical(e))
    && e.hash == PayloadHash(e)
  }

  function Tip(es: seq<Event>): Digest {
    if es == [] then GENESIS else es[|es| - 1].hash
  }

  // Every record decodes and verifies against the one before it.
  ghost predicate Accepted(es: seq<Event>) {
    forall i | 0 <= i < |es| :: Complete(es[i]) && VerifyEvent(es[i], Tip(es[..i]), i + 1)
  }

  // With the same tip two accepted logs are the same log: no record before
  // the tip can be edited, dropped, inserted or moved.
  lemma {:induction false} ChainUnique(a: seq<Event>, b: seq<Event>)
    requires Accepted(a) && Accepted(b) && Tip(a) == Tip(b)
    ensures a == b
  {
    hide Accepted, VerifyEvent, Complete;
    if a != [] { LastVerified(a); }
    if b != [] { LastVerified(b); }
    if a != [] && b != [] {
      var x, y := a[|a| - 1], b[|b| - 1];
      var a', b' := a[..|a| - 1], b[..|b| - 1];
      SameHashSameEvent(x, Tip(a'), |a|, y, Tip(b'), |b|);
      ChainUnique(a', b');
      assert a == a' + [x] && b == b' + [y];
    }
  }

  lemma LastVerified(es: seq<Event>)
    requires Accepted(es) && es != []
    ensures Tip(es).Sha256? && Accepted(es[..|es| - 1])
    ensures VerifyEvent(es[|es| - 1], Tip(es[..|es| - 1]), |es|)
  {
    AcceptedPrefix(es, |es| - 1);
  }

  lemma SameHashSameEvent(x: Event, p: Digest, i: nat, y: Event, q: Digest, j: nat)
    requires VerifyEvent(x, p, i) && VerifyEvent(y, q, j) && x.hash == y.hash
    ensures x == y && p == q
  {
    hide Canonical;
    SameCanonical(x, y);
  }

  lemma SameCanonical(x: Event, y: Event)
    requires CanonEqual(x, Canonical(x)) && CanonEqual(y, Canonical(y)) && x.hash == y.hash
    requires Canonical(x).(hash := Text("")) == Canonical(y).(hash := Text(""))
    ensures x == y
  {
    hide BoundEventString;
    var x', y' := Canonical(x), Canonical(y);
    assert x.depth == x'.depth && y.depth == y'.depth && x.chainIndex == x'.chainIndex && y.chainIndex == y'.chainIndex;
    assert x == x' && y == y';
    assert x == x'.(hash := Text("")).(hash := x.hash);
    assert y == y'.(hash := Text("")).(hash := y.hash);
  }

  // A text canonicalization leaves alone.
  ghost predicate Storable(s: string) {
    Valid(s) && |s| <= 4096
  }

  ghost predicate StorableTexts(e: Event) {
    && (e.timestamp.RawText? ==> Storable(e.timestamp.text))
    && Storable(e.eventType) && Storable(e.reasonCode) && Storable(e.txn) && Storable(e.jti) && Storable(e.agentId)
    && Storable(e.workload) && Storable(e.principal) && Storable(e.audience) && Storable(e.scope)
    && |e.hops| <= 32 && forall h | h in e.hops :: Storable(h)
  }

  ghost predicate StorableDigest(d: Digest) {
    d.Text? ==> Storable(d.text)
  }

  // The next record a log accepts, field by field: complete, in place, linked
  // to the record before it, canonical, and hashed as it stands.
  ghost predicate Follows(es: seq<Event>, e: Event) {
    && e.eventType != "" && e.reasonCode != "" && e.chainIndex == |es| + 1
    && e.prevHash == (if es == [] then GENESIS else es[|es| - 1].hash) && e.prevHash != Text("")
    && StorableTexts(e) && StorableDigest(e.prevHash) && e.hash == Sha256(e.(hash := Text("")))
  }

  lemma StorableIff(s: string)
    ensures BoundEventString(s) == s <==> Storable(s)
  {
    BoundMeaning(s);
  }

  lemma CanonicalIff(e: Event)
    ensures CanonEqual(e, Canonical(e)) <==>
      StorableTexts(e) && StorableDigest(e.prevHash) && StorableDigest(e.hash)
    ensures CanonEqual(e, Canonical(e)) ==> Canonical(e) == e
  {
    hide BoundEventString, Storable, BoundHops;
    forall s ensures BoundEventString(s) == s <==> Storable(s) {
      StorableIff(s);
    }
    HopsIff(e.hops);
  }

  lemma HopsIff(hops: seq<string>)
    ensures BoundHops(if |hops| > MAX_EVENT_HOPS then hops[..MAX_EVENT_HOPS] else hops) == hops
       <==> |hops| <= MAX_EVENT_HOPS && forall h | h in hops :: Storable(h)
  {
    hide BoundEventString, Storable;
    var kept := if |hops| > MAX_EVENT_HOPS then hops[..MAX_EVENT_HOPS] else hops;
    forall s ensures BoundEventString(s) == s <==> Storable(s) {
      StorableIff(s);
    }
    if |hops| <= MAX_EVENT_HOPS {
      assert BoundHops(kept) == hops <==> forall i | 0 <= i < |hops| :: BoundEventString(hops[i]) == hops[i];
    }
  }

  // A log with one more record is accepted exactly when it was and the record
  // follows.
  lemma AcceptedIff(es: seq<Event>, e: Event)
    ensures Accepted(es + [e]) <==> Accepted(es) && Follows(es, e)
  {
    hide Accepted, Canonical, CanonEqual;
    assert (es + [e])[..|es|] == es;
    if Accepted(es + [e]) {
      AcceptedPrefix(es + [e], |es|);
    }
    if Accepted(es) {
      AcceptedSnoc(es, e);
      CanonicalIff(e);
    }
  }

  lemma AcceptedPrefix(es: seq<Event>, n: nat)
    requires Accepted(es) && n <= |es|
    ensures Accepted(es[..n])
  {
    hide Complete, VerifyEvent;
    forall i | 0 <= i < n ensures Complete(es[..n][i]) && VerifyEvent(es[..n][i], Tip(es[..n][..i]), i + 1) {
      assert es[..n][..i] == es[..i];
      assert Complete(es[i]) && VerifyEvent(es[i], Tip(es[..i]), i + 1);
    }
  }

  lemma AcceptedSnoc(es: seq<Event>, e: Event)
    requires Accepted(es)
    ensures |es + [e]| == |es| + 1
    ensures Accepted(es + [e]) <==> Complete(e) && VerifyEvent(e, Tip(es), |es| + 1)
    ensures Tip(es + [e]) == e.hash
  {
    hide Complete, VerifyEvent;
    var all := es + [e];
    assert all[..|es|] == es && all[|es|] == e;
    forall i | 0 <= i < |es| ensures Complete(all[i]) && VerifyEvent(all[i], Tip(all[..i]), i + 1) {
      assert all[..i] == es[..i];
      assert Complete(es[i]) && VerifyEvent(es[i], Tip(es[..i]), i + 1);
    }
  }

  /******* The logger *******/

  datatype Log = Log(disk: Option<Disk<Event>>, prevHash: Digest, chainIndex: nat, poisoned: bool)

  datatype Status = Appended | Unhealthy | TooLarge | Failed

  // The record Append writes.
  function Chained(l: Log, e: Event, now: int): Event {
    var c := Canonical(e);
    var stamped := c.(timestamp := if c.timestamp == RawText("") then Formatted(now) else c.timestamp,
                      prevHash := l.prevHash, chainIndex := l.chainIndex + 1);
    stamped.(hash := PayloadHash(stamped))
  }

  // lineLength is the length of the encoded record without its newline.
  function AppendStatus(l: Log, lineLength: nat, io: IO): Status {
    if l.poisoned || l.disk.None? then Unhealthy
    else if lineLength + 1 > MAX_LINE_BYTES then TooLarge
    else if io.Synced? then Appended
    else Failed
  }

  function AppendNext(l: Log, e: Event, now: int, lineLength: nat, io: IO): Log {
    match AppendStatus(l, lineLength, io)
    case Unhealthy => l
    case TooLarge => l
    case Failed => l.(disk := Some(Append(l.disk.value, Chained(l, e, now), lineLength, io)), poisoned := true)
    case Appended =>
      var r := Chained(l, e, now);
      Log(Some(Append(l.disk.value, r, lineLength, io)), r.hash, r.chainIndex, false)
  }

  // None: NewLogger fails.
  ghost function Opened(disk: Disk<Event>): Option<Log> {
    var es := Records(disk.pieces);
    if Readable(disk.pieces) && Accepted(es) then Some(Log(Some(disk), Tip(es), |es|, false)) else None
  }

  // r carries the event, field by field, each text cut to its bound.
  ghost predicate Carries(r: Event, e: Event) {
    && r.eventType == BoundEventString(e.eventType) && r.reasonCode == BoundEventString(e.reasonCode)
    && r.txn == BoundEventString(e.txn) && r.jti == BoundEventString(e.jti)
    && r.agentId == BoundEventString(e.agentId) && r.workload == BoundEventString(e.workload)
    && r.principal == BoundEventString(e.principal) && r.audience == BoundEventString(e.audience)
    && r.scope == BoundEventString(e.scope) && r.depth == e.depth
    && |r.hops| == (if |e.hops| < 32 then |e.hops| else 32)
    && forall i | 0 <= i < |r.hops| :: r.hops[i] == BoundEventString(e.hops[i])
  }

  // What an append writes: the event, stamped, linked and numbered.
  lemma AppendedRecord(l: Log, e: Event, now: int, lineLength: nat)
    requires AppendStatus(l, lineLength, Synced).Appended?
    ensures l.disk.Some? && !l.poisoned && lineLength < MAX_LINE_BYTES
    ensures var l' := AppendNext(l, e, now, lineLength, Synced);
      && l'.disk.Some? && l'.chainIndex == l.chainIndex + 1 && !l'.poisoned
      && exists r ::
           && Records(l'.disk.value.pieces) == Records(l.disk.value.pieces) + [r] && Carries(r, e)
           && r.hash == l'.prevHash
           && r.timestamp == (if e.timestamp == RawText("") then Formatted(now)
                              else if e.timestamp.RawText? then RawText(BoundEventString(e.timestamp.text))
                              else e.timestamp)
           && r.prevHash == l.prevHash && r.chainIndex == l.chainIndex + 1
  {
    hide BoundEventString, PayloadHash;
    RecordsOfAppend(l.disk.value, Chained(l, e, now), lineLength, Synced);
    if e.timestamp.RawText? {
      EmptyBound(e.timestamp.text);
    }
  }

  lemma EmptyBound(s: string)
    ensures BoundEventString(s) == "" <==> s == ""
  {
    BoundMeaning(s);
  }

  // What each way an append can end leaves behind.
  lemma AppendDecides(l: Log, e: Event, now: int, lineLength: nat, io: IO)
    ensures var status, l' := AppendStatus(l, lineLength, io), AppendNext(l, e, now, lineLength, io);
      && (status == Unhealthy <==> l.poisoned || l.disk.None?)
      && (status == TooLarge <==> !l.poisoned && l.disk.Some? && lineLength >= 1024 * 1024)
      && (status == Appended <==> !l.poisoned && l.disk.Some? && lineLength < 1024 * 1024 && io == Synced)
      && (status == Unhealthy || status == TooLarge ==> l' == l)
      && (status == Failed ==>
            l'.poisoned && l'.prevHash == l.prevHash && l'.chainIndex == l.chainIndex && l'.disk.Some?)
  {
  }

  class Logger {
    var disk: Option<Disk<Event>>
    var prevHash: Digest
    var chainIndex: nat
    var poisoned: bool

    ghost function State(): Log
      reads this
    {
      Log(disk, prevHash, chainIndex, poisoned)
    }

    constructor (disk: Disk<Event>)
      ensures State() == Log(Some(disk), GENESIS, 0, false)
    {
      this.disk, prevHash, chainIndex, poisoned := Some(disk), GENESIS, 0, false;
    }

    method Recover() returns (ok: bool)
      requires disk.Some? && State() == Log(disk, GENESIS, 0, false)
      modifies this
      ensures ok <==> Opened(old(disk.value)).Some?
      ensures State() == if ok then Opened(old(disk.value)).value else old(State())
    {
      hide Complete, VerifyEvent, Accepted, Records, Tip;
      var pieces := disk.value.pieces;
      var prev, index := GENESIS, 0;
      var i := 0;
      NothingRead(pieces);
      while i < |pieces|
        invariant 0 <= i <= |pieces| && State() == old(State())
        invariant forall k | 0 <= k < i :: LineOk(pieces, k)
        invariant Accepted(Records(pieces[..i]))
        invariant prev == Tip(Records(pieces[..i])) && index == |Records(pieces[..i])|
      {
        match pieces[i] {
          case Newline =>
            assert pieces[..i + 1] == pieces[..i] + [pieces[i]];
            RecordsConcat(pieces[..i], [pieces[i]]);
            RecordsOfOne(pieces[i]);
            assert Records(pieces[..i + 1]) == Records(pieces[..i]);
          case Fragment =>
            assert !LineOk(pieces, i);
            return false;
          case Body(e, length) =>
            RecordAt(pieces, i);
            AcceptedSnoc(Records(pieces[..i]), e);
            if length + 1 > MAX_LINE_BYTES || (i + 1 < |pieces| && !pieces[i + 1].Newline?) {
              assert !LineOk(pieces, i);
              return false;
            }
            if !Complete(e) || !VerifyEvent(e, prev, index + 1) {
              NotAcceptedAt(pieces, i);
              return false;
            }
            prev, index := e.hash, index + 1;
        }
        i := i + 1;
      }
      assert pieces[..i] == pieces;
      prevHash, chainIndex := prev, index;
      return true;
    }

    // The record is built by the same steps as Chained.
    method Append(e: Event, now: int, lineLength: nat, io: IO) returns (status: Status)
      modifies this
      ensures status == AppendStatus(old(State()), lineLength, io)
      ensures State() == AppendNext(old(State()), e, now, lineLength, io)
    {
      hide Canonical, PayloadHash;
      if poisoned || disk.None? {
        return Unhealthy;
      }
      var r := Canonical(e);
      if r.timestamp == RawText("") {
        r := r.(timestamp := Formatted(now));
      }
      r := r.(prevHash := prevHash, chainIndex := chainIndex + 1);
      r := r.(hash := PayloadHash(r));
      if lineLength + 1 > MAX_LINE_BYTES {
        return TooLarge;
      }
      disk := Some(AppendLog.Append(disk.value, r, lineLength, io));
      if !io.Synced? {
        poisoned := true;
        return Failed;
      }
      prevHash, chainIndex := r.hash, r.chainIndex;
      return Appended;
    }
  }

  lemma NothingRead(pieces: seq<Piece<Event>>)
    ensures Records(pieces[..0]) == [] && Accepted([]) && Tip([]) == GENESIS
  {
  }

  lemma NotAcceptedAt(pieces: seq<Piece<Event>>, i: nat)
    requires i < |pieces| && pieces[i].Body? && !Accepted(Records(pieces[..i + 1]))
    ensures !Accepted(Records(pieces))
  {
    hide Accepted, Records;
    RecordAt(pieces, i);
    var n := |Records(pieces[..i + 1])|;
    assert Records(pieces)[..n] == Records(pieces[..i + 1]);
    if Accepted(Records(pieces)) {
      AcceptedPrefix(Records(pieces), n);
    }
  }
}
