/** What reopening the audit log finds after any sequence of Appends. */
module AuditRuns {
  import opened Wrappers
  import opened Utf8
  import opened AppendLog
  import opened Audit

  /******* An appended record passes its own verification *******/

  predicate Ascii(s: string) {
    forall i | 0 <= i < |s| :: In(s[i], 0, 0x7F)
  }

  lemma {:induction false} AsciiValid(s: string)
    requires Ascii(s)
    ensures Valid(s)
  {
    if s != "" {
      AsciiValid(s[1..]);
    }
  }

  lemma GenesisCanonical()
    ensures BoundDigest(GENESIS) == GENESIS
  {
    assert Ascii("sha256:") && Ascii("e3b0c44298fc1c14") && Ascii("9afbf4c8996fb924");
    assert Ascii("27ae41e490166ae4") && Ascii("ba7b5b37bcd8deac");
    AsciiValid(GENESIS.text);
  }

  lemma TipCanonical(es: seq<Event>)
    requires Accepted(es)
    ensures BoundDigest(Tip(es)) == Tip(es) && Tip(es) != Text("")
  {
    hide Canonical, BoundEventString;
    if es == [] {
      GenesisCanonical();
    } else {
      assert VerifyEvent(es[|es| - 1], Tip(es[..|es| - 1]), |es|);
    }
  }

  lemma ChainedFields(l: Log, e: Event, now: int)
    requires BoundDigest(l.prevHash) == l.prevHash
    ensures var r := Chained(l, e, now);
      && Canonical(r) == r && r.hash == PayloadHash(r) && r.prevHash == l.prevHash
      && r.chainIndex == l.chainIndex + 1
      && (r.eventType == "" <==> e.eventType == "") && (r.reasonCode == "" <==> e.reasonCode == "")
  {
    hide BoundEventString;
    CanonicalIdempotent(e);
    BoundMeaning(e.eventType);
    BoundMeaning(e.reasonCode);
    var r := Chained(l, e, now);
    assert Canonical(r) == r;
  }

  // Append extends the accepted chain, exactly when the event names its type
  // and its reason.
  lemma ChainedAcceptedIff(es: seq<Event>, l: Log, e: Event, now: int)
    requires Accepted(es) && l.prevHash == Tip(es) && l.chainIndex == |es|
    ensures Accepted(es + [Chained(l, e, now)]) <==> e.eventType != "" && e.reasonCode != ""
  {
    hide Canonical, Chained, Accepted, PayloadHash;
    TipCanonical(es);
    ChainedFields(l, e, now);
    AcceptedSnoc(es, Chained(l, e, now));
    HashNotEmpty(Chained(l, e, now));
  }

  lemma HashNotEmpty(e: Event)
    ensures PayloadHash(e) != Text("")
  {
  }

  /******* Reopening *******/

  lemma RecordsOfSyncedAppend(d: Disk<Event>, r: Event, length: nat)
    ensures Append(d, r, length, Synced).pieces == d.pieces + [Body(r, length), Newline]
    ensures Records(d.pieces + [Body(r, length), Newline]) == Records(d.pieces) + [r]
  {
    RecordsOfAppend(d, r, length, Synced);
  }

  // After an acknowledged Append, reopening gives back the logger's own state,
  // exactly when the event was complete and the file it was opened on ended in
  // a newline.
  lemma ReopenAfterAppendIff(l: Log, e: Event, now: int, lineLength: nat)
    requires l.disk.Some? && Opened(l.disk.value) == Some(l)
    requires AppendStatus(l, lineLength, Synced) == Appended
    ensures var l' := AppendNext(l, e, now, lineLength, Synced);
      && (Opened(l'.disk.value).Some? <==>
            Terminated(l.disk.value.pieces) && e.eventType != "" && e.reasonCode != "")
      && (Opened(l'.disk.value).Some? ==> Opened(l'.disk.value) == Some(l'))
  {
    hide Accepted, Records, Chained;
    var d := l.disk.value;
    var r := Chained(l, e, now);
    RecordsOfSyncedAppend(d, r, lineLength);
    ReadableAfterWriteIff(d.pieces, r, lineLength);
    ChainedAcceptedIff(Records(d.pieces), l, e, now);
    ChainedTip(Records(d.pieces), l, e, now);
    if !Readable(d.pieces + [Body(r, lineLength), Newline]) {
      assert Opened(Append(d, r, lineLength, Synced)).None?;
    }
  }

  lemma ChainedTip(es: seq<Event>, l: Log, e: Event, now: int)
    requires l.chainIndex == |es|
    ensures Tip(es + [Chained(l, e, now)]) == Chained(l, e, now).hash
    ensures Chained(l, e, now).chainIndex == |es + [Chained(l, e, now)]|
  {
  }

  datatype Call = Call(event: Event, now: int, lineLength: nat, io: IO)

  function After(l: Log, calls: seq<Call>): Log {
    if calls == [] then l
    else
      var c := calls[|calls| - 1];
      AppendNext(After(l, calls[..|calls| - 1]), c.event, c.now, c.lineLength, c.io)
  }

  // Nothing unacknowledged is in the file, and reading it back gives l.
  ghost predicate InStep(l: Log) {
    && l.disk.Some? && Opened(l.disk.value) == Some(l)
    && Terminated(l.disk.value.pieces) && l.disk.value.synced == |l.disk.value.pieces|
  }

  lemma AppendInStep(l: Log, c: Call)
    requires InStep(l) && c.event.eventType != "" && c.event.reasonCode != ""
    ensures var l' := AppendNext(l, c.event, c.now, c.lineLength, c.io);
      if c.lineLength + 1 > MAX_LINE_BYTES then l' == l
      else if c.io.Synced? then InStep(l')
      else l'.poisoned && l'.prevHash == l.prevHash && l'.chainIndex == l.chainIndex
  {
    hide Accepted, Records, Chained;
    if AppendStatus(l, c.lineLength, c.io).Appended? {
      ReopenAfterAppendIff(l, c.event, c.now, c.lineLength);
    }
  }

  lemma PoisonedRefuses(l: Log, c: Call)
    requires l.poisoned
    ensures AppendStatus(l, c.lineLength, c.io) == Unhealthy
    ensures AppendNext(l, c.event, c.now, c.lineLength, c.io) == l
  {
  }

  lemma {:induction false} PoisonedOrInStep(l: Log, calls: seq<Call>)
    requires InStep(l)
    requires forall c | c in calls :: c.event.eventType != "" && c.event.reasonCode != ""
    ensures After(l, calls).poisoned || InStep(After(l, calls))
  {
    hide InStep, AppendNext;
    if calls != [] {
      var before, c := After(l, calls[..|calls| - 1]), calls[|calls| - 1];
      PoisonedOrInStep(l, calls[..|calls| - 1]);
      if before.poisoned {
        PoisonedRefuses(before, c);
      } else {
        AppendInStep(before, c);
      }
    }
  }

  lemma LossInStep(l: Log, loss: Loss)
    requires InStep(l) && CanLose(l.disk.value, loss)
    ensures Opened(AppendLog.After(l.disk.value, loss)) == Some(l)
  {
    hide Opened;
    assert AppendLog.After(l.disk.value, loss) == l.disk.value;
  }

  // After any Appends, with any write and Sync failures, either the logger is
  // poisoned (and refuses everything) or reopening the file, even after a
  // crash, succeeds with exactly the in-memory prevHash and chainIndex.
  lemma AppendRecoverSimulation(l: Log, calls: seq<Call>)
    requires InStep(l)
    requires forall c | c in calls :: c.event.eventType != "" && c.event.reasonCode != ""
    ensures var l' := After(l, calls);
      || (l'.poisoned && forall c: Call :: AppendStatus(l', c.lineLength, c.io) == Unhealthy)
      || (InStep(l') && forall loss | CanLose(l'.disk.value, loss) ::
            Opened(AppendLog.After(l'.disk.value, loss)) == Some(l'))
  {
    PoisonedOrInStep(l, calls);
    var l' := After(l, calls);
    hide Opened;
    if !l'.poisoned {
      forall loss | CanLose(l'.disk.value, loss) ensures Opened(AppendLog.After(l'.disk.value, loss)) == Some(l') {
        LossInStep(l', loss);
      }
    }
  }

  // The exception in practice: a write that lost only its newline. The log
  // reopens, the next record is acknowledged, and then it never opens again.
  lemma LostNewlineEndsTheLog(l: Log, first: Event, second: Event, t1: int, t2: int)
    requires InStep(l) && first.eventType != "" && first.reasonCode != ""
    ensures var failed := AppendNext(l, first, t1, 0, NewlineLost);
      && Opened(failed.disk.value).Some?
      && var reopened := Opened(failed.disk.value).value;
         && AppendStatus(reopened, 0, Synced) == Appended
         && Opened(AppendNext(reopened, second, t2, 0, Synced).disk.value) == None
  {
    hide Accepted, Records, Chained;
    var d := l.disk.value;
    var r := Chained(l, first, t1);
    RecordsOfAppend(d, r, 0, NewlineLost);
    ChainedAcceptedIff(Records(d.pieces), l, first, t1);
    var d' := Append(d, r, 0, NewlineLost);
    assert d'.pieces == d.pieces + [Body(r, 0)];
    ReadableAfterLostNewline(d.pieces, r, 0);
    var reopened := Opened(d').value;
    ReopenAfterAppendIff(reopened, second, t2, 0);
  }
}
