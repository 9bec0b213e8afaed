/** Provenance completeness: what tracing the STS's own audit log by one jti
    shows, over every run. */
module Provenance {
  import opened Wrappers
  import opened Strings
  import opened Claims
  import opened Utf8
  import opened AppendLog
  import opened Audit
  import opened StableSort
  import opened Trace
  import opened Sts
  import opened Delegation
  import opened Lineage
  import AuditRuns

  // How an audit record carries a list of hops: the first 32, each bounded.
  function RecordedHops(hops: seq<string>): seq<string> {
    BoundHops(if |hops| > MAX_EVENT_HOPS then hops[..MAX_EVENT_HOPS] else hops)
  }

  // The record shows all of them exactly when there are at most 32 and each is
  // valid UTF-8 of at most 4096 bytes.
  lemma HopsRecordedIff(hops: seq<string>)
    ensures RecordedHops(hops) == hops
       <==> |hops| <= 32 && forall h | h in hops :: Valid(h) && |h| <= 4096
  {
    hide BoundEventString, Valid;
    forall h | h in hops ensures BoundEventString(h) == h <==> Valid(h) && |h| <= 4096 {
      StorableIff(h);
    }
    if RecordedHops(hops) == hops {
      assert forall i | 0 <= i < |hops| :: RecordedHops(hops)[i] == hops[i];
    }
  }

  /******* The log as a trace sees it *******/

  // Append's ordered stamps and counted records leave nothing to sort.
  lemma LogIsSorted(es: seq<Event>, clock: int, path: string, parse: Parser)
    requires Accepted(es) && Stamped(es, clock)
    ensures Sorted(FromEvents(path, es), Before(parse))
  {
    hide Complete, Canonical, CanonEqual, PayloadHash, Tip, FromEvents;
    var rs := FromEvents(path, es);
    forall i, j | 0 <= i < j < |rs| ensures !RecordLess(rs[j], rs[i], parse) {
      assert VerifyEvent(es[i], Tip(es[..i]), i + 1) && VerifyEvent(es[j], Tip(es[..j]), j + 1);
      LessTotal(path, path);
    }
  }

  // idx says where the records of a path's mints sit in the log.
  ghost predicate Recorded(mints: seq<Mint>, safe: seq<Event>, path: seq<nat>, idx: seq<nat>) {
    && |idx| == |path| && Increasing(idx, |safe|)
    && forall m | 0 <= m < |idx| :: path[m] < |mints| && RecordOf(safe[idx[m]], mints[path[m]])
  }

  lemma RecordedSnoc(mints: seq<Mint>, safe: seq<Event>, path: seq<nat>, idx: seq<nat>, i: nat, at: nat)
    requires Recorded(mints, safe, path, idx) && idx != [] && idx[|idx| - 1] < at < |safe|
    requires i < |mints| && RecordOf(safe[at], mints[i])
    ensures Recorded(mints, safe, path + [i], idx + [at])
  {
    hide RecordOf;
  }

  // They sit in hop order.
  lemma {:induction false} PathRecords(mints: seq<Mint>, released: map<nat, nat>, safe: seq<Event>, i: nat)
    returns (idx: seq<nat>)
    requires Ancestry(mints) && ReleasedOk(mints, released, safe) && i in released && i < |mints|
    ensures Recorded(mints, safe, Path(mints, i), idx) && idx != [] && idx[|idx| - 1] == released[i] - 1
    decreases i
  {
    hide RecordOf, ActorSubs, Recorded;
    if mints[i].parent.Some? {
      var before := PathRecords(mints, released, safe, mints[i].parent.value);
      idx := before + [released[i] - 1];
      RecordedSnoc(mints, safe, Path(mints, mints[i].parent.value), before, i, released[i] - 1);
    } else {
      idx := [released[i] - 1];
      RecordedRoot(mints, safe, i, released[i] - 1);
    }
  }

  lemma RecordedRoot(mints: seq<Mint>, safe: seq<Event>, i: nat, at: nat)
    requires i < |mints| && at < |safe| && RecordOf(safe[at], mints[i])
    ensures Recorded(mints, safe, [i], [at])
  {
    hide RecordOf;
  }

  // The m-th hop of token c, minted as given, as a verified record: who acted,
  // on which workload, for which audience.
  ghost predicate ReportsHop(r: Record, c: Claims, m: nat, hop: Mint) {
    && r.verified && r.eventType == "token_minted" && r.reasonCode == "ok" && r.jti == hop.claims.jti
    && m < Depth(c) && r.agentId == BoundEventString(ActorSubs(c)[m])
    && r.workload == BoundEventString(hop.workload) && r.audience == BoundEventString(hop.audience)
    && r.txn == BoundEventString(c.txn) && r.principal == BoundEventString(c.sub)
    && r.hops == RecordedHops([c.sub] + ActorSubs(c)[..m + 1])
  }

  // Verified records of every hop of token i, in hop order.
  ghost predicate ShowsPath(out: seq<Record>, pos: seq<nat>, mints: seq<Mint>, i: nat) {
    && i < |mints| && Linked(mints, Path(mints, i))
    && |pos| == |Path(mints, i)| == Depth(mints[i].claims) && Increasing(pos, |out|)
    && forall m | 0 <= m < |pos| ::
         ReportsHop(out[pos[m]], mints[i].claims, m, mints[Path(mints, i)[m]])
  }

  lemma MintedCode()
    ensures BoundEventString("token_minted") == "token_minted" && BoundEventString("ok") == "ok"
  {
    assert AuditRuns.Ascii("token_minted") && AuditRuns.Ascii("ok");
    AuditRuns.AsciiValid("token_minted");
    AuditRuns.AsciiValid("ok");
    StorableIff("token_minted");
    StorableIff("ok");
  }

  lemma HopReported(e: Event, path: string, hop: Mint, root: Mint, c: Claims, m: nat)
    requires AtHop(hop, root, c, m) && RecordOf(e, hop) && Delegation.Identifier(hop.claims.jti)
    ensures ReportsHop(RecordFromEvent(path, e), c, m, hop)
  {
    hide ActorSubs, BoundEventString, Delegation.Identifier;
    MintedCode();
    IdentifierMeans(hop.claims.jti);
  }

  lemma SelectedByJti(verified: seq<Record>, jti: string, leaf: nat)
    requires leaf < |verified| && verified[leaf].jti == jti && verified[leaf].txn != "" && jti != ""
    ensures Transactions(Query("", jti), verified).Some?
    ensures verified[leaf].txn in Transactions(Query("", jti), verified).value
  {
  }

  lemma OneFile(f: AuditFile)
    requires !Blank(f.path) && Readable(f.pieces) && Accepted(Records(f.pieces))
    ensures LoadAudits([f]) == Some(FromEvents(f.path, Records(f.pieces)))
  {
    hide Readable, Accepted;
    assert [f][..0] == [];
    assert [] + FromEvents(f.path, Records(f.pieces)) == FromEvents(f.path, Records(f.pieces));
  }

  // The loaded log reports every hop of a released token.
  lemma PathReported(mints: seq<Mint>, released: map<nat, nat>, safe: seq<Event>, es: seq<Event>, path: string, i: nat)
    returns (idx: seq<nat>)
    requires Ancestry(mints) && ReleasedOk(mints, released, safe) && i in released && i < |mints|
    requires forall k | 0 <= k < |mints| :: Delegation.Identifier(mints[k].claims.jti)
    requires safe <= es
    ensures ShowsPath(FromEvents(path, es), idx, mints, i) && idx != [] && Increasing(idx, |es|)
    ensures FromEvents(path, es)[idx[|idx| - 1]].jti == mints[i].claims.jti
  {
    hide Ancestry, ReleasedOk, RecordOf, Path, ActorSubs, BoundEventString, RecordedHops, Linked, FromEvents,
      ReportsHop, AtHop, Delegation.Identifier;
    PathFits(mints, i);
    idx := PathRecords(mints, released, safe, i);
    var verified := FromEvents(path, es);
    forall m | 0 <= m < |idx|
      ensures ReportsHop(verified[idx[m]], mints[i].claims, m, mints[Path(mints, i)[m]])
    {
      HopReported(es[idx[m]], path, mints[Path(mints, i)[m]], mints[Path(mints, i)[0]], mints[i].claims, m);
    }
    ReportNames(verified[idx[|idx| - 1]], mints[i].claims, |idx| - 1, mints[Path(mints, i)[|idx| - 1]]);
  }

  lemma ReportNames(r: Record, c: Claims, m: nat, hop: Mint)
    requires ReportsHop(r, c, m, hop)
    ensures r.jti == hop.claims.jti && r.txn == BoundEventString(c.txn)
  {
  }

  lemma ShownTxns(a: seq<Record>, idx: seq<nat>, mints: seq<Mint>, i: nat)
    requires ShowsPath(a, idx, mints, i)
    ensures Increasing(idx, |a|) && forall m | 0 <= m < |idx| :: a[idx[m]].txn == BoundEventString(mints[i].claims.txn)
  {
    hide Path;
  }

  lemma ShownElsewhere(a: seq<Record>, b: seq<Record>, idx: seq<nat>, pos: seq<nat>, mints: seq<Mint>, i: nat)
    requires ShowsPath(a, idx, mints, i) && |pos| == |idx| && Increasing(pos, |b|)
    requires forall m | 0 <= m < |idx| :: b[pos[m]] == a[idx[m]]
    ensures ShowsPath(b, pos, mints, i)
  {
    hide Linked, Path, ReportsHop;
  }

  // A trace of one accepted log by one released jti.
  lemma TraceShowsPath(mints: seq<Mint>, released: map<nat, nat>, safe: seq<Event>, es: seq<Event>, clock: int,
                       f: AuditFile, visors: seq<VisorFile>, parse: Parser, i: nat) returns (pos: seq<nat>)
    requires Ancestry(mints) && ReleasedOk(mints, released, safe) && i in released && i < |mints|
    requires forall k | 0 <= k < |mints| :: Delegation.Identifier(mints[k].claims.jti) && mints[k].claims.txn != ""
    requires es == Records(f.pieces) && Accepted(es) && Stamped(es, clock) && safe <= es
    requires !Blank(f.path) && Readable(f.pieces) && Generic(visors) && LoadVisors(visors).Some?
    ensures Traced(Query("", mints[i].claims.jti), [f], visors, parse).Ok?
    ensures ShowsPath(Traced(Query("", mints[i].claims.jti), [f], visors, parse).value, pos, mints, i)
  {
    hide Accepted, Stamped, Readable, Ancestry, ReleasedOk, BoundEventString, Traced, Linked, Path, ReportsHop,
      Transactions, FromEvents, Generic, LoadAudits, LoadVisors, ActorSubs, Delegation.Identifier, ShowsPath, TrimSpace;
    var jti := mints[i].claims.jti;
    NamedJti(jti);
    var idx := PathReported(mints, released, safe, es, f.path, i);
    var verified := FromEvents(f.path, es);
    OneFile(f);
    BoundMeaning(mints[i].claims.txn);
    ShownTxns(verified, idx, mints, i);
    SelectedByJti(verified, jti, idx[|idx| - 1]);
    pos := PositionsInTrace(Query("", jti), f, visors, parse, es, clock, idx, BoundEventString(mints[i].claims.txn));
    ShownElsewhere(verified, Traced(Query("", jti), [f], visors, parse).value, idx, pos, mints, i);
  }

  lemma PositionsInTrace(q: Query, f: AuditFile, visors: seq<VisorFile>, parse: Parser,
                         es: seq<Event>, clock: int, idx: seq<nat>, txn: string) returns (pos: seq<nat>)
    requires es == Records(f.pieces) && Accepted(es) && Stamped(es, clock)
    requires LoadAudits([f]) == Some(FromEvents(f.path, es)) && Generic(visors) && LoadVisors(visors).Some?
    requires q.txn == "" && TrimSpace(q.jti) == q.jti != ""
    requires Transactions(q, FromEvents(f.path, es)).Some?
    requires txn in Transactions(q, FromEvents(f.path, es)).value && txn != ""
    requires Increasing(idx, |es|) && forall m | 0 <= m < |idx| :: FromEvents(f.path, es)[idx[m]].txn == txn
    ensures Traced(q, [f], visors, parse).Ok?
    ensures |pos| == |idx| && Increasing(pos, |Traced(q, [f], visors, parse).value|)
    ensures forall m | 0 <= m < |idx| :: Traced(q, [f], visors, parse).value[pos[m]] == FromEvents(f.path, es)[idx[m]]
  {
    hide Accepted, Stamped, Transactions, FromEvents, Selected, LoadAudits, LoadVisors, Filter, Sort, Before;
    var verified := FromEvents(f.path, es);
    var txns := Transactions(q, verified).value;
    var picks := PicksVerified(q, txns);
    var out := Traced(q, [f], visors, parse).value;
    var mid := FilterEmbeds(verified, picks, idx);
    VerifiedPart(q, [f], visors, parse);
    LogIsSorted(es, clock, f.path, parse);
    FilterSorted(verified, Before(parse), picks);
    SortOfSorted(Filter(verified, picks), Before(parse));
    var back := FilterOrigins(out, IsVerified());
    pos := seq(|idx|, m requires 0 <= m < |idx| => back[mid[m]]);
  }

  lemma LogOf(settings: Settings, s: State)
    requires Inv(settings, s)
    ensures s.log.disk.Some? && Accepted(All(s.log)) && Stamped(All(s.log), s.clock)
    ensures s.log.disk.value.synced <= |s.log.disk.value.pieces|
    ensures Safe(s.log) <= All(s.log) && ReleasedOk(s.mints, s.released, Safe(s.log))
  {
    hide HistoryInv, ReplayInv, FlightsDistinct, ReleasedOk, Accepted, Stamped;
    SafeIsPrefix(s.log);
  }

  lemma MintNames(settings: Settings, s: State)
    requires Inv(settings, s)
    ensures forall k | 0 <= k < |s.mints| :: Delegation.Identifier(s.mints[k].claims.jti) && s.mints[k].claims.txn != ""
  {
    hide Inv, Mirrored, ActorSubs, Scopes.ScopeSet, Delegation.Identifier;
    forall k | 0 <= k < |s.mints| ensures HopOk(s.published, s.mints[k]) {
      HopOf(settings, s, k);
    }
  }

  // Provenance completeness: in every reachable state, tracing the audit log
  // by nothing but the jti of any token ever returned shows every hop from
  // the root exchange to it, verified and in hop order, whatever visor files
  // are added. It is the file's readability, and nothing else about the run,
  // that decides.
  lemma ProvenanceComplete(settings: Settings, states: seq<State>, steps: seq<Step>, n: nat, i: nat,
                           path: string, visors: seq<VisorFile>, parse: Parser)
    requires IsRun(settings, states, steps) && n < |states| && i in states[n].released
    requires !Blank(path) && Generic(visors) && LoadVisors(visors).Some?
    ensures states[n].log.disk.Some? && i < |states[n].mints|
    ensures var s := states[n];
      var t := Traced(Query("", s.mints[i].claims.jti), [AuditFile(path, s.log.disk.value.pieces)], visors, parse);
      if Readable(s.log.disk.value.pieces) then t.Ok? && exists pos :: ShowsPath(t.value, pos, s.mints, i)
      else t == Err(AuditUnreadable)
  {
    hide Inv, IsRun, Accepted, Stamped, Readable, Ancestry, ReleasedOk, Records, Delegation.Identifier, ShowsPath;
    var s := states[n];
    RunKeepsInv(settings, states, steps, n);
    LogOf(settings, s);
    InvAncestry(settings, s);
    MintNames(settings, s);
    ReleasedMinted(settings, s, i);
    var f := AuditFile(path, s.log.disk.value.pieces);
    if Readable(f.pieces) {
      var pos := TraceShowsPath(s.mints, s.released, Safe(s.log), All(s.log), s.clock, f, visors, parse, i);
      assert ShowsPath(Traced(Query("", s.mints[i].claims.jti), [f], visors, parse).value, pos, s.mints, i);
    } else {
      assert [f][..0] == [];
      assert Delegation.Identifier(s.mints[i].claims.jti);
      NamedJti(s.mints[i].claims.jti);
    }
  }

  lemma NamedJti(jti: string)
    requires Delegation.Identifier(jti)
    ensures TrimSpace(jti) == jti != ""
  {
    IdentifierMeans(jti);
  }

  lemma ReleasedMinted(settings: Settings, s: State, i: nat)
    requires Inv(settings, s) && i in s.released
    ensures i < |s.mints|
  {
    LogOf(settings, s);
  }
}
