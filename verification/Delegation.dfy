/** The STS as a state machine over whole runs: concurrent exchanges split at
    their shared-state accesses, reloads, failed writes, crashes and restarts. */
module Delegation {
  import opened Wrappers
  import opened Strings
  import opened Scopes
  import opened Claims
  import opened Jws
  import Keyrings
  import opened Registry
  import opened AppendLog
  import opened Utf8
  import opened Audit
  import opened Sts
  import Replay
  import ReplayRuns
  import AuditRuns
  import Gateway

  // One minted token and how it came about. `subject` is the verified subject
  // token's claims; `parent` is the mint that produced it, None for an IdP
  // token; `snap` is the published snapshot the exchange ran against, `at` the
  // time it was decided by.
  datatype Mint = Mint(claims: Claims, token: Token, subject: Claims, parent: Option<nat>,
                       agent: Agent, workload: string, audience: string, snap: nat, at: int)

  // Where an exchange is: past every check but the replay cache, or decided
  // and about to write its audit record.
  datatype Phase =
    | Validated(req: Request, plan: Plan, parent: nat, snap: nat)
    | Auditing(event: Event, mint: Option<nat>)

  // `released` maps a mint whose token was returned to the chain_index of its
  // audit record. `generated` and `idpTxns` are the transaction ids in use.
  // `clock` is the last reading of the audit log's clock.
  datatype State = State(
    published: seq<Identity>, up: bool, replay: ReplayRuns.Process, log: Log,
    inFlight: map<nat, Phase>, mints: seq<Mint>, released: map<nat, nat>,
    generated: set<string>, idpTxns: set<string>, clock: int)

  datatype Step =
    | Begin(id: nat, req: Request, now: int, freshTxn: string, freshJti: string, parent: nat)
    | Consume(id: nat, now: int, io: IO, freshJti: string)
    | WriteAudit(id: nat, now: int, lineLength: nat, io: IO)
    | SpendProof(jti: string, iat: int, now: int, io: IO)
    | DenyEarly(reason: string, now: int, lineLength: nat, io: IO)
    | Reload(reg: Loaded<Registry>, ring: Loaded<Keyrings.Ring>, dl: Loaded<Denylist>)
    | Restart(identity: Identity, now: int, replayLoss: Loss, auditLoss: Loss)

  /******* What the environment may do *******/

  predicate HexDigit(c: char) {
    In(c, 0x30, 0x39) || In(c, 0x61, 0x66)
  }

  // newID: 128 random bits in hex behind a prefix.
  predicate IsNewId(prefix: string, id: string) {
    && |id| == |prefix| + 1 + 32 && id[..|prefix| + 1] == prefix + "-"
    && forall i | |prefix| < i < |id| :: HexDigit(id[i])
  }

  predicate Identifier(id: string) {
    IsNewId("jti", id) || IsNewId("txn", id)
  }

  // An identifier is not empty, trimming and canonicalization leave it alone,
  // and it is no key of a DPoP proof.
  lemma IdentifierMeans(id: string)
    requires Identifier(id)
    ensures id != "" && TrimSpace(id) == id && BoundEventString(id) == id && !(Gateway.REPLAY_PREFIX <= id)
  {
    assert id[..4][0] == id[0] && id[..4][1] == id[1] && id[..4][2] == id[2] && id[..4][3] == id[3];
    assert id[0] == 'j' || id[0] == 't';
    assert !IsSpace(id[0]) && !IsSpace(id[|id| - 1]);
    forall i | 0 <= i < |id| ensures In(id[i], 0, 0x7F) {
      assert i < 4 ==> id[i] in ("jti" + "-") + ("txn" + "-");
    }
    assert AuditRuns.Ascii(id);
    AuditRuns.AsciiValid(id);
    assert Gateway.REPLAY_PREFIX[0] == 'd';
  }

  // Never drawn twice.
  ghost predicate FreshJti(s: State, jti: string) {
    IsNewId("jti", jti) && forall i | 0 <= i < |s.mints| :: s.mints[i].claims.jti != jti
  }

  ghost predicate FreshTxn(s: State, txn: string) {
    IsNewId("txn", txn) && txn !in s.generated && txn !in s.idpTxns
  }

  // Unforgeability: a subject token the STS keys verify was minted and
  // released by this STS. IdP tokens do not name a generated transaction.
  ghost predicate Honest(settings: Settings, s: State, t: Token, parent: nat)
    requires s.published != []
  {
    var i := s.published[|s.published| - 1];
    i.signer.Some? ==>
      if Keyrings.RingAccepts(i.signer.value, t) then
        parent in s.released && parent < |s.mints| && s.mints[parent].token == t
      else Verify(t, settings.idpKeys).Ok? ==> Verify(t, settings.idpKeys).value.txn !in s.generated
  }

  // The audit log reads its clock under its lock, so its readings are ordered.
  // The replay cache reads before it locks: nothing is asked of its readings.
  ghost predicate Enabled(settings: Settings, s: State, e: Step)
    requires s.published != []
  {
    match e
    case Begin(id, req, now, freshTxn, freshJti, parent) =>
      && s.up && id !in s.inFlight && FreshTxn(s, freshTxn) && FreshJti(s, freshJti)
      && (req.subject.Some? ==> Honest(settings, s, req.subject.value, parent))
    case Consume(id, now, io, freshJti) =>
      && s.up && s.replay.Up? && FreshJti(s, freshJti)
      && id in s.inFlight && s.inFlight[id].Validated?
    case WriteAudit(id, now, lineLength, io) =>
      s.up && now >= s.clock && id in s.inFlight && s.inFlight[id].Auditing?
    case SpendProof(jti, iat, now, io) => s.up && s.replay.Up?
    case DenyEarly(reason, now, lineLength, io) =>
      s.up && now >= s.clock && reason != ""
    case Reload(reg, ring, dl) =>
      && s.up && (reg.Loaded? ==> ValidRegistry(reg.value)) && (ring.Loaded? ==> Keyrings.ValidRing(ring.value))
    case Restart(identity, now, replayLoss, auditLoss) =>
      && ValidIdentity(identity) && s.log.disk.Some?
      && CanLose(s.replay.disk, replayLoss) && CanLose(s.log.disk.value, auditLoss)
  }

  /******* Steps *******/

  function Audited(s: State, id: nat, e: Event, mint: Option<nat>): State {
    s.(inFlight := s.inFlight[id := Auditing(e, mint)])
  }

  function MintOf(claims: Claims, token: Token, plan: Plan, parent: Option<nat>, audience: string, snap: nat): Mint {
    Mint(claims, token, plan.subject.claims, parent, plan.agent, plan.workload.id, audience, snap, plan.now)
  }

  // The tail of exchange(): the confirmation key, the claims, the signature.
  function Issue(settings: Settings, s: State, id: nat, req: Request, plan: Plan,
                 parent: Option<nat>, snap: nat, ring: Keyrings.Ring, freshJti: string): State
    requires ring.active in ring.byKid
  {
    var o := Finish(settings, ring, plan, req, freshJti);
    match o
    case Denied(_) => Audited(s, id, AuditEvent(req, o), None)
    case Minted(claims, token, _) =>
      var m := MintOf(claims, token, plan, parent, req.audience, snap);
      Audited(s.(mints := s.mints + [m]), id, AuditEvent(req, o), Some(|s.mints|))
  }

  ghost predicate Published(s: State) {
    s.published != [] && forall i | 0 <= i < |s.published| :: ValidIdentity(s.published[i])
  }

  // A root exchange draws a transaction id unless its IdP token names one.
  function NoteTxn(s: State, named: string, freshTxn: string): State {
    s.(generated := s.generated + if named == "" then {freshTxn} else {},
       idpTxns := s.idpTxns + if named == "" then {} else {named})
  }

  ghost function BeginNext(settings: Settings, s: State, e: Step): State
    requires e.Begin? && Published(s)
  {
    var snap := |s.published| - 1;
    var i := s.published[snap];
    match Prepare(settings, i, e.req, e.now, e.freshTxn)
    case Err(d) => Audited(s, e.id, AuditEvent(e.req, Denied(d)), None)
    case Ok(plan) =>
      if plan.subject.fromSts then s.(inFlight := s.inFlight[e.id := Validated(e.req, plan, e.parent, snap)])
      else
        Issue(settings, NoteTxn(s, plan.subject.claims.txn, e.freshTxn),
              e.id, e.req, plan, None, snap, i.signer.value, e.freshJti)
  }

  // In-flight exchanges kept the snapshot they began with.
  ghost predicate SnapsValid(s: State) {
    forall id | id in s.inFlight && s.inFlight[id].Validated? ::
      s.inFlight[id].snap < |s.published| && s.published[s.inFlight[id].snap].signer.Some?
  }

  ghost function ConsumeNext(settings: Settings, s: State, e: Step): State
    requires e.Consume? && Published(s) && SnapsValid(s) && s.replay.Up?
    requires e.id in s.inFlight && s.inFlight[e.id].Validated?
  {
    var ph := s.inFlight[e.id];
    var c := ph.plan.subject.claims;
    var cache := Replay.Cache(s.replay.seen, Some(s.replay.disk));
    var v := Replay.ConsumeVerdict(cache, c.jti, c.exp, [], Unix(e.now), e.io);
    var cache' := Replay.ConsumeNext(cache, c.jti, c.exp, [], Unix(e.now), e.io);
    var s' := s.(replay := ReplayRuns.Up(cache'.seen, cache'.log.value));
    if v.Consumed? then
      var ring := s.published[ph.snap].signer.value;
      Issue(settings, s', e.id, ph.req, ph.plan, Some(ph.parent), ph.snap, ring, e.freshJti)
    else Audited(s', e.id, AuditEvent(ph.req, Denied(Denial(ConsumeReason(Some(v)), Some(c)))), None)
  }

  ghost function WriteAuditNext(s: State, e: Step): State
    requires e.WriteAudit? && e.id in s.inFlight && s.inFlight[e.id].Auditing?
  {
    var ph := s.inFlight[e.id];
    var status := AppendStatus(s.log, e.lineLength, e.io);
    s.(log := AppendNext(s.log, ph.event, e.now, e.lineLength, e.io),
       inFlight := s.inFlight - {e.id},
       released := if status.Appended? && ph.mint.Some? then s.released[ph.mint.value := s.log.chainIndex + 1]
                   else s.released,
       clock := e.now)
  }

  // The token endpoint spends a DPoP proof in the same cache before it begins
  // the exchange, or denies early.
  function SpendProofNext(s: State, e: Step): State
    requires e.SpendProof? && s.replay.Up?
  {
    var cache := Replay.Cache(s.replay.seen, Some(s.replay.disk));
    var key := Gateway.ReplayJti(e.jti);
    var cache' := Replay.ConsumeNext(cache, key, e.iat, [e.jti], Unix(e.now), e.io);
    s.(replay := ReplayRuns.Up(cache'.seen, cache'.log.value))
  }

  // writeHTTPDeny: refused before any exchange began.
  function EarlyDenial(reason: string): Event {
    Event(RawText(""), "token_denied", reason, "", "", "", "", "", "", "", 0, [], Text(""), Text(""), 0)
  }

  // What an early denial leaves in the log: its reason, and nobody's claims.
  lemma EarlyDenialRecorded(l: Log, reason: string, now: int, lineLength: nat)
    requires AppendStatus(l, lineLength, Synced).Appended?
    ensures l.disk.Some?
    ensures var l' := AppendNext(l, EarlyDenial(reason), now, lineLength, Synced);
      && l'.disk.Some?
      && exists r ::
           && Records(l'.disk.value.pieces) == Records(l.disk.value.pieces) + [r]
           && r.eventType == BoundEventString("token_denied") && r.reasonCode == BoundEventString(reason)
           && r.txn == r.jti == r.agentId == r.workload == r.principal == r.audience == r.scope == "" && r.hops == []
  {
    hide BoundEventString, AppendNext, Records;
    var l' := AppendNext(l, EarlyDenial(reason), now, lineLength, Synced);
    AppendedRecord(l, EarlyDenial(reason), now, lineLength);
    EmptyBound("");
    var r :| Records(l'.disk.value.pieces) == Records(l.disk.value.pieces) + [r] && Carries(r, EarlyDenial(reason));
  }

  ghost function RestartNext(s: State, e: Step): State
    requires e.Restart? && s.log.disk.Some?
    requires CanLose(s.replay.disk, e.replayLoss) && CanLose(s.log.disk.value, e.auditLoss)
  {
    var replay := ReplayRuns.Reopen(After(s.replay.disk, e.replayLoss), Unix(e.now));
    var disk := After(s.log.disk.value, e.auditLoss);
    s.(published := s.published + [e.identity],
       up := replay.Up? && Opened(disk).Some?,
       replay := replay,
       log := if Opened(disk).Some? then Opened(disk).value else s.log.(disk := Some(disk)),
       inFlight := map[])
  }

  ghost function Next(settings: Settings, s: State, e: Step): State
    requires Published(s) && SnapsValid(s) && Enabled(settings, s, e)
  {
    match e
    case Begin(_, _, _, _, _, _) => BeginNext(settings, s, e)
    case Consume(_, _, _, _) => ConsumeNext(settings, s, e)
    case WriteAudit(_, _, _, _) => WriteAuditNext(s, e)
    case SpendProof(_, _, _, _) => SpendProofNext(s, e)
    case DenyEarly(reason, now, lineLength, io) =>
      s.(log := AppendNext(s.log, EarlyDenial(reason), now, lineLength, io), clock := now)
    case Reload(reg, ring, dl) =>
      s.(published := s.published + [Reloaded(s.published[|s.published| - 1], reg, ring, dl)])
    case Restart(_, _, _, _) => RestartNext(s, e)
  }

  // A restart ends every exchange, takes back nothing that was minted or
  // released, and goes on with what the two files still say.
  lemma RestartLeaves(settings: Settings, s: State, e: Step)
    requires Published(s) && SnapsValid(s) && Enabled(settings, s, e) && e.Restart?
    ensures var s' := Next(settings, s, e);
      && s'.inFlight == map[] && s'.mints == s.mints && s'.released == s.released
      && s'.published == s.published + [e.identity]
      && s'.replay.disk == After(s.replay.disk, e.replayLoss)
      && (s'.replay.Up? ==> s'.replay.seen == Replay.Latest(Records(s'.replay.disk.pieces), Unix(e.now)))
      && s'.log.disk == Some(After(s.log.disk.value, e.auditLoss))
      && (s'.up <==> s'.replay.Up? && Readable(s'.log.disk.value.pieces)
                     && Accepted(Records(s'.log.disk.value.pieces)))
      && (s'.up ==> s'.log.prevHash == Tip(Records(s'.log.disk.value.pieces))
                    && s'.log.chainIndex == |Records(s'.log.disk.value.pieces)| && !s'.log.poisoned)
  {
    hide Records, Accepted, Readable, Replay.Latest, Tip;
  }

  /******* The replay part of the invariant *******/

  ghost predicate ReplayInv(s: State) {
    ValidDisk(s.replay.disk)
  }

  /******* The history part of the invariant *******/

  // What a snapshot has to say of who asks, when, and for whom (AI2, AI18).
  ghost predicate Permits(i: Identity, agentId: string, agent: Agent, workload: string, subject: Claims, at: int) {
    && workload in agent.workloads && ValidateAt(agent, at).None?
    && !Blank(subject.sub) && ValidateTime(subject, at, 0) == Current
    && (i.denylist.Some? ==>
          && !Denies(i.denylist.value.agents, agentId)
          && !Denies(i.denylist.value.workloads, workload)
          && !Denies(i.denylist.value.principals, subject.sub))
  }

  // What PrepareSubject established about an exchange that got through.
  ghost predicate Approved(settings: Settings, i: Identity, req: Request, plan: Plan, freshTxn: string) {
    var c := plan.subject.claims;
    && i.registry.Some? && req.agentId in i.registry.value.byId && plan.agent == i.registry.value.byId[req.agentId]
    && req.audience != "" && req.audience in plan.agent.audiences
    && Permits(i, req.agentId, plan.agent, plan.workload.id, c, plan.now)
    && req.agentId in c.aud
    && |AppendChain(c)| + 1 <= plan.agent.maxDepth
    && Narrow(req.scope, c.scope, plan.agent.maxScopes) == Some(plan.scope)
    && (plan.subject.fromSts ==> c.txn != "" && c.iss == settings.issuer)
    && (!plan.subject.fromSts ==> c.act.None? && c.actChain == [])
    && plan.txn == (if c.txn == "" then freshTxn else c.txn)
  }

  // The checks on the subject token, and what they leave in the plan.
  lemma SubjectChecked(i: Identity, req: Request, now: int, freshTxn: string, sub: Subject, agent: Agent, wl: Workload)
    requires PrepareSubject(i, req, now, freshTxn, sub, agent, wl).Ok?
    ensures var plan := PrepareSubject(i, req, now, freshTxn, sub, agent, wl).value;
      var c := sub.claims;
      && plan.subject == sub && plan.agent == agent && plan.workload == wl && plan.now == now
      && !Blank(c.sub) && ValidateTime(c, now, 0) == Current
      && (i.denylist.Some? ==> !Denies(i.denylist.value.principals, c.sub))
      && req.agentId in c.aud && |AppendChain(c)| + 1 <= agent.maxDepth
      && Narrow(req.scope, c.scope, agent.maxScopes) == Some(plan.scope)
      && (sub.fromSts ==> c.txn != "") && (!sub.fromSts ==> c.act.None? && c.actChain == [])
      && plan.txn == (if c.txn == "" then freshTxn else c.txn)
  {
    hide Narrow, AppendChain, Denies;
  }

  lemma PreparedIsApproved(settings: Settings, i: Identity, req: Request, now: int, freshTxn: string)
    requires Prepare(settings, i, req, now, freshTxn).Ok?
    ensures var plan := Prepare(settings, i, req, now, freshTxn).value;
      && Approved(settings, i, req, plan, freshTxn)
      && WellFormed(settings, i, req)
      && Some(plan.subject) == VerifySubject(settings, i.signer.value, req.subject.value)
  {
    hide Narrow, AppendChain, PrepareSubject, Denies, ValidateTime, ValidateAt;
    NamedAudience(settings, i, req);
    var sub := VerifySubject(settings, i.signer.value, req.subject.value).value;
    var wl := req.actor.attested.value;
    SubjectChecked(i, req, now, freshTxn, sub, i.registry.value.byId[req.agentId], wl);
  }

  lemma NamedAudience(settings: Settings, i: Identity, req: Request)
    ensures WellFormed(settings, i, req) ==> req.audience != ""
  {
  }

  // One mint: an allowed, narrowing, one-actor extension of its subject token,
  // decided against the snapshot it names.
  ghost predicate HopOk(published: seq<Identity>, m: Mint) {
    && m.snap < |published| && published[m.snap].registry.Some? && published[m.snap].signer.Some?
    && m.agent.id in published[m.snap].registry.value.byId
    && m.agent == published[m.snap].registry.value.byId[m.agent.id] && m.agent.id != ""
    && Keyrings.ValidRing(published[m.snap].signer.value)
    && m.token == Keyrings.Mint(published[m.snap].signer.value, m.claims)
    && m.audience != "" && m.audience in m.agent.audiences && m.claims.aud == [m.audience]
    && m.agent.id in m.subject.aud && ConfirmJKT(m.claims) != ""
    && Permits(published[m.snap], m.agent.id, m.agent, m.workload, m.subject, m.at)
    && Mirrored(m.claims) && ActorSubs(m.claims) == ActorSubs(m.subject) + [m.agent.id]
    && Depth(m.claims) <= m.agent.maxDepth
    && m.claims.sub == m.subject.sub && m.claims.txn != ""
    && ScopeSet(m.claims.scope) <= ScopeSet(Join(m.agent.maxScopes, " "))
    && (ScopeSet(m.claims.scope) <= ScopeSet(m.subject.scope) <==>
          m.subject.scope != "" || ScopeSet(Join(m.agent.maxScopes, " ")) == {})
    && Identifier(m.claims.jti)
  }

  ghost predicate OriginOk(s: State, k: nat)
    requires k < |s.mints|
  {
    var m := s.mints[k];
    match m.parent
    case Some(p) =>
      p < k && p in s.released && m.subject == s.mints[p].claims && m.claims.txn == m.subject.txn
    case None =>
      && m.subject.act.None? && m.subject.actChain == []
      && if m.subject.txn == "" then m.claims.txn in s.generated
         else m.claims.txn == m.subject.txn && m.claims.txn !in s.generated
  }

  ghost predicate MintsOk(s: State) {
    && (forall k | 0 <= k < |s.mints| :: HopOk(s.published, s.mints[k]) && OriginOk(s, k))
    && (forall k | k in s.released :: k < |s.mints|)
    && s.generated !! s.idpTxns
    && forall k | 0 <= k < |s.mints| :: s.mints[k].claims.txn in s.generated + s.idpTxns
  }

  // No two mints share a jti or (as roots) a generated transaction.
  ghost predicate NamesDistinct(mints: seq<Mint>, generated: set<string>) {
    forall a, b | 0 <= a < b < |mints| ::
      && mints[a].claims.jti != mints[b].claims.jti
      && (mints[a].parent.None? && mints[b].parent.None? && mints[b].claims.txn in generated ==>
            mints[a].claims.txn != mints[b].claims.txn)
  }

  // What an in-flight exchange will need when it mints or is audited.
  ghost predicate FlightOk(settings: Settings, s: State, ph: Phase) {
    match ph
    case Validated(req, plan, parent, snap) =>
      && snap < |s.published| && ValidIdentity(s.published[snap]) && s.published[snap].signer.Some?
      && Approved(settings, s.published[snap], req, plan, "") && plan.subject.fromSts
      && parent in s.released && parent < |s.mints| && plan.subject.claims == s.mints[parent].claims
    case Auditing(event, mint) =>
      && event.timestamp == RawText("") && event.eventType != "" && event.reasonCode != ""
      && (mint.Some? ==> mint.value < |s.mints| && Describes(event, s.mints[mint.value]))
  }

  // The audit record of a mint.
  ghost predicate Describes(e: Event, m: Mint) {
    var c := m.claims;
    && e.eventType == "token_minted" && e.reasonCode == "ok" && e.txn == c.txn && e.jti == c.jti
    && e.principal == c.sub && e.hops == [c.sub] + ActorSubs(c) && e.depth == Depth(c)
    && e.agentId == m.agent.id && e.workload == m.workload && e.audience == m.audience && e.scope == c.scope
  }

  ghost predicate HistoryInv(settings: Settings, s: State) {
    && Published(s) && MintsOk(s) && NamesDistinct(s.mints, s.generated)
    && forall id | id in s.inFlight :: FlightOk(settings, s, s.inFlight[id])
  }

  lemma HistorySnaps(settings: Settings, s: State)
    requires HistoryInv(settings, s)
    ensures SnapsValid(s)
  {
    forall id | id in s.inFlight && s.inFlight[id].Validated? ensures
      s.inFlight[id].snap < |s.published| && s.published[s.inFlight[id].snap].signer.Some?
    {
      assert FlightOk(settings, s, s.inFlight[id]);
    }
  }

  lemma IssuedIsDescribed(settings: Settings, ring: Keyrings.Ring, req: Request, plan: Plan, parent: Option<nat>,
                          snap: nat, freshJti: string)
    requires ring.active in ring.byKid && plan.agent.id == req.agentId
    requires Finish(settings, ring, plan, req, freshJti).Minted?
    ensures var o := Finish(settings, ring, plan, req, freshJti);
      Describes(AuditEvent(req, o), MintOf(o.claims, o.token, plan, parent, req.audience, snap))
  {
    hide ActorSubs;
  }

  // What a mint adds: its hop is in order.
  lemma IssuedHopOk(settings: Settings, published: seq<Identity>, req: Request, plan: Plan, freshTxn: string,
                    parent: Option<nat>, snap: nat, freshJti: string)
    requires snap < |published| && ValidIdentity(published[snap]) && published[snap].signer.Some?
    requires Approved(settings, published[snap], req, plan, freshTxn) && Mirrored(plan.subject.claims)
    requires plan.txn != "" && Identifier(freshJti)
    requires Finish(settings, published[snap].signer.value, plan, req, freshJti).Minted?
    ensures var o := Finish(settings, published[snap].signer.value, plan, req, freshJti);
      var m := MintOf(o.claims, o.token, plan, parent, req.audience, snap);
      && HopOk(published, m) && Describes(AuditEvent(req, o), m) && o.claims.jti == freshJti && o.claims.txn == plan.txn
  {
    hide Narrow, Mirrored, ActorSubs, ValidateAgent, Permits, Describes;
    var i := published[snap];
    var c := plan.subject.claims;
    var claims := MintClaims(settings, plan, req, freshJti);
    assert ValidateAgent(plan.agent).None? && plan.agent.id == req.agentId;
    IssuedIsDescribed(settings, i.signer.value, req, plan, parent, snap, freshJti);
    ValidAgentNamed(plan.agent);
    var to := Claims(settings.issuer, c.sub, [req.audience],
                     Unix(plan.now + Ttl(settings)), Unix(plan.now), Unix(plan.now), freshJti, plan.txn,
                     None, [], plan.scope, if req.purp == "" then c.purp else req.purp,
                     Some(ConfirmationKey(req, plan.workload)));
    DelegateMirrors(c, settings.issuer, req.agentId, to);
    NarrowMeaning(req.scope, c.scope, plan.agent.maxScopes);
    HopNarrowsIff(req.scope, c.scope, plan.agent.maxScopes);
    assert claims == Delegate(c, settings.issuer, req.agentId, to);
  }

  lemma ValidAgentNamed(a: Agent)
    requires ValidateAgent(a).None?
    ensures a.id != ""
  {
  }

  lemma NoChainMirrored(c: Claims)
    requires c.act.None? && c.actChain == []
    ensures Mirrored(c) && ActorSubs(c) == []
  {
  }

  /******* Preservation *******/

  lemma DenialIsAuditable(settings: Settings, s: State, req: Request, d: Denial)
    ensures FlightOk(settings, s, Auditing(AuditEvent(req, Denied(d)), None))
  {
  }

  lemma PhaseKeepsHistory(settings: Settings, s: State, id: nat, ph: Phase)
    requires HistoryInv(settings, s) && FlightOk(settings, s, ph)
    ensures HistoryInv(settings, s.(inFlight := s.inFlight[id := ph]))
  {
    hide HopOk, Approved, Describes, ValidIdentity, NamesDistinct;
    var s' := s.(inFlight := s.inFlight[id := ph]);
    assert forall k | 0 <= k < |s.mints| :: OriginOk(s, k) ==> OriginOk(s', k);
    forall i | i in s'.inFlight ensures FlightOk(settings, s', s'.inFlight[i]) {
      assert i != id ==> FlightOk(settings, s, s.inFlight[i]);
    }
  }

  // Where the new mint comes from; a root's generated transaction is its own.
  ghost predicate NewOrigin(s: State, m: Mint) {
    match m.parent
    case Some(p) =>
      p in s.released && p < |s.mints| && m.subject == s.mints[p].claims && m.claims.txn == m.subject.txn
    case None =>
      && m.subject.act.None? && m.subject.actChain == []
      && (if m.subject.txn == "" then m.claims.txn in s.generated
          else m.claims.txn == m.subject.txn && m.claims.txn !in s.generated)
      && (m.claims.txn in s.generated ==> forall k | 0 <= k < |s.mints| :: s.mints[k].claims.txn != m.claims.txn)
  }

  lemma AddMintKeepsHistory(settings: Settings, s: State, m: Mint)
    requires HistoryInv(settings, s)
    requires HopOk(s.published, m) && NewOrigin(s, m)
    requires FreshJti(s, m.claims.jti) && m.claims.txn in s.generated + s.idpTxns
    ensures HistoryInv(settings, s.(mints := s.mints + [m]))
  {
    hide HopOk, Approved, Describes, ValidIdentity, Identifier;
    var s' := s.(mints := s.mints + [m]);
    forall k | 0 <= k < |s'.mints| ensures HopOk(s'.published, s'.mints[k]) && OriginOk(s', k) {
      assert k < |s.mints| ==> HopOk(s.published, s.mints[k]) && OriginOk(s, k);
    }
    forall i | i in s'.inFlight ensures FlightOk(settings, s', s'.inFlight[i]) {
      assert FlightOk(settings, s, s.inFlight[i]);
    }
  }

  lemma IssueKeepsHistory(settings: Settings, s: State, id: nat, req: Request, plan: Plan, freshTxn: string,
                          parent: Option<nat>, snap: nat, freshJti: string)
    requires HistoryInv(settings, s) && snap < |s.published| && s.published[snap].signer.Some?
    requires Approved(settings, s.published[snap], req, plan, freshTxn) && Mirrored(plan.subject.claims)
    requires plan.txn != "" && plan.txn in s.generated + s.idpTxns && FreshJti(s, freshJti)
    requires forall c: Claims | c.txn == plan.txn ::
               NewOrigin(s, MintOf(c, Malformed, plan, parent, req.audience, snap))
    ensures HistoryInv(settings,
      Issue(settings, s, id, req, plan, parent, snap, s.published[snap].signer.value, freshJti))
  {
    hide HopOk, Approved, Describes, HistoryInv, Mirrored;
    var ring := Signer(settings, s, snap);
    var o := Finish(settings, ring, plan, req, freshJti);
    if o.Denied? {
      DenialIsAuditable(settings, s, req, o.denial);
      PhaseKeepsHistory(settings, s, id, Auditing(AuditEvent(req, o), None));
    } else {
      IssuedHopOk(settings, s.published, req, plan, freshTxn, parent, snap, freshJti);
      var m := MintOf(o.claims, o.token, plan, parent, req.audience, snap);
      assert NewOrigin(s, m.(token := Malformed));
      AddMintKeepsHistory(settings, s, m);
      var s' := s.(mints := s.mints + [m]);
      assert FlightOk(settings, s', Auditing(AuditEvent(req, o), Some(|s.mints|)));
      PhaseKeepsHistory(settings, s', id, Auditing(AuditEvent(req, o), Some(|s.mints|)));
    }
  }

  ghost function Signer(settings: Settings, s: State, snap: nat): (r: Keyrings.Ring)
    requires HistoryInv(settings, s) && snap < |s.published| && s.published[snap].signer.Some?
    ensures r == s.published[snap].signer.value && Keyrings.ValidRing(r) && ValidIdentity(s.published[snap])
  {
    s.published[snap].signer.value
  }

  // Drawing a fresh transaction id, or meeting one an IdP chose.
  lemma TxnsKeepHistory(settings: Settings, s: State, generated: set<string>, idpTxns: set<string>)
    requires HistoryInv(settings, s)
    requires forall t | t in generated && t !in s.generated :: t !in s.idpTxns
    requires s.generated <= generated && s.idpTxns <= idpTxns && generated !! idpTxns
    ensures HistoryInv(settings, s.(generated := generated, idpTxns := idpTxns))
  {
    hide HopOk, Approved, Describes, ValidIdentity;
    var s' := s.(generated := generated, idpTxns := idpTxns);
    forall k | 0 <= k < |s.mints| ensures HopOk(s'.published, s'.mints[k]) && OriginOk(s', k) {
      assert HopOk(s.published, s.mints[k]) && OriginOk(s, k);
    }
    forall i | i in s'.inFlight ensures FlightOk(settings, s', s'.inFlight[i]) {
      assert FlightOk(settings, s, s.inFlight[i]);
    }
  }

  lemma BeginKeepsHistory(settings: Settings, s: State, e: Step)
    requires HistoryInv(settings, s) && e.Begin? && Enabled(settings, s, e)
    ensures HistoryInv(settings, BeginNext(settings, s, e))
  {
    hide HistoryInv, Approved, HopOk, Prepare, Identifier;
    PublishedOf(settings, s);
    var snap := |s.published| - 1;
    var i := s.published[snap];
    match Prepare(settings, i, e.req, e.now, e.freshTxn) {
      case Err(d) =>
        DenialIsAuditable(settings, s, e.req, d);
        PhaseKeepsHistory(settings, s, e.id, Auditing(AuditEvent(e.req, Denied(d)), None));
      case Ok(plan) =>
        PreparedIsApproved(settings, i, e.req, e.now, e.freshTxn);
        if plan.subject.fromSts {
          BeginFromSts(settings, s, e, plan);
        } else {
          BeginFromIdp(settings, s, e, plan);
        }
    }
  }

  lemma PublishedOf(settings: Settings, s: State)
    requires HistoryInv(settings, s)
    ensures Published(s) && s.generated !! s.idpTxns
    ensures forall k | 0 <= k < |s.mints| :: s.mints[k].claims.txn in s.generated + s.idpTxns
    ensures forall k | 0 <= k < |s.mints| ::
      var t := s.mints[k].token; t == Token.Signed("EdDSA", t.kid, t.key, s.mints[k].claims)
    ensures forall k | 0 <= k < |s.mints| :: Mirrored(s.mints[k].claims)
    ensures forall k | k in s.released :: k < |s.mints|
  {
    hide Mirrored, ScopeSet, ActorSubs;
    assert forall k | 0 <= k < |s.mints| :: HopOk(s.published, s.mints[k]);
  }

  lemma BeginFromSts(settings: Settings, s: State, e: Step, plan: Plan)
    requires HistoryInv(settings, s) && e.Begin? && Enabled(settings, s, e)
    requires var i := s.published[|s.published| - 1];
      && WellFormed(settings, i, e.req) && plan.subject.fromSts && Approved(settings, i, e.req, plan, e.freshTxn)
      && Some(plan.subject) == VerifySubject(settings, i.signer.value, e.req.subject.value)
    ensures HistoryInv(settings,
      s.(inFlight := s.inFlight[e.id := Validated(e.req, plan, e.parent, |s.published| - 1)]))
  {
    hide HistoryInv, Narrow, AppendChain, Approved, ValidIdentity;
    PublishedOf(settings, s);
    assert plan.subject.claims == s.mints[e.parent].claims;
    ApprovedAnyTxn(settings, s.published[|s.published| - 1], e.req, plan, e.freshTxn);
    PhaseKeepsHistory(settings, s, e.id, Validated(e.req, plan, e.parent, |s.published| - 1));
  }

  lemma ApprovedAnyTxn(settings: Settings, i: Identity, req: Request, plan: Plan, freshTxn: string)
    requires Approved(settings, i, req, plan, freshTxn) && plan.subject.fromSts
    ensures Approved(settings, i, req, plan, "")
  {
  }

  lemma NoteTxnKeepsHistory(settings: Settings, s: State, named: string, freshTxn: string)
    requires HistoryInv(settings, s) && FreshTxn(s, freshTxn) && (named != "" ==> named !in s.generated)
    ensures var s' := NoteTxn(s, named, freshTxn);
      && HistoryInv(settings, s')
      && (if named == "" then
            && freshTxn != "" && freshTxn in s'.generated
            && forall k | 0 <= k < |s.mints| :: s.mints[k].claims.txn != freshTxn
          else named in s'.idpTxns && named !in s'.generated)
  {
    hide HistoryInv;
    PublishedOf(settings, s);
    TxnsKeepHistory(settings, s, NoteTxn(s, named, freshTxn).generated, NoteTxn(s, named, freshTxn).idpTxns);
  }

  lemma IdpSubject(settings: Settings, s: State, e: Step, plan: Plan)
    requires Published(s) && e.Begin? && Enabled(settings, s, e)
    requires var i := s.published[|s.published| - 1];
      && WellFormed(settings, i, e.req) && !plan.subject.fromSts && Approved(settings, i, e.req, plan, e.freshTxn)
      && Some(plan.subject) == VerifySubject(settings, i.signer.value, e.req.subject.value)
    ensures var c := plan.subject.claims;
      && (c.txn != "" ==> c.txn !in s.generated) && c.act.None? && c.actChain == []
      && plan.txn == (if c.txn == "" then e.freshTxn else c.txn)
      && FreshTxn(s, e.freshTxn) && FreshJti(s, e.freshJti)
  {
    hide Narrow, AppendChain, FreshTxn, FreshJti, ValidIdentity;
  }

  lemma BeginFromIdp(settings: Settings, s: State, e: Step, plan: Plan)
    requires HistoryInv(settings, s) && e.Begin? && Enabled(settings, s, e)
    requires var i := s.published[|s.published| - 1];
      && WellFormed(settings, i, e.req) && !plan.subject.fromSts && Approved(settings, i, e.req, plan, e.freshTxn)
      && Some(plan.subject) == VerifySubject(settings, i.signer.value, e.req.subject.value)
    ensures HistoryInv(settings,
      Issue(settings, NoteTxn(s, plan.subject.claims.txn, e.freshTxn),
            e.id, e.req, plan, None, |s.published| - 1, s.published[|s.published| - 1].signer.value, e.freshJti))
  {
    hide HistoryInv, HopOk, Issue, Identifier, Mirrored, Approved, Enabled, VerifySubject, ValidIdentity;
    PublishedOf(settings, s);
    var c := plan.subject.claims;
    IdpSubject(settings, s, e, plan);
    NoteTxnKeepsHistory(settings, s, c.txn, e.freshTxn);
    NoChainMirrored(c);
    IssueKeepsHistory(settings, NoteTxn(s, c.txn, e.freshTxn), e.id, e.req, plan, e.freshTxn, None,
                      |s.published| - 1, e.freshJti);
  }

  // Steps that only move the stores, the clock, or add facts.
  lemma StoresKeepHistory(settings: Settings, s: State, s': State)
    requires HistoryInv(settings, s)
    requires s'.mints == s.mints && s'.generated == s.generated && s'.idpTxns == s.idpTxns
    requires s.published <= s'.published && Published(s')
    requires s.released.Keys <= s'.released.Keys && forall k | k in s'.released :: k < |s.mints|
    requires forall id | id in s'.inFlight :: id in s.inFlight && s'.inFlight[id] == s.inFlight[id]
    ensures HistoryInv(settings, s')
  {
    hide HopOk, NamesDistinct, Approved, Describes, ValidIdentity;
    forall k | 0 <= k < |s.mints| ensures HopOk(s'.published, s'.mints[k]) && OriginOk(s', k) {
      assert HopOk(s.published, s.mints[k]) && OriginOk(s, k);
      SnapshotKept(s.published, s'.published, s.mints[k]);
    }
    forall id | id in s'.inFlight ensures FlightOk(settings, s', s'.inFlight[id]) {
      assert FlightOk(settings, s, s.inFlight[id]);
    }
  }

  lemma SnapshotKept(a: seq<Identity>, b: seq<Identity>, m: Mint)
    requires a <= b && HopOk(a, m)
    ensures HopOk(b, m)
  {
    hide Mirrored, ScopeSet, ActorSubs;
    assert b[m.snap] == a[m.snap];
  }

  lemma ConsumeKeepsHistory(settings: Settings, s: State, e: Step)
    requires HistoryInv(settings, s) && ReplayInv(s) && e.Consume? && Enabled(settings, s, e) && SnapsValid(s)
    ensures HistoryInv(settings, ConsumeNext(settings, s, e))
    ensures ReplayInv(ConsumeNext(settings, s, e))
  {
    hide HistoryInv, HopOk, Approved, Replay.ConsumeNext, Replay.ConsumeVerdict, Identifier;
    PublishedOf(settings, s);
    var ph := s.inFlight[e.id];
    FlightOf(settings, s, e.id);
    var c := ph.plan.subject.claims;
    var cache := Replay.Cache(s.replay.seen, Some(s.replay.disk));
    var v := Replay.ConsumeVerdict(cache, c.jti, c.exp, [], Unix(e.now), e.io);
    var cache' := Replay.ConsumeNext(cache, c.jti, c.exp, [], Unix(e.now), e.io);
    var replay := ReplayRuns.Up(cache'.seen, cache'.log.value);
    ReplayRuns.StepKeepsDiskValid(s.replay, ReplayRuns.Consume(c.jti, c.exp, [], Unix(e.now), e.io), replay);
    var s' := s.(replay := replay);
    StoresKeepHistory(settings, s, s');
    if v.Consumed? {
      assert Mirrored(c);
      IssueKeepsHistory(settings, s', e.id, ph.req, ph.plan, "", Some(ph.parent), ph.snap, e.freshJti);
    } else {
      var d := Denial(ConsumeReason(Some(v)), Some(c));
      DenialIsAuditable(settings, s', ph.req, d);
      PhaseKeepsHistory(settings, s', e.id, Auditing(AuditEvent(ph.req, Denied(d)), None));
    }
  }

  lemma FlightOf(settings: Settings, s: State, id: nat)
    requires HistoryInv(settings, s) && id in s.inFlight
    ensures FlightOk(settings, s, s.inFlight[id])
    ensures s.inFlight[id].Validated? ==>
      var ph := s.inFlight[id];
      ph.plan.txn == ph.plan.subject.claims.txn != "" && ph.plan.txn in s.generated + s.idpTxns
  {
    PublishedOf(settings, s);
  }

  /******* The audit-log part of the invariant *******/

  function All(l: Log): seq<Event>
    requires l.disk.Some?
  {
    Records(l.disk.value.pieces)
  }

  // The records no crash can take away.
  function Safe(l: Log): seq<Event>
    requires l.disk.Some? && l.disk.value.synced <= |l.disk.value.pieces|
  {
    Records(l.disk.value.pieces[..l.disk.value.synced])
  }

  ghost predicate Stamped(es: seq<Event>, clock: int) {
    && ZERO_TIME < clock
    && (forall i | 0 <= i < |es| :: es[i].timestamp.Formatted? && ZERO_TIME < es[i].timestamp.nanos <= clock)
    && forall i, j | 0 <= i < j < |es| :: es[i].timestamp.nanos <= es[j].timestamp.nanos
  }

  ghost predicate LogInv(l: Log, up: bool, clock: int) {
    && l.disk.Some? && ValidDisk(l.disk.value)
    && Accepted(All(l)) && Stamped(All(l), clock)
    && (up && !l.poisoned ==> l.prevHash == Tip(All(l)) && l.chainIndex == |All(l)|)
  }

  lemma SafeIsPrefix(l: Log)
    requires l.disk.Some? && ValidDisk(l.disk.value)
    ensures Safe(l) <= All(l)
  {
    RecordsSplit(l.disk.value.pieces, l.disk.value.synced);
  }

  lemma StampedSnoc(es: seq<Event>, e: Event, clock: int, now: int)
    requires Stamped(es, clock) && clock <= now && e.timestamp == Formatted(now)
    ensures Stamped(es + [e], now)
  {
  }

  lemma ChainedIsStamped(l: Log, e: Event, now: int)
    requires e.timestamp == RawText("")
    ensures Chained(l, e, now).timestamp == Formatted(now)
  {
    BoundMeaning("");
  }

  lemma AppendKeepsLog(l: Log, e: Event, clock: int, now: int, lineLength: nat, io: IO)
    requires LogInv(l, true, clock) && clock <= now
    requires e.timestamp == RawText("") && e.eventType != "" && e.reasonCode != ""
    ensures var l' := AppendNext(l, e, now, lineLength, io);
      && LogInv(l', true, now) && Safe(l) <= Safe(l')
      && (AppendStatus(l, lineLength, io).Appended? ==>
            |Safe(l)| <= l.chainIndex && |Safe(l')| == l.chainIndex + 1 && Safe(l')[l.chainIndex] == Chained(l, e, now))
  {
    hide Accepted, Chained, Records, Stamped;
    var status := AppendStatus(l, lineLength, io);
    SafeIsPrefix(l);
    if status.Unhealthy? || status.TooLarge? {
      StampedLater(All(l), clock, now);
    } else {
      var r := Chained(l, e, now);
      var d, d' := l.disk.value, AppendLog.Append(l.disk.value, r, lineLength, io);
      RecordsOfAppend(d, r, lineLength, io);
      AuditRuns.ChainedAcceptedIff(All(l), l, e, now);
      AuditRuns.ChainedTip(All(l), l, e, now);
      ChainedIsStamped(l, e, now);
      StampedSnoc(All(l), r, clock, now);
      StampedLater(All(l), clock, now);
      assert All(l) + [] == All(l);
      if status.Appended? {
        assert d'.pieces[..d'.synced] == d'.pieces;
      } else {
        assert d'.pieces[..d'.synced] == d.pieces[..d.synced];
      }
    }
  }

  lemma StampedLater(es: seq<Event>, clock: int, now: int)
    requires Stamped(es, clock) && clock <= now
    ensures Stamped(es, now)
  {
  }

  lemma StampedPrefix(es: seq<Event>, n: nat, clock: int)
    requires Stamped(es, clock) && n <= |es|
    ensures Stamped(es[..n], clock)
  {
  }

  // Reopening after a kill or a power failure: what is left is an accepted
  // prefix that still holds every safe record.
  lemma RestartKeepsLog(l: Log, up: bool, clock: int, loss: Loss)
    requires LogInv(l, up, clock) && CanLose(l.disk.value, loss)
    ensures var disk := After(l.disk.value, loss);
      var l' := if Opened(disk).Some? then Opened(disk).value else l.(disk := Some(disk));
      LogInv(l', Opened(disk).Some?, clock) && Safe(l) <= Safe(l')
  {
    hide Accepted, Records, Stamped, Readable;
    if loss.PowerLost? {
      CrashKeepsRecords(l.disk.value, loss.keep, loss.torn);
      var disk := After(l.disk.value, loss);
      var es := Records(disk.pieces);
      AcceptedPrefix(All(l), |es|);
      StampedPrefix(All(l), |es|, clock);
      assert disk.pieces[..disk.synced] == disk.pieces;
    }
  }

  lemma CrashKeepsRecords(d: Disk<Event>, keep: nat, torn: bool)
    requires ValidDisk(d) && CanSurvive(d, keep)
    ensures var es := Records(Crash(d, keep, torn).pieces);
      |es| <= |Records(d.pieces)| && es == Records(d.pieces)[..|es|] && Records(d.pieces[..d.synced]) <= es
  {
    hide Records;
    RecordsOfCrash(d, keep, torn);
    RecordsSplit(d.pieces, keep);
    RecordsSplit(d.pieces[..keep], d.synced);
    assert d.pieces[..keep][..d.synced] == d.pieces[..d.synced];
    assert d.pieces[..keep][d.synced..] == d.pieces[d.synced..keep];
  }

  // The record r describes this mint (in bounded form).
  ghost predicate RecordOf(r: Event, m: Mint) {
    var c := m.claims;
    && r.eventType == BoundEventString("token_minted") && r.reasonCode == BoundEventString("ok")
    && r.agentId == BoundEventString(m.agent.id) && r.workload == BoundEventString(m.workload)
    && r.audience == BoundEventString(m.audience) && r.scope == BoundEventString(c.scope)
    && r.txn == BoundEventString(c.txn) && r.jti == BoundEventString(c.jti)
    && r.principal == BoundEventString(c.sub) && r.depth == Depth(c)
    && var hops := [c.sub] + ActorSubs(c);
       r.hops == BoundHops(if |hops| > MAX_EVENT_HOPS then hops[..MAX_EVENT_HOPS] else hops)
  }

  lemma ChainedDescribes(l: Log, e: Event, now: int, m: Mint)
    requires Describes(e, m)
    ensures RecordOf(Chained(l, e, now), m)
  {
    hide BoundEventString, ActorSubs;
  }

  // Every released token has its record, after its parent's.
  ghost predicate ReleasedOk(mints: seq<Mint>, released: map<nat, nat>, safe: seq<Event>) {
    forall k | k in released ::
      && k < |mints| && 1 <= released[k] <= |safe|
      && RecordOf(safe[released[k] - 1], mints[k])
      && (mints[k].parent.Some? ==> mints[k].parent.value in released && released[mints[k].parent.value] < released[k])
  }

  ghost predicate AuditInv(s: State) {
    && LogInv(s.log, s.up, s.clock)
    && ReleasedOk(s.mints, s.released, Safe(s.log))
  }

  // A mint is audited by one exchange, once.
  ghost predicate FlightsDistinct(s: State) {
    && (forall id | id in s.inFlight && s.inFlight[id].Auditing? && s.inFlight[id].mint.Some? ::
          s.inFlight[id].mint.value < |s.mints| && s.inFlight[id].mint.value !in s.released)
    && forall a, b | a in s.inFlight && b in s.inFlight && a != b ::
         s.inFlight[a].Auditing? && s.inFlight[b].Auditing? && s.inFlight[a].mint.Some? ==>
           s.inFlight[a].mint != s.inFlight[b].mint
  }

  lemma ReleasedGrow(mints: seq<Mint>, mints': seq<Mint>, released: map<nat, nat>, safe: seq<Event>, safe': seq<Event>)
    requires ReleasedOk(mints, released, safe) && mints <= mints' && safe <= safe'
    ensures ReleasedOk(mints', released, safe')
  {
    hide RecordOf;
    forall k | k in released ensures
      && k < |mints'| && 1 <= released[k] <= |safe'|
      && RecordOf(safe'[released[k] - 1], mints'[k])
      && (mints'[k].parent.Some? ==>
            mints'[k].parent.value in released && released[mints'[k].parent.value] < released[k])
    {
      assert mints'[k] == mints[k] && safe'[released[k] - 1] == safe[released[k] - 1];
    }
  }

  /******* The whole invariant *******/

  ghost predicate Inv(settings: Settings, s: State) {
    HistoryInv(settings, s) && ReplayInv(s) && AuditInv(s) && FlightsDistinct(s)
  }

  // What appending one more record does to the released tokens.
  lemma ReleaseKeepsOk(mints: seq<Mint>, released: map<nat, nat>, safe: seq<Event>, k: nat, index: nat)
    requires ReleasedOk(mints, released, safe) && k < |mints| && k !in released
    requires 1 <= index <= |safe| && RecordOf(safe[index - 1], mints[k])
    requires mints[k].parent.Some? ==> mints[k].parent.value in released && released[mints[k].parent.value] < index
    ensures ReleasedOk(mints, released[k := index], safe)
  {
    hide RecordOf;
  }

  // A record for a mint whose parent has one.
  lemma RecordedKeepsReleased(l: Log, clock: int, mints: seq<Mint>, released: map<nat, nat>,
                              event: Event, k: nat, now: int, lineLength: nat, io: IO)
    requires LogInv(l, true, clock) && clock <= now && event.timestamp == RawText("") && event.reasonCode != ""
    requires ReleasedOk(mints, released, Safe(l))
    requires k < |mints| && k !in released && Describes(event, mints[k])
    requires mints[k].parent.Some? ==> mints[k].parent.value in released
    requires AppendStatus(l, lineLength, io).Appended?
    ensures var l' := AppendNext(l, event, now, lineLength, io);
      LogInv(l', true, now) && ReleasedOk(mints, released[k := l.chainIndex + 1], Safe(l'))
  {
    hide RecordOf, LogInv, Chained, BoundEventString, Safe, AppendNext, All, ActorSubs, Depth, AppendStatus;
    var l' := AppendNext(l, event, now, lineLength, io);
    AppendKeepsLog(l, event, clock, now, lineLength, io);
    LogHasDisk(l, true, clock);
    LogHasDisk(l', true, now);
    ReleasedGrow(mints, mints, released, Safe(l), Safe(l'));
    ChainedDescribes(l, event, now, mints[k]);
    BelowSafe(mints, released, Safe(l));
    ReleaseKeepsOk(mints, released, Safe(l'), k, l.chainIndex + 1);
  }

  // Any other append.
  lemma AppendKeepsReleased(l: Log, clock: int, mints: seq<Mint>, released: map<nat, nat>,
                            event: Event, now: int, lineLength: nat, io: IO)
    requires LogInv(l, true, clock) && clock <= now
    requires event.timestamp == RawText("") && event.eventType != "" && event.reasonCode != ""
    requires ReleasedOk(mints, released, Safe(l))
    ensures var l' := AppendNext(l, event, now, lineLength, io);
      LogInv(l', true, now) && ReleasedOk(mints, released, Safe(l'))
  {
    hide ReleasedOk, LogInv, Chained, Safe, AppendNext, AppendStatus;
    AppendKeepsLog(l, event, clock, now, lineLength, io);
    LogHasDisk(l, true, clock);
    LogHasDisk(AppendNext(l, event, now, lineLength, io), true, now);
    ReleasedGrow(mints, mints, released, Safe(l), Safe(AppendNext(l, event, now, lineLength, io)));
  }

  // What the exchange about to be audited carries.
  lemma AuditingOf(settings: Settings, s: State, id: nat)
    requires HistoryInv(settings, s) && FlightsDistinct(s) && id in s.inFlight && s.inFlight[id].Auditing?
    ensures var ph := s.inFlight[id];
      && ph.event.timestamp == RawText("") && ph.event.eventType != "" && ph.event.reasonCode != ""
      && (ph.mint.Some? ==>
            && ph.mint.value < |s.mints| && ph.mint.value !in s.released
            && Describes(ph.event, s.mints[ph.mint.value])
            && var parent := s.mints[ph.mint.value].parent; parent.Some? ==> parent.value in s.released)
  {
    hide HistoryInv, HopOk, Describes;
    FlightOf(settings, s, id);
    if s.inFlight[id].mint.Some? {
      OriginOf(settings, s, s.inFlight[id].mint.value);
    }
  }

  lemma WriteAuditKeepsReleased(settings: Settings, s: State, e: Step)
    requires HistoryInv(settings, s) && AuditInv(s) && FlightsDistinct(s)
    requires e.WriteAudit? && Enabled(settings, s, e)
    ensures AuditInv(WriteAuditNext(s, e))
    ensures forall k | k in WriteAuditNext(s, e).released :: k < |s.mints|
  {
    hide HistoryInv, ReleasedOk, LogInv, Safe, AppendNext, AppendStatus, Describes, FlightsDistinct;
    var ph := s.inFlight[e.id];
    AuditingOf(settings, s, e.id);
    PublishedOf(settings, s);
    AppendKeepsReleased(s.log, s.clock, s.mints, s.released, ph.event, e.now, e.lineLength, e.io);
    if AppendStatus(s.log, e.lineLength, e.io).Appended? && ph.mint.Some? {
      RecordedKeepsReleased(s.log, s.clock, s.mints, s.released, ph.event, ph.mint.value, e.now, e.lineLength, e.io);
    }
  }

  lemma BelowSafe(mints: seq<Mint>, released: map<nat, nat>, safe: seq<Event>)
    requires ReleasedOk(mints, released, safe)
    ensures forall k | k in released :: released[k] <= |safe|
  {
  }

  lemma WriteAuditKeepsFlights(s: State, e: Step)
    requires FlightsDistinct(s) && e.WriteAudit? && e.id in s.inFlight && s.inFlight[e.id].Auditing?
    ensures FlightsDistinct(WriteAuditNext(s, e))
  {
    hide AppendNext, AppendStatus;
  }

  lemma LogHasDisk(l: Log, up: bool, clock: int)
    requires LogInv(l, up, clock)
    ensures l.disk.Some? && ValidDisk(l.disk.value)
  {
  }

  lemma OriginOf(settings: Settings, s: State, k: nat)
    requires HistoryInv(settings, s) && k < |s.mints|
    ensures OriginOk(s, k) && HopOk(s.published, s.mints[k])
  {
  }

  lemma WriteAuditKeepsInv(settings: Settings, s: State, e: Step)
    requires Inv(settings, s) && e.WriteAudit? && Enabled(settings, s, e)
    ensures Inv(settings, WriteAuditNext(s, e))
  {
    hide HistoryInv, ReplayInv, AuditInv, FlightsDistinct, AppendNext, AppendStatus;
    WriteAuditKeepsReleased(settings, s, e);
    WriteAuditKeepsFlights(s, e);
    PublishedOf(settings, s);
    StoresKeepHistory(settings, s, WriteAuditNext(s, e));
    OthersKept(s, WriteAuditNext(s, e));
  }

  lemma IssueKeepsFlights(settings: Settings, s: State, id: nat, req: Request, plan: Plan,
                          parent: Option<nat>, snap: nat, ring: Keyrings.Ring, freshJti: string)
    requires ring.active in ring.byKid && FlightsDistinct(s) && forall k | k in s.released :: k < |s.mints|
    ensures var s' := Issue(settings, s, id, req, plan, parent, snap, ring, freshJti);
      && FlightsDistinct(s') && s.mints <= s'.mints
      && s' == s.(mints := s'.mints, inFlight := s'.inFlight)
  {
    hide Finish, AuditEvent;
  }

  lemma PreparedHasSigner(settings: Settings, i: Identity, req: Request, now: int, freshTxn: string)
    ensures Prepare(settings, i, req, now, freshTxn).Ok? ==> i.signer.Some?
  {
    hide Narrow, AppendChain, Authorize;
  }

  lemma AuditedKeepsFlights(s: State, id: nat, e: Event)
    requires FlightsDistinct(s)
    ensures FlightsDistinct(Audited(s, id, e, None))
  {
  }

  lemma ValidatedKeepsFlights(s: State, id: nat, ph: Phase)
    requires FlightsDistinct(s) && ph.Validated?
    ensures FlightsDistinct(s.(inFlight := s.inFlight[id := ph]))
  {
  }

  lemma BeginKeepsInv(settings: Settings, s: State, e: Step)
    requires Inv(settings, s) && Published(s) && e.Begin? && Enabled(settings, s, e)
    ensures Inv(settings, BeginNext(settings, s, e))
  {
    hide HistoryInv, ReplayInv, LogInv, ReleasedOk, Safe, Prepare, FreshTxn, FreshJti, Honest, Issue, FlightsDistinct,
      AuditEvent;
    LogHasDisk(s.log, s.up, s.clock);
    BeginKeepsHistory(settings, s, e);
    PublishedOf(settings, s);
    var snap := |s.published| - 1;
    PreparedHasSigner(settings, s.published[snap], e.req, e.now, e.freshTxn);
    match Prepare(settings, s.published[snap], e.req, e.now, e.freshTxn) {
      case Err(d) => AuditedKeepsFlights(s, e.id, AuditEvent(e.req, Denied(d)));
      case Ok(plan) =>
        if plan.subject.fromSts {
          ValidatedKeepsFlights(s, e.id, Validated(e.req, plan, e.parent, snap));
        } else {
          var noted := NoteTxn(s, plan.subject.claims.txn, e.freshTxn);
          SameFlights(s, noted);
          IssueKeepsFlights(settings, noted, e.id, e.req, plan, None, snap, s.published[snap].signer.value, e.freshJti);
        }
    }
    OthersKept(s, BeginNext(settings, s, e));
    ReleasedGrow(s.mints, BeginNext(settings, s, e).mints, s.released, Safe(s.log), Safe(s.log));
  }

  lemma ConsumeKeepsInv(settings: Settings, s: State, e: Step)
    requires Inv(settings, s) && Published(s) && SnapsValid(s) && e.Consume? && Enabled(settings, s, e)
    ensures Inv(settings, ConsumeNext(settings, s, e))
  {
    hide HistoryInv, ReplayInv, LogInv, ReleasedOk, Safe, FreshJti, Issue, FlightsDistinct, AuditEvent,
      Replay.ConsumeVerdict, Replay.ConsumeNext;
    LogHasDisk(s.log, s.up, s.clock);
    ConsumeKeepsHistory(settings, s, e);
    PublishedOf(settings, s);
    ConsumeKeepsFlights(settings, s, e);
    ReleasedGrow(s.mints, ConsumeNext(settings, s, e).mints, s.released, Safe(s.log), Safe(s.log));
  }

  lemma ConsumeKeepsFlights(settings: Settings, s: State, e: Step)
    requires FlightsDistinct(s) && forall k | k in s.released :: k < |s.mints|
    requires Published(s) && SnapsValid(s) && e.Consume? && Enabled(settings, s, e)
    ensures var s' := ConsumeNext(settings, s, e);
      && FlightsDistinct(s') && s.mints <= s'.mints
      && s'.log == s.log && s'.released == s.released && s'.up == s.up && s'.clock == s.clock
  {
    hide FreshJti, Issue, FlightsDistinct, AuditEvent, Replay.ConsumeVerdict, Replay.ConsumeNext;
    var ph := s.inFlight[e.id];
    var c := ph.plan.subject.claims;
    var cache := Replay.Cache(s.replay.seen, Some(s.replay.disk));
    var v := Replay.ConsumeVerdict(cache, c.jti, c.exp, [], Unix(e.now), e.io);
    var cache' := Replay.ConsumeNext(cache, c.jti, c.exp, [], Unix(e.now), e.io);
    var s' := s.(replay := ReplayRuns.Up(cache'.seen, cache'.log.value));
    SameFlights(s, s');
    if v.Consumed? {
      IssueKeepsFlights(settings, s', e.id, ph.req, ph.plan, Some(ph.parent), ph.snap,
                        s.published[ph.snap].signer.value, e.freshJti);
    } else {
      AuditedKeepsFlights(s', e.id, AuditEvent(ph.req, Denied(Denial(ConsumeReason(Some(v)), Some(c)))));
    }
  }

  lemma SpendProofKeepsInv(settings: Settings, s: State, e: Step)
    requires Inv(settings, s) && Published(s) && SnapsValid(s) && e.SpendProof? && Enabled(settings, s, e)
    ensures Inv(settings, SpendProofNext(s, e))
  {
    hide HistoryInv, AuditInv, FlightsDistinct, Replay.ConsumeVerdict, Replay.ConsumeNext;
    var s' := SpendProofNext(s, e);
    var t := ReplayRuns.Consume(Gateway.ReplayJti(e.jti), e.iat, [e.jti], Unix(e.now), e.io);
    ReplayRuns.StepKeepsDiskValid(s.replay, t, s'.replay);
    SameAudit(s, s');
    SameFlights(s, s');
    PublishedOf(settings, s);
    StoresKeepHistory(settings, s, s');
  }

  lemma DenyEarlyKeepsInv(settings: Settings, s: State, e: Step)
    requires Inv(settings, s) && Published(s) && SnapsValid(s) && e.DenyEarly? && Enabled(settings, s, e)
    ensures Inv(settings, Next(settings, s, e))
  {
    hide HistoryInv, ReplayInv, LogInv, ReleasedOk, Safe, AppendNext, FlightsDistinct;
    var s' := Next(settings, s, e);
    LogHasDisk(s.log, s.up, s.clock);
    AppendKeepsReleased(s.log, s.clock, s.mints, s.released, EarlyDenial(e.reason), e.now, e.lineLength, e.io);
    SameFlights(s, s');
    PublishedOf(settings, s);
    StoresKeepHistory(settings, s, s');
    OthersKept(s, s');
  }

  lemma ReloadKeepsInv(settings: Settings, s: State, e: Step)
    requires Inv(settings, s) && Published(s) && SnapsValid(s) && e.Reload? && Enabled(settings, s, e)
    ensures Inv(settings, Next(settings, s, e))
  {
    hide HistoryInv, ReplayInv, AuditInv, FlightsDistinct, Reloaded, ValidIdentity;
    var s' := Next(settings, s, e);
    ReloadedValid(s.published[|s.published| - 1], e.reg, e.ring, e.dl);
    PublishedOf(settings, s);
    StoresKeepHistory(settings, s, s');
    OthersKept(s, s');
    SameFlights(s, s');
    SameAudit(s, s');
  }

  lemma RestartKeepsInv(settings: Settings, s: State, e: Step)
    requires Inv(settings, s) && Published(s) && SnapsValid(s) && e.Restart? && Enabled(settings, s, e)
    ensures Inv(settings, Next(settings, s, e))
  {
    hide HistoryInv, ReplayInv, LogInv, ReleasedOk, Safe, Opened, ValidIdentity, ReplayRuns.Reopen;
    var s' := Next(settings, s, e);
    LogHasDisk(s.log, s.up, s.clock);
    RestartKeepsLog(s.log, s.up, s.clock, e.auditLoss);
    var disk := After(s.log.disk.value, e.auditLoss);
    LogHasDisk(s'.log, Opened(disk).Some?, s.clock);
    ReleasedGrow(s.mints, s.mints, s.released, Safe(s.log), Safe(s'.log));
    DownLog(s'.log, Opened(disk).Some?, s'.up, s.clock);
    RestartReplay(s, s', e);
    PublishedOf(settings, s);
    StoresKeepHistory(settings, s, s');
  }

  // Every step keeps the invariant.
  lemma NextKeepsInv(settings: Settings, s: State, e: Step)
    requires Inv(settings, s) && Published(s) && SnapsValid(s) && Enabled(settings, s, e)
    ensures Inv(settings, Next(settings, s, e))
  {
    hide Inv, BeginNext, ConsumeNext, WriteAuditNext, SpendProofNext, RestartNext;
    match e
    case Begin(_, _, _, _, _, _) => BeginKeepsInv(settings, s, e);
    case Consume(_, _, _, _) => ConsumeKeepsInv(settings, s, e);
    case WriteAudit(_, _, _, _) => WriteAuditKeepsInv(settings, s, e);
    case SpendProof(_, _, _, _) => SpendProofKeepsInv(settings, s, e);
    case DenyEarly(_, _, _, _) => DenyEarlyKeepsInv(settings, s, e);
    case Reload(_, _, _) => ReloadKeepsInv(settings, s, e);
    case Restart(_, _, _, _) => RestartKeepsInv(settings, s, e);
  }

  lemma SameFlights(s: State, s': State)
    requires FlightsDistinct(s) && s'.inFlight == s.inFlight && s'.mints == s.mints && s'.released == s.released
    ensures FlightsDistinct(s')
  {
  }

  lemma SameAudit(s: State, s': State)
    requires AuditInv(s) && s'.log == s.log && s'.up == s.up && s'.clock == s.clock
    requires s'.mints == s.mints && s'.released == s.released
    ensures AuditInv(s')
  {
  }

  lemma OthersKept(s: State, s': State)
    requires ReplayInv(s) && s'.replay == s.replay
    ensures ReplayInv(s')
  {
  }

  lemma DownLog(l: Log, up: bool, up': bool, clock: int)
    requires LogInv(l, up, clock) && (up' ==> up)
    ensures LogInv(l, up', clock)
  {
  }

  lemma ReloadedValid(i: Identity, reg: Loaded<Registry>, ring: Loaded<Keyrings.Ring>, dl: Loaded<Denylist>)
    requires ValidIdentity(i)
    requires (reg.Loaded? ==> ValidRegistry(reg.value)) && (ring.Loaded? ==> Keyrings.ValidRing(ring.value))
    ensures ValidIdentity(Reloaded(i, reg, ring, dl))
  {
  }

  lemma RestartReplay(s: State, s': State, e: Step)
    requires ReplayInv(s) && e.Restart? && CanLose(s.replay.disk, e.replayLoss)
    requires s'.replay == ReplayRuns.Reopen(After(s.replay.disk, e.replayLoss), Unix(e.now))
    ensures ReplayInv(s')
  {
    ReplayRuns.StepKeepsDiskValid(s.replay, ReplayRuns.Restart(Unix(e.now), e.replayLoss), s'.replay);
  }

  /******* Runs *******/

  // A first start: nothing minted, empty files, a clock past year 1.
  ghost predicate Initial(s: State) {
    && |s.published| == 1 && ValidIdentity(s.published[0]) && s.up
    && s.replay == ReplayRuns.Up(map[], Disk([], 0))
    && s.log == Log(Some(Disk([], 0)), GENESIS, 0, false)
    && s.inFlight == map[] && s.mints == [] && s.released == map[]
    && s.generated == {} && s.idpTxns == {} && s.clock > ZERO_TIME
  }

  ghost predicate StepTo(settings: Settings, s: State, e: Step, s': State) {
    Published(s) && SnapsValid(s) && Enabled(settings, s, e) && s' == Next(settings, s, e)
  }

  ghost predicate IsRun(settings: Settings, states: seq<State>, steps: seq<Step>) {
    && |states| == |steps| + 1 && Initial(states[0])
    && forall i | 0 <= i < |steps| :: StepTo(settings, states[i], steps[i], states[i + 1])
  }

  lemma InitialInv(settings: Settings, s: State)
    requires Initial(s)
    ensures Inv(settings, s)
  {
    assert Records<Event>([]) == [];
  }

  lemma {:induction false} RunKeepsInv(settings: Settings, states: seq<State>, steps: seq<Step>, n: nat)
    requires IsRun(settings, states, steps) && n < |states|
    ensures Inv(settings, states[n]) && Published(states[n]) && SnapsValid(states[n])
  {
    hide Inv, Initial, Published, SnapsValid, Enabled, Next;
    if n == 0 {
      InitialInv(settings, states[0]);
    } else {
      RunKeepsInv(settings, states, steps, n - 1);
      assert StepTo(settings, states[n - 1], steps[n - 1], states[n - 1 + 1]);
      NextKeepsInv(settings, states[n - 1], steps[n - 1]);
    }
    InvAllowsSteps(settings, states[n]);
  }

  // The side conditions of a step always hold, so no run gets stuck on them.
  lemma InvAllowsSteps(settings: Settings, s: State)
    requires Inv(settings, s)
    ensures Published(s) && SnapsValid(s)
  {
    hide MintsOk, NamesDistinct, ReplayInv, AuditInv, FlightsDistinct;
    HistorySnaps(settings, s);
  }
}
