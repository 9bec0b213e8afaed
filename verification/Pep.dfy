/** One request at visor-gateway, from the rate limiter to the audit record
    (internal/gateway/gateway.go handlePEP, writeDeny, record). */
module Pep {
  import opened Wrappers
  import opened Strings
  import opened Claims
  import opened AppendLog
  import opened Audit
  import opened VisorAdapter
  import Gateway
  import Jws
  import Nonce
  import RateLimit
  import Replay
  import Session
  import Sts

  datatype Settings = Settings(audience: string, issuer: string, short: bool)

  // `token` is None without a bearer; `ath` is the hash of its text.
  datatype Request = Request(token: Option<Jws.Token>, proof: Gateway.DPoPHeader, ath: string,
                             httpMethod: string, uri: Option<string>)

  // What the environment supplies: the keys and the denylist as re-read now
  // (None: unreadable; no denylist need be configured), clock readings, random nonces, the outcomes of file writes.
  datatype Env = Env(limitNow: real, keys: Option<seq<Jws.Jwk>>, verifyNow: int,
                     denylist: Option<Option<Sts.Denylist>>, now: int, replayNow: int, replayIo: IO,
                     challenge: string, challengeNow: int,
                     auditNow: int, lineLength: nat, auditIo: IO, nextNonce: string, nextNow: int)

  datatype Reason =
    | RateLimited | MissingToken | InvalidToken | Incomplete | PrincipalDenied | AgentDenied | DenylistUnavailable
    | DPoP(outcome: Gateway.Outcome)

  function Code(r: Reason): (code: string)
    ensures code != ""
  {
    match r
    case RateLimited => "rate_limited"
    case MissingToken => "missing_bearer"
    case InvalidToken => "invalid_token"
    case Incomplete => "incomplete_chain"
    case PrincipalDenied => "principal_denied"
    case AgentDenied => "agent_denied"
    case DenylistUnavailable => "denylist_unavailable"
    case DPoP(o) =>
      match o
      case MissingCnf => "missing_cnf"
      case Unavailable => "dpop_unavailable"
      case NoProof => "missing_dpop"
      case BadProof => "invalid_dpop_proof"
      case UseNonce => "use_dpop_nonce"
      case ReplayedProof => "replayed_dpop"
      case Admitted => "ok"
  }

  datatype Verdict = Pass(chain: ActorChain, mapping: Mapping) | Refuse(reason: Reason, shown: Option<Mapping>)

  datatype Reply = Allowed(mapping: Mapping) | Refused(reason: Reason) | FailedClosed

  datatype Metrics = Metrics(allowed: nat, denied: nat, rateLimited: nat)

  datatype ServerState = ServerState(bucket: Option<RateLimit.Bucket>, gate: Gateway.Gate, log: Option<Log>,
                                     metrics: Metrics)

  /******* The decision *******/

  // Agent-position hops that are denied; hop 0 is the principal.
  predicate SomeAgentDenied(d: Sts.Denylist, hops: seq<string>) {
    exists i :: 0 < i < |hops| && Sts.Denies(d.agents, hops[i])
  }

  function DenyReason(list: Option<Option<Sts.Denylist>>, m: Mapping): Option<Reason> {
    match list
    case None => None
    case Some(None) => Some(DenylistUnavailable)
    case Some(Some(d)) =>
      if Sts.Denies(d.principals, m.principal) then Some(PrincipalDenied)
      else if Sts.Denies(d.agents, m.actingAgent) || SomeAgentDenied(d, m.hops) then Some(AgentDenied)
      else None
  }

  method DenyIdentity(list: Option<Option<Sts.Denylist>>, m: Mapping) returns (r: Option<Reason>)
    ensures r == DenyReason(list, m)
  {
    if list.None? {
      return None;
    }
    if list.value.None? {
      return Some(DenylistUnavailable);
    }
    var d := list.value.value;
    if Sts.Denies(d.principals, m.principal) {
      return Some(PrincipalDenied);
    }
    if Sts.Denies(d.agents, m.actingAgent) {
      return Some(AgentDenied);
    }
    for i := 0 to |m.hops|
      invariant forall k | 0 < k < i :: !Sts.Denies(d.agents, m.hops[k])
    {
      if m.hops[i] == "" || i == 0 {
        continue;
      }
      if Sts.Denies(d.agents, m.hops[i]) {
        return Some(AgentDenied);
      }
    }
    return None;
  }

  // The mapping a refused token is audited with: none unless its signature and
  // issuer were good and it names a transaction or an id.
  function SeenMapping(s: Settings, keys: seq<Jws.Jwk>, t: Jws.Token): Option<Mapping> {
    match Jws.Verify(t, keys)
    case Err(_) => None
    case Ok(c) =>
      if c.iss == "" || (s.issuer != "" && c.iss != s.issuer) || (c.txn == "" && c.jti == "") then None
      else Some(FromChain(ChainFromClaims(c), s.short))
  }

  function ProofOf(req: Request, c: ActorChain, now: int): Result<Gateway.Proof, Gateway.ProofError> {
    Gateway.Verify(req.proof, req.ath, ConfirmJKT(c.claims), req.httpMethod, req.uri, now)
  }

  function DPoPGate(g: Gateway.Gate, jkt: string, proof: Result<Gateway.Proof, Gateway.ProofError>, env: Env)
    : (Gateway.Outcome, Gateway.Gate)
  {
    var o := Gateway.DPoPOutcome(g, jkt, proof, env.now, env.replayNow, env.replayIo);
    var after := Gateway.DPoPNext(g, jkt, proof, env.now, env.replayNow, env.replayIo);
    (o, if Gateway.Challenges(o) then after.(issued := Nonce.IssueNext(after.issued, env.challenge, env.challengeNow))
        else after)
  }

  // Everything after the limiter and before the audit record.
  function Judged(s: Settings, g: Gateway.Gate, req: Request, env: Env): (Verdict, Gateway.Gate) {
    if req.token.None? then (Refuse(MissingToken, None), g)
    else if env.keys.None? then (Refuse(InvalidToken, None), g)
    else
      match VerifyChain(req.token.value, env.keys.value, s.issuer, s.audience, env.verifyNow)
      case Err(_) => (Refuse(InvalidToken, SeenMapping(s, env.keys.value, req.token.value)), g)
      case Ok(chain) =>
        var m := FromChain(chain, s.short);
        if !VisorAdapter.Complete(m) then (Refuse(Incomplete, Some(m)), g)
        else if DenyReason(env.denylist, m).Some? then (Refuse(DenyReason(env.denylist, m).value, Some(m)), g)
        else
          var (o, g') := DPoPGate(g, ConfirmJKT(chain.claims), ProofOf(req, chain, env.now), env);
          (if o.Admitted? then Pass(chain, m) else Refuse(DPoP(o), Some(m)), g')
  }

  function AuditEvent(s: Settings, v: Verdict): Event {
    match v
    case Pass(c, m) =>
      Event(RawText(""), "identity_allowed", "ok", m.sessionId, c.jti, m.actingAgent, "", m.principal,
            s.audience, m.scope, 0, m.hops, Digest.Text(""), Digest.Text(""), 0)
    case Refuse(r, None) =>
      Event(RawText(""), "identity_denied", Code(r), "", "", "", "", "", s.audience, "", 0, [],
            Digest.Text(""), Digest.Text(""), 0)
    case Refuse(r, Some(m)) =>
      Event(RawText(""), "identity_denied", Code(r), m.sessionId, m.jti, m.actingAgent, "", m.principal,
            s.audience, m.scope, 0, m.hops, Digest.Text(""), Digest.Text(""), 0)
  }

  // record(): without a logger every append fails.
  function Recorded(log: Option<Log>, e: Event, env: Env): (bool, Option<Log>) {
    if log.None? then (false, None)
    else (AppendStatus(log.value, env.lineLength, env.auditIo).Appended?,
          Some(AppendNext(log.value, e, env.auditNow, env.lineLength, env.auditIo)))
  }

  // The reply, once its record is written; never before.
  function Answered(s: Settings, st: ServerState, v: Verdict, env: Env): (Reply, ServerState) {
    var (ok, log) := Recorded(st.log, AuditEvent(s, v), env);
    var st' := st.(log := log);
    if !ok then (FailedClosed, st'.(metrics := st.metrics.(denied := st.metrics.denied + 1)))
    else
      match v
      case Pass(_, m) =>
        (Allowed(m), st'.(metrics := st.metrics.(allowed := st.metrics.allowed + 1),
                          gate := st.gate.(issued := Nonce.IssueNext(st.gate.issued, env.nextNonce, env.nextNow))))
      case Refuse(r, _) =>
        (Refused(r), st'.(metrics := st.metrics.(denied := st.metrics.denied + 1,
                                     rateLimited := st.metrics.rateLimited + if r.RateLimited? then 1 else 0)))
  }

  function Limited(bucket: Option<RateLimit.Bucket>, now: real): (bool, Option<RateLimit.Bucket>) {
    if bucket.None? then (true, None)
    else (RateLimit.Allows(bucket.value, now), Some(RateLimit.Next(bucket.value, now)))
  }

  function Handled(s: Settings, st: ServerState, req: Request, env: Env): (Reply, ServerState) {
    var (ok, bucket) := Limited(st.bucket, env.limitNow);
    if !ok then Answered(s, st.(bucket := bucket), Refuse(RateLimited, None), env)
    else
      var (v, gate) := Judged(s, st.gate, req, env);
      Answered(s, st.(bucket := bucket, gate := gate), v, env)
  }

  class Server {
    const settings: Settings
    const limiter: RateLimit.TokenBucket?
    const dpop: Gateway.DPoPGate
    const audit: Logger?
    var metrics: Metrics

    constructor (settings: Settings, limiter: RateLimit.TokenBucket?, dpop: Gateway.DPoPGate, audit: Logger?)
      ensures this.settings == settings && this.limiter == limiter && this.dpop == dpop && this.audit == audit
      ensures metrics == Metrics(0, 0, 0)
    {
      this.settings, this.limiter, this.dpop, this.audit := settings, limiter, dpop, audit;
      metrics := Metrics(0, 0, 0);
    }

    ghost function State(): ServerState
      reads this, limiter, dpop, dpop.nonces, dpop.replay, audit
    {
      ServerState(if limiter == null then None else Some(limiter.State()), dpop.State(),
                if audit == null then None else Some(audit.State()), metrics)
    }

    method Handle(req: Request, env: Env) returns (reply: Reply)
      modifies this`metrics, dpop.nonces, if limiter == null then {} else {limiter},
        if dpop.replay == null then {} else {dpop.replay}, if audit == null then {} else {audit}
      ensures (reply, State()) == Handled(settings, old(State()), req, env)
    {
      hide Judged, Answered, RateLimit.Next, RateLimit.Allows;
      var ok := RateLimit.AllowThrough(limiter, env.limitNow);
      var v := Refuse(RateLimited, None);
      if ok {
        v := Judge(req, env);
      }
      reply := Answer(v, env);
    }

    // The tail of handlePEP and of writeDeny: the record, then the reply.
    method Answer(v: Verdict, env: Env) returns (reply: Reply)
      modifies this`metrics, dpop.nonces, if audit == null then {} else {audit}
      ensures (reply, State()) == Answered(settings, old(State()), v, env)
    {
      hide AppendNext, AppendStatus, AuditEvent, Nonce.IssueNext;
      if audit == null {
        metrics := metrics.(denied := metrics.denied + 1);
        return FailedClosed;
      }
      var status := audit.Append(AuditEvent(settings, v), env.auditNow, env.lineLength, env.auditIo);
      if !status.Appended? {
        metrics := metrics.(denied := metrics.denied + 1);
        return FailedClosed;
      }
      match v {
        case Pass(_, m) =>
          metrics := metrics.(allowed := metrics.allowed + 1);
          dpop.nonces.Issue(env.nextNonce, env.nextNow);
          return Allowed(m);
        case Refuse(r, _) =>
          metrics := metrics.(denied := metrics.denied + 1,
                              rateLimited := metrics.rateLimited + if r.RateLimited? then 1 else 0);
          return Refused(r);
      }
    }

    method Judge(req: Request, env: Env) returns (v: Verdict)
      modifies dpop.nonces, if dpop.replay == null then {} else {dpop.replay}
      ensures (v, dpop.State()) == Judged(settings, old(dpop.State()), req, env)
    {
      hide VerifyChain, FromChain, VisorAdapter.Complete, Gateway.DPoPOutcome, Gateway.DPoPNext, Gateway.Verify,
        Nonce.IssueNext;
      if req.token.None? {
        return Refuse(MissingToken, None);
      }
      if env.keys.None? {
        return Refuse(InvalidToken, None);
      }
      var keys := env.keys.value;
      var verified := VerifyChain(req.token.value, keys, settings.issuer, settings.audience, env.verifyNow);
      if verified.Err? {
        return Refuse(InvalidToken, SeenMapping(settings, keys, req.token.value));
      }
      var chain := verified.value;
      var m := FromChain(chain, settings.short);
      if !VisorAdapter.Complete(m) {
        return Refuse(Incomplete, Some(m));
      }
      var denied := DenyIdentity(env.denylist, m);
      if denied.Some? {
        return Refuse(denied.value, Some(m));
      }
      var o := dpop.RequireDPoP(ConfirmJKT(chain.claims), ProofOf(req, chain, env.now), env.now,
                                env.replayNow, env.replayIo, env.challenge, env.challengeNow);
      return if o.Admitted? then Pass(chain, m) else Refuse(DPoP(o), Some(m));
    }
  }

  /******* What an allowed request has passed *******/

  // Everything at once, whatever the state: a signed token for this audience
  // inside its window, a complete mapping the session will accept, no denied
  // principal or hop, a proof bound to the token's key under a live nonce and
  // an unused jti, and its own record in the audit log.
  lemma AllowedMeans(s: Settings, st: ServerState, req: Request, env: Env)
    requires Handled(s, st, req, env).0.Allowed?
    ensures req.token.Some? && req.token.value.Signed? && env.keys.Some?
    ensures var c := req.token.value.claims;
      var chain := ChainFromClaims(c);
      var m := FromChain(chain, s.short);
      && VerifyChain(req.token.value, env.keys.value, s.issuer, s.audience, env.verifyNow) == Ok(chain)
      && c.aud == [s.audience] && ValidateTime(c, env.verifyNow, 0) == Current
      && Handled(s, st, req, env).0.mapping == m && VisorAdapter.Complete(m) && Session.Agrees(m, c)
      && env.denylist != Some(None)
      && (env.denylist.Some? ==>
            && !Sts.Denies(env.denylist.value.value.principals, c.sub)
            && forall a | a in ActorSubs(c) :: !Sts.Denies(env.denylist.value.value.agents, a))
      && ProofOf(req, chain, env.now).Ok? && ConfirmJKT(c) != ""
      && var p := ProofOf(req, chain, env.now).value;
         && Nonce.Live(st.gate.issued, p.nonce, env.now) && p.nonce !in Judged(s, st.gate, req, env).1.issued
         && st.gate.cache.Some?
         && Replay.ConsumeVerdict(st.gate.cache.value, Gateway.ReplayJti(p.jti), p.iat, [p.jti],
                                  env.replayNow, env.replayIo) == Replay.Consumed
         && st.log.Some? && AppendStatus(st.log.value, env.lineLength, env.auditIo) == Appended
         && Handled(s, st, req, env).1.log
              == Some(AppendNext(st.log.value, AuditEvent(s, Pass(chain, m)), env.auditNow,
                                 env.lineLength, env.auditIo))
  {
    hide VerifyChain, ChainFromClaims, FromChain, VisorAdapter.Complete, Session.Agrees, Gateway.Verify,
      Replay.ConsumeVerdict, Replay.ConsumeNext, Nonce.IssueNext, AppendNext, AppendStatus, RateLimit.Next,
      RateLimit.Allows, SeenMapping, ActorSubs;
    var t := req.token.value;
    AcceptedChain(t, env.keys.value, s.issuer, s.audience, env.verifyNow);
    Session.GatewayMappingAccepted(t, env.keys.value, s.issuer, s.audience, env.verifyNow, s.short);
    MappingNames(t.claims, s.short);
    if env.denylist.Some? {
      forall a | a in ActorSubs(t.claims) ensures !Sts.Denies(env.denylist.value.value.agents, a) {
        var i :| 0 <= i < |ActorSubs(t.claims)| && ActorSubs(t.claims)[i] == a;
        assert ([t.claims.sub] + ActorSubs(t.claims))[i + 1] == a;
      }
    }
  }

  lemma MappingNames(c: Claims, short: bool)
    ensures FromChain(ChainFromClaims(c), short).principal == c.sub
    ensures FromChain(ChainFromClaims(c), short).hops == [c.sub] + ActorSubs(c)
    ensures ChainFromClaims(c).claims == c
  {
  }

  /******* Whole sequences of requests *******/

  datatype Call = Call(req: Request, env: Env)

  function After(s: Settings, st: ServerState, calls: seq<Call>): ServerState {
    if calls == [] then st
    else
      var c := calls[|calls| - 1];
      Handled(s, After(s, st, calls[..|calls| - 1]), c.req, c.env).1
  }

  function ReplyAt(s: Settings, st: ServerState, calls: seq<Call>, k: nat): Reply
    requires k < |calls|
  {
    Handled(s, After(s, st, calls[..k]), calls[k].req, calls[k].env).0
  }

  // How many of the first k replies were these.
  function Count(s: Settings, st: ServerState, calls: seq<Call>, k: nat, p: Reply -> bool): nat
    requires k <= |calls|
  {
    if k == 0 then 0 else Count(s, st, calls, k - 1, p) + if p(ReplyAt(s, st, calls, k - 1)) then 1 else 0
  }

  function IsAllowed(): Reply -> bool {
    (r: Reply) => r.Allowed?
  }

  function IsAnswered(): Reply -> bool {
    (r: Reply) => !r.FailedClosed?
  }

  ghost predicate Healthy(st: ServerState) {
    st.log.Some? && st.log.value.disk.Some? && !st.log.value.poisoned
  }

  lemma AnswersAlike(s: Settings, st: ServerState, v: Verdict, env: Env)
    ensures var (r, st') := Answered(s, st, v, env);
      && st'.metrics.allowed == st.metrics.allowed + (if r.Allowed? then 1 else 0)
      && st'.metrics.denied == st.metrics.denied + (if r.Allowed? then 0 else 1)
      && (st.log.Some? <==> st'.log.Some?)
      && (st.log.Some? ==> st'.log.value.chainIndex == st.log.value.chainIndex + (if r.FailedClosed? then 0 else 1))
      && (!r.FailedClosed? ==> Healthy(st)) && (Healthy(st') ==> Healthy(st))
  {
    hide AuditEvent, Nonce.IssueNext, Canonical, PayloadHash;
  }

  lemma HandlesAlike(s: Settings, st: ServerState, req: Request, env: Env)
    ensures var (r, st') := Handled(s, st, req, env);
      && st'.metrics.allowed == st.metrics.allowed + (if r.Allowed? then 1 else 0)
      && st'.metrics.denied == st.metrics.denied + (if r.Allowed? then 0 else 1)
      && (st.log.Some? <==> st'.log.Some?)
      && (st.log.Some? ==> st'.log.value.chainIndex == st.log.value.chainIndex + (if r.FailedClosed? then 0 else 1))
      && (!r.FailedClosed? ==> Healthy(st)) && (Healthy(st') ==> Healthy(st))
  {
    hide Answered, Judged, Limited, Healthy;
    var (ok, bucket) := Limited(st.bucket, env.limitNow);
    var (v, gate) := if ok then Judged(s, st.gate, req, env) else (Refuse(RateLimited, None), st.gate);
    AnswersAlike(s, st.(bucket := bucket, gate := gate), v, env);
    SameHealth(st, st.(bucket := bucket, gate := gate));
  }

  lemma SameHealth(a: ServerState, b: ServerState)
    requires a.log == b.log
    ensures Healthy(a) <==> Healthy(b)
  {
  }

  // The books balance: after any requests the counters count every one, the
  // allowed counter counts exactly those let through, and the log has gained
  // one record for each answer that was given.
  lemma {:induction false} BooksBalance(s: Settings, st: ServerState, calls: seq<Call>, k: nat)
    requires k <= |calls|
    ensures var st' := After(s, st, calls[..k]);
      && st'.metrics.allowed == st.metrics.allowed + Count(s, st, calls, k, IsAllowed())
      && st'.metrics.allowed + st'.metrics.denied == st.metrics.allowed + st.metrics.denied + k
      && (st.log.Some? <==> st'.log.Some?)
      && (st.log.Some? ==> st'.log.value.chainIndex == st.log.value.chainIndex + Count(s, st, calls, k, IsAnswered()))
  {
    hide Handled;
    if k == 0 {
      assert calls[..0] == [];
    } else {
      BooksBalance(s, st, calls, k - 1);
      assert calls[..k][..k - 1] == calls[..k - 1];
      HandlesAlike(s, After(s, st, calls[..k - 1]), calls[k - 1].req, calls[k - 1].env);
    }
  }

  // A log that has failed stays failed: from then on every request, of
  // whatever kind, is refused with "audit unavailable".
  lemma {:induction false} FailsClosedForGood(s: Settings, st: ServerState, calls: seq<Call>, k: nat)
    requires k < |calls| && !Healthy(st)
    ensures !Healthy(After(s, st, calls[..k])) && ReplyAt(s, st, calls, k).FailedClosed?
  {
    hide Handled, Healthy;
    HandlesAlike(s, After(s, st, calls[..k]), calls[k].req, calls[k].env);
    if k == 0 {
      assert calls[..0] == [];
    } else {
      FailsClosedForGood(s, st, calls, k - 1);
      assert calls[..k][..k - 1] == calls[..k - 1];
      HandlesAlike(s, After(s, st, calls[..k - 1]), calls[k - 1].req, calls[k - 1].env);
    }
  }

  // And a write or Sync that fails is what makes it so.
  lemma FailedWriteIsUnhealthy(s: Settings, st: ServerState, req: Request, env: Env)
    requires Healthy(st) && env.lineLength + 1 <= MAX_LINE_BYTES
    ensures Healthy(Handled(s, st, req, env).1) <==> !Handled(s, st, req, env).0.FailedClosed?
  {
    hide AuditEvent, Nonce.IssueNext, Canonical, PayloadHash, Judged, Limited;
  }
}
