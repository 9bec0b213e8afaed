/** One token exchange and the identity snapshot it runs against
    (internal/sts/sts.go, internal/sts/reload.go). */
module Sts {
  import opened Wrappers
  import opened Strings
  import opened Scopes
  import opened Claims
  import opened Jws
  import opened Keyrings
  import opened Registry
  import opened AppendLog
  import opened Replay
  import opened Audit

  datatype Denylist = Denylist(agents: set<string>, workloads: set<string>, principals: set<string>)

  predicate Denies(ids: set<string>, id: string) {
    id != "" && id in ids
  }

  // The triple published under one lock; None is the nil pointer.
  datatype Identity = Identity(registry: Option<Registry>, signer: Option<Ring>, denylist: Option<Denylist>)

  ghost predicate ValidIdentity(i: Identity) {
    && (i.registry.Some? ==> ValidRegistry(i.registry.value))
    && (i.signer.Some? ==> ValidRing(i.signer.value))
  }

  // The part of Config no reload touches. ttl is in nanoseconds.
  datatype Settings = Settings(issuer: string, ttl: int, idpKeys: seq<Jwk>, idpIssuer: string, hasAttestor: bool)

  function Ttl(s: Settings): int {
    MintTtl(s.ttl)
  }

  datatype Workload = Workload(id: string, possessedJkt: string)

  // The actor token is what the attestor says about it.
  datatype ActorToken = BlankActor | Actor(attested: Option<Workload>)

  // `subject` is None when its text is blank.
  datatype Request = Request(
    grantType: string, subject: Option<Token>, actor: ActorToken, audience: string, scope: string,
    requestedTokenType: string, agentId: string, purp: string, confirmJkt: string)

  datatype Reason =
    | InvalidRequest | InvalidActorToken | InvalidSubjectToken | AgentNotRegistered | AgentNotAuthorizedOnWorkload
    | AudienceRefused | ScopeWidening | DepthExceeded | ExpiredToken | ChainIntegrity
    | AgentNotYetValid | AgentExpired | ReplayedToken | AgentDenied | WorkloadDenied | PrincipalDenied
    | MissingCnf | AuditFailed

  function Code(r: Reason): (code: string)
    ensures code != ""
  {
    match r
    case InvalidRequest => "invalid_request"
    case InvalidActorToken => "invalid_actor_token"
    case InvalidSubjectToken => "invalid_subject_token"
    case AgentNotRegistered => "agent_not_registered"
    case AgentNotAuthorizedOnWorkload => "agent_not_authorized_on_workload"
    case AudienceRefused => "audience_not_allowed"
    case ScopeWidening => "scope_widening"
    case DepthExceeded => "depth_exceeded"
    case ExpiredToken => "expired"
    case ChainIntegrity => "chain_integrity"
    case AgentNotYetValid => "agent_not_yet_valid"
    case AgentExpired => "agent_expired"
    case ReplayedToken => "replayed_token"
    case AgentDenied => "agent_denied"
    case WorkloadDenied => "workload_denied"
    case PrincipalDenied => "principal_denied"
    case MissingCnf => "missing_cnf"
    case AuditFailed => "audit_unavailable"
  }

  // A denial carries the subject claims once they are verified.
  datatype Denial = Denial(reason: Reason, subject: Option<Claims>)

  function MapRegistryError(e: RegistryError): Reason {
    match e
    case AgentNotFound => AgentNotRegistered
    case NotAuthorized => AgentNotAuthorizedOnWorkload
    case AudienceNotAllowed => AudienceRefused
    case BeforeWindow => AgentNotYetValid
    case AfterWindow => AgentExpired
    case _ => InvalidRequest
  }

  /******* verifySubject *******/

  datatype Subject = Subject(claims: Claims, fromSts: bool)

  function VerifySubject(s: Settings, ring: Ring, t: Token): Option<Subject> {
    if RingAccepts(ring, t) then
      if t.claims.iss != s.issuer then None else Some(Subject(t.claims, true))
    else
      match Verify(t, s.idpKeys)
      case Err(_) => None
      case Ok(c) => if s.idpIssuer != "" && c.iss != s.idpIssuer then None else Some(Subject(c, false))
  }

  method VerifySubjectToken(s: Settings, ring: Ring, t: Token) returns (r: Option<Subject>)
    requires ValidRing(ring)
    ensures r == VerifySubject(s, ring, t)
  {
    var keys := JwksFrom(ring);
    RingAcceptsIff(ring, keys, t);
    var own := Verify(t, keys);
    if own.Ok? {
      return if own.value.iss != s.issuer then None else Some(Subject(own.value, true));
    }
    var foreign := Verify(t, s.idpKeys);
    if foreign.Ok? {
      return if s.idpIssuer != "" && foreign.value.iss != s.idpIssuer then None
             else Some(Subject(foreign.value, false));
    }
    return None;
  }

  /******* The checks before the replay cache *******/

  datatype Plan = Plan(subject: Subject, agent: Agent, scope: string, txn: string, now: int, workload: Workload)

  const GRANT := "urn:ietf:params:oauth:grant-type:token-exchange"
  const TYPE_JWT := "urn:ietf:params:oauth:token-type:jwt"
  const TYPE_ACCESS := "urn:ietf:params:oauth:token-type:access_token"

  predicate WellFormed(s: Settings, i: Identity, req: Request) {
    && i.signer.Some? && i.registry.Some? && s.hasAttestor && s.issuer != ""
    && (req.grantType == "" || req.grantType == GRANT)
    && req.subject.Some? && !req.actor.BlankActor?
    && !Blank(req.agentId) && !Blank(req.audience)
    && (req.requestedTokenType == "" || req.requestedTokenType == TYPE_JWT || req.requestedTokenType == TYPE_ACCESS)
  }

  function DenyWith(reason: Reason, sub: Option<Subject>): Result<Plan, Denial> {
    Err(Denial(reason, if sub.Some? then Some(sub.value.claims) else None))
  }

  // Everything up to the consume, in the order the code checks it.
  ghost function Prepare(s: Settings, i: Identity, req: Request, now: int, freshTxn: string): Result<Plan, Denial> {
    if !WellFormed(s, i, req) then DenyWith(InvalidRequest, None)
    else
      var sub := VerifySubject(s, i.signer.value, req.subject.value);
      if req.actor.attested.None? then DenyWith(InvalidActorToken, sub)
      else
        var wl := req.actor.attested.value;
        match Authorize(i.registry.value, req.agentId, wl.id, req.audience, now)
        case Err(e) => DenyWith(MapRegistryError(e), sub)
        case Ok(agent) =>
          if i.denylist.Some? && Denies(i.denylist.value.agents, req.agentId) then DenyWith(AgentDenied, sub)
          else if i.denylist.Some? && Denies(i.denylist.value.workloads, wl.id) then DenyWith(WorkloadDenied, sub)
          else if sub.None? then DenyWith(InvalidSubjectToken, None)
          else PrepareSubject(i, req, now, freshTxn, sub.value, agent, wl)
  }

  ghost function PrepareSubject(i: Identity, req: Request, now: int, freshTxn: string,
                                sub: Subject, agent: Agent, wl: Workload): Result<Plan, Denial>
  {
    var c := sub.claims;
    if Blank(c.sub) then DenyWith(InvalidSubjectToken, Some(sub))
    else if i.denylist.Some? && Denies(i.denylist.value.principals, c.sub) then DenyWith(PrincipalDenied, Some(sub))
    else if ValidateTime(c, now, 0).Expired? then DenyWith(ExpiredToken, Some(sub))
    else if ValidateTime(c, now, 0).NotYetValid? then DenyWith(InvalidSubjectToken, Some(sub))
    else if req.agentId !in c.aud then DenyWith(if sub.fromSts then ChainIntegrity else InvalidSubjectToken, Some(sub))
    else
      match Narrow(req.scope, c.scope, agent.maxScopes)
      case None => DenyWith(ScopeWidening, Some(sub))
      case Some(scope) =>
        if |AppendChain(c)| + 1 > agent.maxDepth then DenyWith(DepthExceeded, Some(sub))
        else if !sub.fromSts && (c.actChain != [] || c.act.Some?) then DenyWith(ChainIntegrity, Some(sub))
        else if sub.fromSts && c.txn == "" then DenyWith(ChainIntegrity, Some(sub))
        else Ok(Plan(sub, agent, scope, if c.txn == "" then freshTxn else c.txn, now, wl))
  }

  method PrepareExchange(s: Settings, i: Identity, req: Request, now: int, freshTxn: string)
    returns (r: Result<Plan, Denial>)
    requires ValidIdentity(i)
    ensures r == Prepare(s, i, req, now, freshTxn)
  {
    if !WellFormed(s, i, req) {
      return DenyWith(InvalidRequest, None);
    }
    var sub := VerifySubjectToken(s, i.signer.value, req.subject.value);
    if req.actor.attested.None? {
      return DenyWith(InvalidActorToken, sub);
    }
    var wl := req.actor.attested.value;
    var authorized := Authorize(i.registry.value, req.agentId, wl.id, req.audience, now);
    if authorized.Err? {
      return DenyWith(MapRegistryError(authorized.error), sub);
    }
    if i.denylist.Some? && Denies(i.denylist.value.agents, req.agentId) {
      return DenyWith(AgentDenied, sub);
    }
    if i.denylist.Some? && Denies(i.denylist.value.workloads, wl.id) {
      return DenyWith(WorkloadDenied, sub);
    }
    if sub.None? {
      return DenyWith(InvalidSubjectToken, None);
    }
    r := PrepareSubjectChecks(i, req, now, freshTxn, sub.value, authorized.value, wl);
  }

  method PrepareSubjectChecks(i: Identity, req: Request, now: int, freshTxn: string,
                              sub: Subject, agent: Agent, wl: Workload)
    returns (r: Result<Plan, Denial>)
    ensures r == PrepareSubject(i, req, now, freshTxn, sub, agent, wl)
  {
    var c := sub.claims;
    if Blank(c.sub) {
      return DenyWith(InvalidSubjectToken, Some(sub));
    }
    if i.denylist.Some? && Denies(i.denylist.value.principals, c.sub) {
      return DenyWith(PrincipalDenied, Some(sub));
    }
    match ValidateTime(c, now, 0) {
      case Expired => return DenyWith(ExpiredToken, Some(sub));
      case NotYetValid => return DenyWith(InvalidSubjectToken, Some(sub));
      case Current =>
    }
    if req.agentId !in c.aud {
      return DenyWith(if sub.fromSts then ChainIntegrity else InvalidSubjectToken, Some(sub));
    }
    var scope := NarrowScope(req.scope, c.scope, agent.maxScopes);
    if scope.None? {
      return DenyWith(ScopeWidening, Some(sub));
    }
    if |AppendChain(c)| + 1 > agent.maxDepth {
      return DenyWith(DepthExceeded, Some(sub));
    }
    var txn := c.txn;
    if !sub.fromSts {
      if txn == "" {
        txn := freshTxn;
      }
      if |c.actChain| != 0 || c.act.Some? {
        return DenyWith(ChainIntegrity, Some(sub));
      }
    } else if txn == "" {
      return DenyWith(ChainIntegrity, Some(sub));
    }
    return Ok(Plan(sub, agent, scope.value, txn, now, wl));
  }

  /******* The mint *******/

  datatype Outcome = Minted(claims: Claims, token: Token, workload: string) | Denied(denial: Denial)

  function ConfirmationKey(req: Request, wl: Workload): string {
    if TrimSpace(req.confirmJkt) == "" then wl.possessedJkt else TrimSpace(req.confirmJkt)
  }

  function MintClaims(s: Settings, p: Plan, req: Request, freshJti: string): Claims {
    var c := p.subject.claims;
    Delegate(c, s.issuer, req.agentId,
      Claims(s.issuer, c.sub, [req.audience], Unix(p.now + Ttl(s)), Unix(p.now), Unix(p.now), freshJti, p.txn,
             None, [], p.scope, if req.purp == "" then c.purp else req.purp,
             Some(ConfirmationKey(req, p.workload))))
  }

  function Finish(s: Settings, ring: Ring, p: Plan, req: Request, freshJti: string): Outcome
    requires ring.active in ring.byKid
  {
    if ConfirmationKey(req, p.workload) == "" then Denied(Denial(MissingCnf, Some(p.subject.claims)))
    else
      var claims := MintClaims(s, p, req, freshJti);
      Minted(claims, Mint(ring, claims), p.workload.id)
  }

  // How a refused consume is reported; None is a missing cache.
  function ConsumeReason(v: Option<Verdict>): Reason {
    if v.Some? && v.value.WriteFailed? then InvalidRequest else ReplayedToken
  }

  /******* The audit record *******/

  function AuditEvent(req: Request, o: Outcome): Event {
    match o
    case Minted(c, _, workload) =>
      Event(RawText(""), "token_minted", "ok", c.txn, c.jti, req.agentId, workload, c.sub, req.audience, c.scope,
            Depth(c), [c.sub] + ActorSubs(c), Text(""), Text(""), 0)
    case Denied(d) =>
      var c := d.subject;
      Event(RawText(""), "token_denied", Code(d.reason),
            if c.Some? then c.value.txn else "", if c.Some? then c.value.jti else "",
            req.agentId, "", if c.Some? then c.value.sub else "", req.audience, req.scope,
            0, [], Text(""), Text(""), 0)
  }

  datatype Metrics = Metrics(minted: nat, denied: nat, replays: nat, reloads: nat, reloadFails: nat)

  function Count(m: Metrics, o: Outcome): Metrics {
    match o
    case Minted(_, _, _) => m.(minted := m.minted + 1)
    case Denied(d) => m.(denied := m.denied + 1, replays := m.replays + if d.reason.ReplayedToken? then 1 else 0)
  }

  // What the environment supplies to one call: clock readings, fresh random
  // identifiers, the outcomes of the two file writes.
  datatype Env = Env(now: int, replayNow: int, replayIo: IO, freshTxn: string, freshJti: string,
                     auditNow: int, lineLength: nat, auditIo: IO)

  datatype Stores = Stores(cache: Option<Cache>, log: Option<Log>, metrics: Metrics)

  // exchange(): the outcome and the replay cache it leaves.
  ghost function Decided(s: Settings, i: Identity, st: Stores, req: Request, env: Env): (r: (Outcome, Option<Cache>))
    requires ValidIdentity(i)
  {
    match Prepare(s, i, req, env.now, env.freshTxn)
    case Err(d) => (Denied(d), st.cache)
    case Ok(p) =>
      var c := p.subject.claims;
      if !p.subject.fromSts then (Finish(s, i.signer.value, p, req, env.freshJti), st.cache)
      else if st.cache.None? then (Denied(Denial(ConsumeReason(None), Some(c))), None)
      else
        var v := ConsumeVerdict(st.cache.value, c.jti, c.exp, [], env.replayNow, env.replayIo);
        (if v.Consumed? then Finish(s, i.signer.value, p, req, env.freshJti)
         else Denied(Denial(ConsumeReason(Some(v)), Some(c))),
         Some(ConsumeNext(st.cache.value, c.jti, c.exp, [], env.replayNow, env.replayIo)))
  }

  // The subject token is spent before the confirmation key is looked at: a
  // first exchange that consumed it mints exactly when there is a key, and the
  // jti is remembered either way.
  lemma SpentEitherWay(s: Settings, i: Identity, st: Stores, req: Request, env: Env)
    requires ValidIdentity(i) && Prepare(s, i, req, env.now, env.freshTxn).Ok? && st.cache.Some?
    requires st.cache.value.log.Some? ==> ValidDisk(st.cache.value.log.value)
    ensures var p := Prepare(s, i, req, env.now, env.freshTxn).value;
      var c := p.subject.claims;
      var (o, cache) := Decided(s, i, st, req, env);
      p.subject.fromSts && ConsumeVerdict(st.cache.value, c.jti, c.exp, [], env.replayNow, env.replayIo).Consumed? ==>
        && (o.Minted? <==> ConfirmationKey(req, p.workload) != "")
        && (!o.Minted? ==> o == Denied(Denial(MissingCnf, Some(c))))
        && cache.Some? && Holds(cache.value, c.jti, ReplayUntil(c.exp))
  {
    hide Prepare, ConsumeVerdict, ConsumeNext, Holds, MintClaims;
    var c := Prepare(s, i, req, env.now, env.freshTxn).value.subject.claims;
    if ConsumeVerdict(st.cache.value, c.jti, c.exp, [], env.replayNow, env.replayIo).Consumed? {
      ConsumeRecords(st.cache.value, c.jti, c.exp, [], env.replayNow, env.replayIo);
    }
  }

  // Exchange(): nothing is returned before its audit record is.
  ghost function Exchanged(s: Settings, i: Identity, st: Stores, req: Request, env: Env): (Outcome, Stores)
    requires ValidIdentity(i)
  {
    var (o, cache) := Decided(s, i, st, req, env);
    if st.log.None? then (o, st.(cache := cache))
    else
      var status := AppendStatus(st.log.value, env.lineLength, env.auditIo);
      var log := Some(AppendNext(st.log.value, AuditEvent(req, o), env.auditNow, env.lineLength, env.auditIo));
      if status.Appended? then (o, Stores(cache, log, Count(st.metrics, o)))
      else (Denied(Denial(AuditFailed, None)), Stores(cache, log, st.metrics))
  }

  // The result of loading one file of a reload: not configured, failed, loaded.
  datatype Loaded<T> = NotConfigured | LoadFailed | Loaded(value: T)

  function Chosen<T>(l: Loaded<T>, current: Option<T>): Option<T> {
    if l.Loaded? then Some(l.value) else current
  }

  ghost predicate MayInstall(i: Identity, ring: Loaded<Ring>) {
    ring.Loaded? ==> AllowActivation(if i.signer.Some? then i.signer.value else NO_RING, ring.value)
  }

  // Which signing rings a reload takes: a first one, or one whose active kid
  // is published already and that changes no shared kid's key.
  lemma InstallIff(i: Identity, ring: Ring)
    requires ValidIdentity(i) && ValidRing(ring)
    ensures MayInstall(i, Loaded(ring)) <==>
      || i.signer.None?
      || (var prev := i.signer.value;
          && ring.active in prev.byKid
          && forall kid | kid in prev.byKid && kid in ring.byKid ::
               prev.byKid[kid].x == ring.byKid[kid].x && prev.byKid[kid].sub == ring.byKid[kid].sub)
  {
    AllowedIff(if i.signer.Some? then i.signer.value else NO_RING, ring);
  }

  // The snapshot a reload leaves published.
  ghost function Reloaded(i: Identity, reg: Loaded<Registry>, ring: Loaded<Ring>, dl: Loaded<Denylist>): Identity {
    if reg.LoadFailed? || ring.LoadFailed? || dl.LoadFailed? || !MayInstall(i, ring) then i
    else Identity(Chosen(reg, i.registry), Chosen(ring, i.signer), Chosen(dl, i.denylist))
  }

  class Config {
    const settings: Settings
    var identity: Identity
    const replay: ReplayCache?
    const audit: Logger?
    var metrics: Metrics

    constructor (settings: Settings, identity: Identity, replay: ReplayCache?, audit: Logger?)
      ensures this.settings == settings && this.identity == identity && this.replay == replay && this.audit == audit
    {
      this.settings, this.identity, this.replay, this.audit := settings, identity, replay, audit;
      metrics := Metrics(0, 0, 0, 0, 0);
    }

    ghost function State(): Stores
      reads this, replay, audit
    {
      Stores(if replay == null then None else Some(replay.State()),
             if audit == null then None else Some(audit.State()), metrics)
    }

    // The identity is read once, so one request sees one published triple.
    method Exchange(req: Request, env: Env) returns (o: Outcome)
      requires ValidIdentity(identity)
      modifies this`metrics, if replay == null then {} else {replay}, if audit == null then {} else {audit}
      ensures (o, State()) == Exchanged(settings, identity, old(State()), req, env)
    {
      hide Decided, AppendNext, AppendStatus, AuditEvent, ValidIdentity;
      o := Decide(req, env);
      if audit != null {
        var status := audit.Append(AuditEvent(req, o), env.auditNow, env.lineLength, env.auditIo);
        if !status.Appended? {
          return Denied(Denial(AuditFailed, None));
        }
        metrics := Count(metrics, o);
      }
    }

    method Decide(req: Request, env: Env) returns (o: Outcome)
      requires ValidIdentity(identity)
      modifies if replay == null then {} else {replay}
      ensures o == Decided(settings, identity, old(State()), req, env).0
      ensures (if replay == null then None else Some(replay.State()))
           == Decided(settings, identity, old(State()), req, env).1
    {
      var snap := identity;
      var plan := PrepareExchange(settings, snap, req, env.now, env.freshTxn);
      if plan.Err? {
        return Denied(plan.error);
      }
      var p := plan.value;
      var c := p.subject.claims;
      if p.subject.fromSts {
        if replay == null {
          return Denied(Denial(ConsumeReason(None), Some(c)));
        }
        var v := replay.Consume(c.jti, c.exp, [], env.replayNow, env.replayIo);
        if !v.Consumed? {
          return Denied(Denial(ConsumeReason(Some(v)), Some(c)));
        }
      }
      return Finish(settings, snap.signer.value, p, req, env.freshJti);
    }

    // Reloader.Reload with installIdentity: all of it or none of it.
    method Reload(reg: Loaded<Registry>, ring: Loaded<Ring>, dl: Loaded<Denylist>) returns (ok: bool)
      requires ValidIdentity(identity) && (ring.Loaded? ==> ValidRing(ring.value))
      modifies this`identity, this`metrics
      ensures identity == Reloaded(old(identity), reg, ring, dl)
      ensures !ok ==> identity == old(identity)
      ensures ok ==> identity.registry == if reg.Loaded? then Some(reg.value) else old(identity).registry
      ensures ok ==> identity.signer == if ring.Loaded? then Some(ring.value) else old(identity).signer
      ensures ok ==> identity.denylist == if dl.Loaded? then Some(dl.value) else old(identity).denylist
      ensures ok <==> !reg.LoadFailed? && !ring.LoadFailed? && !dl.LoadFailed? && MayInstall(old(identity), ring)
      ensures metrics == if ok then old(metrics).(reloads := old(metrics).reloads + 1)
                               else old(metrics).(reloadFails := old(metrics).reloadFails + 1)
    {
      if reg.LoadFailed? || ring.LoadFailed? || dl.LoadFailed? {
        metrics := metrics.(reloadFails := metrics.reloadFails + 1);
        return false;
      }
      if ring.Loaded? {
        var prev := if identity.signer.Some? then identity.signer.value else NO_RING;
        var allowed := MayActivate(prev, ring.value);
        if !allowed {
          metrics := metrics.(reloadFails := metrics.reloadFails + 1);
          return false;
        }
      }
      identity := Identity(Chosen(reg, identity.registry), Chosen(ring, identity.signer),
                           Chosen(dl, identity.denylist));
      metrics := metrics.(reloads := metrics.reloads + 1);
      return true;
    }
  }
}
