/** The checks of one exchange, condition by condition: an exchange passes when
    every one of them holds, and is refused for the first that does not. */
module Checks {
  import opened Wrappers
  import opened Strings
  import opened Scopes
  import opened Claims
  import opened Registry
  import opened FirstFailure
  import opened Sts
  import opened AppendLog
  import opened Replay
  import opened Audit
  import opened Utf8
  import Jws
  import Keyrings

  /******* The conditions *******/

  ghost predicate Posed(s: Settings, i: Identity, req: Request) {
    && i.signer.Some? && i.registry.Some? && s.hasAttestor && s.issuer != ""
    && req.grantType in {"", "urn:ietf:params:oauth:grant-type:token-exchange"}
    && req.subject.Some? && req.actor.Actor?
    && (exists k :: 0 <= k < |req.agentId| && !IsSpace(req.agentId[k]))
    && (exists k :: 0 <= k < |req.audience| && !IsSpace(req.audience[k]))
    && req.requestedTokenType in {"", "urn:ietf:params:oauth:token-type:jwt",
                                  "urn:ietf:params:oauth:token-type:access_token"}
  }

  // The subject token was signed by this STS for this issuer, or by the IdP,
  // for its issuer where one is configured.
  ghost predicate Proven(s: Settings, i: Identity, t: Jws.Token)
    requires i.signer.Some?
  {
    && t.Signed?
    && if Keyrings.RingAccepts(i.signer.value, t) then t.claims.iss == s.issuer
       else Jws.Verify(t, s.idpKeys).Ok? && s.idpIssuer in {"", t.claims.iss}
  }

  // The agent may run on the workload and call the audience at time now.
  ghost function AgentChecks(a: Agent, workload: string, audience: string, now: int): seq<Check<string>> {
    [ Check(!a.createdAt.Unparseable?, "invalid_request"),
      Check(a.createdAt.At? ==> a.createdAt.nanos <= now, "agent_not_yet_valid"),
      Check(!a.expiry.Unparseable?, "invalid_request"),
      Check(a.expiry.At? ==> now < a.expiry.nanos, "agent_expired"),
      Check(exists k :: 0 <= k < |a.workloads| && a.workloads[k] == workload, "agent_not_authorized_on_workload"),
      Check(exists k :: 0 <= k < |a.audiences| && a.audiences[k] == audience, "audience_not_allowed")]
  }

  ghost function DenylistChecks(d: Option<Denylist>, agentId: string, workload: string): seq<Check<string>> {
    [ Check(d.None? || agentId !in d.value.agents, "agent_denied"),
      Check(d.None? || workload == "" || workload !in d.value.workloads, "workload_denied")]
  }

  // How many actors a token carries already.
  function Actors(c: Claims): nat {
    |c.actChain| + if c.act.Some? && c.act.value.sub != "" then 1 else 0
  }

  // The scopes an exchange may be given: max_scopes, and of those the subject
  // token's own unless its scope text is empty.
  ghost predicate Grantable(w: string, incoming: string, max: seq<string>) {
    w in ScopeSet(Join(max, " ")) && (incoming == "" || w in ScopeSet(incoming))
  }

  ghost function SubjectChecks(d: Option<Denylist>, req: Request, now: int, c: Claims, fromSts: bool, a: Agent)
    : seq<Check<string>>
  {
    [ Check(exists k :: 0 <= k < |c.sub| && !IsSpace(c.sub[k]), "invalid_subject_token"),
      Check(d.None? || c.sub !in d.value.principals, "principal_denied"),
      Check(c.exp != 0 && Unix(now) <= c.exp + 30, "expired"),
      Check(c.nbf <= 0 || c.nbf <= Unix(now) + 30, "invalid_subject_token"),
      Check(req.agentId in c.aud, if fromSts then "chain_integrity" else "invalid_subject_token"),
      Check(forall w | w in ScopeSet(req.scope) :: Grantable(w, c.scope, a.maxScopes), "scope_widening"),
      Check(Actors(c) + 1 <= a.maxDepth, "depth_exceeded"),
      Check(!fromSts ==> c.actChain == [] && c.act.None?, "chain_integrity"),
      Check(fromSts ==> c.txn != "", "chain_integrity")]
  }

  // The checks once the request is posed, attested and names an agent.
  ghost function NamedChecks(s: Settings, i: Identity, req: Request, now: int): seq<Check<string>>
    requires i.signer.Some? && i.registry.Some? && req.subject.Some? && req.actor.Actor?
    requires req.actor.attested.Some? && req.agentId in i.registry.value.byId
  {
    var a, wl, t := i.registry.value.byId[req.agentId], req.actor.attested.value, req.subject.value;
    AgentChecks(a, wl.id, req.audience, now) + DenylistChecks(i.denylist, req.agentId, wl.id) +
    [Check(Proven(s, i, t), "invalid_subject_token")] +
    if !Proven(s, i, t) then []
    else SubjectChecks(i.denylist, req, now, t.claims, Keyrings.RingAccepts(i.signer.value, t), a)
  }

  ghost function PosedChecks(s: Settings, i: Identity, req: Request, now: int): seq<Check<string>>
    requires Posed(s, i, req)
  {
    [Check(req.actor.attested.Some?, "invalid_actor_token"),
     Check(req.agentId in i.registry.value.byId, "agent_not_registered")] +
    if req.actor.attested.None? || req.agentId !in i.registry.value.byId then []
    else NamedChecks(s, i, req, now)
  }

  // All of them in order. What comes after a failed check is left out where
  // it could not be stated.
  ghost function AllChecks(s: Settings, i: Identity, req: Request, now: int): seq<Check<string>> {
    [Check(Posed(s, i, req), "invalid_request")] + if Posed(s, i, req) then PosedChecks(s, i, req, now) else []
  }

  // What the exchange goes on with: everything as it was checked.
  ghost predicate PlanOf(i: Identity, req: Request, now: int, freshTxn: string, plan: Plan)
    requires i.signer.Some? && i.registry.Some? && req.subject.Some? && req.subject.value.Signed?
    requires req.actor.Actor? && req.agentId in i.registry.value.byId
  {
    var c := req.subject.value.claims;
    && plan.subject == Subject(c, Keyrings.RingAccepts(i.signer.value, req.subject.value))
    && plan.agent == i.registry.value.byId[req.agentId] && Some(plan.workload) == req.actor.attested
    && plan.now == now && plan.txn == (if c.txn == "" then freshTxn else c.txn)
    && forall w :: w in ScopeSet(plan.scope) <==>
         if Blank(req.scope) then Grantable(w, c.scope, plan.agent.maxScopes) else w in ScopeSet(req.scope)
  }

  /******* The code decides by them *******/

  function Refusal(r: Result<Plan, Denial>): Option<string> {
    if r.Ok? then None else Some(Code(r.error.reason))
  }

  lemma PosedIff(s: Settings, i: Identity, req: Request)
    ensures Posed(s, i, req) <==> WellFormed(s, i, req)
    ensures Posed(s, i, req) ==>
      && i.signer.Some? && i.registry.Some? && req.subject.Some? && req.actor.Actor?
      && req.agentId != "" && req.audience != ""
  {
  }

  lemma ProvenIff(s: Settings, i: Identity, t: Jws.Token)
    requires i.signer.Some?
    ensures VerifySubject(s, i.signer.value, t)
         == if Proven(s, i, t) then Some(Subject(t.claims, Keyrings.RingAccepts(i.signer.value, t))) else None
    ensures Proven(s, i, t) ==> t.Signed?
  {
    Jws.VerifiedTokenIsSigned(t, s.idpKeys);
  }

  lemma AuthorizeDecides(r: Registry, agentId: string, workload: string, audience: string, now: int)
    requires agentId in r.byId && audience != ""
    ensures var a, out := r.byId[agentId], Authorize(r, agentId, workload, audience, now);
      && (out.Ok? ==> out.value == a)
      && Decides(AgentChecks(a, workload, audience, now),
                 if out.Ok? then None else Some(Code(MapRegistryError(out.error))))
  {
    var a, out := r.byId[agentId], Authorize(r, agentId, workload, audience, now);
    var cs := AgentChecks(a, workload, audience, now);
    assert cs[4].holds <==> workload in a.workloads;
    assert cs[5].holds <==> audience in a.audiences;
    assert out.Ok? <==> cs[0].holds && cs[1].holds && cs[2].holds && cs[3].holds && cs[4].holds && cs[5].holds;
  }

  lemma ScopeGranted(requested: string, incoming: string, max: seq<string>)
    ensures var out := Narrow(requested, incoming, max);
      && (out.Some? <==> forall w | w in ScopeSet(requested) :: Grantable(w, incoming, max))
      && (out.Some? ==> forall w :: w in ScopeSet(out.value) <==>
            if Blank(requested) then Grantable(w, incoming, max) else w in ScopeSet(requested))
  {
    NarrowMeaning(requested, incoming, max);
    FieldsNone(requested);
    assert forall w :: w in Ceiling(incoming, max) <==> Grantable(w, incoming, max);
  }

  lemma SubjectDecides(i: Identity, req: Request, now: int, freshTxn: string, sub: Subject, a: Agent, wl: Workload)
    requires req.agentId != ""
    ensures Decides(SubjectChecks(i.denylist, req, now, sub.claims, sub.fromSts, a),
                    Refusal(PrepareSubject(i, req, now, freshTxn, sub, a, wl)))
  {
    hide Narrow, Grantable, ScopeSet;
    ScopeGranted(req.scope, sub.claims.scope, a.maxScopes);
    var c := sub.claims;
    var cs := SubjectChecks(i.denylist, req, now, c, sub.fromSts, a);
    var r := PrepareSubject(i, req, now, freshTxn, sub, a, wl);
    assert cs[0].holds <==> !Blank(c.sub);
    assert cs[5].holds <==> Narrow(req.scope, c.scope, a.maxScopes).Some?;
    assert r.Ok? <==> cs[0].holds && cs[1].holds && cs[2].holds && cs[3].holds && cs[4].holds && cs[5].holds &&
                      cs[6].holds && cs[7].holds && cs[8].holds;
  }

  lemma NamedDecides(s: Settings, i: Identity, req: Request, now: int, freshTxn: string)
    requires Posed(s, i, req) && req.actor.attested.Some? && req.agentId in i.registry.value.byId
    ensures Decides(NamedChecks(s, i, req, now), Refusal(Prepare(s, i, req, now, freshTxn)))
  {
    hide AgentChecks, SubjectChecks, DenylistChecks, Authorize, PrepareSubject, Proven, VerifySubject, WellFormed,
      Decides;
    var a, wl, t := i.registry.value.byId[req.agentId], req.actor.attested.value, req.subject.value;
    var r := Prepare(s, i, req, now, freshTxn);
    PosedIff(s, i, req);
    ProvenIff(s, i, t);
    AuthorizeDecides(i.registry.value, req.agentId, wl.id, req.audience, now);
    var out := Authorize(i.registry.value, req.agentId, wl.id, req.audience, now);
    var byRegistry := if out.Ok? then None else Some(Code(MapRegistryError(out.error)));
    DenylistDecides(i, req.agentId, wl.id);
    var byList :=
      if i.denylist.Some? && Denies(i.denylist.value.agents, req.agentId) then Some("agent_denied")
      else if i.denylist.Some? && Denies(i.denylist.value.workloads, wl.id) then Some("workload_denied") else None;
    var proven := Check(Proven(s, i, t), "invalid_subject_token");
    var bySubject := if proven.holds then None else Some("invalid_subject_token");
    Single(proven);
    var head := AgentChecks(a, wl.id, req.audience, now) + DenylistChecks(i.denylist, req.agentId, wl.id);
    Then(AgentChecks(a, wl.id, req.audience, now), DenylistChecks(i.denylist, req.agentId, wl.id), byRegistry, byList);
    Then(head, [proven], if byRegistry.Some? then byRegistry else byList, bySubject);
    if proven.holds {
      var sub := Subject(t.claims, Keyrings.RingAccepts(i.signer.value, t));
      SubjectDecides(i, req, now, freshTxn, sub, a, wl);
      Then(head + [proven], SubjectChecks(i.denylist, req, now, t.claims, sub.fromSts, a),
           if byRegistry.Some? then byRegistry else byList,
           Refusal(PrepareSubject(i, req, now, freshTxn, sub, a, wl)));
    } else {
      assert head + [proven] + [] == head + [proven];
    }
  }

  lemma DenylistDecides(i: Identity, agentId: string, workload: string)
    requires agentId != ""
    ensures var d := i.denylist;
      Decides(DenylistChecks(d, agentId, workload),
              if d.Some? && Denies(d.value.agents, agentId) then Some("agent_denied")
              else if d.Some? && Denies(d.value.workloads, workload) then Some("workload_denied") else None)
  {
    var cs := DenylistChecks(i.denylist, agentId, workload);
    assert AllHold(cs) <==> cs[0].holds && cs[1].holds;
  }

  // An exchange gets past its checks exactly when every one holds, and is
  // refused with the reason of the first that does not.
  lemma PrepareDecides(s: Settings, i: Identity, req: Request, now: int, freshTxn: string)
    ensures Decides(AllChecks(s, i, req, now), Refusal(Prepare(s, i, req, now, freshTxn)))
  {
    hide NamedChecks, VerifySubject, WellFormed, Posed, Decides;
    PosedIff(s, i, req);
    var posed := Check(Posed(s, i, req), "invalid_request");
    Single(posed);
    if posed.holds {
      PosedDecides(s, i, req, now, freshTxn);
      Then([posed], PosedChecks(s, i, req, now), None, Refusal(Prepare(s, i, req, now, freshTxn)));
    } else {
      assert [posed] + [] == [posed];
    }
  }

  lemma PosedDecides(s: Settings, i: Identity, req: Request, now: int, freshTxn: string)
    requires Posed(s, i, req)
    ensures Decides(PosedChecks(s, i, req, now), Refusal(Prepare(s, i, req, now, freshTxn)))
  {
    hide NamedChecks, VerifySubject, WellFormed, Posed, Decides;
    PosedIff(s, i, req);
    var attested := Check(req.actor.attested.Some?, "invalid_actor_token");
    var named := Check(req.agentId in i.registry.value.byId, "agent_not_registered");
    var who := [attested, named];
    Single(attested);
    Single(named);
    assert who == [attested] + [named];
    var unattested := if attested.holds then None else Some("invalid_actor_token");
    var unnamed := if named.holds then None else Some("agent_not_registered");
    Then([attested], [named], unattested, unnamed);
    if attested.holds && named.holds {
      NamedDecides(s, i, req, now, freshTxn);
      Then(who, NamedChecks(s, i, req, now), None, Refusal(Prepare(s, i, req, now, freshTxn)));
    } else {
      assert who + [] == who;
    }
  }

  // What a passed request goes on with, and whose claims a refused one is
  // recorded under.
  lemma PreparedMeans(s: Settings, i: Identity, req: Request, now: int, freshTxn: string)
    ensures var r := Prepare(s, i, req, now, freshTxn);
      && (r.Ok? ==> Posed(s, i, req) && Proven(s, i, req.subject.value) && req.agentId in i.registry.value.byId
                    && PlanOf(i, req, now, freshTxn, r.value))
      && (r.Err? ==> r.error.subject == if Posed(s, i, req) && Proven(s, i, req.subject.value)
                                        then Some(req.subject.value.claims) else None)
  {
    hide Posed, WellFormed, Narrow, Grantable, ScopeSet, Proven, VerifySubject, ValidateAt;
    PosedIff(s, i, req);
    if Posed(s, i, req) {
      var t := req.subject.value;
      ProvenIff(s, i, t);
      if Prepare(s, i, req, now, freshTxn).Ok? {
        ScopeGranted(req.scope, t.claims.scope, i.registry.value.byId[req.agentId].maxScopes);
        AuthorizeDecides(i.registry.value, req.agentId, req.actor.attested.value.id, req.audience, now);
      }
    }
  }

  /******* The whole decision *******/

  // The cache still holds a live entry for jti.
  ghost predicate Live(seen: map<string, int>, jti: string, now: int) {
    jti in seen && now <= seen[jti]
  }

  // An STS token has to be unspent and its record written; the workload has to
  // hold a key.
  ghost function SpendChecks(st: Stores, req: Request, env: Env, c: Claims, fromSts: bool, wl: Workload)
    : seq<Check<string>>
  {
    [ Check(fromSts ==>
              && st.cache.Some? && c.jti != "" && !Live(st.cache.value.seen, c.jti, env.replayNow)
              && env.replayNow <= ReplayUntil(c.exp), "replayed_token"),
      Check(fromSts && st.cache.Some? && st.cache.value.log.Some? ==> env.replayIo == Synced, "invalid_request"),
      Check(!Blank(req.confirmJkt) || wl.possessedJkt != "", "missing_cnf")]
  }

  ghost function ExchangeChecks(s: Settings, i: Identity, st: Stores, req: Request, env: Env): seq<Check<string>> {
    var cs := AllChecks(s, i, req, env.now);
    cs + if !(AllHold(cs) && Posed(s, i, req) && req.subject.value.Signed? && req.actor.attested.Some?) then []
         else SpendChecks(st, req, env, req.subject.value.claims,
                          Keyrings.RingAccepts(i.signer.value, req.subject.value), req.actor.attested.value)
  }

  function OutcomeRefusal(o: Outcome): Option<string> {
    if o.Minted? then None else Some(Code(o.denial.reason))
  }

  // An exchange mints exactly when every check holds, with the replay cache's
  // and the workload's key among them, and is refused for the first that fails.
  lemma ExchangeDecides(s: Settings, i: Identity, st: Stores, req: Request, env: Env)
    requires ValidIdentity(i)
    ensures Decides(ExchangeChecks(s, i, st, req, env), OutcomeRefusal(Decided(s, i, st, req, env).0))
    ensures var o := Decided(s, i, st, req, env).0;
      o.Denied? ==> o.denial.subject == if Posed(s, i, req) && Proven(s, i, req.subject.value)
                                        then Some(req.subject.value.claims) else None
  {
    hide AllChecks, Posed, Proven, Prepare, AllHold, FirstFails, SpendChecks, MintClaims, ConsumeVerdict, ConsumeNext;
    var cs, r := AllChecks(s, i, req, env.now), Prepare(s, i, req, env.now, env.freshTxn);
    var o := Decided(s, i, st, req, env).0;
    PrepareDecides(s, i, req, env.now, env.freshTxn);
    PreparedMeans(s, i, req, env.now, env.freshTxn);
    PosedIff(s, i, req);
    if r.Ok? {
      ProvenIff(s, i, req.subject.value);
      SpendDecides(s, i, st, req, env, r.value);
      Then(cs, SpendChecks(st, req, env, r.value.subject.claims, r.value.subject.fromSts, r.value.workload), None,
           OutcomeRefusal(o));
    } else {
      assert cs + [] == cs;
    }
  }

  lemma SpendDecides(s: Settings, i: Identity, st: Stores, req: Request, env: Env, p: Plan)
    requires ValidIdentity(i) && i.signer.Some? && Prepare(s, i, req, env.now, env.freshTxn) == Ok(p)
    ensures Decides(SpendChecks(st, req, env, p.subject.claims, p.subject.fromSts, p.workload),
                    OutcomeRefusal(Decided(s, i, st, req, env).0))
  {
    hide Prepare, MintClaims, ConsumeNext, ConsumeVerdict, ReplayUntil, TrimSpace, Blank, Live;
    var c := p.subject.claims;
    var cs := SpendChecks(st, req, env, c, p.subject.fromSts, p.workload);
    TrimSpaceEmpty(req.confirmJkt);
    if st.cache.Some? {
      ConsumeDecides(st.cache.value, c.jti, c.exp, env.replayNow, env.replayIo);
    }
    assert AllHold(cs) <==> cs[0].holds && cs[1].holds && cs[2].holds;
  }

  lemma ConsumeDecides(c: Cache, jti: string, exp: int, now: int, io: IO)
    ensures var v := ConsumeVerdict(c, jti, exp, [], now, io);
      && (v == Consumed || v == WriteFailed <==> jti != "" && !Live(c.seen, jti, now) && now <= ReplayUntil(exp))
      && (v == Consumed ==> c.log.None? || io.Synced?) && (v == WriteFailed ==> c.log.Some? && !io.Synced?)
  {
    hide ConsumeVerdict;
    VerdictMeans(c, jti, exp, [], now, io);
    assert [jti] + [] == [jti];
  }

  // What is minted, claim by claim.
  lemma MintedMeans(s: Settings, i: Identity, st: Stores, req: Request, env: Env)
    requires ValidIdentity(i) && Decided(s, i, st, req, env).0.Minted?
    ensures Posed(s, i, req) && req.subject.value.Signed? && req.actor.attested.Some?
    ensures var o := Decided(s, i, st, req, env).0;
      var m, c, wl := o.claims, req.subject.value.claims, req.actor.attested.value;
      && m.iss == s.issuer && m.sub == c.sub && m.aud == [req.audience] && m.jti == env.freshJti
      && m.txn == (if c.txn == "" then env.freshTxn else c.txn)
      && m.iat == m.nbf == Unix(env.now) && m.exp == Unix(env.now + if s.ttl > 0 then s.ttl else 120 * SECOND)
      && m.act.Some? && m.act.value.iss == s.issuer && m.act.value.sub == req.agentId && m.act.value.act == c.act
      && m.actChain == c.actChain +
           (if c.act.Some? && c.act.value.sub != "" then [c.act.value.(act := None)] else [])
      && m.purp == (if req.purp != "" then req.purp else c.purp)
      && m.cnf == Some(if Blank(req.confirmJkt) then wl.possessedJkt else TrimSpace(req.confirmJkt))
      && o.token == Keyrings.Mint(i.signer.value, m) && o.workload == wl.id
  {
    hide Prepare, Posed, Proven, ConsumeVerdict, ConsumeNext;
    PreparedMeans(s, i, req, env.now, env.freshTxn);
    PosedIff(s, i, req);
    ProvenIff(s, i, req.subject.value);
    TrimSpaceEmpty(req.confirmJkt);
  }

  /******* What an exchange answers, counts and records *******/

  // Nothing is given out that is not on record, and every recorded decision is
  // counted once.
  lemma ExchangeMeans(s: Settings, i: Identity, st: Stores, req: Request, env: Env)
    requires ValidIdentity(i)
    ensures var d, (o, st') := Decided(s, i, st, req, env).0, Exchanged(s, i, st, req, env);
      var recorded := st.log.Some? && AppendStatus(st.log.value, env.lineLength, env.auditIo).Appended?;
      var m, m' := st.metrics, st'.metrics;
      && (st.log.None? || recorded ==> o == d)
      && (st.log.Some? && !recorded ==> o == Denied(Denial(AuditFailed, None)))
      && (!recorded ==> m' == m)
      && (recorded ==>
            && m'.minted == m.minted + (if d.Minted? then 1 else 0)
            && m'.denied == m.denied + (if d.Minted? then 0 else 1)
            && m'.replays == m.replays + (if OutcomeRefusal(d) == Some("replayed_token") then 1 else 0)
            && m'.reloads == m.reloads && m'.reloadFails == m.reloadFails)
  {
    hide Decided, AuditEvent, AppendNext, AppendStatus, Code;
    var d := Decided(s, i, st, req, env).0;
    if d.Denied? {
      ReplayedCode(d.denial.reason);
    }
  }

  lemma ReplayedCode(r: Reason)
    ensures Code(r) == "replayed_token" <==> r == ReplayedToken
  {
    assert "replayed_token"[0] == 'r';
  }

  // The record of an exchange, field by field.
  ghost predicate Reports(r: Event, req: Request, o: Outcome) {
    && r.agentId == BoundEventString(req.agentId) && r.audience == BoundEventString(req.audience)
    && match o
       case Minted(c, _, workload) =>
         && r.eventType == BoundEventString("token_minted") && r.reasonCode == BoundEventString("ok")
         && r.txn == BoundEventString(c.txn) && r.jti == BoundEventString(c.jti)
         && r.principal == BoundEventString(c.sub) && r.workload == BoundEventString(workload)
         && r.scope == BoundEventString(c.scope) && r.depth == |ActorSubs(c)|
         && |r.hops| == (if |ActorSubs(c)| < 31 then |ActorSubs(c)| + 1 else 32)
         && r.hops[0] == BoundEventString(c.sub)
         && forall k | 0 < k < |r.hops| :: r.hops[k] == BoundEventString(ActorSubs(c)[k - 1])
       case Denied(d) =>
         && r.eventType == BoundEventString("token_denied") && r.reasonCode == BoundEventString(OutcomeRefusal(o).value)
         && r.txn == BoundEventString(if d.subject.Some? then d.subject.value.txn else "")
         && r.jti == BoundEventString(if d.subject.Some? then d.subject.value.jti else "")
         && r.principal == BoundEventString(if d.subject.Some? then d.subject.value.sub else "")
         && r.workload == "" && r.scope == BoundEventString(req.scope) && r.hops == []
  }

  lemma ExchangeRecorded(s: Settings, i: Identity, st: Stores, req: Request, env: Env)
    requires ValidIdentity(i) && st.log.Some?
    requires AppendStatus(st.log.value, env.lineLength, env.auditIo).Appended?
    ensures st.log.value.disk.Some?
    ensures var st' := Exchanged(s, i, st, req, env).1;
      && st'.log.Some? && st'.log.value.disk.Some?
      && exists r ::
           && Records(st'.log.value.disk.value.pieces) == Records(st.log.value.disk.value.pieces) + [r]
           && Reports(r, req, Decided(s, i, st, req, env).0)
  {
    hide Decided, ActorSubs, BoundEventString, Records, AppendNext;
    var l, o := st.log.value, Decided(s, i, st, req, env).0;
    AppendedRecord(l, AuditEvent(req, o), env.auditNow, env.lineLength);
    EmptyBound("");
    var l' := AppendNext(l, AuditEvent(req, o), env.auditNow, env.lineLength, Synced);
    var r :| Records(l'.disk.value.pieces) == Records(l.disk.value.pieces) + [r] && Carries(r, AuditEvent(req, o));
    CarriedReports(r, req, o);
  }

  lemma CarriedReports(r: Event, req: Request, o: Outcome)
    requires Carries(r, AuditEvent(req, o))
    ensures Reports(r, req, o)
  {
    hide BoundEventString, ActorSubs;
    EmptyBound("");
  }
}
