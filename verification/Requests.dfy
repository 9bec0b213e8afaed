/** One gateway request, condition by condition: what it has to pass, what it is
    told otherwise, and what is recorded of it. */
module Requests {
  import opened Wrappers
  import opened Strings
  import opened Claims
  import opened AppendLog
  import opened Utf8
  import opened Audit
  import opened FirstFailure
  import opened VisorAdapter
  import opened Pep
  import Gateway
  import Jws
  import Nonce
  import RateLimit
  import Replay
  import Sts

  // A token this gateway takes now, under the keys as read for the request.
  ghost predicate Taken(s: Settings, t: Jws.Token, keys: seq<Jws.Jwk>, now: int) {
    && Jws.Verify(t, keys).Ok?
    && var c := t.claims;
       && c.iss != "" && s.issuer in {"", c.iss} && !Blank(c.sub)
       && s.audience != "" && c.aud == [s.audience]
       && c.exp != 0 && Unix(now) <= c.exp + 30 && (c.nbf <= 0 || c.nbf <= Unix(now) + 30)
  }

  function Acting(c: Claims): string {
    if c.act.Some? then c.act.value.sub else ""
  }

  ghost function IdentityChecks(s: Settings, list: Option<Option<Sts.Denylist>>, c: Claims): seq<Check<string>> {
    [ Check(!Blank(Acting(c)) && !Blank(c.txn) && (s.short ==> !Blank(ShortName(Acting(c))))
              && c.exp * SECOND != ZERO_TIME, "incomplete_chain"),
      Check(list != Some(None), "denylist_unavailable"),
      Check(list.Some? && list.value.Some? ==> c.sub !in list.value.value.principals, "principal_denied"),
      Check(list.Some? && list.value.Some? ==> forall a | a in ActorSubs(c) :: a !in list.value.value.agents,
            "agent_denied")]
  }

  ghost function ProofChecks(g: Gateway.Gate, req: Request, env: Env, c: Claims): seq<Check<string>> {
    var jkt := if c.cnf.Some? then c.cnf.value else "";
    var proof := Gateway.Verify(req.proof, req.ath, jkt, req.httpMethod, req.uri, env.now);
    [ Check(jkt != "", "missing_cnf"),
      Check(g.cache.Some?, "dpop_unavailable"),
      Check(req.proof != Gateway.Absent, "missing_dpop"),
      Check(proof.Ok?, "invalid_dpop_proof"),
      Check(proof.Ok? ==> Gateway.NonceHeld(g, proof.value.nonce, env.now), "use_dpop_nonce"),
      Check(proof.Ok? && g.cache.Some? ==> !Gateway.Spent(g.cache.value, proof.value, env.replayNow),
            "replayed_dpop"),
      Check(g.cache.Some? && g.cache.value.log.Some? ==> env.replayIo == Synced, "dpop_unavailable")]
  }

  // Everything between the limiter and the audit record.
  ghost function RequestChecks(s: Settings, g: Gateway.Gate, req: Request, env: Env): seq<Check<string>> {
    [Check(req.token.Some?, "missing_bearer"), Check(env.keys.Some?, "invalid_token")] +
    if req.token.None? || env.keys.None? then []
    else
      [Check(Taken(s, req.token.value, env.keys.value, env.verifyNow), "invalid_token")] +
      if !Taken(s, req.token.value, env.keys.value, env.verifyNow) then []
      else
        IdentityChecks(s, env.denylist, req.token.value.claims) + ProofChecks(g, req, env, req.token.value.claims)
  }

  function Refusal(v: Verdict): Option<string> {
    if v.Pass? then None else Some(Code(v.reason))
  }

  function CodeOf(r: Option<Reason>): Option<string> {
    if r.None? then None else Some(Code(r.value))
  }

  /******* The code decides by them *******/

  lemma TakenIff(s: Settings, t: Jws.Token, keys: seq<Jws.Jwk>, now: int)
    ensures Taken(s, t, keys, now) <==> VerifyChain(t, keys, s.issuer, s.audience, now).Ok?
    ensures Taken(s, t, keys, now) ==>
      t.Signed? && VerifyChain(t, keys, s.issuer, s.audience, now) == Ok(ChainFromClaims(t.claims))
  {
    hide ChainFromClaims, ActorSubs;
    VerifyChainIff(t, keys, s.issuer, s.audience, now);
    Jws.VerifiedTokenIsSigned(t, keys);
    if VerifyChain(t, keys, s.issuer, s.audience, now).Ok? {
      AcceptedChain(t, keys, s.issuer, s.audience, now);
    }
  }

  lemma IdentityDecides(s: Settings, list: Option<Option<Sts.Denylist>>, c: Claims)
    requires !Blank(c.sub)
    ensures var m := FromChain(ChainFromClaims(c), s.short);
      Decides(IdentityChecks(s, list, c),
              if !VisorAdapter.Complete(m) then Some("incomplete_chain") else CodeOf(DenyReason(list, m)))
  {
    hide ShortName, FromChain, VisorAdapter.Complete, ChainFromClaims;
    var m, cs := FromChain(ChainFromClaims(c), s.short), IdentityChecks(s, list, c);
    CompleteIff(c, s.short);
    MappingNames(c, s.short);
    ActingName(c, s.short);
    if list.Some? && list.value.Some? {
      ActorsDenied(list.value.value, c, m);
    }
    assert AllHold(cs) <==> cs[0].holds && cs[1].holds && cs[2].holds && cs[3].holds;
  }

  lemma ActingName(c: Claims, short: bool)
    ensures FromChain(ChainFromClaims(c), short).actingAgent == Acting(c)
  {
  }

  // The acting agent is among the token's actors, and so are all hops but the
  // principal; the empty name is none of them.
  lemma ActorsDenied(d: Sts.Denylist, c: Claims, m: Mapping)
    requires m.actingAgent == Acting(c) && m.hops == [c.sub] + ActorSubs(c)
    ensures (Sts.Denies(d.agents, m.actingAgent) || SomeAgentDenied(d, m.hops))
       <==> exists a :: a in ActorSubs(c) && a in d.agents
  {
    SubsNamed(c.actChain);
    if Sts.Denies(d.agents, m.actingAgent) {
      assert ActorSubs(c)[|ActorSubs(c)| - 1] == Acting(c);
    }
    if exists a :: a in ActorSubs(c) && a in d.agents {
      var i :| 0 <= i < |ActorSubs(c)| && ActorSubs(c)[i] in d.agents;
      assert m.hops[i + 1] == ActorSubs(c)[i];
    }
  }

  lemma {:induction false} SubsNamed(chain: seq<Actor>)
    ensures "" !in Subs(chain)
  {
    if chain != [] {
      SubsNamed(chain[1..]);
    }
  }

  lemma ProofDecides(g: Gateway.Gate, req: Request, env: Env, c: Claims)
    ensures var o := DPoPGate(g, ConfirmJKT(c), ProofOf(req, ChainFromClaims(c), env.now), env).0;
      Decides(ProofChecks(g, req, env, c), if o.Admitted? then None else Some(Code(DPoP(o))))
  {
    hide Gateway.Verify, Gateway.Spent, Gateway.NonceHeld, Gateway.DPoPOutcome, Gateway.DPoPNext, ActorSubs;
    var jkt, cs := ConfirmJKT(c), ProofChecks(g, req, env, c);
    var proof := ProofOf(req, ChainFromClaims(c), env.now);
    Gateway.GateDecides(g, jkt, proof, env.now, env.replayNow, env.replayIo);
    ProofKinds(req, jkt, env.now);
    assert AllHold(cs) <==> cs[0].holds && cs[1].holds && cs[2].holds && cs[3].holds && cs[4].holds && cs[5].holds
                            && cs[6].holds;
  }

  lemma ProofKinds(req: Request, jkt: string, now: int)
    ensures var r := Gateway.Verify(req.proof, req.ath, jkt, req.httpMethod, req.uri, now);
      && (r == Err(Gateway.MissingProof) <==> req.proof == Gateway.Absent)
      && (r.Ok? ==> r.value.jti != "")
  {
    hide Gateway.Verify;
    var r := Gateway.Verify(req.proof, req.ath, jkt, req.httpMethod, req.uri, now);
    Gateway.VerifyIff(req.proof, req.ath, jkt, req.httpMethod, req.uri, now,
                      if r.Ok? then r.value else Gateway.Proof("", 0, "", ""));
  }

  lemma TakenDecides(s: Settings, g: Gateway.Gate, req: Request, env: Env)
    requires req.token.Some? && env.keys.Some? && Taken(s, req.token.value, env.keys.value, env.verifyNow)
    ensures var c := req.token.value.claims;
      Decides(IdentityChecks(s, env.denylist, c) + ProofChecks(g, req, env, c), Refusal(Judged(s, g, req, env).0))
  {
    hide Decides, IdentityChecks, ProofChecks, VerifyChain, ChainFromClaims, FromChain, VisorAdapter.Complete,
      DenyReason, DPoPGate, ProofOf, ConfirmJKT;
    var c := req.token.value.claims;
    TakenIff(s, req.token.value, env.keys.value, env.verifyNow);
    MappingNames(c, s.short);
    IdentityDecides(s, env.denylist, c);
    ProofDecides(g, req, env, c);
    var m := FromChain(ChainFromClaims(c), s.short);
    var o := DPoPGate(g, ConfirmJKT(c), ProofOf(req, ChainFromClaims(c), env.now), env).0;
    Then(IdentityChecks(s, env.denylist, c), ProofChecks(g, req, env, c),
         if !VisorAdapter.Complete(m) then Some("incomplete_chain") else CodeOf(DenyReason(env.denylist, m)),
         if o.Admitted? then None else Some(Code(DPoP(o))));
  }

  // A request passes exactly when every check holds, and is refused for the
  // first that does not.
  lemma JudgeDecides(s: Settings, g: Gateway.Gate, req: Request, env: Env)
    ensures Decides(RequestChecks(s, g, req, env), Refusal(Judged(s, g, req, env).0))
  {
    hide Decides, IdentityChecks, ProofChecks, VerifyChain, Taken, FromChain, VisorAdapter.Complete, DenyReason,
      DPoPGate;
    var token, keys := Check(req.token.Some?, "missing_bearer"), Check(env.keys.Some?, "invalid_token");
    var r := Refusal(Judged(s, g, req, env).0);
    Single(token);
    Single(keys);
    Then([token], [keys], if token.holds then None else Some("missing_bearer"),
         if keys.holds then None else Some("invalid_token"));
    assert [token, keys] == [token] + [keys];
    if token.holds && keys.holds {
      var taken := Check(Taken(s, req.token.value, env.keys.value, env.verifyNow), "invalid_token");
      TakenIff(s, req.token.value, env.keys.value, env.verifyNow);
      Single(taken);
      if taken.holds {
        TakenDecides(s, g, req, env);
        var c := req.token.value.claims;
        Then([taken], IdentityChecks(s, env.denylist, c) + ProofChecks(g, req, env, c), None, r);
        Then([token, keys], [taken] + (IdentityChecks(s, env.denylist, c) + ProofChecks(g, req, env, c)), None, r);
      } else {
        assert [taken] + [] == [taken];
        Then([token, keys], [taken], None, r);
      }
    } else {
      assert [token, keys] + [] == [token, keys];
    }
  }

  /******* The reply and its record *******/

  ghost predicate Limits(st: ServerState, env: Env) {
    st.bucket.Some? && !RateLimit.Allows(st.bucket.value, env.limitNow)
  }

  ghost predicate OnRecord(st: ServerState, env: Env) {
    st.log.Some? && AppendStatus(st.log.value, env.lineLength, env.auditIo).Appended?
  }

  ghost function Refused(s: Settings, st: ServerState, req: Request, env: Env): Option<string> {
    if Limits(st, env) then Some("rate_limited") else Refusal(Judged(s, st.gate, req, env).0)
  }

  // No reply without its record; one counter moves with each; a fresh nonce
  // goes out with an allowed request.
  lemma HandleMeans(s: Settings, st: ServerState, req: Request, env: Env)
    ensures Refused(s, st, req, env).None? ==> req.token.Some? && req.token.value.Signed?
    ensures var (reply, st') := Handled(s, st, req, env);
      var refused := Refused(s, st, req, env);
      var gate := if Limits(st, env) then st.gate else Judged(s, st.gate, req, env).1;
      && (if !OnRecord(st, env) then reply == FailedClosed
          else if refused.Some? then reply.Refused? && Code(reply.reason) == refused.value
          else reply == Allowed(FromChain(ChainFromClaims(req.token.value.claims), s.short)))
      && st'.metrics.allowed == st.metrics.allowed + (if reply.Allowed? then 1 else 0)
      && st'.metrics.denied == st.metrics.denied + (if reply.Allowed? then 0 else 1)
      && st'.metrics.rateLimited
           == st.metrics.rateLimited + (if OnRecord(st, env) && refused == Some("rate_limited") then 1 else 0)
      && st'.bucket == (if st.bucket.None? then None else Some(RateLimit.Next(st.bucket.value, env.limitNow)))
      && st'.gate.cache == gate.cache
      && st'.gate.issued == if reply.Allowed? then Nonce.IssueNext(gate.issued, env.nextNonce, env.nextNow)
                            else gate.issued
  {
    hide Judged, AuditEvent, AppendNext, AppendStatus, FromChain, ChainFromClaims, RateLimit.Next, RateLimit.Allows,
      Nonce.IssueNext;
    if !Limits(st, env) {
      PassedChain(s, st.gate, req, env);
    }
  }

  // What a verdict carries of the token, and that it is never "rate limited".
  lemma PassedChain(s: Settings, g: Gateway.Gate, req: Request, env: Env)
    ensures var v := Judged(s, g, req, env).0;
      && (v.Pass? ==>
            && req.token.Some? && req.token.value.Signed?
            && v.chain == ChainFromClaims(req.token.value.claims) && v.mapping == FromChain(v.chain, s.short))
      && (v.Refuse? ==> v.reason != RateLimited && Code(v.reason) != "rate_limited")
  {
    hide VerifyChain, ChainFromClaims, FromChain, VisorAdapter.Complete, DPoPGate, ProofOf, SeenMapping;
    LimitedCode(Judged(s, g, req, env).0);
    if req.token.Some? && env.keys.Some? {
      TakenIff(s, req.token.value, env.keys.value, env.verifyNow);
    }
  }

  lemma LimitedCode(v: Verdict)
    ensures v.Refuse? && Code(v.reason) == "rate_limited" ==> v.reason == RateLimited
  {
    assert "rate_limited"[0] == 'r' && "rate_limited"[1] == 'a';
  }

  // The claims a request is recorded under: those of a token this gateway
  // takes, or of one it does not that is signed, of this issuer and names a
  // transaction or an id.
  ghost function KnownClaims(s: Settings, st: ServerState, req: Request, env: Env): Option<Claims> {
    if Limits(st, env) || req.token.None? || env.keys.None? then None
    else if Jws.Verify(req.token.value, env.keys.value).Err? then None
    else
      var c := Jws.Verify(req.token.value, env.keys.value).value;
      if Taken(s, req.token.value, env.keys.value, env.verifyNow)
         || (c.iss != "" && s.issuer in {"", c.iss} && (c.txn != "" || c.jti != "")) then Some(c)
      else None
  }

  // The record of a request, field by field.
  ghost predicate Reports(r: Event, s: Settings, refused: Option<string>, known: Option<Claims>) {
    && r.eventType == BoundEventString(if refused.None? then "identity_allowed" else "identity_denied")
    && r.reasonCode == BoundEventString(if refused.None? then "ok" else refused.value)
    && r.audience == BoundEventString(s.audience) && r.workload == ""
    && r.txn == BoundEventString(if known.Some? then known.value.txn else "")
    && r.jti == BoundEventString(if known.Some? then known.value.jti else "")
    && r.agentId == BoundEventString(if known.Some? then Acting(known.value) else "")
    && r.principal == BoundEventString(if known.Some? then known.value.sub else "")
    && r.scope == BoundEventString(if known.Some? then known.value.scope else "")
    && var hops := if known.Some? then [known.value.sub] + ActorSubs(known.value) else [];
       && |r.hops| == (if |hops| < 32 then |hops| else 32)
       && forall i | 0 <= i < |r.hops| :: r.hops[i] == BoundEventString(hops[i])
  }

  lemma RequestRecorded(s: Settings, st: ServerState, req: Request, env: Env)
    requires OnRecord(st, env)
    ensures st.log.value.disk.Some?
    ensures var st' := Handled(s, st, req, env).1;
      && st'.log.Some? && st'.log.value.disk.Some?
      && exists r ::
           && Records(st'.log.value.disk.value.pieces) == Records(st.log.value.disk.value.pieces) + [r]
           && Reports(r, s, Refused(s, st, req, env), KnownClaims(s, st, req, env))
  {
    hide Judged, ActorSubs, BoundEventString, Records, AppendNext, AuditEvent, Reports, Carries, RateLimit.Next,
      RateLimit.Allows, Refusal, KnownClaims;
    var l := st.log.value;
    var v := if Limits(st, env) then Refuse(RateLimited, None) else Judged(s, st.gate, req, env).0;
    assert Refused(s, st, req, env) == Refusal(v) by { RefusalOfLimit(); }
    AppendedRecord(l, AuditEvent(s, v), env.auditNow, env.lineLength);
    var l' := AppendNext(l, AuditEvent(s, v), env.auditNow, env.lineLength, Synced);
    var r :| Records(l'.disk.value.pieces) == Records(l.disk.value.pieces) + [r] && Carries(r, AuditEvent(s, v));
    VerdictShows(s, st, req, env);
    CarriedReports(r, s, v, KnownClaims(s, st, req, env));
  }

  lemma RefusalOfLimit()
    ensures Refusal(Refuse(RateLimited, None)) == Some("rate_limited")
  {
  }

  // The verdict shows the known claims.
  ghost predicate Shows(s: Settings, v: Verdict, known: Option<Claims>) {
    match v
    case Pass(chain, m) => known.Some? && chain == ChainFromClaims(known.value) && m == FromChain(chain, s.short)
    case Refuse(_, shown) =>
      shown == if known.Some? then Some(FromChain(ChainFromClaims(known.value), s.short)) else None
  }

  lemma VerdictShows(s: Settings, st: ServerState, req: Request, env: Env)
    ensures var v := if Limits(st, env) then Refuse(RateLimited, None) else Judged(s, st.gate, req, env).0;
      Shows(s, v, KnownClaims(s, st, req, env))
  {
    hide VerifyChain, ChainFromClaims, FromChain, VisorAdapter.Complete, DPoPGate, ProofOf, Taken, DenyReason,
      Jws.Verify, RateLimit.Allows;
    if req.token.Some? && env.keys.Some? {
      var t := req.token.value;
      TakenIff(s, t, env.keys.value, env.verifyNow);
      TakenVerifies(s, t, env.keys.value, env.verifyNow);
    }
  }

  lemma TakenVerifies(s: Settings, t: Jws.Token, keys: seq<Jws.Jwk>, now: int)
    ensures Taken(s, t, keys, now) ==> Jws.Verify(t, keys) == Ok(t.claims)
  {
    Jws.VerifiesIff(t, keys);
  }

  lemma CarriedReports(r: Event, s: Settings, v: Verdict, known: Option<Claims>)
    requires Carries(r, AuditEvent(s, v)) && Shows(s, v, known)
    ensures Reports(r, s, Refusal(v), known)
  {
    hide BoundEventString, ActorSubs, ShortName, ValidStructure;
    EmptyBound("");
  }

  /******* What a request does to the caches *******/

  // Nothing before the proof is looked at; a challenge with every answer that
  // asks for another proof, and with no other; an admitted proof is spent and
  // its nonce, and no other, is gone.
  lemma JudgeLeaves(s: Settings, g: Gateway.Gate, req: Request, env: Env)
    ensures var (v, g') := Judged(s, g, req, env);
      && (v.Refuse? && !v.reason.DPoP? ==> g' == g)
      && (v.Refuse? && v.reason.DPoP? ==>
            if v.reason.outcome == Gateway.Unavailable then g'.issued == g.issued
            else env.challenge in g'.issued && g'.issued[env.challenge] == Unix(env.challengeNow + 120 * SECOND))
      && (v.Pass? ==>
            && req.token.Some? && req.token.value.Signed? && g'.cache.Some?
            && var proof := Gateway.Verify(req.proof, req.ath, ConfirmJKT(req.token.value.claims),
                                           req.httpMethod, req.uri, env.now);
               && proof.Ok? && "dpop:" + proof.value.jti in g'.cache.value.seen
               && proof.value.nonce !in g'.issued
               && forall n | n != proof.value.nonce ::
                    (n in g'.issued <==> n in g.issued) && (n in g.issued ==> g'.issued[n] == g.issued[n]))
  {
    hide VerifyChain, ChainFromClaims, FromChain, VisorAdapter.Complete, SeenMapping, Gateway.Verify, DPoPGate;
    PassedChain(s, g, req, env);
    if req.token.Some? && env.keys.Some? {
      TakenIff(s, req.token.value, env.keys.value, env.verifyNow);
      if VerifyChain(req.token.value, env.keys.value, s.issuer, s.audience, env.verifyNow).Ok? {
        var c := req.token.value.claims;
        MappingNames(c, s.short);
        GateLeaves(g, ConfirmJKT(c), ProofOf(req, ChainFromClaims(c), env.now), env);
      }
    }
  }

  lemma GateLeaves(g: Gateway.Gate, jkt: string, proof: Result<Gateway.Proof, Gateway.ProofError>, env: Env)
    ensures var (o, g') := DPoPGate(g, jkt, proof, env);
      && (!o.Admitted? ==>
            if o == Gateway.Unavailable then g'.issued == g.issued
            else env.challenge in g'.issued && g'.issued[env.challenge] == Unix(env.challengeNow + 120 * SECOND))
      && (o.Admitted? ==>
            && proof.Ok? && g'.cache.Some? && "dpop:" + proof.value.jti in g'.cache.value.seen
            && proof.value.nonce !in g'.issued
            && forall n | n != proof.value.nonce ::
                 (n in g'.issued <==> n in g.issued) && (n in g.issued ==> g'.issued[n] == g.issued[n]))
  {
    hide Replay.Record, Replay.Known, Replay.Purge;
  }
}
