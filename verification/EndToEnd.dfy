/** From the STS to the session: what becomes of a freshly minted token at the
    STS itself, at the gateway of its audience, and at visor-session. */
module EndToEnd {
  import opened Wrappers
  import opened Strings
  import opened Claims
  import opened Jws
  import opened Keyrings
  import opened Sts
  import opened VisorAdapter
  import Scopes
  import Session

  // The seconds at which a verifier takes the claims as current.
  predicate InWindow(c: Claims, t: int) {
    c.exp != 0 && Unix(t) <= c.exp + CLOCK_SKEW && (c.nbf > 0 ==> c.nbf <= Unix(t) + CLOCK_SKEW)
  }

  // The mint is the plan's: lifetime, issuer, audience, key and purpose.
  lemma MintedFields(s: Settings, ring: Ring, p: Plan, req: Request, freshJti: string)
    requires ring.active in ring.byKid && Finish(s, ring, p, req, freshJti).Minted?
    ensures var c := Finish(s, ring, p, req, freshJti).claims;
      && c == Lifetime(c, p.now, s.ttl) && c.iss == s.issuer && c.sub == p.subject.claims.sub
      && c.aud == [req.audience] && c.jti == freshJti && c.txn == p.txn && c.scope == p.scope
      && c.purp == (if req.purp == "" then p.subject.claims.purp else req.purp)
      && ConfirmJKT(c) == ConfirmationKey(req, p.workload) != ""
      && ActSub(c) == req.agentId && c.act.value.act == p.subject.claims.act
  {
  }

  // The STS takes its own token as an STS subject, under the ring that signed
  // it and every later one that still publishes the kid, whatever its IdP keys.
  lemma OwnSubject(s: Settings, rings: seq<Ring>, k: nat, m: nat, p: Plan, req: Request, freshJti: string)
    requires IsRotation(rings) && k <= m < |rings| && Published(rings, rings[k].active, k, m)
    requires Finish(s, rings[k], p, req, freshJti).Minted?
    ensures var o := Finish(s, rings[k], p, req, freshJti);
      VerifySubject(s, rings[m], o.token) == Some(Subject(o.claims, true))
  {
    MaterialKept(rings, rings[k].active, k, m);
  }

  // A gateway for its audience accepts the token exactly inside its window,
  // under any JWKS of the ring that signed it; no other gateway ever does. Its
  // mapping is complete exactly when its names are, and then the session
  // accepts it.
  lemma MintedTokenIsServed(s: Settings, i: Identity, req: Request, now: int, freshTxn: string, freshJti: string,
                            keys: seq<Jwk>, audience: string, t: int, short: bool)
    requires ValidIdentity(i) && Prepare(s, i, req, now, freshTxn).Ok? && IsJwks(i.signer.value, keys)
    requires Finish(s, i.signer.value, Prepare(s, i, req, now, freshTxn).value, req, freshJti).Minted?
    ensures var o := Finish(s, i.signer.value, Prepare(s, i, req, now, freshTxn).value, req, freshJti);
      var m := FromChain(ChainFromClaims(o.claims), short);
      && (VerifyChain(o.token, keys, s.issuer, audience, t).Ok? <==> audience == req.audience && InWindow(o.claims, t))
      && (VerifyChain(o.token, keys, s.issuer, audience, t).Ok? ==>
            VerifyChain(o.token, keys, s.issuer, audience, t).value == ChainFromClaims(o.claims))
      && (Complete(m) <==>
            !Blank(o.claims.txn) && !Blank(ClientName(req.agentId, short)) && o.claims.exp * SECOND != ZERO_TIME)
      && (Complete(m) ==> Session.Agrees(m, o.claims))
  {
    hide FromChain, ChainFromClaims, Complete, ClientName, Session.Agrees, IsJwks, Prepare, Verify;
    var p := Prepare(s, i, req, now, freshTxn).value;
    WellFormedOf(s, i, req, now, freshTxn);
    var o := Finish(s, i.signer.value, p, req, freshJti);
    MintedFields(s, i.signer.value, p, req, freshJti);
    RingAcceptsIff(i.signer.value, keys, o.token);
    CompleteIff(o.claims, short);
    var m := FromChain(ChainFromClaims(o.claims), short);
    if Complete(m) {
      Session.NoWorkload(ChainFromClaims(o.claims), short);
      Session.SameItself(m);
      Session.AcceptedIffGatewayMapping(m, o.claims);
    }
  }

  lemma WellFormedOf(s: Settings, i: Identity, req: Request, now: int, freshTxn: string)
    requires Prepare(s, i, req, now, freshTxn).Ok?
    ensures i.signer.Some? && s.issuer != "" && !Blank(req.agentId) && !Blank(req.audience) && req.audience != ""
    ensures !Blank(Prepare(s, i, req, now, freshTxn).value.subject.claims.sub)
  {
    hide Scopes.Narrow, AppendChain;
  }
}
