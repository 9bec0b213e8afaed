/** visor-session's check that the gateway's mapping is the one its own token
    calls for (internal/visorsession/session.go), and its agreement with the
    gateway in both directions. */
module Session {
  import opened Wrappers
  import opened Strings
  import opened Scopes
  import opened Claims
  import opened Jws
  import opened VisorAdapter

  ghost predicate ScopesMatch(got: string, want: string) {
    ScopeSet(got) == ScopeSet(want)
  }

  method ScopesMatchToken(got: string, want: string) returns (ok: bool)
    ensures ok <==> ScopesMatch(got, want)
  {
    var gs := ScopeSetOf(got);
    var ws := ScopeSetOf(want);
    ok := SubsetOf(gs, ws);
    if ok {
      ok := SubsetOf(ws, gs);
    }
  }

  function Ids(chain: seq<ActorRef>): (r: seq<string>)
    ensures |r| == |chain| && forall i | 0 <= i < |chain| :: r[i] == chain[i].id
  {
    seq(|chain|, i requires 0 <= i < |chain| => chain[i].id)
  }

  method ActorChainIds(chain: seq<ActorRef>) returns (out: seq<string>)
    ensures out == Ids(chain)
  {
    out := [];
    for i := 0 to |chain|
      invariant out == Ids(chain[..i])
    {
      out := out + [chain[i].id];
    }
    assert chain[..|chain|] == chain;
  }

  // mappingAgreesWithToken on the unverified claims of a token that parses.
  ghost predicate Agrees(m: Mapping, c: Claims) {
    var va := m.verifiedActor;
    var hops := [c.sub] + ActorSubs(c);
    && !Blank(c.txn) && m.sessionId == c.txn
    && m.principal == c.sub && m.actingAgent == ActSub(c)
    && va.principalId == c.sub && va.actingAgent == ActSub(c) && va.txn == c.txn
    && (m.clientId == ActSub(c) || m.clientId == ShortName(ActSub(c)))
    && m.hops == hops && Ids(va.actorChain) == hops
    && ScopesMatch(m.scope, c.scope) && ScopesMatch(Join(va.scopes, " "), c.scope)
    && va.issuer == c.iss
    && SingleAudience(c.aud) == Some(va.audience)
    && va.tokenId == c.jti && m.jti == c.jti
    && va.expiresAt == c.exp * SECOND
    && va.proofKeyThumbprint == ConfirmJKT(c)
    && va.verificationMethod == STS_DPOP
    && Blank(va.workloadId)
  }

  method MappingAgreesWithToken(m: Mapping, t: Token) returns (ok: bool)
    ensures ok <==> t.Signed? && Agrees(m, t.claims)
  {
    hide ScopesMatch, ShortName;
    if t.Malformed? {
      return false;
    }
    var c := t.claims;
    var actor := "";
    if c.act.Some? {
      actor := c.act.value.sub;
    }
    TrimSpaceEmpty(c.txn);
    if TrimSpace(c.txn) == "" || m.sessionId != c.txn {
      return false;
    }
    if m.principal != c.sub || m.actingAgent != actor {
      return false;
    }
    var va := m.verifiedActor;
    if va.principalId != c.sub || va.actingAgent != actor || va.txn != c.txn {
      return false;
    }
    if m.clientId != actor && m.clientId != ShortName(actor) {
      return false;
    }
    var subs := ActorSubsOf(c);
    var ids := ActorChainIds(va.actorChain);
    if m.hops != [c.sub] + subs || ids != [c.sub] + subs {
      return false;
    }
    var outer := ScopesMatchToken(m.scope, c.scope);
    var inner := ScopesMatchToken(Join(va.scopes, " "), c.scope);
    if !outer || !inner {
      return false;
    }
    if va.issuer != c.iss {
      return false;
    }
    var aud := SingleAudience(c.aud);
    if aud.None? || va.audience != aud.value {
      return false;
    }
    if va.tokenId != c.jti || m.jti != c.jti || va.expiresAt != c.exp * SECOND {
      return false;
    }
    TrimSpaceEmpty(va.workloadId);
    if va.proofKeyThumbprint != ConfirmJKT(c) || va.verificationMethod != STS_DPOP {
      return false;
    }
    return TrimSpace(va.workloadId) == "";
  }

  /******* Agreement with the gateway *******/

  // m is g but for what the session does not pin down: the order and repeats
  // of scopes, the lineage, a blank workload id, and the hash that covers the
  // last two.
  ghost predicate SameMapping(m: Mapping, g: Mapping) {
    var a, b := m.verifiedActor, g.verifiedActor;
    && m == g.(scope := m.scope, lineage := m.lineage, verifiedActor := a)
    && a == b.(scopes := a.scopes, workloadId := a.workloadId, hash := a.hash)
    && ScopesMatch(m.scope, g.scope) && ScopesMatch(Join(a.scopes, " "), Join(b.scopes, " "))
    && Blank(a.workloadId)
  }

  lemma FieldsMatch(scope: string)
    ensures ScopesMatch(Join(Fields(scope), " "), scope)
  {
    FieldsJoin(Fields(scope));
  }

  lemma RefsIds(chain: seq<ActorRef>, ids: seq<string>)
    ensures Ids(chain) == ids <==> chain == Refs(ids)
  {
    if Ids(chain) == ids {
      assert forall i | 0 <= i < |chain| :: chain[i] == Refs(ids)[i];
    }
  }

  lemma CompleteContext(c: Claims)
    requires !Blank(ActSub(c)) && !Blank(c.txn) && !Blank(c.sub) && c.exp * SECOND != ZERO_TIME
    ensures var ctx := UnsealedContext(ChainFromClaims(c));
      Sealed(ctx) == Some(ctx.(hash := HashOf(ctx)))
  {
    hide ActorSubs;
    LastHopIsActor(c);
    var ctx := UnsealedContext(ChainFromClaims(c));
    assert HashOf(ctx) == HashOf(ctx.(hash := HashOf(ctx)));
  }

  // A complete mapping passes the session's check for a token exactly when it
  // is the gateway's mapping for that token, under one of the two naming
  // options, up to SameMapping.
  lemma AcceptedIffGatewayMapping(m: Mapping, c: Claims)
    requires Complete(m)
    ensures Agrees(m, c)
       <==> SingleAudience(c.aud).Some? && exists short :: SameMapping(m, FromChain(ChainFromClaims(c), short))
  {
    hide ActorSubs, ShortName, ScopeSet;
    var ctx := UnsealedContext(ChainFromClaims(c));
    if Agrees(m, c) {
      CompleteContext(c);
      FieldsMatch(c.scope);
      RefsIds(m.verifiedActor.actorChain, [c.sub] + ActorSubs(c));
      var short := m.clientId != ActSub(c);
      assert SameMapping(m, FromChain(ChainFromClaims(c), short));
    }
    if SingleAudience(c.aud).Some? && exists short :: SameMapping(m, FromChain(ChainFromClaims(c), short)) {
      var short :| SameMapping(m, FromChain(ChainFromClaims(c), short));
      FieldsMatch(c.scope);
      assert Sealed(ctx).None? ==> m.verifiedActor.version == "";
      RefsIds(m.verifiedActor.actorChain, [c.sub] + ActorSubs(c));
    }
  }

  lemma SameItself(g: Mapping)
    requires Blank(g.verifiedActor.workloadId)
    ensures SameMapping(g, g)
  {
  }

  lemma NoWorkload(c: ActorChain, short: bool)
    ensures FromChain(c, short).verifiedActor.workloadId == ""
  {
  }

  // Every chain the gateway accepts yields, under either naming option, a
  // mapping the session accepts for that token.
  lemma GatewayMappingAccepted(t: Token, keys: seq<Jwk>, issuer: string, audience: string, now: int, short: bool)
    requires VerifyChain(t, keys, issuer, audience, now).Ok?
    requires Complete(FromChain(VerifyChain(t, keys, issuer, audience, now).value, short))
    ensures t.Signed? && Agrees(FromChain(VerifyChain(t, keys, issuer, audience, now).value, short), t.claims)
  {
    hide ActorSubs, ShortName, ScopesMatch, VerifyChain, ChainFromClaims, FromChain, Complete, Agrees, Sealed;
    AcceptedChain(t, keys, issuer, audience, now);
    var g := FromChain(ChainFromClaims(t.claims), short);
    NoWorkload(ChainFromClaims(t.claims), short);
    SameItself(g);
    AcceptedIffGatewayMapping(g, t.claims);
  }

  // The sealed hash tells an accepted mapping's context from the gateway's
  // exactly when the scopes or the workload id differ.
  lemma HashTellsApart(m: Mapping, c: Claims, short: bool)
    requires Complete(m) && SameMapping(m, FromChain(ChainFromClaims(c), short))
    ensures var b := FromChain(ChainFromClaims(c), short).verifiedActor;
      m.verifiedActor.hash == b.hash <==>
        m.verifiedActor.scopes == b.scopes && m.verifiedActor.workloadId == b.workloadId
  {
    hide ActorSubs, ShortName, ScopeSet;
    var a, b := m.verifiedActor, FromChain(ChainFromClaims(c), short).verifiedActor;
    assert a.version == b.version;
    assert b.hash == HashOf(b);
  }

  // A context the gateway never makes: a workload id of one space.
  lemma BlankWorkloadAccepted(m: Mapping, c: Claims)
    requires Complete(m) && Agrees(m, c)
    ensures var va := m.verifiedActor.(workloadId := " ");
      var other := m.(verifiedActor := va.(hash := HashOf(va)));
      Complete(other) && Agrees(other, c) && forall short :: other != FromChain(ChainFromClaims(c), short)
  {
    hide ActorSubs, ShortName, ScopeSet;
    var va := m.verifiedActor.(workloadId := " ");
    assert HashOf(va.(hash := HashOf(va))) == HashOf(va);
    forall short ensures FromChain(ChainFromClaims(c), short).verifiedActor.workloadId != " " {
    }
  }
}
