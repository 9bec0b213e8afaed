/** From a verified token to what the visor is started with
    (internal/verify/verify.go, internal/visoradapter/adapter.go and actor.go). */
module VisorAdapter {
  import opened Wrappers
  import opened Strings
  import opened Claims
  import opened Jws

  /******* verify.Verifier *******/

  // `expires` is in nanoseconds, like every time.Time here.
  datatype ActorChain = ActorChain(
    principal: string, actor: string, hops: seq<string>, depth: nat, scope: string, txn: string,
    audience: string, jti: string, issuer: string, expires: int, claims: Claims)

  datatype VerifyError = Token(error: TokenError) | MissingIssuer | IssuerMismatch
                       | MissingSubject | WrongAudience | TimeExpired | TooEarly

  function ActSub(c: Claims): string {
    if c.act.Some? then c.act.value.sub else ""
  }

  function ChainFromClaims(c: Claims): ActorChain {
    ActorChain(c.sub, ActSub(c), [c.sub] + ActorSubs(c), Depth(c), c.scope, c.txn,
               if SingleAudience(c.aud).Some? then SingleAudience(c.aud).value else "",
               c.jti, c.iss, c.exp * SECOND, c)
  }

  function VerifyChain(t: Jws.Token, keys: seq<Jwk>, issuer: string, audience: string, now: int)
    : Result<ActorChain, VerifyError>
  {
    match Verify(t, keys)
    case Err(e) => Err(Token(e))
    case Ok(c) =>
      if c.iss == "" then Err(MissingIssuer)
      else if issuer != "" && c.iss != issuer then Err(IssuerMismatch)
      else if Blank(c.sub) then Err(MissingSubject)
      else if audience == "" || audience !in c.aud then Err(WrongAudience)
      else if SingleAudience(c.aud).None? then Err(WrongAudience)
      else
        match ValidateTime(c, now, 0)
        case Expired => Err(TimeExpired)
        case NotYetValid => Err(TooEarly)
        case Current => Ok(ChainFromClaims(c))
  }

  // Which tokens the gateway takes, condition by condition.
  lemma VerifyChainIff(t: Jws.Token, keys: seq<Jwk>, issuer: string, audience: string, now: int)
    ensures VerifyChain(t, keys, issuer, audience, now).Ok? <==>
      && Verify(t, keys).Ok? && audience != ""
      && var c := t.claims;
         && c.iss != "" && issuer in {"", c.iss} && (exists k :: 0 <= k < |c.sub| && !IsSpace(c.sub[k]))
         && c.aud == [audience]
         && c.exp != 0 && Unix(now) <= c.exp + 30 && (c.nbf <= 0 || c.nbf <= Unix(now) + 30)
  {
    hide ActorSubs;
    VerifiedTokenIsSigned(t, keys);
    if Verify(t, keys).Ok? {
      assert Blank(t.claims.sub) <==> !exists k :: 0 <= k < |t.claims.sub| && !IsSpace(t.claims.sub[k]);
    }
  }

  // An accepted chain is its token's claims, signed by a published key, for
  // this issuer and no audience but this one, inside its time window.
  lemma AcceptedChain(t: Jws.Token, keys: seq<Jwk>, issuer: string, audience: string, now: int)
    requires VerifyChain(t, keys, issuer, audience, now).Ok?
    ensures t.Signed? && VerifyChain(t, keys, issuer, audience, now).value == ChainFromClaims(t.claims)
    ensures t.claims.aud == [audience] && SingleAudience(t.claims.aud) == Some(audience)
    ensures t.claims.iss != "" && (issuer == "" || t.claims.iss == issuer) && !Blank(t.claims.sub)
    ensures ValidateTime(t.claims, now, 0) == Current
    ensures exists k :: k in keys && MatchAlg(t.alg, k).None? && KeyFor(t.alg, k) == t.key
  {
    hide ActorSubs, MatchAlg, KeyFor, ChainFromClaims;
    VerifiedTokenIsSigned(t, keys);
  }

  /******* VerifiedActorContext *******/

  datatype ActorRef = ActorRef(id: string)

  // SHA-256 of the canonical body as a free constructor; the body is the
  // context with its own hash cleared.
  datatype SnapshotHash = Text(text: string) | Sha256(body: Context)

  datatype Context = Context(
    version: string, principalId: string, actingAgent: string, workloadId: string, txn: string,
    actorChain: seq<ActorRef>, scopes: seq<string>, issuer: string, audience: string, tokenId: string,
    expiresAt: int, proofKeyThumbprint: string, verificationMethod: string, hash: SnapshotHash)

  const VERSION := "1"
  const STS_DPOP := "sts+dpop"
  const NO_CONTEXT := Context("", "", "", "", "", [], [], "", "", "", ZERO_TIME, "", "", Text(""))

  function HashOf(c: Context): SnapshotHash {
    Sha256(c.(hash := Text("")))
  }

  predicate ValidStructure(c: Context) {
    && c.version == VERSION
    && !Blank(c.principalId) && !Blank(c.actingAgent) && !Blank(c.txn)
    && c.expiresAt != ZERO_TIME
    && c.verificationMethod == STS_DPOP
    && c.actorChain != [] && c.actorChain[0].id == c.principalId
    && c.actorChain[|c.actorChain| - 1].id == c.actingAgent
    && c.hash == HashOf(c)
  }

  // Seal writes the hash and validates.
  function Sealed(c: Context): Option<Context> {
    var s := c.(hash := HashOf(c));
    if ValidStructure(s) then Some(s) else None
  }

  function Refs(ids: seq<string>): (r: seq<ActorRef>)
    ensures |r| == |ids| && forall i | 0 <= i < |ids| :: r[i].id == ids[i]
  {
    seq(|ids|, i requires 0 <= i < |ids| => ActorRef(ids[i]))
  }

  // The hops shown when the chain carries none.
  function ShownHops(c: ActorChain): seq<string> {
    if c.hops != [] then c.hops
    else if c.principal != "" && c.actor != "" && c.principal != c.actor then [c.principal, c.actor]
    else if c.principal != "" then [c.principal]
    else []
  }

  function UnsealedContext(c: ActorChain): Context {
    Context(VERSION, c.principal, c.actor, "", c.txn, Refs(ShownHops(c)), Fields(c.scope), c.issuer, c.audience,
            c.jti, c.expires, ConfirmJKT(c.claims), STS_DPOP, Text(""))
  }

  method ContextFromChain(c: ActorChain) returns (out: Option<Context>)
    ensures out == Sealed(UnsealedContext(c))
  {
    var hops := c.hops;
    if |hops| == 0 {
      if c.principal != "" && c.actor != "" && c.principal != c.actor {
        hops := [c.principal, c.actor];
      } else if c.principal != "" {
        hops := [c.principal];
      }
    }
    var chain: seq<ActorRef> := [];
    for i := 0 to |hops|
      invariant chain == Refs(hops[..i])
    {
      chain := chain + [ActorRef(hops[i])];
    }
    assert hops[..|hops|] == hops;
    var ctx := Context(VERSION, c.principal, c.actor, "", c.txn, chain, Fields(c.scope), c.issuer, c.audience,
                       c.jti, c.expires, ConfirmJKT(c.claims), STS_DPOP, Text(""));
    ctx := ctx.(hash := HashOf(ctx));
    return if ValidStructure(ctx) then Some(ctx) else None;
  }

  /******* Mapping *******/

  datatype Mapping = Mapping(
    clientId: string, sessionId: string, principal: string, actingAgent: string, hops: seq<string>,
    scope: string, jti: string, lineage: map<string, string>, verifiedActor: Context)

  // The last path segment; visor-session's lastSegment is the same function.
  function ShortName(id: string): string {
    var id := TrimSuffix(id, '/');
    var i := LastIndex(id, '/');
    if i >= 0 && i + 1 < |id| then id[i + 1..] else id
  }

  function ClientName(actor: string, short: bool): string {
    if short then ShortName(actor) else actor
  }

  function FromChain(c: ActorChain, short: bool): Mapping {
    var ctx := Sealed(UnsealedContext(c));
    Mapping(ClientName(c.actor, short), c.txn, c.principal, c.actor, c.hops, c.scope, c.jti,
            map["principal" := c.principal, "acting_agent" := c.actor, "txn" := c.txn, "scope" := c.scope],
            if ctx.Some? then ctx.value else NO_CONTEXT)
  }

  predicate Complete(m: Mapping) {
    && !Blank(m.actingAgent) && !Blank(m.clientId) && !Blank(m.sessionId) && !Blank(m.principal)
    && ValidStructure(m.verifiedActor)
  }

  // The last hop of a token with an actor is that actor.
  lemma LastHopIsActor(c: Claims)
    requires ActSub(c) != ""
    ensures var hops := [c.sub] + ActorSubs(c); hops[|hops| - 1] == ActSub(c)
  {
  }

  // Which tokens give a context, and what it says of them.
  lemma ContextIff(c: Claims)
    ensures var out := Sealed(UnsealedContext(ChainFromClaims(c)));
      && (out.Some? <==> !Blank(c.sub) && !Blank(ActSub(c)) && !Blank(c.txn) && c.exp * SECOND != ZERO_TIME)
      && (out.Some? ==>
            && out.value.principalId == c.sub && out.value.actingAgent == ActSub(c) && out.value.txn == c.txn
            && |out.value.actorChain| == Depth(c) + 1
            && (forall i | 0 <= i <= Depth(c) :: out.value.actorChain[i].id == ([c.sub] + ActorSubs(c))[i])
            && out.value.scopes == Fields(c.scope) && out.value.issuer == c.iss && out.value.tokenId == c.jti
            && out.value.expiresAt == c.exp * SECOND && out.value.proofKeyThumbprint == ConfirmJKT(c)
            && (|c.aud| == 1 ==> out.value.audience == c.aud[0]))
  {
    hide ActorSubs;
    if ActSub(c) != "" {
      LastHopIsActor(c);
    }
    var ctx := UnsealedContext(ChainFromClaims(c));
    assert ctx.actorChain[0].id == c.sub;
    assert HashOf(ctx) == HashOf(ctx.(hash := HashOf(ctx)));
  }

  // Exactly the tokens whose mapping is complete: all names present, and an
  // expiry other than the instant Go reads as "not set".
  lemma CompleteIff(c: Claims, short: bool)
    ensures Complete(FromChain(ChainFromClaims(c), short))
       <==> !Blank(ActSub(c)) && !Blank(ClientName(ActSub(c), short)) && !Blank(c.txn) && !Blank(c.sub)
            && c.exp * SECOND != ZERO_TIME
  {
    hide ActorSubs, ShortName;
    if ActSub(c) != "" {
      LastHopIsActor(c);
    }
    var ctx := UnsealedContext(ChainFromClaims(c));
    assert ctx.actorChain[0].id == c.sub;
    assert HashOf(ctx) == HashOf(ctx.(hash := HashOf(ctx)));
  }

  // The client name: what follows the last slash, one slash at the end aside;
  // all of it where nothing follows.
  lemma ShortNameMeans(before: string, last: string)
    requires last != "" && '/' !in last
    ensures ShortName(last) == ShortName(last + "/") == last
    ensures ShortName(before + "/" + last) == ShortName(before + "/" + last + "/") == last
    ensures ShortName(before + "//") == before + "/"
    ensures ShortName("") == ShortName("/") == ""
  {
    assert last[|last| - 1] in last;
    LastSegment(last, "", last);
    LastSegment(before + "/" + last, before + "/", last);
    assert TrimSuffix(last + "/", '/') == last;
    assert TrimSuffix(before + "/" + last + "/", '/') == before + "/" + last;
    assert (before + "/" + last)[|before| + 1..] == last;
    assert TrimSuffix(before + "//", '/') == before + "/";
    assert LastIndex(before + "/", '/') == |before|;
  }

  lemma LastSegment(id: string, before: string, last: string)
    requires id == before + last && last != "" && '/' !in last && (before == "" || before[|before| - 1] == '/')
    ensures TrimSuffix(id, '/') == id && LastIndex(id, '/') == |before| - 1
  {
    assert forall k | |before| <= k < |id| :: id[k] == last[k - |before|];
    assert id[|id| - 1] == last[|last| - 1];
    assert before != "" ==> id[|before| - 1] == '/';
  }
}
