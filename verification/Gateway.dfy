/** DPoP admission at visor-gateway (internal/gateway/gateway.go requireDPoP and
    internal/dpop/dpop.go Verify; sections 4.3 and 9 of RFC 9449). */
module Gateway {
  import opened Wrappers
  import opened Strings
  import opened Claims
  import opened AppendLog
  import opened Replay
  import Jws
  import Nonce

  // dpop.Result
  datatype Proof = Proof(jti: string, iat: int, jkt: string, nonce: string)

  datatype ProofError = MissingProof | InvalidProof | PrivateJwk | AlgNone | NoHost

  // A DPoP header, decoded as far as Verify looks at it. Signature and
  // thumbprint checks are oracles: `signed` says the embedded key verifies the
  // token, `jkt` is that key's thumbprint when it has one.
  datatype DPoPHeader =
    | Absent
    | Undecodable
    | DPoPHeader(typ: string, alg: string, hasJwk: bool, privateJwk: bool, signed: bool,
                 jti: string, htm: string, htu: string, iat: int, ath: string, nonce: string,
                 jkt: Option<string>)

  // `ath` is the hash of the access token; both it and wantJkt are empty on a
  // token request. `uri` is None for a request without a host.
  function Verify(h: DPoPHeader, ath: string, wantJkt: string, httpMethod: string, uri: Option<string>, now: int)
    : Result<Proof, ProofError>
  {
    var tokenRequest := ath == "" && wantJkt == "";
    if h.Absent? then Err(MissingProof)
    else if !tokenRequest && (ath == "" || wantJkt == "") then Err(InvalidProof)
    else if h.Undecodable? || h.typ != "dpop+jwt" then Err(InvalidProof)
    else if h.alg == "" || Jws.IsNone(h.alg) then Err(AlgNone)
    else if !h.hasJwk then Err(InvalidProof)
    else if h.privateJwk then Err(PrivateJwk)
    else if !h.signed then Err(InvalidProof)
    else if h.jti == "" || h.htm == "" || h.htu == "" || h.iat == 0 then Err(InvalidProof)
    else if tokenRequest != (h.ath == "") then Err(InvalidProof)
    else if h.htm != httpMethod then Err(InvalidProof)
    else if uri.None? then Err(NoHost)
    else if h.htu != uri.value then Err(InvalidProof)
    else if !tokenRequest && h.ath != ath then Err(InvalidProof)
    else if h.jkt.None? then Err(InvalidProof)
    else if !tokenRequest && h.jkt.value != wantJkt then Err(InvalidProof)
    else if Unix(now) > h.iat + CLOCK_SKEW || Unix(now) + CLOCK_SKEW < h.iat then Err(InvalidProof)
    else Ok(Proof(h.jti, h.iat, h.jkt.value, h.nonce))
  }

  // A proof bound to nothing but itself, as on a token request, or to an
  // access token and the key that token names.
  ghost predicate BoundTo(h: DPoPHeader, ath: string, wantJkt: string)
    requires h.DPoPHeader?
  {
    || (ath == wantJkt == h.ath == "")
    || (ath != "" && wantJkt != "" && h.ath == ath && h.jkt == Some(wantJkt))
  }

  // Everything a proof has to be, and nothing else, on token requests and on
  // access requests alike.
  lemma VerifyIff(h: DPoPHeader, ath: string, wantJkt: string, httpMethod: string, uri: Option<string>, now: int,
                  p: Proof)
    ensures Verify(h, ath, wantJkt, httpMethod, uri, now) == Ok(p) <==>
      && h.DPoPHeader? && h.typ == "dpop+jwt" && h.alg != "" && ToLower(h.alg) != "none"
      && h.hasJwk && !h.privateJwk && h.signed
      && h.jti != "" && h.htm == httpMethod != "" && uri == Some(h.htu) && h.htu != "" && h.iat != 0
      && h.jkt.Some? && BoundTo(h, ath, wantJkt) && -30 <= Unix(now) - h.iat <= 30
      && p == Proof(h.jti, h.iat, h.jkt.value, h.nonce)
    ensures Verify(h, ath, wantJkt, httpMethod, uri, now) == Err(MissingProof) <==> h.Absent?
  {
    if h.DPoPHeader? {
      Jws.IsNoneIff(h.alg);
    }
  }

  // Bound to the key, the method, the URI and the token, and accepted only
  // while the replay cache still remembers its jti (its `exp` there is iat).
  lemma VerifiedProofIsBound(h: DPoPHeader, ath: string, wantJkt: string, httpMethod: string,
                             uri: Option<string>, now: int)
    requires Unix(now) >= CLOCK_SKEW && wantJkt != ""
    ensures var r := Verify(h, ath, wantJkt, httpMethod, uri, now);
      r.Ok? ==>
        && h.signed && h.jkt == Some(wantJkt) && h.htm == httpMethod && uri == Some(h.htu)
        && h.ath == ath != "" && r.value.jti != ""
        && Unix(now) <= ReplayUntil(r.value.iat) && Unix(now) >= r.value.iat - CLOCK_SKEW
  {
  }

  const REPLAY_PREFIX := "dpop:"

  function ReplayJti(jti: string): string {
    if jti == "" then "" else REPLAY_PREFIX + jti
  }

  // The prefix keeps distinct proofs in distinct keys.
  lemma ReplayJtiInjective(a: string, b: string)
    requires ReplayJti(a) == ReplayJti(b)
    ensures a == b
  {
    var n := |REPLAY_PREFIX|;
    assert a != "" ==> ReplayJti(a)[n..] == a;
    assert b != "" ==> ReplayJti(b)[n..] == b;
  }

  // A proof the cache has spent once is refused as replayed for as long as
  // Verify would still accept it, past the first seconds of 1970.
  lemma SpentProofStaysSpent(c: Cache, h: DPoPHeader, ath: string, wantJkt: string, httpMethod: string,
                             uri: Option<string>, first: int, again: int, firstIo: IO, io: IO)
    requires wantJkt != "" && Unix(again) >= CLOCK_SKEW && (c.log.Some? ==> ValidDisk(c.log.value))
    requires Verify(h, ath, wantJkt, httpMethod, uri, first).Ok?
    requires Verify(h, ath, wantJkt, httpMethod, uri, again).Ok?
    requires ConsumeVerdict(c, ReplayJti(h.jti), h.iat, [h.jti], Unix(first), firstIo) == Consumed
    ensures var c' := ConsumeNext(c, ReplayJti(h.jti), h.iat, [h.jti], Unix(first), firstIo);
      ConsumeVerdict(c', ReplayJti(h.jti), h.iat, [h.jti], Unix(again), io) == Replayed
  {
    hide ConsumeNext;
    VerifiedProofIsBound(h, ath, wantJkt, httpMethod, uri, again);
    ConsumeRecords(c, ReplayJti(h.jti), h.iat, [h.jti], Unix(first), firstIo);
    assert ([ReplayJti(h.jti)] + [h.jti])[0] == ReplayJti(h.jti);
  }

  lemma ReplayJtiLength(jti: string)
    requires jti != ""
    ensures JsonLength(ReplayJti(jti)) == 5 + JsonLength(jti)
  {
    hide JsonLength;
    JsonLengthAscii(':', jti);
    JsonLengthAscii('p', ":" + jti);
    JsonLengthAscii('o', "p" + (":" + jti));
    JsonLengthAscii('p', "o" + ("p" + (":" + jti)));
    JsonLengthAscii('d', "p" + ("o" + ("p" + (":" + jti))));
    assert ReplayJti(jti) == "d" + ("p" + ("o" + ("p" + (":" + jti))));
  }

  // A proof identifier of 174,763 characters is enough: Verify bounds none, its
  // entry is synced and acknowledged, and the log does not open again.
  lemma LongProofEndsTheLog(d: Disk<Entry>, n: nat, iat: int, now: int, later: int)
    requires n >= 174_763 && Recovered(d.pieces, now).Some? && 0 <= now <= ReplayUntil(iat)
    ensures var c, jti := Cache(map[], Some(d)), Repeat('<', n);
      && ConsumeVerdict(c, ReplayJti(jti), iat, [jti], now, Synced) == Consumed
      && Recovered(ConsumeNext(c, ReplayJti(jti), iat, [jti], now, Synced).log.value.pieces, later) == None
  {
    hide Recovered, ConsumeNext, JsonLength;
    var jti := Repeat('<', n);
    EscapedRepeat(n);
    ReplayJtiLength(jti);
    ReopenAfterConsumeIff(Cache(map[], Some(d)), ReplayJti(jti), iat, [jti], now, later);
  }

  datatype Outcome = Admitted | MissingCnf | Unavailable | NoProof | BadProof | UseNonce | ReplayedProof

  // writeDenyDPoP hands out a fresh nonce with a 401 and with nothing else.
  predicate Challenges(o: Outcome) {
    !o.Admitted? && !o.Unavailable?
  }

  datatype Gate = Gate(issued: map<string, int>, cache: Option<Cache>)

  // The three cache operations of one request run without interference.
  function DPoPOutcome(g: Gate, jkt: string, proof: Result<Proof, ProofError>, now: int, replayNow: int, io: IO)
    : Outcome
  {
    if jkt == "" then MissingCnf
    else if g.cache.None? then Unavailable
    else if proof.Err? then if proof.error.MissingProof? then NoProof else BadProof
    else if !Nonce.Live(g.issued, proof.value.nonce, now) then UseNonce
    else
      match ConsumeVerdict(g.cache.value, ReplayJti(proof.value.jti), proof.value.iat, [proof.value.jti], replayNow, io)
      case Replayed => ReplayedProof
      case EmptyJti => Unavailable
      case WriteFailed => Unavailable
      case Consumed => Admitted
  }

  function DPoPNext(g: Gate, jkt: string, proof: Result<Proof, ProofError>, now: int, replayNow: int, io: IO): Gate {
    if jkt == "" || g.cache.None? || proof.Err? || !Nonce.Live(g.issued, proof.value.nonce, now) then g
    else
      var p := proof.value;
      var o := DPoPOutcome(g, jkt, proof, now, replayNow, io);
      Gate(if o.Admitted? then Nonce.SpendNext(g.issued, p.nonce) else g.issued,
           Some(ConsumeNext(g.cache.value, ReplayJti(p.jti), p.iat, [p.jti], replayNow, io)))
  }

  ghost predicate NonceHeld(g: Gate, nonce: string, now: int) {
    !Blank(nonce) && nonce in g.issued && Unix(now) <= g.issued[nonce]
  }

  // The cache holds the proof's key, or its bare jti, or it is too old to hold.
  ghost predicate Spent(c: Cache, p: Proof, replayNow: int) {
    HeldAny(c.seen, ["dpop:" + p.jti, p.jti], replayNow) || (if p.iat > 0 then p.iat + 30 else 0) < replayNow
  }

  // Which outcome a request gets, for every state, proof and write outcome.
  lemma GateDecides(g: Gate, jkt: string, proof: Result<Proof, ProofError>, now: int, replayNow: int, io: IO)
    ensures var o := DPoPOutcome(g, jkt, proof, now, replayNow, io);
      && (o == MissingCnf <==> jkt == "")
      && (jkt != "" && g.cache.None? ==> o == Unavailable)
      && (jkt != "" && g.cache.Some? ==>
            if proof.Err? then o == if proof.error == MissingProof then NoProof else BadProof
            else if !NonceHeld(g, proof.value.nonce, now) then o == UseNonce
            else if proof.value.jti == "" then o == Unavailable
            else if Spent(g.cache.value, proof.value, replayNow) then o == ReplayedProof
            else if g.cache.value.log.Some? && io != Synced then o == Unavailable
            else o == Admitted)
  {
    if g.cache.Some? && proof.Ok? {
      var p := proof.value;
      VerdictMeans(g.cache.value, ReplayJti(p.jti), p.iat, [p.jti], replayNow, io);
      assert [REPLAY_PREFIX + p.jti] + [p.jti] == [REPLAY_PREFIX + p.jti, p.jti];
    }
  }

  // A proof whose key the log still holds, in the present form or in the bare
  // one of earlier versions, is refused by a gate that opens on that log.
  lemma LoggedProofRefused(d: Disk<Entry>, at: int, key: string, until: int,
                           g: Gate, jkt: string, p: Proof, now: int, replayNow: int, io: IO)
    requires Recovered(d.pieces, at).Some? && LastFor(Records(d.pieces), key) == Some(until)
    requires p.jti != "" && key in {p.jti, "dpop:" + p.jti} && at <= until && replayNow <= until
    requires g.cache == Some(Cache(Recovered(d.pieces, at).value, Some(d)))
    requires jkt != "" && NonceHeld(g, p.nonce, now)
    ensures DPoPOutcome(g, jkt, Ok(p), now, replayNow, io) == ReplayedProof
  {
    hide DPoPOutcome, Records, LastFor, Latest;
    GateDecides(g, jkt, Ok(p), now, replayNow, io);
    LatestOfLast(Records(d.pieces), key, until, at);
    assert key in [REPLAY_PREFIX + p.jti, p.jti];
  }

  class DPoPGate {
    const nonces: Nonce.NonceCache
    const replay: ReplayCache?

    constructor (nonces: Nonce.NonceCache, replay: ReplayCache?)
      ensures this.nonces == nonces && this.replay == replay
    {
      this.nonces, this.replay := nonces, replay;
    }

    ghost function State(): Gate
      reads this, nonces, replay
    {
      Gate(nonces.issued, if replay == null then None else Some(replay.State()))
    }

    // `now` is read once for the proof and both nonce operations; the replay
    // cache and issueNonce read the clock again.
    method RequireDPoP(jkt: string, proof: Result<Proof, ProofError>,
                       now: int, replayNow: int, io: IO, freshNonce: string, issueNow: int)
      returns (o: Outcome)
      modifies nonces, if replay == null then {} else {replay}
      ensures o == DPoPOutcome(old(State()), jkt, proof, now, replayNow, io)
      ensures var after := DPoPNext(old(State()), jkt, proof, now, replayNow, io);
        State() == if Challenges(o) then after.(issued := Nonce.IssueNext(after.issued, freshNonce, issueNow))
                   else after
    {
      o := Decide(jkt, proof, now, replayNow, io);
      if Challenges(o) {
        nonces.Issue(freshNonce, issueNow);
      }
    }

    method Decide(jkt: string, proof: Result<Proof, ProofError>, now: int, replayNow: int, io: IO)
      returns (o: Outcome)
      modifies nonces, if replay == null then {} else {replay}
      ensures o == DPoPOutcome(old(State()), jkt, proof, now, replayNow, io)
      ensures State() == DPoPNext(old(State()), jkt, proof, now, replayNow, io)
    {
      if jkt == "" {
        return MissingCnf;
      }
      if replay == null {
        return Unavailable;
      }
      if proof.Err? {
        return if proof.error.MissingProof? then NoProof else BadProof;
      }
      var p := proof.value;
      var has := nonces.Has(p.nonce, now);
      if !has {
        return UseNonce;
      }
      var v := replay.Consume(ReplayJti(p.jti), p.iat, [p.jti], replayNow, io);
      if !v.Consumed? {
        return if v.Replayed? then ReplayedProof else Unavailable;
      }
      var spent := nonces.Consume(p.nonce, now);
      return if spent then Admitted else UseNonce;
    }
  }
}
