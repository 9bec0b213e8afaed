/** The other half of single use: a stale reading of the replay cache's clock
    does give one token two successors, and there are runs in which it does. */
module Siblings {
  import opened Wrappers
  import opened Strings
  import opened Claims
  import opened Jws
  import opened Registry
  import opened AppendLog
  import opened Audit
  import opened Sts
  import opened Delegation
  import opened Presentation
  import opened SingleUse
  import Gateway
  import Keyrings
  import Replay
  import ReplayRuns
  import Scopes

  /******* What single steps do *******/

  lemma RootBegins(settings: Settings, s: State, e: Step, plan: Plan)
    requires Published(s) && e.Begin? && s.published[|s.published| - 1].signer.Some?
    requires Prepare(settings, s.published[|s.published| - 1], e.req, e.now, e.freshTxn) == Ok(plan)
    requires !plan.subject.fromSts
    requires Finish(settings, s.published[|s.published| - 1].signer.value, plan, e.req, e.freshJti).Minted?
    ensures var o := Finish(settings, s.published[|s.published| - 1].signer.value, plan, e.req, e.freshJti);
      BeginNext(settings, s, e)
        == NoteTxn(s, plan.subject.claims.txn, e.freshTxn).(
             mints := s.mints + [MintOf(o.claims, o.token, plan, None, e.req.audience, |s.published| - 1)],
             inFlight := s.inFlight[e.id := Auditing(AuditEvent(e.req, o), Some(|s.mints|))])
  {
    hide Prepare, Finish, AuditEvent;
  }

  lemma HopBegins(settings: Settings, s: State, e: Step, plan: Plan)
    requires Published(s) && e.Begin?
    requires Prepare(settings, s.published[|s.published| - 1], e.req, e.now, e.freshTxn) == Ok(plan)
    requires plan.subject.fromSts
    ensures BeginNext(settings, s, e)
         == s.(inFlight := s.inFlight[e.id := Validated(e.req, plan, e.parent, |s.published| - 1)])
  {
    hide Prepare;
  }

  // A token the cache does not remember is consumed and mints.
  lemma HopConsumes(settings: Settings, s: State, e: Step)
    requires Published(s) && SnapsValid(s) && e.Consume? && s.replay.Up? && e.io == Synced
    requires e.id in s.inFlight && s.inFlight[e.id].Validated?
    requires var ph := s.inFlight[e.id];
      var c := ph.plan.subject.claims;
      && ConfirmationKey(ph.req, ph.plan.workload) != ""
      && c.jti != "" && c.jti !in Replay.Purge(s.replay.seen, Unix(e.now)) && Unix(e.now) <= ReplayUntil(c.exp)
    ensures var ph, s' := s.inFlight[e.id], ConsumeNext(settings, s, e);
      var c := ph.plan.subject.claims;
      && |s'.mints| == |s.mints| + 1 && s'.mints[..|s.mints|] == s.mints
      && s'.mints[|s.mints|].parent == Some(ph.parent) && s'.mints[|s.mints|].claims.jti == e.freshJti
      && s'.replay.Up? && s'.replay.seen == Replay.Purge(s.replay.seen, Unix(e.now))[c.jti := ReplayUntil(c.exp)]
      && (forall id | id != e.id && id in s.inFlight :: id in s'.inFlight && s'.inFlight[id] == s.inFlight[id])
      && s' == s.(mints := s'.mints, replay := s'.replay, inFlight := s'.inFlight)
  {
    hide AuditEvent, Replay.Purge, Replay.Record;
    var c := s.inFlight[e.id].plan.subject.claims;
    assert [c.jti] + [] == [c.jti];
  }

  // Any proof spent with a reading past a deadline purges what has it.
  lemma ProofPurges(s: State, e: Step, jti: string)
    requires e.SpendProof? && s.replay.Up? && e.jti != "" && Gateway.ReplayJti(e.jti) != jti
    requires jti in s.replay.seen ==> s.replay.seen[jti] < Unix(e.now)
    ensures var s' := SpendProofNext(s, e);
      s'.replay.Up? && jti !in s'.replay.seen && s' == s.(replay := s'.replay)
  {
    hide Replay.Record;
  }

  /******* Any token, any two exchanges of it *******/

  lemma Extends(settings: Settings, states: seq<State>, steps: seq<Step>, e: Step, s': State)
    requires IsRun(settings, states, steps) && StepTo(settings, states[|steps|], e, s')
    ensures IsRun(settings, states + [s'], steps + [e]) && |states| == |steps| + 1
    ensures Inv(settings, s') && Published(s') && SnapsValid(s')
  {
    hide StepTo, Initial, Published, SnapsValid, Inv;
    var all, events := states + [s'], steps + [e];
    forall i | 0 <= i < |events| ensures StepTo(settings, all[i], events[i], all[i + 1]) {
      if i < |steps| {
        assert StepTo(settings, states[i], steps[i], states[i + 1]);
      }
    }
    RunKeepsInv(settings, all, events, |events|);
  }

  // An exchange of mint p that would mint.
  datatype Hop = Hop(p: nat, req: Request, now: int, freshTxn: string, plan: Plan)

  function Latest(s: State): Identity
    requires s.published != []
  {
    s.published[|s.published| - 1]
  }

  // A running STS that released mint h.p, is asked to exchange it, and finds
  // nothing wrong with that.
  ghost predicate Ready(settings: Settings, s: State, h: Hop) {
    && s.published != [] && s.up && s.replay.Up?
    && h.p in s.released && h.p < |s.mints| && h.req.subject == Some(s.mints[h.p].token)
    && FreshTxn(s, h.freshTxn)
    && Prepare(settings, Latest(s), h.req, h.now, h.freshTxn) == Ok(h.plan)
    && h.plan.subject == Subject(s.mints[h.p].claims, true)
    && ConfirmationKey(h.req, h.plan.workload) != ""
  }

  lemma ReadyMeans(settings: Settings, s: State, h: Hop)
    requires Ready(settings, s, h)
    ensures Latest(s).signer.Some? && Keyrings.RingAccepts(Latest(s).signer.value, s.mints[h.p].token)
  {
    hide Prepare, ValidateAgent, ConfirmationKey, IsNewId;
    PreparedIsApproved(settings, Latest(s), h.req, h.now, h.freshTxn);
  }

  lemma HopStep(settings: Settings, s: State, h: Hop, id: nat, jti: string) returns (e: Step, s': State)
    requires Ready(settings, s, h) && Published(s) && SnapsValid(s) && id !in s.inFlight && FreshJti(s, jti)
    ensures StepTo(settings, s, e, s') && Ready(settings, s', h) && Presents(s', id, h.p)
    ensures s' == s.(inFlight := s.inFlight[id := Validated(h.req, h.plan, h.p, |s.published| - 1)])
  {
    hide Prepare, IsNewId, Verify, Keyrings.RingAccepts, ConfirmationKey, ValidIdentity, Published, SnapsValid,
      FreshJti;
    ReadyMeans(settings, s, h);
    e := Begin(id, h.req, h.now, h.freshTxn, jti, h.p);
    HopBegins(settings, s, e, h.plan);
    s' := BeginNext(settings, s, e);
  }

  ghost predicate OneMoreMint(s: State, s': State, p: nat, jti: string) {
    && |s'.mints| == |s.mints| + 1 && s.mints <= s'.mints
    && s'.mints[|s.mints|].parent == Some(p) && s'.mints[|s.mints|].claims.jti == jti
  }

  // The token is not remembered, and the reading is inside its deadline.
  lemma ConsumeStep(settings: Settings, s: State, h: Hop, id: nat, now: int, jti: string) returns (e: Step, s': State)
    requires Ready(settings, s, h) && Inv(settings, s) && Published(s) && SnapsValid(s) && FreshJti(s, jti)
    requires id in s.inFlight && s.inFlight[id] == Validated(h.req, h.plan, h.p, |s.published| - 1)
    requires var c := s.mints[h.p].claims; c.jti !in s.replay.seen && Unix(now) <= ReplayUntil(c.exp)
    ensures e == Delegation.Consume(id, now, Synced, jti) && StepTo(settings, s, e, s') && Presents(s, id, h.p)
    ensures Ready(settings, s', h) && s'.published == s.published && OneMoreMint(s, s', h.p, jti)
    ensures s'.mints[h.p] == s.mints[h.p]
    ensures var c := s.mints[h.p].claims; c.jti in s'.replay.seen && s'.replay.seen[c.jti] == ReplayUntil(c.exp)
    ensures forall other | other != id && other in s.inFlight ::
      other in s'.inFlight && s'.inFlight[other] == s.inFlight[other]
  {
    hide Prepare, IsNewId, ConfirmationKey, ValidIdentity, Published, SnapsValid, FreshJti, ConsumeNext, Inv;
    ProofKeyIsNoMint(settings, s, h.p, "p");
    e := Delegation.Consume(id, now, Synced, jti);
    HopConsumes(settings, s, e);
    s' := ConsumeNext(settings, s, e);
  }

  // A cache step whose reading is past the token's deadline.
  lemma SpendStep(settings: Settings, s: State, h: Hop, now: int) returns (e: Step, s': State)
    requires Ready(settings, s, h) && Inv(settings, s) && Published(s) && SnapsValid(s)
    requires var c := s.mints[h.p].claims; c.jti in s.replay.seen ==> s.replay.seen[c.jti] < Unix(now)
    ensures e == SpendProof("p", Unix(now), now, Synced) && StepTo(settings, s, e, s') && Ready(settings, s', h)
    ensures s' == s.(replay := s'.replay) && s'.replay.Up? && s.mints[h.p].claims.jti !in s'.replay.seen
  {
    hide SpendProofNext, Prepare, IsNewId, ConfirmationKey, Published, SnapsValid, Inv;
    ProofKeyIsNoMint(settings, s, h.p, "p");
    e := SpendProof("p", Unix(now), now, Synced);
    ProofPurges(s, e, s.mints[h.p].claims.jti);
    s' := SpendProofNext(s, e);
  }

  // What the environment adds: two exchange ids, two identifiers, three readings.
  datatype Draws = Draws(id: nat, id': nat, jti: string, jti': string, first: int, peak: int, second: int)

  ghost predicate Drawable(s: State, d: Draws, until: int) {
    && d.id !in s.inFlight && d.id' !in s.inFlight && d.id != d.id'
    && FreshJti(s, d.jti) && FreshJti(s, d.jti') && d.jti != d.jti'
    && Unix(d.first) <= until < Unix(d.peak) && Unix(d.second) <= until
  }

  // From index n on: two exchanges of mint p begin, the first consumes it, a
  // proof is spent, the second consumes it, and each of the two mints.
  ghost predicate MintsTwice(states: seq<State>, steps: seq<Step>, n: nat, p: nat, d: Draws) {
    && |steps| == n + 5 && |states| == n + 6
    && steps[n + 2] == Delegation.Consume(d.id, d.first, Synced, d.jti)
    && steps[n + 3] == SpendProof("p", Unix(d.peak), d.peak, Synced)
    && steps[n + 4] == Delegation.Consume(d.id', d.second, Synced, d.jti')
    && Crossing(states, steps, n + 2, n + 3, n + 4, p)
    && states[n + 2].mints == states[n].mints && states[n + 4].mints == states[n + 3].mints
    && OneMoreMint(states[n + 2], states[n + 3], p, d.jti) && OneMoreMint(states[n + 4], states[n + 5], p, d.jti')
  }

  // Both exchanges had begun in s, and in s' the first has consumed.
  ghost predicate FirstConsumed(settings: Settings, s: State, s': State, h: Hop, d: Draws) {
    && Ready(settings, s, h) && Ready(settings, s', h) && Inv(settings, s') && Published(s') && SnapsValid(s')
    && OneMoreMint(s, s', h.p, d.jti) && Presents(s, d.id, h.p) && s'.mints[h.p] == s.mints[h.p]
    && d.id' in s'.inFlight && s'.inFlight[d.id'] == Validated(h.req, h.plan, h.p, |s'.published| - 1)
    && var c := s.mints[h.p].claims; c.jti in s'.replay.seen && s'.replay.seen[c.jti] == ReplayUntil(c.exp)
  }

  lemma FirstConsume(settings: Settings, states: seq<State>, steps: seq<Step>, h: Hop, d: Draws)
    returns (states': seq<State>, steps': seq<Step>)
    requires IsRun(settings, states, steps) && Ready(settings, states[|steps|], h)
    requires var c := states[|steps|].mints[h.p].claims;
      c.jti !in states[|steps|].replay.seen && Drawable(states[|steps|], d, ReplayUntil(c.exp))
    ensures IsRun(settings, states', steps') && states <= states' && steps <= steps'
    ensures |steps'| == |steps| + 3 && |states'| == |steps| + 4
    ensures steps'[|steps| + 2] == Delegation.Consume(d.id, d.first, Synced, d.jti)
    ensures states'[|steps| + 2].mints == states'[|steps|].mints
    ensures FirstConsumed(settings, states'[|steps| + 2], states'[|steps| + 3], h, d)
  {
    hide IsRun, Ready, StepTo, Published, SnapsValid, Inv, Presents, OneMoreMint, IsNewId;
    var n := |steps|;
    RunOf(settings, states, steps);
    var e0, s1 := HopStep(settings, states[n], h, d.id, d.jti);
    Extends(settings, states, steps, e0, s1);
    var e1, s2 := HopStep(settings, s1, h, d.id', d.jti');
    Extends(settings, states + [s1], steps + [e0], e1, s2);
    StillPresents(s1, s2, d.id, d.id', h.p);
    var e2, s3 := ConsumeStep(settings, s2, h, d.id, d.first, d.jti);
    Extends(settings, states + [s1] + [s2], steps + [e0] + [e1], e2, s3);
    states', steps' := states + [s1] + [s2] + [s3], steps + [e0] + [e1] + [e2];
  }

  lemma RunOf(settings: Settings, states: seq<State>, steps: seq<Step>)
    requires IsRun(settings, states, steps)
    ensures |states| == |steps| + 1
    ensures var s := states[|steps|]; Inv(settings, s) && Published(s) && SnapsValid(s)
  {
    RunKeepsInv(settings, states, steps, |steps|);
  }

  lemma StillPresents(s: State, s': State, id: nat, other: nat, p: nat)
    requires Presents(s, id, p) && s'.mints == s.mints && id != other
    requires other in s'.inFlight && s'.inFlight == s.inFlight[other := s'.inFlight[other]]
    ensures Presents(s', id, p)
  {
  }

  // From any reachable state: whichever token the cache does not remember and
  // whatever exchange of it would mint, when two of these consume it inside its
  // deadline and a proof is spent between them with a reading past it, both mint.
  lemma StaleReadingMintsTwice(settings: Settings, states: seq<State>, steps: seq<Step>, h: Hop, d: Draws)
    returns (states': seq<State>, steps': seq<Step>)
    requires IsRun(settings, states, steps) && Ready(settings, states[|steps|], h)
    requires var c := states[|steps|].mints[h.p].claims;
      c.jti !in states[|steps|].replay.seen && Drawable(states[|steps|], d, ReplayUntil(c.exp))
    ensures IsRun(settings, states', steps') && states <= states' && steps <= steps'
    ensures MintsTwice(states', steps', |steps|, h.p, d)
  {
    hide IsRun, Ready, StepTo, Published, SnapsValid, Inv, Presents, Crossing, IsNewId;
    var n := |steps|;
    RunOf(settings, states, steps);
    states', steps' := FirstConsume(settings, states, steps, h, d);
    var s3 := states'[n + 3];
    var e3, s4 := SpendStep(settings, s3, h, d.peak);
    Extends(settings, states', steps', e3, s4);
    var e4, s5 := ConsumeStep(settings, s4, h, d.id', d.second, d.jti');
    Extends(settings, states' + [s4], steps' + [e3], e4, s5);
    states', steps' := states' + [s4] + [s5], steps' + [e3] + [e4];
    Crosses(states', steps', n, h.p, d);
  }

  lemma Crosses(states: seq<State>, steps: seq<Step>, n: nat, p: nat, d: Draws)
    requires |steps| == n + 5 && |states| == n + 6
    requires steps[n + 2] == Delegation.Consume(d.id, d.first, Synced, d.jti)
    requires steps[n + 3] == SpendProof("p", Unix(d.peak), d.peak, Synced)
    requires steps[n + 4] == Delegation.Consume(d.id', d.second, Synced, d.jti')
    requires Presents(states[n + 2], d.id, p) && Presents(states[n + 4], d.id', p)
    requires var until := ReplayUntil(states[n + 2].mints[p].claims.exp);
      Unix(d.first) <= until < Unix(d.peak) && Unix(d.second) <= until
    ensures Crossing(states, steps, n + 2, n + 3, n + 4, p)
  {
  }

  /******* A token with two successors *******/

  function Id(prefix: string, c: char): string {
    prefix + "-" + seq(32, _ => c)
  }

  lemma IdIsNew(prefix: string, c: char)
    requires HexDigit(c)
    ensures IsNewId(prefix, Id(prefix, c)) && Id(prefix, c) != "" && Id(prefix, c)[|prefix| + 1] == c
  {
  }

  const ISSUER := Settings("sts", 0, [Jwk("idp", "OKP", "sig", "EdDSA", "Ed25519", "i", "", "", "", "")], "", true)
  const RING := Keyrings.Ring("k", map["k" := Keyrings.Signer("k", "x", "")])
  const AGENT := Agent("a://", ["w"], ["a://"], [], 2, Unset, Unset)
  const USER := Claims("idp", "alice", ["a://"], 1000, 0, 0, "", "", None, [], "", "", None)
  const SNAPSHOT := Identity(Some(Registry(map["a://" := AGENT], [AGENT])), Some(RING), None)

  function Asks(t: Token): Request {
    Request("", Some(t), ActorToken.Actor(Some(Workload("w", "jkt"))), "a://", "", "", "a://", "", "")
  }

  lemma AgentValid()
    ensures ValidateAgent(AGENT).None? && ValidIdentity(SNAPSHOT) && !Blank("a://")
  {
    var id := "a://";
    assert id[1..] == "://" && Contains(id[1..], "://");
    assert !IsSpace(id[0]) && !IsSpace("w"[0]);
  }

  // The user's token and each token minted from it pass the checks at time 0.
  lemma Prepared(t: Token, txn: string, sub: Subject)
    requires VerifySubject(ISSUER, RING, t) == Some(sub)
    requires !Blank(sub.claims.sub) && sub.claims.exp > 0 && sub.claims.nbf <= 0
    requires sub.claims.aud == ["a://"] && |AppendChain(sub.claims)| < 2
    requires if sub.fromSts then sub.claims.txn != "" else sub.claims.act.None? && sub.claims.actChain == []
    ensures var r := Prepare(ISSUER, SNAPSHOT, Asks(t), 0, txn);
      && r.Ok? && r.value.subject == sub && r.value.agent == AGENT
      && r.value.workload == Workload("w", "jkt") && r.value.now == 0
      && r.value.txn == if sub.claims.txn == "" then txn else sub.claims.txn
  {
    hide VerifySubject, ValidateAgent, Scopes.Ceiling, Scopes.Joined, AppendChain;
    AgentValid();
    assert Blank("");
    assert ValidateTime(sub.claims, 0, 0) == Current;
    assert Authorize(SNAPSHOT.registry.value, "a://", "w", "a://", 0) == Ok(AGENT);
  }

  const USER_TOKEN := Signed("EdDSA", "idp", Ed25519("i"), USER)

  lemma UserVerified()
    ensures !Keyrings.RingAccepts(RING, USER_TOKEN) && !Blank(USER.sub)
    ensures VerifySubject(ISSUER, RING, USER_TOKEN) == Some(Subject(USER, false))
  {
    var keys := ISSUER.idpKeys;
    assert Matching(keys[..0], "idp", "EdDSA") == [];
    assert Matching(keys, "idp", "EdDSA") == keys;
    assert USER_TOKEN.alg[0] == 'E';
    assert !IsSpace(USER.sub[0]);
  }

  lemma MintVerified(c: Claims)
    requires c.iss == "sts"
    ensures VerifySubject(ISSUER, RING, Keyrings.Mint(RING, c)) == Some(Subject(c, true))
  {
  }

  ghost predicate RootMinted(plan: Plan, o: Outcome) {
    && Prepare(ISSUER, SNAPSHOT, Asks(USER_TOKEN), 0, Id("txn", '0')) == Ok(plan)
    && plan.subject == Subject(USER, false)
    && o == Finish(ISSUER, RING, plan, Asks(USER_TOKEN), Id("jti", '0')) && o.Minted?
  }

  // The user's token is exchanged once,
  lemma RootMint() returns (plan: Plan, o: Outcome)
    ensures RootMinted(plan, o)
    ensures o.claims.jti == Id("jti", '0') && VerifySubject(ISSUER, RING, o.token) == Some(Subject(o.claims, true))
    ensures !Blank(o.claims.sub) && o.claims.exp == 120 && o.claims.nbf == 0
    ensures o.claims.aud == ["a://"] && |AppendChain(o.claims)| == 1 && o.claims.txn == Id("txn", '0')
  {
    hide Prepare, VerifySubject, Id;
    UserVerified();
    Prepared(USER_TOKEN, Id("txn", '0'), Subject(USER, false));
    plan := Prepare(ISSUER, SNAPSHOT, Asks(USER_TOKEN), 0, Id("txn", '0')).value;
    o := Finish(ISSUER, RING, plan, Asks(USER_TOKEN), Id("jti", '0'));
    assert MintTtl(0) == 120 * SECOND && Unix(120 * SECOND) == 120;
    MintVerified(o.claims);
  }

  function Start(): State {
    State([SNAPSHOT], true, ReplayRuns.Up(map[], Disk([], 0)), Log(Some(Disk([], 0)), GENESIS, 0, false),
          map[], [], map[], {}, {}, 0)
  }

  lemma RootStep(plan: Plan, o: Outcome) returns (e: Step, s': State)
    requires RootMinted(plan, o)
    ensures StepTo(ISSUER, Start(), e, s') && Published(s') && SnapsValid(s')
    ensures s'.inFlight.Keys == {0} && s'.inFlight[0].Auditing? && s'.inFlight[0].mint == Some(0)
    ensures |s'.mints| == 1 && s'.mints[0].token == o.token && s'.mints[0].claims == o.claims
    ensures s'.generated == {Id("txn", '0')}
    ensures s' == Start().(mints := s'.mints, inFlight := s'.inFlight, generated := s'.generated)
  {
    hide Prepare, Finish, AuditEvent, ValidIdentity, Id, IsNewId;
    AgentValid();
    UserVerified();
    IdIsNew("txn", '0');
    IdIsNew("jti", '0');
    e := Begin(0, Asks(USER_TOKEN), 0, Id("txn", '0'), Id("jti", '0'), 0);
    RootBegins(ISSUER, Start(), e, plan);
    s' := BeginNext(ISSUER, Start(), e);
  }

  // Its record is written, with nothing else in flight.
  lemma WriteStep(settings: Settings, s: State)
    requires Published(s) && SnapsValid(s) && s.up && s.inFlight.Keys == {0}
    requires s.inFlight[0].Auditing? && s.inFlight[0].mint == Some(0)
    requires s.log == Log(Some(Disk([], 0)), GENESIS, 0, false)
    ensures var e := WriteAudit(0, s.clock, 0, Synced);
      var s' := WriteAuditNext(s, e);
      && StepTo(settings, s, e, s') && s'.inFlight == map[] && 0 in s'.released
      && s' == s.(log := s'.log, inFlight := s'.inFlight, released := s'.released)
  {
    hide AppendNext, Published, SnapsValid;
  }

  lemma RootRun(plan: Plan, o: Outcome) returns (states: seq<State>, steps: seq<Step>)
    requires RootMinted(plan, o)
    ensures IsRun(ISSUER, states, steps) && |steps| == 2
    ensures var s := states[2];
      && s.published == [SNAPSHOT] && s.up && s.inFlight == map[] && s.replay == ReplayRuns.Up(map[], Disk([], 0))
      && |s.mints| == 1 && s.mints[0].token == o.token && s.mints[0].claims == o.claims && 0 in s.released
      && s.generated == {Id("txn", '0')} && s.idpTxns == {}
  {
    hide StepTo, Published, SnapsValid, RootMinted, Id, ValidIdentity, WriteAuditNext;
    var begin, s1 := RootStep(plan, o);
    WriteStep(ISSUER, s1);
    var write := WriteAudit(0, s1.clock, 0, Synced);
    AgentValid();
    states, steps := [Start(), s1, WriteAuditNext(s1, write)], [begin, write];
  }

  // and its mint is released, ready to be exchanged.
  lemma Released() returns (states: seq<State>, steps: seq<Step>, h: Hop)
    ensures IsRun(ISSUER, states, steps) && |steps| == 2 && Ready(ISSUER, states[2], h) && h.p == 0
    ensures states[2].inFlight == map[] && states[2].replay.Up? && states[2].replay.seen == map[]
    ensures |states[2].mints| == 1 && states[2].mints[0].claims.jti == Id("jti", '0')
    ensures states[2].mints[0].claims.exp == 120
  {
    hide IsRun, Finish, Prepare, Id, IsNewId, VerifySubject, AppendChain;
    var plan, o := RootMint();
    states, steps := RootRun(plan, o);
    IdIsNew("txn", '0');
    IdIsNew("txn", '1');
    Prepared(o.token, Id("txn", '1'), Subject(o.claims, true));
    var hop := Asks(o.token);
    h := Hop(0, hop, 0, Id("txn", '1'), Prepare(ISSUER, SNAPSHOT, hop, 0, Id("txn", '1')).value);
  }

  // One token, two successors: everything is decided in the first second but
  // the proof's reading, 151 seconds later, which overtook the second consume.
  lemma TokenWithTwoSuccessors() returns (states: seq<State>, steps: seq<Step>, d: Draws)
    ensures IsRun(ISSUER, states, steps) && MintsTwice(states, steps, 2, 0, d)
    ensures d.first == d.second == 0 && d.peak == 151 * SECOND
    ensures !Timely(states, steps, 7)
  {
    hide StepTo, Initial, Ready, IsNewId, Id;
    var before, begun, h := Released();
    IdIsNew("jti", '0');
    IdIsNew("jti", '1');
    IdIsNew("jti", '2');
    d := Draws(1, 2, Id("jti", '1'), Id("jti", '2'), 0, 151 * SECOND, 0);
    states, steps := StaleReadingMintsTwice(ISSUER, before, begun, h, d);
  }
}
