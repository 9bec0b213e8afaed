/** The steps of the run model are the pieces of Config.Exchange: an exchange no
    other step interrupts does to the stores what the method does. */
module ExchangeSteps {
  import opened Wrappers
  import opened Claims
  import opened Sts
  import opened Delegation
  import Audit
  import Keyrings
  import Replay
  import ReplayRuns

  function CacheOf(s: State): Replay.Cache
    requires s.replay.Up?
  {
    Replay.Cache(s.replay.seen, Some(s.replay.disk))
  }

  function StoresOf(s: State, m: Metrics): Stores
    requires s.replay.Up?
  {
    Stores(Some(CacheOf(s)), Some(s.log), m)
  }

  // Exchange id has decided o: its record is waiting to be written, and a
  // mint is the last one made.
  ghost predicate Concluded(s: State, s': State, id: nat, req: Request, o: Outcome) {
    && s'.log == s.log && s'.released == s.released && id in s'.inFlight
    && if o.Minted? then
         && s'.inFlight[id] == Auditing(AuditEvent(req, o), Some(|s.mints|)) && |s'.mints| == |s.mints| + 1
         && s'.mints[|s.mints|].token == o.token && s'.mints[|s.mints|].claims == o.claims
       else s'.inFlight[id] == Auditing(AuditEvent(req, o), None) && s'.mints == s.mints
  }

  lemma IssueConcludes(settings: Settings, s: State, id: nat, req: Request, plan: Plan,
                       parent: Option<nat>, snap: nat, ring: Keyrings.Ring, freshJti: string)
    requires ring.active in ring.byKid
    ensures Concluded(s, Issue(settings, s, id, req, plan, parent, snap, ring, freshJti), id, req,
                      Finish(settings, ring, plan, req, freshJti))
  {
    hide Finish, AuditEvent;
  }

  // A Begin followed, where the subject is an STS token, by its Consume.
  ghost predicate DecideSteps(settings: Settings, s: State, s1: State, s2: State,
                              id: nat, req: Request, env: Env, parent: nat, replayNow: int) {
    && StepTo(settings, s, Begin(id, req, env.now, env.freshTxn, env.freshJti, parent), s1) && id in s1.inFlight
    && if s1.inFlight[id].Validated? then StepTo(settings, s1, Consume(id, replayNow, env.replayIo, env.freshJti), s2)
       else s2 == s1
  }

  lemma DecidesAlike(settings: Settings, s: State, s1: State, s2: State,
                     id: nat, req: Request, env: Env, parent: nat, replayNow: int, m: Metrics)
    requires DecideSteps(settings, s, s1, s2, id, req, env, parent, replayNow)
    requires s.replay.Up? && env.replayNow == Unix(replayNow)
    ensures s2.replay.Up?
    ensures var (o, cache) := Decided(settings, s.published[|s.published| - 1], StoresOf(s, m), req, env);
      cache == Some(CacheOf(s2)) && Concluded(s, s2, id, req, o)
  {
    hide Prepare, Replay.ConsumeVerdict, Replay.ConsumeNext, AuditEvent, Issue, Finish, Enabled, Concluded;
    var snap := |s.published| - 1;
    var i := s.published[snap];
    assert ValidIdentity(i);
    PreparedHasSigner(settings, i, req, env.now, env.freshTxn);
    match Prepare(settings, i, req, env.now, env.freshTxn) {
      case Err(d) =>
        AuditedConcludes(s, s, id, req, d);
      case Ok(plan) =>
        if plan.subject.fromSts {
          assert s1.inFlight[id] == Validated(req, plan, parent, snap);
          ConsumesAlike(settings, s, s1, s2, id, req, plan, env, parent, replayNow);
        } else {
          var noted := NoteTxn(s, plan.subject.claims.txn, env.freshTxn);
          IssueConcludes(settings, noted, id, req, plan, None, snap, i.signer.value, env.freshJti);
          IssueFrame(settings, noted, id, req, plan, None, snap, i.signer.value, env.freshJti);
          SameBefore(s, noted, s2, id, req, Finish(settings, i.signer.value, plan, req, env.freshJti));
        }
    }
  }

  lemma IssueFrame(settings: Settings, s: State, id: nat, req: Request, plan: Plan,
                   parent: Option<nat>, snap: nat, ring: Keyrings.Ring, freshJti: string)
    requires ring.active in ring.byKid
    ensures var s' := Issue(settings, s, id, req, plan, parent, snap, ring, freshJti);
      s'.replay == s.replay && s'.inFlight[id].Auditing?
  {
    hide Finish, AuditEvent;
  }

  lemma AuditedConcludes(s: State, t: State, id: nat, req: Request, d: Denial)
    requires t.log == s.log && t.released == s.released && t.mints == s.mints
    ensures Concluded(s, Audited(t, id, AuditEvent(req, Denied(d)), None), id, req, Denied(d))
  {
    hide AuditEvent;
  }

  lemma SameBefore(s: State, t: State, s': State, id: nat, req: Request, o: Outcome)
    requires Concluded(t, s', id, req, o) && t.log == s.log && t.released == s.released && t.mints == s.mints
    ensures Concluded(s, s', id, req, o)
  {
  }

  lemma ConsumesAlike(settings: Settings, s: State, s1: State, s2: State,
                      id: nat, req: Request, plan: Plan, env: Env, parent: nat, replayNow: int)
    requires s.published != [] && s.replay.Up? && env.replayNow == Unix(replayNow)
    requires s1 == s.(inFlight := s.inFlight[id := Validated(req, plan, parent, |s.published| - 1)])
    requires StepTo(settings, s1, Consume(id, replayNow, env.replayIo, env.freshJti), s2)
    ensures s.published[|s.published| - 1].signer.Some?
    ensures var ring := s.published[|s.published| - 1].signer.value;
      var c := plan.subject.claims;
      var v := Replay.ConsumeVerdict(CacheOf(s), c.jti, c.exp, [], env.replayNow, env.replayIo);
      && ring.active in ring.byKid && s2.replay.Up?
      && CacheOf(s2) == Replay.ConsumeNext(CacheOf(s), c.jti, c.exp, [], env.replayNow, env.replayIo)
      && Concluded(s, s2, id, req,
           if v.Consumed? then Finish(settings, ring, plan, req, env.freshJti)
           else Denied(Denial(ConsumeReason(Some(v)), Some(c))))
  {
    hide AuditEvent, Issue, Finish, Enabled, Concluded, Replay.ConsumeVerdict, Replay.ConsumeNext, ConsumeReason;
    var snap := |s.published| - 1;
    var c := plan.subject.claims;
    assert s1.inFlight[id].snap == snap;
    var ring := s.published[snap].signer.value;
    var v := Replay.ConsumeVerdict(CacheOf(s), c.jti, c.exp, [], env.replayNow, env.replayIo);
    var cache' := Replay.ConsumeNext(CacheOf(s), c.jti, c.exp, [], env.replayNow, env.replayIo);
    var t := s1.(replay := ReplayRuns.Up(cache'.seen, cache'.log.value));
    assert ValidIdentity(s1.published[snap]);
    if v.Consumed? {
      IssueConcludes(settings, t, id, req, plan, Some(parent), snap, ring, env.freshJti);
      IssueFrame(settings, t, id, req, plan, Some(parent), snap, ring, env.freshJti);
      SameBefore(s, t, s2, id, req, Finish(settings, ring, plan, req, env.freshJti));
    } else {
      AuditedConcludes(s, t, id, req, Denial(ConsumeReason(Some(v)), Some(c)));
    }
  }

  // Exchange()'s result and stores, and its token released exactly when it is
  // returned.
  lemma UninterruptedIsExchange(settings: Settings, s: State, s1: State, s2: State, s3: State,
                                id: nat, req: Request, env: Env, parent: nat, replayNow: int, m: Metrics)
    requires DecideSteps(settings, s, s1, s2, id, req, env, parent, replayNow)
    requires StepTo(settings, s2, WriteAudit(id, env.auditNow, env.lineLength, env.auditIo), s3)
    requires s.replay.Up? && env.replayNow == Unix(replayNow) && |s.mints| !in s.released
    ensures s3.replay.Up?
    ensures var (o, st) := Exchanged(settings, s.published[|s.published| - 1], StoresOf(s, m), req, env);
      && st == StoresOf(s3, st.metrics)
      && (if o.Minted? then
            && |s3.mints| == |s.mints| + 1 && s3.mints[|s.mints|].token == o.token
            && s3.released.Keys == s.released.Keys + {|s.mints|}
          else s3.released == s.released)
  {
    hide Decided, DecideSteps, AuditEvent, ValidIdentity, Audit.AppendNext, Audit.AppendStatus;
    DecidesAlike(settings, s, s1, s2, id, req, env, parent, replayNow, m);
  }
}
