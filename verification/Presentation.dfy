/** What the replay cache refuses over protocol runs: only tokens that were
    presented before, never for a DPoP proof spent in the same log. */
module Presentation {
  import opened Wrappers
  import opened Claims
  import opened AppendLog
  import opened Sts
  import opened Delegation
  import opened Lineage
  import Gateway
  import Replay
  import ReplayRuns

  // The critical section of the replay cache a step runs, if any.
  function CacheStep(s: State, e: Step): Option<ReplayRuns.Step> {
    match e
    case Consume(id, now, io, _) =>
      if id in s.inFlight && s.inFlight[id].Validated? then
        var c := s.inFlight[id].plan.subject.claims;
        Some(ReplayRuns.Consume(c.jti, c.exp, [], Unix(now), io))
      else None
    case SpendProof(jti, iat, now, io) => Some(ReplayRuns.Consume(Gateway.ReplayJti(jti), iat, [jti], Unix(now), io))
    case Restart(_, now, loss, _) => Some(ReplayRuns.Restart(Unix(now), loss))
    case _ => None
  }

  lemma CacheFollows(settings: Settings, s: State, e: Step, s': State)
    requires StepTo(settings, s, e, s')
    ensures match CacheStep(s, e)
      case None => s'.replay == s.replay
      case Some(t) => ReplayRuns.StepTo(s.replay, t, s'.replay)
  {
    hide Prepare, Finish, AuditEvent, FreshTxn, FreshJti, Honest, Replay.ConsumeVerdict, Replay.ConsumeNext,
      ReplayRuns.Reopen, ValidIdentity;
  }

  // Step a put jti on file, or in memory, until that deadline.
  ghost predicate PutAt(states: seq<State>, steps: seq<Step>, a: nat, jti: string, until: int) {
    && a < |steps| && a < |states| && CacheStep(states[a], steps[a]).Some?
    && var t := CacheStep(states[a], steps[a]).value;
       ReplayRuns.Wrote(states[a].replay, t) && t.jti == jti && ReplayUntil(t.exp) == until
  }

  ghost predicate Holds(p: ReplayRuns.Process, e: Replay.Entry) {
    e in Records(p.disk.pieces) || (p.Up? && e.jti in p.seen && p.seen[e.jti] == e.until)
  }

  // Whatever cache and log hold, an earlier step put there.
  lemma {:induction false} HeldWasPut(settings: Settings, states: seq<State>, steps: seq<Step>, n: nat, e: Replay.Entry)
    returns (a: nat)
    requires IsRun(settings, states, steps) && n < |states| && Holds(states[n].replay, e)
    ensures a < n && PutAt(states, steps, a, e.jti, e.until)
  {
    hide Inv, Published, SnapsValid, Enabled, Next, CacheStep, Records, ReplayRuns.Wrote, ReplayRuns.StepTo;
    if n == 0 {
      ReplayRuns.NoRecords();
      assert false;
    } else {
      var s, s' := states[n - 1], states[n - 1 + 1];
      assert StepTo(settings, s, steps[n - 1], s');
      CacheFollows(settings, s, steps[n - 1], s');
      RunKeepsInv(settings, states, steps, n - 1);
      DiskOf(settings, s);
      var t := CacheStep(s, steps[n - 1]);
      if t.Some? {
        ReplayRuns.StepOrigins(s.replay, t.value, s'.replay, e);
      }
      if PutAt(states, steps, n - 1, e.jti, e.until) {
        a := n - 1;
      } else {
        a := HeldWasPut(settings, states, steps, n - 1, e);
      }
    }
  }

  lemma DiskOf(settings: Settings, s: State)
    requires Inv(settings, s)
    ensures ValidDisk(s.replay.disk)
  {
    hide HistoryInv, AuditInv, FlightsDistinct;
  }

  // Exchange id, about to consume, presents mint p.
  ghost predicate Presents(s: State, id: nat, p: nat) {
    && id in s.inFlight && s.inFlight[id].Validated? && s.inFlight[id].parent == p
    && p < |s.mints| && s.inFlight[id].plan.subject.claims == s.mints[p].claims
  }

  lemma AboutToConsume(settings: Settings, s: State, id: nat)
    requires Inv(settings, s) && id in s.inFlight && s.inFlight[id].Validated?
    ensures Presents(s, id, s.inFlight[id].parent)
  {
    hide HistoryInv, ReplayInv, AuditInv, FlightsDistinct, Approved, Describes, ValidIdentity;
    FlightOf(settings, s, id);
  }

  // No key of a DPoP proof is the jti of a mint, so the proofs spent in the
  // same log cannot stand for subject tokens.
  lemma ProofKeyIsNoMint(settings: Settings, s: State, p: nat, jti: string)
    requires Inv(settings, s) && p < |s.mints|
    ensures jti != "" ==> Gateway.ReplayJti(jti) != s.mints[p].claims.jti
    ensures s.mints[p].claims.jti != ""
  {
    hide Inv, Mirrored, ActorSubs, Scopes.ScopeSet, Permits, Identifier;
    HopOf(settings, s, p);
    IdentifierMeans(s.mints[p].claims.jti);
  }

  lemma JtiNamesMint(settings: Settings, s: State, a: nat, b: nat)
    requires Inv(settings, s) && a < |s.mints| && b < |s.mints| && s.mints[a].claims.jti == s.mints[b].claims.jti
    ensures a == b
  {
    hide Inv, Published;
    InvNamesDistinct(settings, s);
    assert a < b || b < a || a == b;
  }

  // The cache refuses a token inside its window only if an exchange presenting
  // that very token wrote its jti before, in this process or an earlier one. A
  // token never presented is never refused as replayed.
  lemma RefusedTokenWasPresented(settings: Settings, states: seq<State>, steps: seq<Step>, n: nat, p: nat)
    requires IsRun(settings, states, steps) && n < |steps| && steps[n].Consume? && Presents(states[n], steps[n].id, p)
    requires states[n].replay.Up? && Unix(steps[n].now) <= ReplayUntil(states[n].mints[p].claims.exp)
    requires var c := states[n].mints[p].claims;
      Replay.ConsumeVerdict(Replay.Cache(states[n].replay.seen, Some(states[n].replay.disk)), c.jti, c.exp, [],
                            Unix(steps[n].now), steps[n].io) == Replay.Replayed
    ensures exists a: nat ::
      && a < n && steps[a].Consume? && Presents(states[a], steps[a].id, p)
      && ReplayRuns.Wrote(states[a].replay, CacheStep(states[a], steps[a]).value)
  {
    hide Inv, Initial, StepTo, ReplayRuns.Wrote;
    var c := states[n].mints[p].claims;
    RunKeepsInv(settings, states, steps, n);
    var until := KnownUntil(states[n].replay, c, Unix(steps[n].now), steps[n].io);
    var a := HeldWasPut(settings, states, steps, n, Replay.Entry(c.jti, until));
    PutByExchange(settings, states, steps, n, a, p, until);
  }

  lemma KnownUntil(r: ReplayRuns.Process, c: Claims, now: int, io: IO) returns (until: int)
    requires r.Up? && now <= ReplayUntil(c.exp)
    requires Replay.ConsumeVerdict(Replay.Cache(r.seen, Some(r.disk)), c.jti, c.exp, [], now, io) == Replay.Replayed
    ensures Holds(r, Replay.Entry(c.jti, until))
  {
    assert [c.jti] + [] == [c.jti];
    until := r.seen[c.jti];
  }

  lemma PutByExchange(settings: Settings, states: seq<State>, steps: seq<Step>, n: nat, a: nat, p: nat, until: int)
    requires IsRun(settings, states, steps) && a < n < |states| && p < |states[n].mints|
    requires PutAt(states, steps, a, states[n].mints[p].claims.jti, until)
    ensures steps[a].Consume? && Presents(states[a], steps[a].id, p)
    ensures ReplayRuns.Wrote(states[a].replay, CacheStep(states[a], steps[a]).value)
  {
    hide Inv, IsRun, Published, OnlyAdds, Presents;
    RunKeepsInv(settings, states, steps, a);
    RunKeepsInv(settings, states, steps, n);
    RunsOnlyAdd(settings, states, steps, a, n);
    MintsKept(states[a], states[n]);
    if steps[a].SpendProof? {
      ProofKeyIsNoMint(settings, states[n], p, steps[a].jti);
      assert false;
    } else {
      var id := steps[a].id;
      AboutToConsume(settings, states[a], id);
      PresentsMeans(states[a], id, states[a].inFlight[id].parent);
      JtiNamesMint(settings, states[n], states[a].inFlight[id].parent, p);
    }
  }

  lemma MintsKept(a: State, b: State)
    requires OnlyAdds(a, b)
    ensures a.mints <= b.mints
  {
  }

  lemma PresentsMeans(s: State, id: nat, p: nat)
    requires Presents(s, id, p)
    ensures p < |s.mints| && s.inFlight[id].plan.subject.claims == s.mints[p].claims
  {
  }
}
