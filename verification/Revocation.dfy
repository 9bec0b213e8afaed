/** What a reload of the denylist does to the exchanges that begin after it. */
module Revocation {
  import opened Wrappers
  import opened Claims
  import opened Audit
  import opened Registry
  import opened Sts
  import opened Delegation
  import Checks
  import Scopes
  import Keyrings
  import Replay

  function Latest(s: State): Identity
    requires s.published != []
  {
    s.published[|s.published| - 1]
  }

  // A reload that is not refused.
  ghost predicate Accepted(s: State, e: Step) {
    && s.published != [] && e.Reload? && !e.reg.LoadFailed? && !e.ring.LoadFailed? && !e.dl.LoadFailed?
    && MayInstall(Latest(s), e.ring)
  }

  // An accepted reload publishes what it loaded and keeps the rest; a refused
  // one, and every step but a restart, publishes nothing new.
  lemma PublishedBy(settings: Settings, s: State, e: Step, s': State)
    requires StepTo(settings, s, e, s')
    ensures s.published != [] && s'.published != []
    ensures !e.Restart? && !Accepted(s, e) ==> Latest(s') == Latest(s)
    ensures Accepted(s, e) ==>
      && Latest(s').registry == (if e.reg.Loaded? then Some(e.reg.value) else Latest(s).registry)
      && Latest(s').signer == (if e.ring.Loaded? then Some(e.ring.value) else Latest(s).signer)
      && Latest(s').denylist == (if e.dl.Loaded? then Some(e.dl.value) else Latest(s).denylist)
  {
    hide FreshTxn, FreshJti, Honest, ValidIdentity, MayInstall, SnapsValid, BeginNext, ConsumeNext, Reloaded,
      Replay.ConsumeNext;
    match e
    case Begin(_, _, _, _, _, _) => BeginPublishes(settings, s, e);
    case Consume(_, _, _, _) => ConsumePublishes(settings, s, e);
    case Reload(reg, ring, dl) => ReloadPublishes(Latest(s), reg, ring, dl);
    case _ =>
  }

  lemma BeginPublishes(settings: Settings, s: State, e: Step)
    requires e.Begin? && Delegation.Published(s)
    ensures BeginNext(settings, s, e).published == s.published
  {
    hide Prepare, Finish, AuditEvent;
  }

  lemma ConsumePublishes(settings: Settings, s: State, e: Step)
    requires e.Consume? && Delegation.Published(s) && SnapsValid(s) && s.replay.Up?
    requires e.id in s.inFlight && s.inFlight[e.id].Validated?
    ensures ConsumeNext(settings, s, e).published == s.published
  {
    hide Finish, AuditEvent, Replay.ConsumeVerdict, Replay.ConsumeNext;
  }

  lemma ReloadPublishes(i: Identity, reg: Loaded<Registry>, ring: Loaded<Keyrings.Ring>, dl: Loaded<Denylist>)
    ensures var ok := !reg.LoadFailed? && !ring.LoadFailed? && !dl.LoadFailed? && MayInstall(i, ring);
      var i' := Reloaded(i, reg, ring, dl);
      && (!ok ==> i' == i)
      && (ok ==>
            && i'.registry == (if reg.Loaded? then Some(reg.value) else i.registry)
            && i'.signer == (if ring.Loaded? then Some(ring.value) else i.signer)
            && i'.denylist == (if dl.Loaded? then Some(dl.value) else i.denylist))
  {
    hide MayInstall;
  }

  // Step r loaded this denylist and no later step before b another.
  ghost predicate InForce(states: seq<State>, steps: seq<Step>, r: nat, b: nat, d: Denylist) {
    && r < b <= |steps| && |states| == |steps| + 1
    && Accepted(states[r], steps[r]) && steps[r].dl == Loaded(d)
    && forall k | r < k < b :: !steps[k].Restart? && (Accepted(states[k], steps[k]) ==> !steps[k].dl.Loaded?)
  }

  lemma {:induction false} StaysInForce(settings: Settings, states: seq<State>, steps: seq<Step>, r: nat, b: nat,
                                        d: Denylist)
    requires IsRun(settings, states, steps) && InForce(states, steps, r, b, d)
    ensures states[b].published != [] && Latest(states[b]).denylist == Some(d)
  {
    hide StepTo, Initial, Accepted;
    var k := b - 1;
    assert StepTo(settings, states[k], steps[k], states[k + 1]);
    PublishedBy(settings, states[k], steps[k], states[k + 1]);
    if k > r {
      StaysInForce(settings, states, steps, r, k, d);
    } else {
      IsReload(states[r], steps[r]);
    }
  }

  lemma IsReload(s: State, e: Step)
    requires Accepted(s, e)
    ensures e.Reload?
  {
  }

  // The list names the agent, the attested workload, or the subject token's
  // principal.
  ghost predicate Names(d: Denylist, req: Request) {
    || req.agentId in d.agents
    || (req.actor.Actor? && req.actor.attested.Some? && req.actor.attested.value.id != ""
        && req.actor.attested.value.id in d.workloads)
    || (req.subject.Some? && req.subject.value.Signed? && req.subject.value.claims.sub in d.principals)
  }

  lemma NamedIsRefused(settings: Settings, i: Identity, req: Request, now: int, freshTxn: string)
    requires i.denylist.Some? && Names(i.denylist.value, req)
    ensures Prepare(settings, i, req, now, freshTxn).Err?
  {
    hide Prepare, Checks.Proven, Checks.Grantable, Scopes.ScopeSet;
    if Prepare(settings, i, req, now, freshTxn).Ok? {
      PreparedIsApproved(settings, i, req, now, freshTxn);
      Checks.PreparedMeans(settings, i, req, now, freshTxn);
    }
  }

  // Whoever a reloaded denylist names gets nothing from an exchange begun while
  // it is in force: it mints nothing, is recorded as denied and, with no mint
  // to release, ends there.
  lemma DeniedFromReloadOn(settings: Settings, states: seq<State>, steps: seq<Step>, r: nat, b: nat, d: Denylist)
    requires IsRun(settings, states, steps) && InForce(states, steps, r, b, d)
    requires b < |steps| && steps[b].Begin? && Names(d, steps[b].req)
    ensures var id, s' := steps[b].id, states[b + 1];
      && s'.mints == states[b].mints && s'.released == states[b].released
      && id in s'.inFlight && s'.inFlight[id].Auditing? && s'.inFlight[id].mint == None
      && s'.inFlight[id].event.eventType == "token_denied"
  {
    hide Prepare, Initial, Names, InForce, FreshTxn, FreshJti, Honest;
    StaysInForce(settings, states, steps, r, b, d);
    assert StepTo(settings, states[b], steps[b], states[b + 1]);
    NamedIsRefused(settings, Latest(states[b]), steps[b].req, steps[b].now, steps[b].freshTxn);
  }
}
