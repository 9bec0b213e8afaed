/** One token, one successor: when an STS token can come to have two, over
    protocol runs in which nothing orders the replay cache's clock readings
    (AI12), and what follows for whole transactions. */
module SingleUse {
  import opened Wrappers
  import opened Claims
  import opened AppendLog
  import opened Sts
  import opened Delegation
  import opened Lineage
  import opened Presentation
  import Replay
  import ReplayRuns

  // Step a is an exchange consuming mint p.
  ghost predicate Consumes(states: seq<State>, steps: seq<Step>, a: nat, p: nat) {
    && a < |steps| && a < |states| && steps[a].Consume? && Presents(states[a], steps[a].id, p)
  }

  // The reading a step entered the cache with is past that second.
  ghost predicate ReadsPast(states: seq<State>, steps: seq<Step>, r: nat, until: int) {
    && r < |steps| && r < |states| && CacheStep(states[r], steps[r]).Some?
    && CacheStep(states[r], steps[r]).value.now > until
  }

  // Two exchanges consume mint p with readings inside its deadline, and a step
  // between them entered the cache with a reading past it.
  ghost predicate Crossing(states: seq<State>, steps: seq<Step>, a: nat, r: nat, c: nat, p: nat) {
    && a < r < c && Consumes(states, steps, a, p) && Consumes(states, steps, c, p)
    && var until := ReplayUntil(states[a].mints[p].claims.exp);
       && Unix(steps[a].now) <= until && Unix(steps[c].now) <= until && ReadsPast(states, steps, r, until)
  }

  ghost predicate Timely(states: seq<State>, steps: seq<Step>, n: nat) {
    forall a: nat, r: nat, c: nat, p: nat | c < n :: !Crossing(states, steps, a, r, c, p)
  }

  // Ordered readings are timely; so are any that are off by less than the
  // distance to a deadline.
  ghost predicate OrderedReadings(states: seq<State>, steps: seq<Step>) {
    forall a, c | 0 <= a < c < |steps| && a < |states| && c < |states| ::
      CacheStep(states[a], steps[a]).Some? && CacheStep(states[c], steps[c]).Some? ==>
        CacheStep(states[a], steps[a]).value.now <= CacheStep(states[c], steps[c]).value.now
  }

  lemma OrderedIsTimely(states: seq<State>, steps: seq<Step>, n: nat)
    requires OrderedReadings(states, steps)
    ensures Timely(states, steps, n)
  {
    forall a: nat, r: nat, c: nat, p: nat | c < n ensures !Crossing(states, steps, a, r, c, p) {
      if Crossing(states, steps, a, r, c, p) {
        assert false;
      }
    }
  }

  /******* A consumed token is kept *******/

  ghost predicate SucceedsAt(states: seq<State>, steps: seq<Step>, a: nat, jti: string, exp: int) {
    && a < |steps| && a < |states| && CacheStep(states[a], steps[a]).Some?
    && var t := CacheStep(states[a], steps[a]).value;
       ReplayRuns.Succeeds(states[a].replay, t) && t.jti == jti && t.exp == exp
  }

  // From a successful consume on, memory and file hold the jti, through any
  // steps, until one reads past its deadline.
  lemma {:induction false} KeptSince(settings: Settings, states: seq<State>, steps: seq<Step>, a: nat, i: nat,
                                     jti: string, exp: int)
    requires IsRun(settings, states, steps) && a < i < |states| && SucceedsAt(states, steps, a, jti, exp)
    requires forall r | a < r < i :: !ReadsPast(states, steps, r, ReplayUntil(exp))
    ensures ReplayRuns.Kept(states[i].replay, jti, ReplayUntil(exp))
  {
    hide Inv, Published, SnapsValid, Enabled, Next, CacheStep, ReplayRuns.Succeeds, ReplayRuns.Kept, ReplayRuns.StepTo;
    var s, s' := states[i - 1], states[i - 1 + 1];
    assert StepTo(settings, s, steps[i - 1], s');
    CacheFollows(settings, s, steps[i - 1], s');
    var t := CacheStep(s, steps[i - 1]);
    if i == a + 1 {
      RunKeepsInv(settings, states, steps, a);
      DiskOf(settings, s);
      ReplayRuns.StepRecords(s.replay, t.value, s'.replay);
    } else {
      KeptSince(settings, states, steps, a, i - 1, jti, exp);
      assert !ReadsPast(states, steps, i - 1, ReplayUntil(exp));
      if t.Some? {
        ReplayRuns.StepKeeps(s.replay, t.value, s'.replay, jti, ReplayUntil(exp));
      }
    }
  }

  // Between two successful consumes of one (jti, exp) a step read past its
  // deadline; they themselves did not.
  lemma TwiceNeedsPast(settings: Settings, states: seq<State>, steps: seq<Step>, a: nat, c: nat, jti: string, exp: int)
    requires IsRun(settings, states, steps) && a < c
    requires SucceedsAt(states, steps, a, jti, exp) && SucceedsAt(states, steps, c, jti, exp)
    ensures CacheStep(states[a], steps[a]).value.now <= ReplayUntil(exp)
    ensures CacheStep(states[c], steps[c]).value.now <= ReplayUntil(exp)
    ensures exists r: nat :: a < r < c && ReadsPast(states, steps, r, ReplayUntil(exp))
  {
    hide Inv, Published, SnapsValid, Enabled, Next, CacheStep, ReplayRuns.Kept, ReplayRuns.StepTo;
    var t := CacheStep(states[c], steps[c]).value;
    assert StepTo(settings, states[c], steps[c], states[c + 1]);
    CacheFollows(settings, states[c], steps[c], states[c + 1]);
    InWindow(states[a].replay, CacheStep(states[a], steps[a]).value);
    InWindow(states[c].replay, t);
    if forall r: nat | a < r < c :: !ReadsPast(states, steps, r, ReplayUntil(exp)) {
      KeptSince(settings, states, steps, a, c, jti, exp);
      ReplayRuns.StepKeeps(states[c].replay, t, states[c + 1].replay, jti, ReplayUntil(exp));
      assert false;
    }
  }

  lemma InWindow(p: ReplayRuns.Process, t: ReplayRuns.Step)
    requires ReplayRuns.Succeeds(p, t)
    ensures t.now <= ReplayUntil(t.exp)
  {
  }

  /******* Where mints come from *******/

  // A step makes at most one mint; one with a parent is made by an exchange
  // that consumed it.
  lemma StepMints(settings: Settings, s: State, e: Step, s': State)
    requires Inv(settings, s) && StepTo(settings, s, e, s')
    ensures |s.mints| <= |s'.mints| <= |s.mints| + 1
    ensures |s'.mints| > |s.mints| && s'.mints[|s.mints|].parent.Some? ==>
      && e.Consume? && Presents(s, e.id, s'.mints[|s.mints|].parent.value)
      && CacheStep(s, e).Some? && ReplayRuns.Succeeds(s.replay, CacheStep(s, e).value)
  {
    hide Inv, Prepare, Finish, AuditEvent, FreshTxn, FreshJti, Honest, Replay.ConsumeVerdict, Replay.ConsumeNext,
      ReplayRuns.Reopen, ValidIdentity, Presents;
    if e.Consume? {
      AboutToConsume(settings, s, e.id);
    }
  }

  lemma {:induction false} MintedAt(settings: Settings, states: seq<State>, steps: seq<Step>, n: nat, i: nat)
    returns (c: nat)
    requires IsRun(settings, states, steps) && n < |states| && i < |states[n].mints|
    ensures c < n && |states[c].mints| == i < |states[c + 1].mints|
    ensures states[n].mints[i].parent.Some? ==>
      && Consumes(states, steps, c, states[n].mints[i].parent.value) && CacheStep(states[c], steps[c]).Some?
      && ReplayRuns.Succeeds(states[c].replay, CacheStep(states[c], steps[c]).value)
  {
    hide Inv, Published, SnapsValid, Enabled, Next, CacheStep, ReplayRuns.Succeeds, Presents, OnlyAdds;
    if n > 0 {
      var s, s' := states[n - 1], states[n - 1 + 1];
      assert StepTo(settings, s, steps[n - 1], s');
      RunKeepsInv(settings, states, steps, n - 1);
      StepMints(settings, s, steps[n - 1], s');
      RunsOnlyAdd(settings, states, steps, n - 1, n);
      MintsKept(s, s');
      if i < |s.mints| {
        c := MintedAt(settings, states, steps, n - 1, i);
      } else {
        c := n - 1;
      }
    }
  }

  lemma PresentsSame(settings: Settings, states: seq<State>, steps: seq<Step>, a: nat, n: nat, p: nat)
    requires IsRun(settings, states, steps) && a <= n < |states| && Consumes(states, steps, a, p)
    ensures p < |states[n].mints| && states[a].mints[p] == states[n].mints[p]
    ensures var c := states[n].mints[p].claims;
      CacheStep(states[a], steps[a]) == Some(ReplayRuns.Consume(c.jti, c.exp, [], Unix(steps[a].now), steps[a].io))
  {
    hide Inv, Initial, StepTo, OnlyAdds;
    RunsOnlyAdd(settings, states, steps, a, n);
    MintsKept(states[a], states[n]);
  }

  // Two mints of one parent: between the two exchanges that made them, which
  // read inside its deadline, some step entered the cache reading past it.
  lemma SiblingsNeedCrossing(settings: Settings, states: seq<State>, steps: seq<Step>, n: nat, i: nat, j: nat, p: nat)
    requires IsRun(settings, states, steps) && n < |states| && i < j < |states[n].mints|
    requires states[n].mints[i].parent == Some(p) && states[n].mints[j].parent == Some(p)
    ensures exists a: nat, r: nat, c: nat :: c < n && Crossing(states, steps, a, r, c, p)
  {
    hide Inv, Initial, StepTo, CacheStep, ReplayRuns.Succeeds, Presents, OnlyAdds;
    var a := MintedAt(settings, states, steps, n, i);
    var c := MintedAt(settings, states, steps, n, j);
    MintsOrdered(settings, states, steps, a, c);
    PresentsSame(settings, states, steps, a, n, p);
    PresentsSame(settings, states, steps, c, n, p);
    var claims := states[n].mints[p].claims;
    TwiceNeedsPast(settings, states, steps, a, c, claims.jti, claims.exp);
    var r: nat :| a < r < c && ReadsPast(states, steps, r, ReplayUntil(claims.exp));
    assert Crossing(states, steps, a, r, c, p);
  }

  lemma MintsOrdered(settings: Settings, states: seq<State>, steps: seq<Step>, a: nat, c: nat)
    requires IsRun(settings, states, steps) && a < |steps| && c < |steps|
    requires |states[a].mints| < |states[c].mints|
    ensures a < c
  {
    hide Inv, Initial, StepTo, OnlyAdds;
    if c <= a {
      RunsOnlyAdd(settings, states, steps, c, a);
      MintsKept(states[c], states[a]);
    }
  }

  /******* One token, one successor *******/

  lemma TimelyOneChild(settings: Settings, states: seq<State>, steps: seq<Step>, n: nat)
    requires IsRun(settings, states, steps) && n < |states| && Timely(states, steps, n)
    ensures OneChild(states[n].mints)
  {
    hide IsRun, Crossing;
    var mints := states[n].mints;
    forall i, j | 0 <= i < j < |mints| ensures mints[i].parent.Some? ==> mints[i].parent != mints[j].parent {
      if mints[i].parent.Some? && mints[i].parent == mints[j].parent {
        SiblingsNeedCrossing(settings, states, steps, n, i, j, mints[i].parent.value);
      }
    }
  }

  // AI12 over runs: unless two exchanges straddled its deadline, no STS token
  // is the subject of two mints; and no two mints ever share a jti.
  lemma NoTwoChildren(settings: Settings, states: seq<State>, steps: seq<Step>, n: nat, a: nat, b: nat)
    requires IsRun(settings, states, steps) && n < |states| && a < b < |states[n].mints|
    ensures states[n].mints[a].claims.jti != states[n].mints[b].claims.jti
    ensures Timely(states, steps, n) && states[n].mints[a].parent.Some? ==>
      states[n].mints[a].parent != states[n].mints[b].parent
  {
    hide IsRun, Timely, Inv;
    RunKeepsInv(settings, states, steps, n);
    InvNamesDistinct(settings, states[n]);
    if Timely(states, steps, n) {
      TimelyOneChild(settings, states, steps, n);
    }
  }

  // Two tokens come from one root exchange exactly when one of them is on the
  // path of the other, whoever chose their transaction.
  lemma OneRootIffOnePath(settings: Settings, states: seq<State>, steps: seq<Step>, n: nat, a: nat, b: nat)
    requires IsRun(settings, states, steps) && n < |states| && Timely(states, steps, n)
    requires a < |states[n].mints| && b < |states[n].mints|
    requires Depth(states[n].mints[a].claims) <= Depth(states[n].mints[b].claims)
    ensures var mints := states[n].mints;
      && (Path(mints, a)[0] == Path(mints, b)[0] <==> Path(mints, a) <= Path(mints, b))
      && (Path(mints, a)[0] == Path(mints, b)[0] ==> ActorSubs(mints[a].claims) <= ActorSubs(mints[b].claims))
  {
    hide Inv, IsRun, Timely, ActorSubs, Path, Ancestry, OneChild;
    var mints := states[n].mints;
    RunKeepsInv(settings, states, steps, n);
    InvAncestry(settings, states[n]);
    TimelyOneChild(settings, states, steps, n);
    if Path(mints, a)[0] == Path(mints, b)[0] {
      PathsOfOneRoot(mints, a, b);
    }
  }

  // Two tokens of one transaction the STS generated lie on one path: the
  // earlier is an ancestor of the later and its actors are a prefix.
  lemma LinearDelegation(settings: Settings, states: seq<State>, steps: seq<Step>, n: nat, a: nat, b: nat)
    requires IsRun(settings, states, steps) && n < |states| && Timely(states, steps, n)
    requires a < |states[n].mints| && b < |states[n].mints|
    requires states[n].mints[a].claims.txn == states[n].mints[b].claims.txn
    requires states[n].mints[a].claims.txn in states[n].generated
    requires Depth(states[n].mints[a].claims) <= Depth(states[n].mints[b].claims)
    ensures var mints := states[n].mints;
      && Path(mints, a) <= Path(mints, b) && a in Path(mints, b)
      && ActorSubs(mints[a].claims) <= ActorSubs(mints[b].claims)
      && (Depth(mints[a].claims) == Depth(mints[b].claims) ==> a == b)
  {
    hide Inv, IsRun, Timely, ActorSubs, Path, Ancestry, NamesDistinct, OneChild;
    RunKeepsInv(settings, states, steps, n);
    InvAncestry(settings, states[n]);
    InvNamesDistinct(settings, states[n]);
    TimelyOneChild(settings, states, steps, n);
    LinearPaths(states[n].mints, states[n].generated, a, b);
  }
}
