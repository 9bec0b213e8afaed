/** What the run invariant says about a token's whole delegation path: the
    hops from the root exchange to the token (AI2 to AI7, AI12, AI18). */
module Lineage {
  import opened Wrappers
  import opened Strings
  import opened Scopes
  import opened Claims
  import opened Sts
  import opened Delegation
  import Keyrings
  import Replay
  import ReplayRuns
  import Audit

  // The mints from the root exchange to mint i, in hop order.
  ghost function Path(mints: seq<Mint>, i: nat): (path: seq<nat>)
    ensures path != [] && path[|path| - 1] == i
  {
    if i < |mints| && mints[i].parent.Some? && mints[i].parent.value < i
    then Path(mints, mints[i].parent.value) + [i]
    else [i]
  }

  ghost predicate Linked(mints: seq<Mint>, path: seq<nat>) {
    && path != [] && (forall k | 0 <= k < |path| :: path[k] < |mints|)
    && mints[path[0]].parent == None
    && forall k | 0 < k < |path| :: mints[path[k]].parent == Some(path[k - 1])
  }

  ghost predicate Ancestry(mints: seq<Mint>) {
    forall k | 0 <= k < |mints| ::
      && (mints[k].parent.Some? ==>
            && mints[k].parent.value < k && mints[k].subject == mints[mints[k].parent.value].claims
            && mints[k].claims.txn == mints[k].subject.txn)
      && mints[k].claims.sub == mints[k].subject.sub
      && ActorSubs(mints[k].claims) == ActorSubs(mints[k].subject) + [mints[k].agent.id]
      && (mints[k].parent.None? ==> ActorSubs(mints[k].subject) == [])
  }

  lemma InvAncestry(settings: Settings, s: State)
    requires Inv(settings, s)
    ensures Ancestry(s.mints)
  {
    hide HistoryInv, ReplayInv, AuditInv, FlightsDistinct, ScopeSet, Mirrored;
    forall k | 0 <= k < |s.mints| ensures OriginOk(s, k) && HopOk(s.published, s.mints[k]) {
      OriginOf(settings, s, k);
    }
  }

  // Claim by claim, how a token c relates to the mint m of its hop k.
  ghost predicate AtHop(m: Mint, root: Mint, c: Claims, k: nat) {
    && k < Depth(c)
    && ActorSubs(m.claims) == ActorSubs(c)[..k + 1] && ActorSubs(c)[k] == m.agent.id
    && m.claims.sub == c.sub == root.subject.sub && m.claims.txn == c.txn
  }

  ghost predicate Fits(mints: seq<Mint>, path: seq<nat>, c: Claims) {
    && Linked(mints, path) && |path| == Depth(c)
    && forall k | 0 <= k < |path| :: AtHop(mints[path[k]], mints[path[0]], c, k)
  }

  lemma OneMoreHop(mints: seq<Mint>, path: seq<nat>, c: Claims, i: nat)
    requires Fits(mints, path, c) && i < |mints| && mints[i].parent == Some(path[|path| - 1])
    requires mints[i].claims.sub == c.sub && mints[i].claims.txn == c.txn
    requires ActorSubs(mints[i].claims) == ActorSubs(c) + [mints[i].agent.id]
    ensures Fits(mints, path + [i], mints[i].claims)
  {
    hide ActorSubs;
    var path', c' := path + [i], mints[i].claims;
    forall k | 0 <= k < |path'| ensures AtHop(mints[path'[k]], mints[path'[0]], c', k) {
      if k < |path| {
        assert AtHop(mints[path[k]], mints[path[0]], c, k);
        assert ActorSubs(c')[..k + 1] == ActorSubs(c)[..k + 1];
      } else {
        assert AtHop(mints[path[0]], mints[path[0]], c, 0);
      }
    }
  }

  lemma {:induction false} PathFits(mints: seq<Mint>, i: nat)
    requires Ancestry(mints) && i < |mints|
    ensures Fits(mints, Path(mints, i), mints[i].claims)
  {
    hide ActorSubs;
    if mints[i].parent.Some? {
      hide Linked, Fits;
      PathFits(mints, mints[i].parent.value);
      OneMoreHop(mints, Path(mints, mints[i].parent.value), mints[i].subject, i);
    } else {
      assert ActorSubs(mints[i].claims) == [mints[i].agent.id];
      assert [mints[i].agent.id][..1] == [mints[i].agent.id];
    }
  }

  // An agent the registry of snapshot m.snap lets m.agent delegate to.
  ghost predicate AllowedEdge(s: State, m: Mint, next: string) {
    && m.snap < |s.published| && s.published[m.snap].registry.Some?
    && m.agent.id in s.published[m.snap].registry.value.byId
    && next in s.published[m.snap].registry.value.byId[m.agent.id].audiences
  }

  // Registry entry, denylist and signing key of one hop are those of one
  // published triple, and it permitted the hop.
  ghost predicate OneSnapshot(s: State, m: Mint) {
    && m.snap < |s.published| && s.published[m.snap].registry.Some? && s.published[m.snap].signer.Some?
    && m.agent.id in s.published[m.snap].registry.value.byId
    && m.agent == s.published[m.snap].registry.value.byId[m.agent.id]
    && Keyrings.ValidRing(s.published[m.snap].signer.value)
    && m.token == Keyrings.Mint(s.published[m.snap].signer.value, m.claims)
    && Permits(s.published[m.snap], m.agent.id, m.agent, m.workload, m.subject, m.at)
  }

  // What holds of the mint at hop k of the path of a token c.
  ghost predicate HopSound(s: State, path: seq<nat>, c: Claims, k: nat)
    requires Linked(s.mints, path) && |path| == Depth(c) && k < |path|
  {
    var m := s.mints[path[k]];
    && AtHop(m, s.mints[path[0]], c, k)
    && OneSnapshot(s, m)
    && Mirrored(m.claims) && Depth(m.claims) == k + 1 <= m.agent.maxDepth
    && (k + 1 < |path| ==> AllowedEdge(s, m, ActorSubs(c)[k + 1]))
  }

  // Actor k is the one met walking the act object inwards past the later ones.
  ghost predicate ReadInwards(c: Claims, k: nat) {
    k < Depth(c) == |Inward(c.act)| && Inward(c.act)[Depth(c) - 1 - k].sub == ActorSubs(c)[k]
  }

  // Every minted token, in every reachable state: same principal and
  // transaction as its root; its actors are the agents of the path in order,
  // in both encodings; depth is the hop count, within the max_depth of every
  // hop; each actor handed over to an audience its registry entry allowed, in
  // the one snapshot that hop was decided on and signed under.
  lemma PathInvariant(settings: Settings, states: seq<State>, steps: seq<Step>, n: nat, i: nat)
    requires IsRun(settings, states, steps) && n < |states| && i < |states[n].mints|
    ensures var path, c := Path(states[n].mints, i), states[n].mints[i].claims;
      && Linked(states[n].mints, path) && |path| == Depth(c)
      && forall k | 0 <= k < |path| :: HopSound(states[n], path, c, k) && ReadInwards(c, k)
  {
    hide Inv, Path, HopSound, AtHop, ReadInwards, Ancestry, Linked, Depth, IsRun;
    var s := states[n];
    RunKeepsInv(settings, states, steps, n);
    InvAncestry(settings, s);
    PathFits(s.mints, i);
    forall k | 0 <= k < |Path(s.mints, i)|
      ensures HopSound(s, Path(s.mints, i), s.mints[i].claims, k) && ReadInwards(s.mints[i].claims, k)
    {
      HopIsSound(settings, s, i, k);
      HopReads(settings, s, i, k);
    }
  }

  lemma HopReads(settings: Settings, s: State, i: nat, k: nat)
    requires Inv(settings, s) && i < |s.mints| && k < Depth(s.mints[i].claims)
    ensures ReadInwards(s.mints[i].claims, k)
  {
    hide Inv, Mirrored, ActorSubs, Inward;
    MirroredOf(settings, s, i);
    MirroredHops(s.mints[i].claims, k);
  }

  lemma MirroredOf(settings: Settings, s: State, k: nat)
    requires Inv(settings, s) && k < |s.mints|
    ensures Mirrored(s.mints[k].claims)
  {
    hide Inv, ActorSubs, ScopeSet, Mirrored;
    HopOf(settings, s, k);
  }

  lemma HopIsSound(settings: Settings, s: State, i: nat, k: nat)
    requires Inv(settings, s) && i < |s.mints| && Fits(s.mints, Path(s.mints, i), s.mints[i].claims)
    requires k < |Path(s.mints, i)|
    ensures HopSound(s, Path(s.mints, i), s.mints[i].claims, k)
  {
    hide Inv, ScopeSet, ActorSubs, Mirrored, Path, Permits;
    var path, c := Path(s.mints, i), s.mints[i].claims;
    HopOf(settings, s, path[k]);
    assert AtHop(s.mints[path[k]], s.mints[path[0]], c, k);
    if k + 1 < |path| {
      HopOf(settings, s, path[k + 1]);
      assert AtHop(s.mints[path[k + 1]], s.mints[path[0]], c, k + 1);
      assert s.mints[path[k + 1]].parent == Some(path[k]);
    }
  }

  lemma HopOf(settings: Settings, s: State, k: nat)
    requires Inv(settings, s) && k < |s.mints|
    ensures HopOk(s.published, s.mints[k])
    ensures var m := s.mints[k];
      m.parent.Some? ==> m.parent.value < k && m.subject == s.mints[m.parent.value].claims
  {
    hide HistoryInv, ReplayInv, AuditInv, FlightsDistinct, HopOk;
    OriginOf(settings, s, k);
  }

  /******* Nothing is taken back *******/

  ghost predicate OnlyAdds(a: State, b: State) {
    && a.published <= b.published && a.mints <= b.mints
    && a.generated <= b.generated && a.idpTxns <= b.idpTxns
    && forall k | k in a.released :: k in b.released && b.released[k] == a.released[k]
  }

  lemma IssueOnlyAdds(settings: Settings, s: State, id: nat, req: Request, plan: Plan,
                      parent: Option<nat>, snap: nat, ring: Keyrings.Ring, freshJti: string)
    requires ring.active in ring.byKid
    ensures OnlyAdds(s, Issue(settings, s, id, req, plan, parent, snap, ring, freshJti))
  {
    hide Finish, AuditEvent;
  }

  lemma OnlyAddsTransitive(a: State, b: State, c: State)
    requires OnlyAdds(a, b) && OnlyAdds(b, c)
    ensures OnlyAdds(a, c)
  {
  }

  lemma NextOnlyAdds(settings: Settings, s: State, e: Step)
    requires Inv(settings, s) && Published(s) && SnapsValid(s) && Enabled(settings, s, e)
    ensures OnlyAdds(s, Next(settings, s, e))
  {
    hide HistoryInv, ReplayInv, AuditInv, OnlyAdds, Issue, Enabled;
    match e
    case Begin(id, req, now, freshTxn, freshJti, parent) => BeginOnlyAdds(settings, s, e);
    case Consume(id, now, io, freshJti) => ConsumeOnlyAdds(settings, s, e);
    case WriteAudit(_, _, _, _) => WriteAuditOnlyAdds(settings, s, e);
    case SpendProof(_, _, _, _) => SameOnlyAdds(s, Next(settings, s, e));
    case DenyEarly(_, _, _, _) => SameOnlyAdds(s, Next(settings, s, e));
    case Reload(_, _, _) => SameOnlyAdds(s, Next(settings, s, e));
    case Restart(_, _, _, _) => SameOnlyAdds(s, Next(settings, s, e));
  }

  lemma SameOnlyAdds(a: State, b: State)
    requires a.published <= b.published && a.mints == b.mints
    requires a.generated <= b.generated && a.idpTxns <= b.idpTxns && a.released == b.released
    ensures OnlyAdds(a, b)
  {
  }

  lemma BeginOnlyAdds(settings: Settings, s: State, e: Step)
    requires e.Begin? && Published(s)
    ensures OnlyAdds(s, BeginNext(settings, s, e))
  {
    hide OnlyAdds, Issue, Prepare, AuditEvent;
    var snap := |s.published| - 1;
    PreparedHasSigner(settings, s.published[snap], e.req, e.now, e.freshTxn);
    match Prepare(settings, s.published[snap], e.req, e.now, e.freshTxn) {
      case Err(_) => SameOnlyAdds(s, BeginNext(settings, s, e));
      case Ok(plan) =>
        if plan.subject.fromSts {
          SameOnlyAdds(s, BeginNext(settings, s, e));
        } else {
          var noted := NoteTxn(s, plan.subject.claims.txn, e.freshTxn);
          SameOnlyAdds(s, noted);
          assert ValidIdentity(s.published[snap]);
          IssueOnlyAdds(settings, noted, e.id, e.req, plan, None, snap, s.published[snap].signer.value, e.freshJti);
          OnlyAddsTransitive(s, noted, BeginNext(settings, s, e));
        }
    }
  }

  lemma ConsumeOnlyAdds(settings: Settings, s: State, e: Step)
    requires e.Consume? && Published(s) && SnapsValid(s) && Enabled(settings, s, e)
    ensures OnlyAdds(s, ConsumeNext(settings, s, e))
  {
    hide OnlyAdds, Issue, AuditEvent, Replay.ConsumeVerdict, Replay.ConsumeNext, FreshJti;
    var ph := s.inFlight[e.id];
    var c := ph.plan.subject.claims;
    var cache := Replay.Cache(s.replay.seen, Some(s.replay.disk));
    var v := Replay.ConsumeVerdict(cache, c.jti, c.exp, [], Unix(e.now), e.io);
    var cache' := Replay.ConsumeNext(cache, c.jti, c.exp, [], Unix(e.now), e.io);
    var t := s.(replay := ReplayRuns.Up(cache'.seen, cache'.log.value));
    if v.Consumed? {
      SameOnlyAdds(s, t);
      assert ValidIdentity(s.published[ph.snap]);
      IssueOnlyAdds(settings, t, e.id, ph.req, ph.plan, Some(ph.parent), ph.snap,
                    s.published[ph.snap].signer.value, e.freshJti);
      OnlyAddsTransitive(s, t, ConsumeNext(settings, s, e));
    } else {
      SameOnlyAdds(s, ConsumeNext(settings, s, e));
    }
  }

  lemma WriteAuditOnlyAdds(settings: Settings, s: State, e: Step)
    requires FlightsDistinct(s) && e.WriteAudit? && s.published != [] && Enabled(settings, s, e)
    ensures OnlyAdds(s, WriteAuditNext(s, e))
  {
    hide Audit.AppendNext, Audit.AppendStatus;
  }

  // Along a run snapshots are only published, never altered; mints and releases
  // (each with its audit position) are only added.
  lemma {:induction false} RunsOnlyAdd(settings: Settings, states: seq<State>, steps: seq<Step>, a: nat, b: nat)
    requires IsRun(settings, states, steps) && a <= b < |states|
    ensures OnlyAdds(states[a], states[b])
  {
    hide Inv, Initial, Published, SnapsValid, Enabled, Next, OnlyAdds;
    if a == b {
      SameOnlyAdds(states[a], states[a]);
    } else {
      RunsOnlyAdd(settings, states, steps, a, b - 1);
      RunKeepsInv(settings, states, steps, b - 1);
      assert StepTo(settings, states[b - 1], steps[b - 1], states[b - 1 + 1]);
      NextOnlyAdds(settings, states[b - 1], steps[b - 1]);
      OnlyAddsTransitive(states[a], states[b - 1], states[b]);
    }
  }

  /******* Paths through mints without siblings *******/

  ghost predicate OneChild(mints: seq<Mint>) {
    forall a, b | 0 <= a < |mints| && 0 <= b < |mints| && a != b ::
      mints[a].parent.Some? ==> mints[a].parent != mints[b].parent
  }

  lemma {:induction false} PathsAgree(mints: seq<Mint>, p: seq<nat>, q: seq<nat>, k: nat)
    requires OneChild(mints) && Linked(mints, p) && Linked(mints, q) && p[0] == q[0]
    requires k < |p| && k < |q|
    ensures p[..k + 1] == q[..k + 1]
  {
    if k > 0 {
      PathsAgree(mints, p, q, k - 1);
      assert p[k - 1] == p[..k][k - 1] == q[..k][k - 1] == q[k - 1];
      assert p[..k + 1] == p[..k] + [p[k]] && q[..k + 1] == q[..k] + [q[k]];
    }
  }

  // Paths of one root: the shorter is a prefix of the longer.
  lemma PathsOfOneRoot(mints: seq<Mint>, a: nat, b: nat)
    requires Ancestry(mints) && OneChild(mints) && a < |mints| && b < |mints|
    requires Path(mints, a)[0] == Path(mints, b)[0] && Depth(mints[a].claims) <= Depth(mints[b].claims)
    ensures Path(mints, a) <= Path(mints, b) && a in Path(mints, b)
    ensures ActorSubs(mints[a].claims) <= ActorSubs(mints[b].claims)
    ensures Depth(mints[a].claims) == Depth(mints[b].claims) ==> a == b
  {
    hide ActorSubs, Path, Ancestry, OneChild;
    PathFits(mints, a);
    PathFits(mints, b);
    var p, q := Path(mints, a), Path(mints, b);
    PathsAgree(mints, p, q, |p| - 1);
    assert p[..|p| - 1 + 1] == p && q[|p| - 1] == q[..|p|][|p| - 1] == a;
    assert AtHop(mints[q[|p| - 1]], mints[q[0]], mints[b].claims, |p| - 1);
  }

  lemma LinearPaths(mints: seq<Mint>, generated: set<string>, a: nat, b: nat)
    requires Ancestry(mints) && OneChild(mints) && NamesDistinct(mints, generated)
    requires a < |mints| && b < |mints| && mints[a].claims.txn == mints[b].claims.txn
    requires mints[a].claims.txn in generated && Depth(mints[a].claims) <= Depth(mints[b].claims)
    ensures Path(mints, a) <= Path(mints, b) && a in Path(mints, b)
    ensures ActorSubs(mints[a].claims) <= ActorSubs(mints[b].claims)
    ensures Depth(mints[a].claims) == Depth(mints[b].claims) ==> a == b
  {
    hide ActorSubs, Path, Ancestry, NamesDistinct, OneChild;
    PathFits(mints, a);
    PathFits(mints, b);
    var p, q := Path(mints, a), Path(mints, b);
    assert AtHop(mints[p[0]], mints[p[0]], mints[a].claims, 0);
    assert AtHop(mints[q[0]], mints[q[0]], mints[b].claims, 0);
    RootsAgree(mints, generated, p[0], q[0]);
    PathsOfOneRoot(mints, a, b);
  }

  lemma InvNamesDistinct(settings: Settings, s: State)
    requires Inv(settings, s)
    ensures NamesDistinct(s.mints, s.generated)
  {
    hide MintsOk, ReplayInv, AuditInv, FlightsDistinct, FlightOk;
  }

  lemma RootsAgree(mints: seq<Mint>, generated: set<string>, a: nat, b: nat)
    requires NamesDistinct(mints, generated) && a < |mints| && b < |mints|
    requires mints[a].parent == None && mints[b].parent == None
    requires mints[a].claims.txn == mints[b].claims.txn && mints[a].claims.txn in generated
    ensures a == b
  {
  }

  /******* Scopes along a path *******/

  // Every token is within the token each hop up to its own was given: the
  // user's at hop 0, and the minted one before it at every other.
  ghost predicate NarrowsAlong(mints: seq<Mint>, path: seq<nat>)
    requires Linked(mints, path)
  {
    forall j, k | 0 <= j <= k < |path| ::
      ScopeSet(mints[path[k]].claims.scope) <= ScopeSet(mints[path[j]].subject.scope)
  }

  // Each hop was given a token with a scope text, or may have no scope at all.
  ghost predicate CeilingAtEachHop(mints: seq<Mint>, path: seq<nat>)
    requires Linked(mints, path)
  {
    forall k | 0 <= k < |path| :: HasCeiling(mints[path[k]])
  }

  ghost predicate HasCeiling(m: Mint) {
    m.subject.scope != "" || ScopeSet(Join(m.agent.maxScopes, " ")) == {}
  }

  ghost predicate HopsNarrow(mints: seq<Mint>) {
    forall k | 0 <= k < |mints| ::
      ScopeSet(mints[k].claims.scope) <= ScopeSet(mints[k].subject.scope) <==> HasCeiling(mints[k])
  }

  lemma {:induction false} NarrowsFrom(mints: seq<Mint>, path: seq<nat>, j: nat, k: nat)
    requires Linked(mints, path) && Ancestry(mints) && HopsNarrow(mints) && CeilingAtEachHop(mints, path)
    requires j <= k < |path|
    ensures ScopeSet(mints[path[k]].claims.scope) <= ScopeSet(mints[path[j]].subject.scope)
  {
    hide ActorSubs, ScopeSet, HasCeiling;
    assert HasCeiling(mints[path[k]]);
    if j < k {
      NarrowsFrom(mints, path, j, k - 1);
      assert mints[path[k]].parent == Some(path[k - 1]) && mints[path[k]].subject == mints[path[k - 1]].claims;
    }
  }

  lemma NarrowsAlongIff(mints: seq<Mint>, path: seq<nat>)
    requires Ancestry(mints) && HopsNarrow(mints) && Linked(mints, path)
    ensures NarrowsAlong(mints, path) <==> CeilingAtEachHop(mints, path)
  {
    hide ActorSubs, ScopeSet, HasCeiling, Ancestry;
    if CeilingAtEachHop(mints, path) {
      forall j, k | 0 <= j <= k < |path|
        ensures ScopeSet(mints[path[k]].claims.scope) <= ScopeSet(mints[path[j]].subject.scope)
      {
        NarrowsFrom(mints, path, j, k);
      }
    }
    if NarrowsAlong(mints, path) {
      forall k | 0 <= k < |path| ensures HasCeiling(mints[path[k]]) {
        assert ScopeSet(mints[path[k]].claims.scope) <= ScopeSet(mints[path[k]].subject.scope);
      }
    }
  }

  ghost predicate WithinMax(m: Mint) {
    ScopeSet(m.claims.scope) <= ScopeSet(Join(m.agent.maxScopes, " "))
  }

  lemma InvScopes(settings: Settings, s: State)
    requires Inv(settings, s)
    ensures HopsNarrow(s.mints)
    ensures forall k | 0 <= k < |s.mints| :: WithinMax(s.mints[k])
  {
    hide Inv, ScopeSet, ActorSubs, Mirrored;
    forall k | 0 <= k < |s.mints| ensures HopOk(s.published, s.mints[k]) {
      HopOf(settings, s, k);
    }
  }

  // AI5 from the user's grant on: every token of a path is within the user
  // token and every token before it exactly when each hop was given a scope
  // text or may have no scope. Where that holds, a token is within max_scopes
  // of every agent before it, and in any case of its own.
  lemma ScopeNarrowsAlongPathIff(settings: Settings, states: seq<State>, steps: seq<Step>, n: nat, i: nat)
    requires IsRun(settings, states, steps) && n < |states| && i < |states[n].mints|
    ensures var mints := states[n].mints;
      var path := Path(mints, i);
      && Linked(mints, path) && WithinMax(mints[i])
      && (NarrowsAlong(mints, path) <==> CeilingAtEachHop(mints, path))
      && (NarrowsAlong(mints, path) ==>
            forall j | 0 <= j < |path| :: WithinEarlier(mints[i], mints[path[j]]))
  {
    hide Inv, IsRun, ActorSubs, Path, ScopeSet, Ancestry, HopsNarrow, HasCeiling;
    var mints := states[n].mints;
    var path := Path(mints, i);
    RunKeepsInv(settings, states, steps, n);
    InvAncestry(settings, states[n]);
    InvScopes(settings, states[n]);
    PathFits(mints, i);
    NarrowsAlongIff(mints, path);
    if NarrowsAlong(mints, path) {
      forall j | 0 <= j < |path| ensures WithinEarlier(mints[i], mints[path[j]]) {
        NarrowsWithin(mints, path, j);
      }
    }
  }

  // m's scope is within everything the earlier mint e was given, issued and
  // could have issued.
  ghost predicate WithinEarlier(m: Mint, e: Mint) {
    && ScopeSet(m.claims.scope) <= ScopeSet(e.subject.scope)
    && ScopeSet(m.claims.scope) <= ScopeSet(e.claims.scope)
    && ScopeSet(m.claims.scope) <= ScopeSet(Join(e.agent.maxScopes, " "))
  }

  lemma NarrowsWithin(mints: seq<Mint>, path: seq<nat>, j: nat)
    requires Linked(mints, path) && Ancestry(mints) && NarrowsAlong(mints, path) && j < |path|
    requires forall k | 0 <= k < |mints| :: WithinMax(mints[k])
    ensures WithinEarlier(mints[path[|path| - 1]], mints[path[j]])
  {
    hide ActorSubs, ScopeSet;
    assert WithinMax(mints[path[j]]);
    if j + 1 < |path| {
      assert mints[path[j + 1]].parent == Some(path[j]) && mints[path[j + 1]].subject == mints[path[j]].claims;
    }
  }
}
