/** DPoP admission under every interleaving: any number of requests, each making
    its three cache operations at separate moments, with nonces being issued
    and the process restarting (with any replay log, even a lost one) between. */
module AdmissionRuns {
  import opened Wrappers
  import opened Claims
  import opened AppendLog
  import opened Replay
  import opened Gateway
  import Nonce

  // Where a request is: past Nonces.Has, or past ProofReplay.Consume too.
  datatype Phase = Checked(proof: Proof, now: int) | Logged(proof: Proof, now: int)

  datatype Event =
    | Issue(nonce: string, now: int)
    | Has(request: nat, proof: Proof, now: int)
    | Log(request: nat, now: int, io: IO)
    | Spend(request: nat)
    | Restart(cache: Cache)

  // `everIssued` outlives restarts: 128 random bits are never drawn twice.
  datatype State = State(issued: map<string, int>, cache: Cache, inFlight: map<nat, Phase>,
                         admitted: seq<Proof>, everIssued: set<string>)

  ghost predicate Enabled(s: State, e: Event) {
    match e
    case Issue(nonce, _) => nonce !in s.everIssued
    case Has(r, _, _) => r !in s.inFlight
    case Log(r, _, _) => r in s.inFlight && s.inFlight[r].Checked?
    case Spend(r) => r in s.inFlight && s.inFlight[r].Logged?
    case Restart(_) => true
  }

  ghost function Next(s: State, e: Event): State
    requires Enabled(s, e)
  {
    match e
    case Issue(nonce, now) =>
      s.(issued := Nonce.IssueNext(s.issued, nonce, now), everIssued := s.everIssued + {nonce})
    case Has(r, proof, now) =>
      if Nonce.Live(s.issued, proof.nonce, now) then s.(inFlight := s.inFlight[r := Checked(proof, now)]) else s
    case Log(r, now, io) =>
      var p := s.inFlight[r].proof;
      var v := ConsumeVerdict(s.cache, ReplayJti(p.jti), p.iat, [p.jti], now, io);
      s.(cache := ConsumeNext(s.cache, ReplayJti(p.jti), p.iat, [p.jti], now, io),
         inFlight := if v.Consumed? then s.inFlight[r := Phase.Logged(p, s.inFlight[r].now)] else s.inFlight - {r})
    case Spend(r) =>
      var p := s.inFlight[r].proof;
      s.(issued := Nonce.SpendNext(s.issued, p.nonce),
         inFlight := s.inFlight - {r},
         admitted := s.admitted + if Nonce.Live(s.issued, p.nonce, s.inFlight[r].now) then [p] else [])
    case Restart(cache) =>
      s.(issued := map[], cache := cache, inFlight := map[])
  }

  // The three operations of one request with nothing in between.
  ghost function Uninterrupted(s: State, r: nat, proof: Proof, now: int, replayNow: int, io: IO): State
    requires r !in s.inFlight
  {
    var checked := Next(s, Has(r, proof, now));
    var logged := if r in checked.inFlight then Next(checked, Log(r, replayNow, io)) else checked;
    if r in logged.inFlight then Next(logged, Spend(r)) else logged
  }

  // They do what requireDPoP does to the caches, and admit when it admits.
  lemma UninterruptedIsDPoP(s: State, r: nat, jkt: string, proof: Proof, now: int, replayNow: int, io: IO)
    requires r !in s.inFlight && jkt != ""
    ensures var g := Gate(s.issued, Some(s.cache));
      var s' := Uninterrupted(s, r, proof, now, replayNow, io);
      var o := DPoPOutcome(g, jkt, Ok(proof), now, replayNow, io);
      && Gate(s'.issued, Some(s'.cache)) == DPoPNext(g, jkt, Ok(proof), now, replayNow, io)
      && s'.admitted == s.admitted + (if o.Admitted? then [proof] else [])
      && s'.inFlight == s.inFlight && s'.everIssued == s.everIssued
  {
    hide ConsumeVerdict, ConsumeNext;
    assert s.admitted + [] == s.admitted;
  }

  ghost predicate IsRun(states: seq<State>, events: seq<Event>) {
    && |states| == |events| + 1
    && states[0].issued == map[] && states[0].inFlight == map[] && states[0].admitted == []
    && forall i | 0 <= i < |events| :: Enabled(states[i], events[i]) && states[i + 1] == Next(states[i], events[i])
  }

  // A nonce is waiting to be used or has admitted one request, never both.
  ghost predicate Inv(s: State) {
    && s.issued.Keys <= s.everIssued
    && (forall i | 0 <= i < |s.admitted| :: s.admitted[i].nonce in s.everIssued && s.admitted[i].nonce !in s.issued)
    && (forall i, j | 0 <= i < j < |s.admitted| :: s.admitted[i].nonce != s.admitted[j].nonce)
  }

  lemma NextKeepsInv(s: State, e: Event)
    requires Inv(s) && Enabled(s, e)
    ensures Inv(Next(s, e))
  {
  }

  lemma {:induction false} RunKeepsInv(states: seq<State>, events: seq<Event>, i: nat)
    requires IsRun(states, events) && i < |states|
    ensures Inv(states[i])
  {
    if i > 0 {
      RunKeepsInv(states, events, i - 1);
      NextKeepsInv(states[i - 1], events[i - 1]);
      assert states[i - 1 + 1] == Next(states[i - 1], events[i - 1]);
    }
  }

  // AI22: whatever the interleaving, each nonce admits at most one request, so
  // no proof is admitted twice; not even after a restart that lost the replay log.
  lemma NoProofAdmittedTwice(states: seq<State>, events: seq<Event>, m: nat, i: nat, j: nat)
    requires IsRun(states, events) && m < |states| && i < j < |states[m].admitted|
    ensures states[m].admitted[i].nonce != states[m].admitted[j].nonce
    ensures states[m].admitted[i] != states[m].admitted[j]
  {
    RunKeepsInv(states, events, m);
  }

  // Nothing already admitted is ever forgotten by the history.
  lemma {:induction false} AdmittedGrows(states: seq<State>, events: seq<Event>, i: nat, j: nat)
    requires IsRun(states, events) && i <= j < |states|
    ensures states[i].admitted <= states[j].admitted
  {
    if i < j {
      AdmittedGrows(states, events, i, j - 1);
      assert states[j - 1 + 1] == Next(states[j - 1], events[j - 1]);
    }
  }

  // Event h is the check that let request r of event k through.
  ghost predicate PassedAt(states: seq<State>, events: seq<Event>, r: nat, proof: Proof, now: int, h: nat, k: nat)
    requires IsRun(states, events)
  {
    && h < k <= |events| && events[h] == Has(r, proof, now)
    && Nonce.Live(states[h].issued, proof.nonce, now)
    && forall i | h <= i < k :: !events[i].Restart?
  }

  lemma {:induction false} InFlightWasLive(states: seq<State>, events: seq<Event>, r: nat, k: nat) returns (h: nat)
    requires IsRun(states, events) && k < |states| && r in states[k].inFlight
    ensures PassedAt(states, events, r, states[k].inFlight[r].proof, states[k].inFlight[r].now, h, k)
  {
    var s, e := states[k - 1], events[k - 1];
    assert Enabled(s, e) && states[k - 1 + 1] == Next(s, e);
    if e.Has? && e.request == r {
      h := k - 1;
    } else {
      h := InFlightWasLive(states, events, r, k - 1);
    }
  }

  // A proof reaches the replay log only if its nonce was live, in this very
  // process, when its request was checked.
  lemma LoggedProofHadLiveNonce(states: seq<State>, events: seq<Event>, k: nat)
    requires IsRun(states, events) && k < |events| && !events[k].Restart?
    requires states[k + 1].cache.log != states[k].cache.log
    ensures exists r, proof, now, h ::
      && events[k].Log? && events[k].request == r
      && r in states[k].inFlight && states[k].inFlight[r] == Checked(proof, now)
      && PassedAt(states, events, r, proof, now, h, k)
  {
    assert Enabled(states[k], events[k]) && states[k + 1] == Next(states[k], events[k]);
    var r := events[k].request;
    var h := InFlightWasLive(states, events, r, k);
    var c := states[k].inFlight[r];
    assert PassedAt(states, events, r, c.proof, c.now, h, k);
  }

}
