/** At-most-once consumption over whole runs of the replay cache: concurrent
    calls, failed and torn writes, failed Syncs, crashes and reopenings.

    `Consume` reads its clock before it takes the lock, so the readings of
    successive critical sections need not be ordered even when the clock is. */
module ReplayRuns {
  import opened Wrappers
  import opened Claims
  import opened AppendLog
  import opened Replay
  import opened Gateway

  // One critical section, with the clock reading it was entered with.
  datatype Step =
    | Consume(jti: string, exp: int, aliases: seq<string>, now: int, io: IO)
    | Restart(now: int, loss: Loss)

  // Down: the log could not be reopened, so nothing is consumed.
  datatype Process = Up(seen: map<string, int>, disk: Disk<Entry>) | Down(disk: Disk<Entry>)

  ghost function Reopen(disk: Disk<Entry>, now: int): Process {
    match Recovered(disk.pieces, now)
    case Some(seen) => Up(seen, disk)
    case None => Down(disk)
  }

  ghost predicate StepTo(p: Process, s: Step, p': Process) {
    match s
    case Consume(jti, exp, aliases, now, io) =>
      if p.Down? then p' == p
      else
        var c' := ConsumeNext(Cache(p.seen, Some(p.disk)), jti, exp, aliases, now, io);
        p' == Up(c'.seen, c'.log.value)
    case Restart(now, loss) =>
      CanLose(p.disk, loss) && p' == Reopen(After(p.disk, loss), now)
  }

  ghost predicate Succeeds(p: Process, s: Step) {
    && p.Up? && s.Consume?
    && ConsumeVerdict(Cache(p.seen, Some(p.disk)), s.jti, s.exp, s.aliases, s.now, s.io) == Consumed
  }

  ghost predicate IsRun(states: seq<Process>, steps: seq<Step>) {
    && |states| == |steps| + 1
    && ValidDisk(states[0].disk)
    && forall i | 0 <= i < |steps| :: StepTo(states[i], steps[i], states[i + 1])
  }

  // Calls a and c both consumed the same (jti, exp).
  ghost predicate Twice(states: seq<Process>, steps: seq<Step>, a: nat, c: nat) {
    && |states| == |steps| + 1 && a < c < |steps|
    && Succeeds(states[a], steps[a]) && Succeeds(states[c], steps[c])
    && steps[a].jti == steps[c].jti && steps[a].exp == steps[c].exp
  }

  // A consumed jti survives in memory and on disk, or the process is down.
  ghost predicate Kept(p: Process, jti: string, until: int) {
    Logged(p.disk, jti, until) && (p.Up? ==> Remembers(p.seen, jti, until))
  }

  lemma StepKeeps(p: Process, s: Step, p': Process, jti: string, until: int)
    requires Kept(p, jti, until) && StepTo(p, s, p') && s.now <= until
    ensures Kept(p', jti, until)
    ensures !(Succeeds(p, s) && s.jti == jti)
  {
    match s
    case Consume(j, exp, aliases, now, io) =>
      if p.Up? {
        ConsumeKeeps(Cache(p.seen, Some(p.disk)), jti, until, j, exp, aliases, now, io);
      }
    case Restart(now, loss) =>
      var d := After(p.disk, loss);
      LossKeepsLogged(p.disk, jti, until, loss);
      LoggedIsLast(d, jti, until);
      LatestOfLast(Records(d.pieces), jti, until, now);
  }

  lemma StepRecords(p: Process, s: Step, p': Process)
    requires ValidDisk(p.disk) && StepTo(p, s, p') && Succeeds(p, s)
    ensures Kept(p', s.jti, ReplayUntil(s.exp)) && s.now <= ReplayUntil(s.exp)
  {
    ConsumeRecords(Cache(p.seen, Some(p.disk)), s.jti, s.exp, s.aliases, s.now, s.io);
  }

  lemma StepKeepsDiskValid(p: Process, s: Step, p': Process)
    requires ValidDisk(p.disk) && StepTo(p, s, p')
    ensures ValidDisk(p'.disk)
  {
  }

  lemma {:induction false} DisksValid(states: seq<Process>, steps: seq<Step>, i: nat)
    requires IsRun(states, steps) && i < |states|
    ensures ValidDisk(states[i].disk)
  {
    if i > 0 {
      DisksValid(states, steps, i - 1);
      StepKeepsDiskValid(states[i - 1], steps[i - 1], states[i]);
    }
  }

  lemma {:induction false} KeptUntil(states: seq<Process>, steps: seq<Step>, a: nat, i: nat)
    requires IsRun(states, steps) && a < i < |states| && Succeeds(states[a], steps[a])
    requires forall b | a < b < i :: steps[b].now <= ReplayUntil(steps[a].exp)
    ensures Kept(states[i], steps[a].jti, ReplayUntil(steps[a].exp))
  {
    var s := steps[a];
    assert StepTo(states[i - 1], steps[i - 1], states[i]);
    if i == a + 1 {
      DisksValid(states, steps, a);
      StepRecords(states[a], s, states[i]);
    } else {
      KeptUntil(states, steps, a, i - 1);
      StepKeeps(states[i - 1], steps[i - 1], states[i], s.jti, ReplayUntil(s.exp));
    }
  }

  // Between two successful consumptions of one (jti, exp) some critical
  // section ran with a clock reading past its deadline; theirs were not.
  lemma TwiceNeedsPeak(states: seq<Process>, steps: seq<Step>, a: nat, c: nat)
    requires IsRun(states, steps) && Twice(states, steps, a, c)
    ensures steps[a].now <= ReplayUntil(steps[a].exp) && steps[c].now <= ReplayUntil(steps[a].exp)
    ensures exists b :: a < b < c && steps[b].now > ReplayUntil(steps[a].exp)
  {
    var until := ReplayUntil(steps[a].exp);
    if forall b | a < b < c :: steps[b].now <= until {
      KeptUntil(states, steps, a, c);
      assert StepTo(states[c], steps[c], states[c + 1]);
      StepKeeps(states[c], steps[c], states[c + 1], steps[a].jti, until);
      assert false;
    }
  }

  ghost predicate OrderedReadings(steps: seq<Step>) {
    forall i, j | 0 <= i < j < |steps| :: steps[i].now <= steps[j].now
  }

  // AI12: with ordered readings one (jti, exp) is consumed at most once ever,
  // across every interleaving, failed write, crash and restart.
  lemma AtMostOnce(states: seq<Process>, steps: seq<Step>, a: nat, c: nat)
    requires IsRun(states, steps) && OrderedReadings(steps)
    ensures !Twice(states, steps, a, c)
  {
    if Twice(states, steps, a, c) {
      TwiceNeedsPeak(states, steps, a, c);
      assert false;
    }
  }

  /******* Exactly which schedules are safe *******/

  function Readings(steps: seq<Step>): seq<int> {
    seq(|steps|, i requires 0 <= i < |steps| => steps[i].now)
  }

  // Reading b is above an earlier and a later one, and some deadline lies
  // between: deadlines are second 0 and every second from 31 on.
  ghost predicate Peak(readings: seq<int>, a: nat, b: nat, c: nat) {
    && a < b < c < |readings| && readings[b] > readings[a] && readings[b] > readings[c]
    && (readings[b] > CLOCK_SKEW + 1 || (readings[a] <= 0 && readings[c] <= 0 < readings[b]))
  }

  ghost predicate Fresh(p: Process) {
    p == Up(map[], Disk([], 0))
  }

  ghost predicate AdmitsTwo(readings: seq<int>) {
    exists states, steps, a, c ::
      IsRun(states, steps) && Fresh(states[0]) && Readings(steps) == readings && Twice(states, steps, a, c)
  }

  // Some history with these clock readings consumes a token twice, if and only
  // if some reading is strictly above an earlier and a later one (and, within
  // the first seconds of 1970, a deadline lies between them).
  lemma ScheduleAdmitsTwoIff(readings: seq<int>)
    ensures AdmitsTwo(readings) <==> exists a, b, c :: Peak(readings, a, b, c)
  {
    if AdmitsTwo(readings) {
      var states: seq<Process>, steps: seq<Step>, a: nat, c: nat :|
        IsRun(states, steps) && Fresh(states[0]) && Readings(steps) == readings && Twice(states, steps, a, c);
      TwiceNeedsPeak(states, steps, a, c);
      var b :| a < b < c && steps[b].now > ReplayUntil(steps[a].exp);
      assert forall i | i == a || i == b || i == c :: Readings(steps)[i] == steps[i].now;
      assert Peak(readings, a, b, c);
    }
    if exists a, b, c :: Peak(readings, a, b, c) {
      var a, b, c :| Peak(readings, a, b, c);
      PeakAdmitsTwo(readings, a, b, c);
    }
  }

  // The witness: calls a and c present a token whose deadline is the last one
  // below the peak; every other call presents another jti.
  function WitnessExp(peak: int): int {
    if peak > CLOCK_SKEW + 1 then peak - 1 - CLOCK_SKEW else 0
  }

  function WitnessStep(readings: seq<int>, a: nat, b: nat, c: nat, i: nat): Step
    requires Peak(readings, a, b, c) && i < |readings|
  {
    Consume(if i == a || i == c then "x" else "y", WitnessExp(readings[b]), [], readings[i], Synced)
  }

  function WitnessRun(steps: seq<Step>): (states: seq<Process>)
    requires forall s | s in steps :: s.Consume?
    ensures |states| == |steps| + 1 && forall p | p in states :: p.Up?
  {
    if steps == [] then [Up(map[], Disk([], 0))]
    else
      var before := WitnessRun(steps[..|steps| - 1]);
      var p := before[|before| - 1];
      var s := steps[|steps| - 1];
      var c' := ConsumeNext(Cache(p.seen, Some(p.disk)), s.jti, s.exp, s.aliases, s.now, s.io);
      before + [Up(c'.seen, c'.log.value)]
  }

  lemma {:induction false} WitnessIsRun(steps: seq<Step>)
    requires forall s | s in steps :: s.Consume?
    ensures IsRun(WitnessRun(steps), steps) && Fresh(WitnessRun(steps)[0])
  {
    if steps != [] {
      WitnessIsRun(steps[..|steps| - 1]);
      var states := WitnessRun(steps);
      var before := WitnessRun(steps[..|steps| - 1]);
      assert states[..|steps|] == before;
      forall i | 0 <= i < |steps| ensures StepTo(states[i], steps[i], states[i + 1]) {
        assert states[i] == before[i];
        assert i < |steps| - 1 ==> states[i + 1] == before[i + 1] && steps[..|steps| - 1][i] == steps[i];
      }
    }
  }

  // "x" is not remembered before call a, nor from b up to c.
  lemma {:induction false} WitnessSeen(readings: seq<int>, a: nat, b: nat, c: nat,
                                       states: seq<Process>, steps: seq<Step>, i: nat)
    requires Peak(readings, a, b, c)
    requires |steps| == |readings| && forall k | 0 <= k < |steps| :: steps[k] == WitnessStep(readings, a, b, c, k)
    requires IsRun(states, steps) && Fresh(states[0]) && forall p | p in states :: p.Up?
    requires i <= c
    ensures "x" in states[i].seen ==> states[i].seen["x"] == ReplayUntil(WitnessExp(readings[b]))
    ensures i <= a || b < i ==> "x" !in states[i].seen
  {
    if i > 0 {
      WitnessSeen(readings, a, b, c, states, steps, i - 1);
      assert StepTo(states[i - 1], steps[i - 1], states[i]);
      assert states[i - 1] in states && states[i] in states;
      assert "y"[0] != "x"[0];
    }
  }

  lemma WitnessSucceeds(readings: seq<int>, a: nat, b: nat, c: nat, p: Process, i: nat)
    requires Peak(readings, a, b, c) && (i == a || i == c) && p.Up? && "x" !in p.seen
    ensures Succeeds(p, WitnessStep(readings, a, b, c, i))
  {
  }

  lemma PeakAdmitsTwo(readings: seq<int>, a: nat, b: nat, c: nat)
    requires Peak(readings, a, b, c)
    ensures AdmitsTwo(readings)
  {
    hide Succeeds, IsRun, Fresh, WitnessRun;
    var steps := seq(|readings|, i requires 0 <= i < |readings| => WitnessStep(readings, a, b, c, i));
    var states := WitnessRun(steps);
    WitnessIsRun(steps);
    WitnessSeen(readings, a, b, c, states, steps, a);
    WitnessSeen(readings, a, b, c, states, steps, c);
    assert states[a] in states && states[c] in states;
    WitnessSucceeds(readings, a, b, c, states[a], a);
    WitnessSucceeds(readings, a, b, c, states[c], c);
    assert Readings(steps) == readings;
    assert Twice(states, steps, a, c);
  }

  // A reading taken at 100 waits for the lock while a reading of 200 purges.
  lemma StaleReadingConsumesTwice()
    ensures AdmitsTwo([90, 200, 100])
  {
    PeakAdmitsTwo([90, 200, 100], 0, 1, 2);
  }

  /******* What is refused was presented before *******/

  // A critical section whose record reached the file, acknowledged or not.
  ghost predicate Wrote(p: Process, s: Step) {
    && p.Up? && s.Consume?
    && var v := ConsumeVerdict(Cache(p.seen, Some(p.disk)), s.jti, s.exp, s.aliases, s.now, s.io);
       v.Consumed? || (v.WriteFailed? && (s.io.NewlineLost? || s.io.SyncFailed?))
  }

  ghost predicate WroteAt(states: seq<Process>, steps: seq<Step>, a: nat, jti: string, until: int) {
    && a < |steps| && a < |states|
    && Wrote(states[a], steps[a]) && steps[a].jti == jti && ReplayUntil(steps[a].exp) == until
  }

  ghost predicate WrittenBefore(states: seq<Process>, steps: seq<Step>, i: nat, jti: string, until: int) {
    exists a: nat :: a < i && WroteAt(states, steps, a, jti, until)
  }

  lemma {:induction false} LatestFrom(entries: seq<Entry>, now: int, jti: string)
    requires jti in Latest(entries, now)
    ensures Entry(jti, Latest(entries, now)[jti]) in entries
  {
    var e := entries[|entries| - 1];
    if e.until < now || e.jti != jti {
      LatestFrom(entries[..|entries| - 1], now, jti);
    }
  }

  // A step adds to memory and file only what it wrote.
  lemma StepOrigins(p: Process, s: Step, p': Process, e: Entry)
    requires ValidDisk(p.disk) && StepTo(p, s, p')
    requires e in Records(p'.disk.pieces) || (p'.Up? && e.jti in p'.seen && p'.seen[e.jti] == e.until)
    ensures || e in Records(p.disk.pieces)
            || (p.Up? && e.jti in p.seen && p.seen[e.jti] == e.until)
            || (Wrote(p, s) && s.jti == e.jti && ReplayUntil(s.exp) == e.until)
  {
    hide Records, Latest;
    match s
    case Consume(jti, exp, aliases, now, io) =>
      if p.Up? {
        RecordsOfAppend(p.disk, Entry(jti, ReplayUntil(exp)), LineLength(Entry(jti, ReplayUntil(exp))), io);
      }
    case Restart(now, loss) =>
      if loss.PowerLost? {
        var keep := loss.keep;
        RecordsOfCrash(p.disk, keep, loss.torn);
        RecordsSplit(p.disk.pieces, keep);
        RecordsSplit(p.disk.pieces[..keep], p.disk.synced);
        assert p.disk.pieces[..keep][..p.disk.synced] == p.disk.pieces[..p.disk.synced];
        assert p.disk.pieces[..keep][p.disk.synced..] == p.disk.pieces[p.disk.synced..keep];
      }
      if p'.Up? && e.jti in p'.seen {
        LatestFrom(Records(p'.disk.pieces), now, e.jti);
      }
  }

  lemma {:induction false} Origins(states: seq<Process>, steps: seq<Step>, i: nat, e: Entry)
    requires IsRun(states, steps) && Fresh(states[0]) && i < |states|
    requires || e in Records(states[i].disk.pieces)
             || (states[i].Up? && e.jti in states[i].seen && states[i].seen[e.jti] == e.until)
    ensures WrittenBefore(states, steps, i, e.jti, e.until)
  {
    hide Records, Wrote;
    if i == 0 {
      NoRecords();
    } else {
      assert StepTo(states[i - 1], steps[i - 1], states[i - 1 + 1]);
      DisksValid(states, steps, i - 1);
      StepOrigins(states[i - 1], steps[i - 1], states[i], e);
      if !WroteAt(states, steps, i - 1, e.jti, e.until) {
        Origins(states, steps, i - 1, e);
        var a: nat :| a < i - 1 && WroteAt(states, steps, a, e.jti, e.until);
        assert WroteAt(states, steps, a, e.jti, e.until);
      }
    }
  }

  lemma NoRecords()
    ensures Records<Entry>([]) == []
  {
  }

  // A call refused as replayed inside its token's window presents, as its jti
  // or an alias, a key some earlier call wrote with a deadline not yet past.
  lemma RefusedWasWritten(states: seq<Process>, steps: seq<Step>, c: nat)
    requires IsRun(states, steps) && Fresh(states[0]) && c < |steps| && steps[c].Consume? && states[c].Up?
    requires ConsumeVerdict(Cache(states[c].seen, Some(states[c].disk)), steps[c].jti, steps[c].exp, steps[c].aliases,
                            steps[c].now, steps[c].io) == Replayed
    requires steps[c].now <= ReplayUntil(steps[c].exp)
    ensures exists key, until ::
      key in [steps[c].jti] + steps[c].aliases && until >= steps[c].now && WrittenBefore(states, steps, c, key, until)
  {
    hide Records, WrittenBefore;
    var keys, seen := [steps[c].jti] + steps[c].aliases, states[c].seen;
    var k :| 0 <= k < |keys| && keys[k] in seen && seen[keys[k]] >= steps[c].now;
    Origins(states, steps, c, Entry(keys[k], seen[keys[k]]));
    assert keys[k] in keys && WrittenBefore(states, steps, c, keys[k], seen[keys[k]]);
  }

  // How the gateway and the token endpoint present a DPoP proof.
  ghost predicate PresentsProof(s: Step) {
    s.Consume? && exists jti :: jti != "" && s.jti == ReplayJti(jti) && s.aliases == [jti]
  }

  // Proofs share the log with subject tokens and never spend one: what refuses
  // a subject jti without the proof prefix inside its window is an earlier
  // call for the same jti that presented no proof.
  lemma ProofsNeverSpendSubjects(states: seq<Process>, steps: seq<Step>, c: nat)
    requires IsRun(states, steps) && Fresh(states[0]) && c < |steps| && steps[c].Consume? && states[c].Up?
    requires steps[c].aliases == [] && !(REPLAY_PREFIX <= steps[c].jti)
    requires ConsumeVerdict(Cache(states[c].seen, Some(states[c].disk)), steps[c].jti, steps[c].exp, [],
                            steps[c].now, steps[c].io) == Replayed
    requires steps[c].now <= ReplayUntil(steps[c].exp)
    ensures exists a: nat, until :: a < c && WroteAt(states, steps, a, steps[c].jti, until) && !PresentsProof(steps[a])
  {
    hide Wrote;
    RefusedWasWritten(states, steps, c);
    var key, until :|
      key in [steps[c].jti] + steps[c].aliases && until >= steps[c].now && WrittenBefore(states, steps, c, key, until);
    var a: nat :| a < c && WroteAt(states, steps, a, key, until);
    assert key == steps[c].jti;
    assert PresentsProof(steps[a]) ==> REPLAY_PREFIX <= steps[a].jti;
    assert WroteAt(states, steps, a, steps[c].jti, until) && !PresentsProof(steps[a]);
  }

  /******* When purging can be seen *******/

  datatype Call = Call(jti: string, exp: int, aliases: seq<string>, now: int, io: IO)

  function Keys(k: Call): seq<string> {
    [k.jti] + k.aliases
  }

  // The cache after some calls, and what they were answered.
  function Purging(c: Cache, calls: seq<Call>): Cache {
    if calls == [] then c
    else
      var k := calls[|calls| - 1];
      ConsumeNext(Purging(c, calls[..|calls| - 1]), k.jti, k.exp, k.aliases, k.now, k.io)
  }

  function Verdicts(c: Cache, calls: seq<Call>): seq<Verdict> {
    if calls == [] then []
    else
      var init, k := calls[..|calls| - 1], calls[|calls| - 1];
      Verdicts(c, init) + [ConsumeVerdict(Purging(c, init), k.jti, k.exp, k.aliases, k.now, k.io)]
  }

  // The same cache without purgeLocked: it never forgets.
  function KeepingVerdict(c: Cache, k: Call): Verdict {
    if k.jti == "" then EmptyJti
    else if Known(c.seen, Keys(k), k.now) then Replayed
    else if ReplayUntil(k.exp) < k.now then Replayed
    else if c.log.Some? && !k.io.Synced? then WriteFailed
    else Consumed
  }

  function KeepingNext(c: Cache, k: Call): Cache {
    var v := KeepingVerdict(c, k);
    if v.EmptyJti? || v.Replayed? then c
    else
      var log := if c.log.None? then None
                 else Some(Record(c.log.value, Entry(k.jti, ReplayUntil(k.exp)), k.io));
      Cache(if v.Consumed? then c.seen[k.jti := ReplayUntil(k.exp)] else c.seen, log)
  }

  function Keeping(c: Cache, calls: seq<Call>): Cache {
    if calls == [] then c else KeepingNext(Keeping(c, calls[..|calls| - 1]), calls[|calls| - 1])
  }

  function KeepingVerdicts(c: Cache, calls: seq<Call>): seq<Verdict> {
    if calls == [] then []
    else
      var init := calls[..|calls| - 1];
      KeepingVerdicts(c, init) + [KeepingVerdict(Keeping(c, init), calls[|calls| - 1])]
  }

  // The key may be remembered until that deadline since call a; since before
  // the first call, if a is -1.
  ghost predicate Remembered(c: Cache, calls: seq<Call>, a: int, key: string, until: int) {
    if a == -1 then key in c.seen && c.seen[key] == until
    else 0 <= a < |calls| && calls[a].jti == key && calls[a].now <= until == ReplayUntil(calls[a].exp)
  }

  ghost predicate PassedBetween(calls: seq<Call>, a: int, c: nat, until: int) {
    exists b :: 0 <= b < c && a < b < |calls| && Purges(calls[b], until)
  }

  predicate Purges(k: Call, until: int) {
    k.jti != "" && k.now > until
  }

  // Call c presents, inside its deadline, a key whose deadline another call's
  // purge has passed since it was remembered.
  ghost predicate Crossing(cache: Cache, calls: seq<Call>, a: int, c: nat, key: string, until: int) {
    && c < |calls| && Remembered(cache, calls, a, key, until) && PassedBetween(calls, a, c, until)
    && key in Keys(calls[c]) && calls[c].now <= until
  }

  ghost predicate Uncrossed(cache: Cache, calls: seq<Call>) {
    forall a, c, key, until :: !Crossing(cache, calls, a, c, key, until)
  }

  lemma UncrossedPrefix(cache: Cache, calls: seq<Call>)
    requires calls != [] && Uncrossed(cache, calls)
    ensures Uncrossed(cache, calls[..|calls| - 1])
  {
    var init := calls[..|calls| - 1];
    forall a, c: nat, key, until ensures !Crossing(cache, init, a, c, key, until) {
      if Crossing(cache, init, a, c, key, until) {
        var b :| 0 <= b < c && a < b < |init| && Purges(init[b], until);
        assert Purges(calls[b], until);
        assert PassedBetween(calls, a, c, until);
        assert Crossing(cache, calls, a, c, key, until);
      }
    }
  }

  // p is k with nothing forgotten but what a reading has passed.
  ghost predicate Forgets(p: Cache, k: Cache, cache: Cache, calls: seq<Call>) {
    && p.log == k.log
    && (forall key | key in p.seen :: key in k.seen && k.seen[key] == p.seen[key])
    && forall key | key in k.seen ::
         exists a :: Remembered(cache, calls, a, key, k.seen[key])
                     && (key in p.seen || PassedBetween(calls, a, |calls|, k.seen[key]))
  }

  // What was remembered or passed before one more call still is.
  lemma RememberedSnoc(cache: Cache, calls: seq<Call>, k: Call, a: int, key: string, until: int)
    requires Remembered(cache, calls, a, key, until)
    ensures Remembered(cache, calls + [k], a, key, until)
    ensures PassedBetween(calls, a, |calls|, until) ==> PassedBetween(calls + [k], a, |calls| + 1, until)
    ensures Purges(k, until) ==> PassedBetween(calls + [k], a, |calls| + 1, until)
  {
    var all := calls + [k];
    assert a != -1 ==> all[a] == calls[a];
    if PassedBetween(calls, a, |calls|, until) {
      var b :| 0 <= b < |calls| && a < b < |calls| && Purges(calls[b], until);
      assert all[b] == calls[b];
    }
    if Purges(k, until) {
      assert Purges(all[|calls|], until);
    }
  }

  lemma ForgetsSame(p: Cache, k: Cache, cache: Cache, calls: seq<Call>, next: Call)
    requires Forgets(p, k, cache, calls) && Uncrossed(cache, calls + [next])
    ensures ConsumeVerdict(p, next.jti, next.exp, next.aliases, next.now, next.io) == KeepingVerdict(k, next)
  {
    var kept, all := Purge(p.seen, next.now), calls + [next];
    assert Known(kept, Keys(next), next.now) ==> Known(k.seen, Keys(next), next.now);
    if Known(k.seen, Keys(next), next.now) {
      var i :| 0 <= i < |Keys(next)| && Keys(next)[i] != ""
               && Keys(next)[i] in k.seen && k.seen[Keys(next)[i]] >= next.now;
      var key := Keys(next)[i];
      var a :| Remembered(cache, calls, a, key, k.seen[key])
               && (key in p.seen || PassedBetween(calls, a, |calls|, k.seen[key]));
      if key !in p.seen {
        RememberedSnoc(cache, calls, next, a, key, k.seen[key]);
        var b :| 0 <= b < |calls| && a < b < |calls| && Purges(calls[b], k.seen[key]);
        assert all[b] == calls[b] && all[|calls|] == next;
        assert PassedBetween(all, a, |calls|, k.seen[key]);
        assert Crossing(cache, all, a, |calls|, key, k.seen[key]);
      }
      assert key in kept;
    }
  }

  lemma ForgetsStep(p: Cache, k: Cache, cache: Cache, calls: seq<Call>, next: Call)
    requires Forgets(p, k, cache, calls)
    requires ConsumeVerdict(p, next.jti, next.exp, next.aliases, next.now, next.io) == KeepingVerdict(k, next)
    ensures Forgets(ConsumeNext(p, next.jti, next.exp, next.aliases, next.now, next.io), KeepingNext(k, next),
                    cache, calls + [next])
  {
    hide Known, Remembered, PassedBetween;
    var p', k' := ConsumeNext(p, next.jti, next.exp, next.aliases, next.now, next.io), KeepingNext(k, next);
    var all := calls + [next];
    forall key | key in k'.seen
      ensures exists a :: Remembered(cache, all, a, key, k'.seen[key])
                          && (key in p'.seen || PassedBetween(all, a, |all|, k'.seen[key]))
    {
      if KeepingVerdict(k, next).Consumed? && key == next.jti {
        JustRemembered(cache, calls, next);
        assert key in p'.seen;
      } else {
        var a :| Remembered(cache, calls, a, key, k.seen[key])
                 && (key in p.seen || PassedBetween(calls, a, |calls|, k.seen[key]));
        RememberedSnoc(cache, calls, next, a, key, k.seen[key]);
        assert key in p.seen && key !in p'.seen ==> Purges(next, k.seen[key]);
      }
    }
  }

  lemma JustRemembered(cache: Cache, calls: seq<Call>, next: Call)
    requires next.now <= ReplayUntil(next.exp)
    ensures Remembered(cache, calls + [next], |calls|, next.jti, ReplayUntil(next.exp))
  {
  }

  lemma {:induction false} ForgetsAlong(cache: Cache, calls: seq<Call>)
    requires Uncrossed(cache, calls)
    ensures Forgets(Purging(cache, calls), Keeping(cache, calls), cache, calls)
    ensures Verdicts(cache, calls) == KeepingVerdicts(cache, calls)
  {
    if calls == [] {
      assert forall key | key in cache.seen :: Remembered(cache, [], -1, key, cache.seen[key]);
    } else {
      hide Forgets, Uncrossed, ConsumeVerdict, ConsumeNext, KeepingVerdict, KeepingNext;
      var init, k := calls[..|calls| - 1], calls[|calls| - 1];
      assert calls == init + [k];
      UncrossedPrefix(cache, calls);
      ForgetsAlong(cache, init);
      ForgetsSame(Purging(cache, init), Keeping(cache, init), cache, init, k);
      ForgetsStep(Purging(cache, init), Keeping(cache, init), cache, init, k);
    }
  }

  // Whatever the order of the readings: if no call presents, inside its
  // deadline, a key whose deadline another reading passed meanwhile, every
  // call is answered as by a cache that never forgets.
  lemma PurgeInvisible(cache: Cache, calls: seq<Call>)
    requires Uncrossed(cache, calls)
    ensures Verdicts(cache, calls) == KeepingVerdicts(cache, calls)
  {
    ForgetsAlong(cache, calls);
  }

  function CallReadings(calls: seq<Call>): seq<int> {
    seq(|calls|, i requires 0 <= i < |calls| => calls[i].now)
  }

  const FRESH := Cache(map[], Some(Disk([], 0)))

  ghost predicate ShowsPurge(calls: seq<Call>, readings: seq<int>) {
    CallReadings(calls) == readings && Verdicts(FRESH, calls) != KeepingVerdicts(FRESH, calls)
  }

  function WitnessCalls(readings: seq<int>, a: nat, b: nat, c: nat): (calls: seq<Call>)
    requires Peak(readings, a, b, c)
    ensures |calls| == |readings|
    ensures forall k | 0 <= k < |calls| ::
              calls[k] == Call(if k == a || k == c then "x" else "y", WitnessExp(readings[b]), [], readings[k], Synced)
  {
    seq(|readings|, i requires 0 <= i < |readings| =>
      Call(if i == a || i == c then "x" else "y", WitnessExp(readings[b]), [], readings[i], Synced))
  }

  // Some calls with these readings are answered otherwise than by a cache that
  // never forgets, if and only if the readings could consume a token twice.
  lemma PurgeVisibleIff(readings: seq<int>)
    ensures (exists calls :: ShowsPurge(calls, readings)) <==> exists a, b, c :: Peak(readings, a, b, c)
  {
    hide Verdicts, KeepingVerdicts, WitnessCalls;
    if exists calls :: ShowsPurge(calls, readings) {
      var calls :| ShowsPurge(calls, readings);
      CrossingHasPeak(calls);
    }
    if exists a, b, c :: Peak(readings, a, b, c) {
      var a, b, c :| Peak(readings, a, b, c);
      PeakShowsPurge(readings, a, b, c);
    }
  }

  lemma CrossingHasPeak(calls: seq<Call>)
    requires Verdicts(FRESH, calls) != KeepingVerdicts(FRESH, calls)
    ensures exists a, b, c :: Peak(CallReadings(calls), a, b, c)
  {
    if Uncrossed(FRESH, calls) {
      PurgeInvisible(FRESH, calls);
    }
    var a, c: nat, key, until :| Crossing(FRESH, calls, a, c, key, until);
    var b :| 0 <= b < c && a < b < |calls| && Purges(calls[b], until);
    assert Peak(CallReadings(calls), a, b, c);
  }

  // One call of the witness, on both caches.
  lemma WitnessCallStep(p: Cache, k: Cache, call: Call, until: int)
    requires call.aliases == [] && call.io == Synced && call.jti in ["x", "y"] && ReplayUntil(call.exp) == until
    requires ("x" in p.seen ==> p.seen["x"] == until) && ("x" in k.seen ==> k.seen["x"] == until)
    ensures var p' := ConsumeNext(p, call.jti, call.exp, call.aliases, call.now, call.io).seen;
      && ("x" in p' ==> p'["x"] == until)
      && (call.now > until ==> "x" !in p') && ("x" in p' ==> "x" in p.seen || call.jti == "x")
    ensures var k' := KeepingNext(k, call).seen;
      && ("x" in k' ==> k'["x"] == until)
      && ("x" in k' <==> "x" in k.seen || (call.jti == "x" && call.now <= until))
  {
    hide Record;
    assert "y"[0] != "x"[0];
    assert Keys(call) == [call.jti];
  }

  // The purging cache has lost "x" from call b on; the other has not.
  lemma {:induction false} PeakSeen(readings: seq<int>, a: nat, b: nat, c: nat, i: nat)
    requires Peak(readings, a, b, c) && i <= c
    ensures var calls, until := WitnessCalls(readings, a, b, c), ReplayUntil(WitnessExp(readings[b]));
      var p, k := Purging(FRESH, calls[..i]).seen, Keeping(FRESH, calls[..i]).seen;
      && ("x" in p ==> p["x"] == until) && (i <= a || b < i ==> "x" !in p)
      && ("x" in k <==> a < i) && ("x" in k ==> k["x"] == until)
  {
    hide ConsumeNext, KeepingNext, WitnessCalls;
    var calls, until := WitnessCalls(readings, a, b, c), ReplayUntil(WitnessExp(readings[b]));
    if i > 0 {
      PeakSeen(readings, a, b, c, i - 1);
      assert calls[..i][..i - 1] == calls[..i - 1];
      WitnessCallStep(Purging(FRESH, calls[..i - 1]), Keeping(FRESH, calls[..i - 1]), calls[i - 1], until);
      assert "y"[0] != "x"[0];
    } else {
      assert calls[..0] == [];
    }
  }

  lemma PeakShowsPurge(readings: seq<int>, a: nat, b: nat, c: nat)
    requires Peak(readings, a, b, c)
    ensures ShowsPurge(WitnessCalls(readings, a, b, c), readings)
  {
    hide Purging, Keeping, Record, WitnessCalls;
    var calls := WitnessCalls(readings, a, b, c);
    assert CallReadings(calls) == readings;
    PeakSeen(readings, a, b, c, c);
    assert Keys(calls[c])[0] == "x";
    VerdictAt(FRESH, calls, c);
    assert KeepingVerdict(Keeping(FRESH, calls[..c]), calls[c]) == Replayed;
    assert Verdicts(FRESH, calls)[c] == Consumed;
  }

  lemma {:induction false} VerdictAt(cache: Cache, calls: seq<Call>, i: nat)
    requires i < |calls|
    ensures |Verdicts(cache, calls)| == |KeepingVerdicts(cache, calls)| == |calls|
    ensures var k := calls[i];
      Verdicts(cache, calls)[i] == ConsumeVerdict(Purging(cache, calls[..i]), k.jti, k.exp, k.aliases, k.now, k.io)
    ensures KeepingVerdicts(cache, calls)[i] == KeepingVerdict(Keeping(cache, calls[..i]), calls[i])
  {
    hide ConsumeVerdict, KeepingVerdict, Purging, Keeping;
    var n := |calls| - 1;
    VerdictCount(cache, calls[..n]);
    if i < n {
      VerdictAt(cache, calls[..n], i);
      assert calls[..n][..i] == calls[..i];
    }
  }

  lemma {:induction false} VerdictCount(cache: Cache, calls: seq<Call>)
    ensures |Verdicts(cache, calls)| == |KeepingVerdicts(cache, calls)| == |calls|
  {
    if calls != [] {
      VerdictCount(cache, calls[..|calls| - 1]);
    }
  }
}
