/** Single-use DPoP nonces (internal/dpop/nonce.go). */
module Nonce {
  import opened Strings
  import opened Claims

  const NONCE_TTL: int := 120 * SECOND

  function Gc(issued: map<string, int>, nowUnix: int): map<string, int> {
    map n | n in issued && issued[n] >= nowUnix :: issued[n]
  }

  function IssueNext(issued: map<string, int>, nonce: string, now: int): map<string, int> {
    Gc(issued, Unix(now))[nonce := Unix(now + NONCE_TTL)]
  }

  predicate Live(issued: map<string, int>, nonce: string, now: int) {
    !Blank(nonce) && nonce in issued && issued[nonce] >= Unix(now)
  }

  function SpendNext(issued: map<string, int>, nonce: string): map<string, int> {
    if Blank(nonce) then issued else issued - {nonce}
  }

  // A nonce lives through the 120th second after it was issued, or until it is
  // spent; others are touched only by time.
  lemma NonceLife(issued: map<string, int>, nonce: string, at: int, other: string, now: int)
    ensures var after := IssueNext(issued, nonce, at);
      && (Live(after, nonce, now) <==> TrimSpace(nonce) != "" && Unix(now) <= Unix(at + 120 * SECOND))
      && (other != nonce && Unix(now) >= Unix(at) ==> (Live(after, other, now) <==> Live(issued, other, now)))
    ensures !Live(SpendNext(issued, nonce), nonce, now)
    ensures other != nonce ==> (Live(SpendNext(issued, nonce), other, now) <==> Live(issued, other, now))
  {
    TrimSpaceEmpty(nonce);
  }

  class NonceCache {
    var issued: map<string, int>

    constructor ()
      ensures issued == map[]
    {
      issued := map[];
    }

    // `nonce` is what the random source yields.
    method Issue(nonce: string, now: int)
      modifies this
      ensures issued == IssueNext(old(issued), nonce, now)
    {
      var until := Unix(now + NONCE_TTL);
      GcLocked(Unix(now));
      issued := issued[nonce := until];
    }

    method Has(nonce: string, now: int) returns (ok: bool)
      ensures ok <==> Live(issued, nonce, now)
    {
      TrimSpaceEmpty(nonce);
      if TrimSpace(nonce) == "" {
        return false;
      }
      return nonce in issued && issued[nonce] >= Unix(now);
    }

    method Consume(nonce: string, now: int) returns (ok: bool)
      modifies this
      ensures ok <==> Live(old(issued), nonce, now)
      ensures issued == SpendNext(old(issued), nonce)
    {
      TrimSpaceEmpty(nonce);
      if TrimSpace(nonce) == "" {
        return false;
      }
      if nonce !in issued || issued[nonce] < Unix(now) {
        issued := issued - {nonce};
        return false;
      }
      issued := issued - {nonce};
      return true;
    }

    method GcLocked(nowUnix: int)
      modifies this
      ensures issued == Gc(old(issued), nowUnix)
    {
      var names := issued.Keys;
      while names != {}
        invariant names <= old(issued).Keys
        invariant issued == map n | n in old(issued) && (n in names || old(issued)[n] >= nowUnix) :: old(issued)[n]
      {
        var n :| n in names;
        if issued[n] < nowUnix {
          issued := issued - {n};
        }
        names := names - {n};
      }
    }
  }

  /******* When collecting expired nonces can be seen *******/

  datatype Call = Issue(nonce: string, now: int) | Has(nonce: string, now: int) | Consume(nonce: string, now: int)

  function Answer(issued: map<string, int>, k: Call): bool {
    k.Issue? || Live(issued, k.nonce, k.now)
  }

  function Next(issued: map<string, int>, k: Call, collect: bool): map<string, int> {
    match k
    case Issue(n, now) => if collect then IssueNext(issued, n, now) else issued[n := Unix(now + NONCE_TTL)]
    case Has(_, _) => issued
    case Consume(n, _) => SpendNext(issued, n)
  }

  function After(issued: map<string, int>, calls: seq<Call>, collect: bool): map<string, int> {
    if calls == [] then issued
    else Next(After(issued, calls[..|calls| - 1], collect), calls[|calls| - 1], collect)
  }

  function Answers(issued: map<string, int>, calls: seq<Call>, collect: bool): seq<bool> {
    if calls == [] then []
    else
      var init := calls[..|calls| - 1];
      Answers(issued, init, collect) + [Answer(After(issued, init, collect), calls[|calls| - 1])]
  }

  // The nonce was issued at call a with that deadline; before the first call,
  // if a is -1.
  ghost predicate Issued(issued: map<string, int>, calls: seq<Call>, a: int, nonce: string, until: int) {
    if a == -1 then nonce in issued && issued[nonce] == until
    else 0 <= a < |calls| && calls[a] == Issue(nonce, calls[a].now) && until == Unix(calls[a].now + NONCE_TTL)
  }

  predicate Collects(k: Call, until: int) {
    k.Issue? && Unix(k.now) > until
  }

  ghost predicate CollectedBetween(calls: seq<Call>, a: int, c: nat, until: int) {
    exists b :: 0 <= b < c && a < b < |calls| && Collects(calls[b], until)
  }

  // Query c asks, inside its deadline, for a nonce whose deadline the reading
  // of another Issue has passed since.
  ghost predicate Crossing(issued: map<string, int>, calls: seq<Call>, a: int, c: nat, until: int) {
    && c < |calls| && !calls[c].Issue? && Issued(issued, calls, a, calls[c].nonce, until)
    && CollectedBetween(calls, a, c, until) && Unix(calls[c].now) <= until
  }

  ghost predicate Uncrossed(issued: map<string, int>, calls: seq<Call>) {
    forall a, c, until :: !Crossing(issued, calls, a, c, until)
  }

  lemma UncrossedPrefix(issued: map<string, int>, calls: seq<Call>)
    requires calls != [] && Uncrossed(issued, calls)
    ensures Uncrossed(issued, calls[..|calls| - 1])
  {
    var init := calls[..|calls| - 1];
    forall a, c: nat, until ensures !Crossing(issued, init, a, c, until) {
      if Crossing(issued, init, a, c, until) {
        var b :| 0 <= b < c && a < b < |init| && Collects(init[b], until);
        assert Collects(calls[b], until);
        assert CollectedBetween(calls, a, c, until);
        assert Crossing(issued, calls, a, c, until);
      }
    }
  }

  // Nothing is missing but what a reading has passed.
  ghost predicate Collected(some: map<string, int>, full: map<string, int>, issued: map<string, int>,
                            calls: seq<Call>)
  {
    && (forall n | n in some :: n in full && full[n] == some[n])
    && forall n | n in full ::
         exists a :: Issued(issued, calls, a, n, full[n]) && (n in some || CollectedBetween(calls, a, |calls|, full[n]))
  }

  lemma IssuedSnoc(issued: map<string, int>, calls: seq<Call>, k: Call, a: int, nonce: string, until: int)
    requires Issued(issued, calls, a, nonce, until)
    ensures Issued(issued, calls + [k], a, nonce, until)
    ensures CollectedBetween(calls, a, |calls|, until) ==> CollectedBetween(calls + [k], a, |calls| + 1, until)
    ensures Collects(k, until) ==> CollectedBetween(calls + [k], a, |calls| + 1, until)
  {
    var all := calls + [k];
    assert a != -1 ==> all[a] == calls[a];
    if CollectedBetween(calls, a, |calls|, until) {
      var b :| 0 <= b < |calls| && a < b < |calls| && Collects(calls[b], until);
      assert all[b] == calls[b];
    }
    if Collects(k, until) {
      assert Collects(all[|calls|], until);
    }
  }

  lemma AnswersSame(some: map<string, int>, full: map<string, int>, issued: map<string, int>, calls: seq<Call>, k: Call)
    requires Collected(some, full, issued, calls) && Uncrossed(issued, calls + [k])
    ensures Answer(some, k) == Answer(full, k)
  {
    var all := calls + [k];
    if !k.Issue? && Live(full, k.nonce, k.now) && k.nonce !in some {
      var until := full[k.nonce];
      var a :| Issued(issued, calls, a, k.nonce, until)
               && (k.nonce in some || CollectedBetween(calls, a, |calls|, until));
      IssuedSnoc(issued, calls, k, a, k.nonce, until);
      var b :| 0 <= b < |calls| && a < b < |calls| && Collects(calls[b], until);
      assert all[b] == calls[b] && all[|calls|] == k;
      assert CollectedBetween(all, a, |calls|, until);
      assert Crossing(issued, all, a, |calls|, until);
    }
  }

  lemma CollectedStep(some: map<string, int>, full: map<string, int>, issued: map<string, int>,
                      calls: seq<Call>, k: Call)
    requires Collected(some, full, issued, calls)
    ensures Collected(Next(some, k, true), Next(full, k, false), issued, calls + [k])
  {
    hide Issued, CollectedBetween;
    var some', full', all := Next(some, k, true), Next(full, k, false), calls + [k];
    forall n | n in full'
      ensures exists a ::
        Issued(issued, all, a, n, full'[n]) && (n in some' || CollectedBetween(all, a, |all|, full'[n]))
    {
      if k.Issue? && k.nonce == n {
        JustIssued(issued, calls, k);
        assert n in some';
      } else {
        var a :| Issued(issued, calls, a, n, full[n]) && (n in some || CollectedBetween(calls, a, |calls|, full[n]));
        IssuedSnoc(issued, calls, k, a, n, full[n]);
        assert n in some && n !in some' ==> Collects(k, full[n]);
      }
    }
  }

  lemma JustIssued(issued: map<string, int>, calls: seq<Call>, k: Call)
    requires k.Issue?
    ensures Issued(issued, calls + [k], |calls|, k.nonce, Unix(k.now + NONCE_TTL))
  {
  }

  // Whatever the order of the readings: if no query asks, inside its deadline,
  // for a nonce whose deadline another Issue's reading passed meanwhile, every
  // query is answered as by a cache that never collects.
  lemma {:induction false} GcInvisible(issued: map<string, int>, calls: seq<Call>)
    requires Uncrossed(issued, calls)
    ensures Answers(issued, calls, true) == Answers(issued, calls, false)
    ensures Collected(After(issued, calls, true), After(issued, calls, false), issued, calls)
  {
    if calls == [] {
      assert forall n | n in issued :: Issued(issued, [], -1, n, issued[n]);
    } else {
      hide Collected, Uncrossed, Answer, Next;
      var init, k := calls[..|calls| - 1], calls[|calls| - 1];
      assert calls == init + [k];
      UncrossedPrefix(issued, calls);
      GcInvisible(issued, init);
      AnswersSame(After(issued, init, true), After(issued, init, false), issued, init, k);
      CollectedStep(After(issued, init, true), After(issued, init, false), issued, init, k);
    }
  }

  /******* Exactly which schedules show it *******/

  // Calls without their nonces: what was done and with which reading.
  datatype Kind = Issuing | Asking | Spending

  datatype Event = Event(kind: Kind, now: int)

  function EventOf(k: Call): Event {
    Event(match k case Issue(_, _) => Issuing case Has(_, _) => Asking case Consume(_, _) => Spending, k.now)
  }

  function Schedule(calls: seq<Call>): (r: seq<Event>)
    ensures |r| == |calls| && forall i | 0 <= i < |r| :: r[i] == EventOf(calls[i])
  {
    seq(|calls|, i requires 0 <= i < |calls| => EventOf(calls[i]))
  }

  // Issue b reads past the deadline of Issue a, and query c after it does not.
  ghost predicate Peak(s: seq<Event>, a: nat, b: nat, c: nat) {
    && a < b < c < |s| && s[a].kind.Issuing? && s[b].kind.Issuing? && !s[c].kind.Issuing?
    && Unix(s[c].now) <= Unix(s[a].now + NONCE_TTL) < Unix(s[b].now)
  }

  ghost predicate ShowsCollection(calls: seq<Call>, s: seq<Event>) {
    Schedule(calls) == s && Answers(map[], calls, true) != Answers(map[], calls, false)
  }

  function CallOf(e: Event, nonce: string): Call {
    match e.kind
    case Issuing => Issue(nonce, e.now)
    case Asking => Has(nonce, e.now)
    case Spending => Consume(nonce, e.now)
  }

  function WitnessCalls(s: seq<Event>, a: nat, c: nat): (calls: seq<Call>)
    ensures |calls| == |s|
    ensures forall i | 0 <= i < |s| :: calls[i] == CallOf(s[i], if i == a || i == c then "x" else "y")
  {
    seq(|s|, i requires 0 <= i < |s| => CallOf(s[i], if i == a || i == c then "x" else "y"))
  }

  // Some nonces on a schedule make the collection visible if and only if the
  // schedule has a peak over a nonce's deadline.
  lemma GcVisibleIff(s: seq<Event>)
    ensures (exists calls :: ShowsCollection(calls, s)) <==> exists a, b, c :: Peak(s, a, b, c)
  {
    hide Answers, WitnessCalls;
    if exists calls :: ShowsCollection(calls, s) {
      var calls :| ShowsCollection(calls, s);
      CrossingHasPeak(calls);
    }
    if exists a, b, c :: Peak(s, a, b, c) {
      var a, b, c :| Peak(s, a, b, c);
      PeakShowsCollection(s, a, b, c);
    }
  }

  lemma CrossingHasPeak(calls: seq<Call>)
    requires Answers(map[], calls, true) != Answers(map[], calls, false)
    ensures exists a, b, c :: Peak(Schedule(calls), a, b, c)
  {
    hide Answers, Answer, After;
    if Uncrossed(map[], calls) {
      GcInvisible(map[], calls);
    }
    var a, c: nat, until :| Crossing(map[], calls, a, c, until);
    var b :| 0 <= b < c && a < b < |calls| && Collects(calls[b], until);
    assert Peak(Schedule(calls), a, b, c);
  }

  // "x" is collected at call b and never otherwise.
  lemma {:induction false} PeakIssued(s: seq<Event>, a: nat, b: nat, c: nat, i: nat)
    requires Peak(s, a, b, c) && i <= c
    ensures var calls := WitnessCalls(s, a, c);
      var some, full := After(map[], calls[..i], true), After(map[], calls[..i], false);
      && ("x" in some ==> some["x"] == Unix(s[a].now + NONCE_TTL)) && (i <= a || b < i ==> "x" !in some)
      && (a < i ==> "x" in full && full["x"] == Unix(s[a].now + NONCE_TTL))
  {
    hide WitnessCalls;
    assert "y"[0] != "x"[0];
    var calls := WitnessCalls(s, a, c);
    if i > 0 {
      PeakIssued(s, a, b, c, i - 1);
      assert calls[..i][..i - 1] == calls[..i - 1];
    } else {
      assert calls[..0] == [];
    }
  }

  lemma PeakShowsCollection(s: seq<Event>, a: nat, b: nat, c: nat)
    requires Peak(s, a, b, c)
    ensures ShowsCollection(WitnessCalls(s, a, c), s)
  {
    hide WitnessCalls, After;
    var calls := WitnessCalls(s, a, c);
    assert Schedule(calls) == s;
    PeakIssued(s, a, b, c, c);
    AnswerAt(map[], calls, c, true);
    AnswerAt(map[], calls, c, false);
    assert !IsSpace("x"[0]) && !Blank("x");
    assert !Answers(map[], calls, true)[c] && Answers(map[], calls, false)[c];
  }

  lemma {:induction false} AnswerAt(issued: map<string, int>, calls: seq<Call>, i: nat, collect: bool)
    requires i < |calls|
    ensures |Answers(issued, calls, collect)| == |calls|
    ensures Answers(issued, calls, collect)[i] == Answer(After(issued, calls[..i], collect), calls[i])
  {
    hide Answer, After;
    var init := calls[..|calls| - 1];
    if i < |init| {
      AnswerAt(issued, init, i, collect);
      assert init[..i] == calls[..i];
    } else {
      AnswerCount(issued, init, collect);
    }
  }

  lemma {:induction false} AnswerCount(issued: map<string, int>, calls: seq<Call>, collect: bool)
    ensures |Answers(issued, calls, collect)| == |calls|
  {
    if calls != [] {
      AnswerCount(issued, calls[..|calls| - 1], collect);
    }
  }
}
