/** The token bucket in front of the STS and the gateway
    (internal/sts/reload.go; internal/gateway/gateway.go holds a copy). Times are
    seconds. `allow` reads its clock before it takes the lock, so the readings
    of successive calls may be out of order. */
module RateLimit {

  datatype Bucket = Bucket(tokens: real, last: real, rate: real, burst: real)

  function Full(rate: real, now: real): Bucket {
    var burst := if rate < 1.0 then 1.0 else rate;
    Bucket(burst, now, rate, burst)
  }

  // The tokens that flow in over a time.
  function Flow(rate: real, seconds: real): real {
    seconds * rate
  }

  function Refilled(b: Bucket, now: real): real {
    var tokens := b.tokens + Flow(b.rate, now - b.last);
    if tokens > b.burst then b.burst else tokens
  }

  predicate Allows(b: Bucket, now: real) {
    Refilled(b, now) >= 1.0
  }

  function Next(b: Bucket, now: real): Bucket {
    b.(last := now, tokens := Refilled(b, now) - if Allows(b, now) then 1.0 else 0.0)
  }

  class TokenBucket {
    var tokens: real
    var last: real
    const rate: real
    const burst: real

    ghost function State(): Bucket
      reads this
    {
      Bucket(tokens, last, rate, burst)
    }

    constructor (rate: real, now: real)
      ensures State() == Full(rate, now)
    {
      var b := rate;
      if b < 1.0 {
        b := 1.0;
      }
      tokens, last, this.rate, burst := b, now, rate, b;
    }

    method Allow(now: real) returns (ok: bool)
      modifies this
      ensures ok <==> Allows(old(State()), now)
      ensures State() == Next(old(State()), now)
    {
      var elapsed := now - last;
      last := now;
      tokens := tokens + Flow(rate, elapsed);
      if tokens > burst {
        tokens := burst;
      }
      if tokens < 1.0 {
        return false;
      }
      tokens := tokens - 1.0;
      return true;
    }
  }

  // newTokenBucket: no limiter for a rate that is not positive.
  method NewTokenBucket(rate: real, now: real) returns (b: TokenBucket?)
    ensures b == null <==> rate <= 0.0
    ensures b != null ==> fresh(b) && b.State() == Full(rate, now)
  {
    if rate <= 0.0 {
      return null;
    }
    b := new TokenBucket(rate, now);
  }

  // A nil bucket allows everything.
  method AllowThrough(b: TokenBucket?, now: real) returns (ok: bool)
    modifies if b == null then {} else {b}
    ensures if b == null then ok
            else (ok <==> Allows(old(b.State()), now)) && b.State() == Next(old(b.State()), now)
  {
    if b == null {
      return true;
    }
    ok := b.Allow(now);
  }

  /******* Runs: any stamps, in any order *******/

  ghost predicate Usable(b: Bucket) {
    b.rate > 0.0 && b.burst >= 1.0 && b.tokens <= b.burst
  }

  function After(b: Bucket, stamps: seq<real>): Bucket {
    if stamps == [] then b else Next(After(b, stamps[..|stamps| - 1]), stamps[|stamps| - 1])
  }

  predicate AllowedAt(b: Bucket, stamps: seq<real>, k: nat)
    requires k < |stamps|
  {
    Allows(After(b, stamps[..k]), stamps[k])
  }

  // How many of the calls i..k-1 were let through.
  function AllowedIn(b: Bucket, stamps: seq<real>, i: nat, k: nat): nat
    requires i <= k <= |stamps|
  {
    if i == k then 0 else AllowedIn(b, stamps, i, k - 1) + if AllowedAt(b, stamps, k - 1) then 1 else 0
  }

  lemma AfterSnoc(b: Bucket, stamps: seq<real>, k: nat)
    requires k < |stamps|
    ensures After(b, stamps[..k + 1]) == Next(After(b, stamps[..k]), stamps[k])
  {
    assert stamps[..k + 1][..k] == stamps[..k];
  }

  lemma NextKeepsUsable(b: Bucket, now: real)
    requires Usable(b)
    ensures var b' := Next(b, now);
      && Usable(b') && b'.rate == b.rate && b'.burst == b.burst && b'.last == now
      && b'.tokens <= b.tokens + Flow(b.rate, now - b.last) - (if Allows(b, now) then 1.0 else 0.0)
      && b'.tokens <= b.burst - (if Allows(b, now) then 1.0 else 0.0)
      && (Allows(b, now) ==> b'.tokens >= 0.0)
  {
    hide Flow;
  }

  lemma {:induction false} AfterUsable(b: Bucket, stamps: seq<real>, k: nat)
    requires Usable(b) && k <= |stamps|
    ensures var a := After(b, stamps[..k]);
      Usable(a) && a.rate == b.rate && a.burst == b.burst && (k > 0 ==> a.last == stamps[k - 1])
  {
    if k == 0 {
      assert stamps[..0] == [];
    } else {
      AfterUsable(b, stamps, k - 1);
      AfterSnoc(b, stamps, k - 1);
      NextKeepsUsable(After(b, stamps[..k - 1]), stamps[k - 1]);
    }
  }

  lemma FlowAdds(rate: real, a: real, b: real, c: real)
    ensures Flow(rate, c - a) == Flow(rate, b - a) + Flow(rate, c - b)
  {
    assert c - a == (b - a) + (c - b);
  }

  lemma FlowGrows(rate: real, seconds: real)
    requires rate > 0.0
    ensures Flow(rate, 0.0) == 0.0
    ensures seconds >= 0.0 ==> Flow(rate, seconds) >= 0.0
    ensures seconds >= 1.0 / rate ==> Flow(rate, seconds) >= 1.0
  {
    if seconds >= 1.0 / rate {
      assert 1.0 / rate * rate == 1.0;
      assert (seconds - 1.0 / rate) * rate >= 0.0;
    }
  }

  // What the calls i..j cost is gone from the bucket after call j.
  lemma {:induction false} Spent(b: Bucket, stamps: seq<real>, i: nat, j: nat)
    requires Usable(b) && i <= j < |stamps|
    ensures After(b, stamps[..j + 1]).tokens
         <= b.burst + Flow(b.rate, stamps[j] - stamps[i]) - AllowedIn(b, stamps, i, j + 1) as real
  {
    hide After, Refilled, Flow;
    AfterUsable(b, stamps, j);
    AfterSnoc(b, stamps, j);
    NextKeepsUsable(After(b, stamps[..j]), stamps[j]);
    if i == j {
      assert AllowedIn(b, stamps, i, i) == 0;
      FlowGrows(b.rate, 0.0);
      assert stamps[j] - stamps[i] == 0.0;
    } else {
      Spent(b, stamps, i, j - 1);
      FlowAdds(b.rate, stamps[i], stamps[j - 1], stamps[j]);
    }
  }

  // The rate bound, whatever the order of the readings: from call i up to an
  // allowed call j at most burst + rate * (stamp_j - stamp_i) are let through.
  lemma RateBound(rate: real, start: real, stamps: seq<real>, i: nat, j: nat)
    requires rate > 0.0 && i <= j < |stamps| && AllowedAt(Full(rate, start), stamps, j)
    ensures AllowedIn(Full(rate, start), stamps, i, j + 1) as real
         <= (if rate > 1.0 then rate else 1.0) + Flow(rate, stamps[j] - stamps[i])
  {
    hide After, Refilled, Flow;
    var b := Full(rate, start);
    Spent(b, stamps, i, j);
    AfterUsable(b, stamps, j);
    AfterSnoc(b, stamps, j);
    NextKeepsUsable(After(b, stamps[..j]), stamps[j]);
    assert After(b, stamps[..j + 1]).tokens >= 0.0;
    assert b.rate == rate;
  }

  ghost predicate NotAbove(stamps: seq<real>, k: nat, start: real, high: real)
    requires k <= |stamps|
  {
    start <= high && forall m | 0 <= m < k :: stamps[m] <= high
  }

  // A reading out of order costs tokens, but never more than the time by
  // which it lags the highest reading.
  lemma {:induction false} DebtBounded(rate: real, start: real, stamps: seq<real>, k: nat, high: real)
    requires rate > 0.0 && k <= |stamps| && NotAbove(stamps, k, start, high)
    ensures var a := After(Full(rate, start), stamps[..k]);
      a.tokens >= -Flow(rate, high - a.last)
  {
    hide After, Flow;
    var b := Full(rate, start);
    if k == 0 {
      assert stamps[..0] == [];
      AfterNothing(b);
      FlowGrows(rate, high - start);
    } else {
      DebtBounded(rate, start, stamps, k - 1, high);
      AfterUsable(b, stamps, k - 1);
      AfterSnoc(b, stamps, k - 1);
      var p := After(b, stamps[..k - 1]);
      FlowAdds(rate, p.last, stamps[k - 1], high);
      FlowGrows(rate, high - stamps[k - 1]);
    }
  }

  lemma AfterNothing(b: Bucket)
    ensures After(b, []) == b
  {
  }

  // A call whose reading is 1/rate past every reading before it is let
  // through, however those were ordered.
  lemma PatientCallAllowed(rate: real, start: real, stamps: seq<real>, k: nat, high: real)
    requires rate > 0.0 && k < |stamps| && NotAbove(stamps, k, start, high) && stamps[k] >= high + 1.0 / rate
    ensures AllowedAt(Full(rate, start), stamps, k)
  {
    hide After, Flow;
    var b := Full(rate, start);
    DebtBounded(rate, start, stamps, k, high);
    AfterUsable(b, stamps, k);
    var p := After(b, stamps[..k]);
    FlowAdds(rate, p.last, high, stamps[k]);
    FlowGrows(rate, stamps[k] - high);
  }

  ghost predicate Ordered(start: real, stamps: seq<real>) {
    && (forall m | 0 <= m < |stamps| :: start <= stamps[m])
    && forall m, n | 0 <= m < n < |stamps| :: stamps[m] <= stamps[n]
  }

  // With ordered readings the bucket stays between empty and full, and a call
  // 1/rate after the previous one is always let through.
  lemma OrderedCalls(rate: real, start: real, stamps: seq<real>, k: nat)
    requires rate > 0.0 && k <= |stamps| && Ordered(start, stamps)
    ensures 0.0 <= After(Full(rate, start), stamps[..k]).tokens <= Full(rate, start).burst
    ensures 0 < k < |stamps| && stamps[k] >= stamps[k - 1] + 1.0 / rate ==> AllowedAt(Full(rate, start), stamps, k)
  {
    hide After, Flow;
    var b := Full(rate, start);
    var high := if k == 0 then start else stamps[k - 1];
    DebtBounded(rate, start, stamps, k, high);
    AfterUsable(b, stamps, k);
    if k == 0 {
      assert stamps[..0] == [];
      AfterNothing(b);
    }
    FlowGrows(rate, 0.0);
    assert high - After(b, stamps[..k]).last == 0.0;
    if 0 < k < |stamps| && stamps[k] >= stamps[k - 1] + 1.0 / rate {
      PatientCallAllowed(rate, start, stamps, k, high);
    }
  }

  /******* Exactly which calls no history can have starved *******/

  ghost predicate Within(stamps: seq<real>, start: real, high: real) {
    forall m | 0 <= m < |stamps| :: start <= stamps[m] <= high
  }

  ghost predicate NeverStarved(rate: real, start: real, high: real, t: real) {
    forall stamps | Within(stamps, start, high) :: Allows(After(Full(rate, start), stamps), t)
  }

  // The part of the burst above its last whole token.
  function Remainder(burst: real): (part: real)
    ensures 0.0 <= part < 1.0
  {
    burst - burst.Floor as real
  }

  // The lowest the bucket can stand at time `high`, whatever calls were made
  // in [start, high]: empty, unless the time is too short to round a
  // fractional burst up to a whole token.
  function Least(rate: real, start: real, high: real): (least: real)
    ensures 0.0 <= least < 1.0
  {
    var part := Remainder(Full(rate, start).burst);
    if part == 0.0 || Flow(rate, high - start) >= 1.0 - part then 0.0 else part
  }

  // The bucket at `high` is the burst and what flowed in since some reading,
  // less whole tokens.
  lemma {:induction false} WholeTokensSpent(rate: real, start: real, stamps: seq<real>, high: real)
    returns (grown: real, spent: nat)
    requires rate > 0.0 && start <= high && Within(stamps, start, high)
    ensures var a := After(Full(rate, start), stamps);
      a.tokens + Flow(rate, high - a.last) == Full(rate, start).burst + grown - spent as real
    ensures 0.0 <= grown <= Flow(rate, high - start)
  {
    hide After, Flow;
    var b := Full(rate, start);
    if stamps == [] {
      AfterNothing(b);
      FlowGrows(rate, high - start);
      return Flow(rate, high - start), 0;
    }
    var before, r := stamps[..|stamps| - 1], stamps[|stamps| - 1];
    grown, spent := WholeTokensSpent(rate, start, before, high);
    AfterUsable(b, stamps, |stamps| - 1);
    AfterLast(b, stamps);
    var p := After(b, before);
    FlowAdds(rate, p.last, r, high);
    FlowAdds(rate, start, r, high);
    FlowGrows(rate, high - r);
    FlowGrows(rate, r - start);
    if p.tokens + Flow(rate, r - p.last) > p.burst {
      grown, spent := Flow(rate, high - r), 0;
    }
    spent := spent + if Allows(p, r) then 1 else 0;
  }

  lemma AfterLast(b: Bucket, stamps: seq<real>)
    requires stamps != []
    ensures After(b, stamps) == Next(After(b, stamps[..|stamps| - 1]), stamps[|stamps| - 1])
  {
  }

  lemma LeastKept(rate: real, start: real, stamps: seq<real>, high: real)
    requires rate > 0.0 && start <= high && Within(stamps, start, high)
    ensures var a := After(Full(rate, start), stamps);
      a.tokens + Flow(rate, high - a.last) >= Least(rate, start, high)
  {
    hide After, Flow;
    var b := Full(rate, start);
    var grown, spent := WholeTokensSpent(rate, start, stamps, high);
    DebtBounded(rate, start, stamps, |stamps|, high);
    assert stamps[..|stamps|] == stamps;
    if Least(rate, start, high) > 0.0 {
      assert spent as real < (b.burst.Floor + 1) as real;
      assert spent <= b.burst.Floor;
    }
  }

  // n calls at one reading take n tokens.
  function Repeat(t: real, n: nat): (r: seq<real>)
    ensures |r| == n && forall i | 0 <= i < n :: r[i] == t
  {
    if n == 0 then [] else Repeat(t, n - 1) + [t]
  }

  lemma {:induction false} Drains(b: Bucket, t: real, n: nat)
    requires n >= 1 && n as real <= Refilled(b, t)
    ensures After(b, Repeat(t, n)) == b.(last := t, tokens := Refilled(b, t) - n as real)
  {
    hide Flow;
    FlowNothing(b.rate);
    var stamps := Repeat(t, n);
    AfterLast(b, stamps);
    assert stamps[..n - 1] == Repeat(t, n - 1);
    if n == 1 {
      AfterNothing(b);
    } else {
      Drains(b, t, n - 1);
      assert t - t == 0.0;
    }
  }

  lemma FlowNothing(rate: real)
    ensures Flow(rate, 0.0) == 0.0
  {
  }

  lemma FlowOver(rate: real, tokens: real, seconds: real)
    requires rate > 0.0
    ensures Flow(rate, tokens / rate) == tokens
    ensures Flow(rate, seconds) >= tokens <==> seconds >= tokens / rate
  {
    var q := tokens / rate;
    assert q * rate == tokens;
    FlowAdds(rate, 0.0, q, seconds);
    assert seconds - 0.0 == seconds && q - 0.0 == q;
    FlowSign(rate, seconds - q);
  }

  lemma FlowSign(rate: real, seconds: real)
    requires rate > 0.0
    ensures Flow(rate, seconds) >= 0.0 <==> seconds >= 0.0
  {
  }

  // Calls that bring the bucket down to Least at `high`: all whole tokens at
  // one reading, and where there is time a last one at `high`.
  lemma Starve(rate: real, start: real, high: real) returns (stamps: seq<real>)
    requires rate > 0.0 && start <= high
    ensures Within(stamps, start, high)
    ensures After(Full(rate, start), stamps) == Full(rate, start).(last := high, tokens := Least(rate, start, high))
  {
    hide After, Flow;
    var b := Full(rate, start);
    var part, whole := Remainder(b.burst), b.burst.Floor;
    var gap := if part == 0.0 || Least(rate, start, high) > 0.0 then 0.0 else 1.0 - part;
    var s := high - gap / rate;
    FlowOver(rate, gap, high - start);
    FlowNothing(rate);
    FlowGrows(rate, high - start);
    assert high - start >= gap / rate && s >= start && gap / rate >= 0.0 by {
      assert Flow(rate, high - start) >= gap;
      assert Flow(rate, gap / rate) == gap;
      NotNegative(gap, rate);
    }
    FlowGrows(rate, s - start);
    assert Refilled(b, s) == b.burst;
    stamps := Repeat(s, whole);
    Drains(b, s, whole);
    if gap > 0.0 {
      var drained := After(b, stamps);
      assert Flow(rate, high - s) == gap;
      stamps := stamps + [high];
      assert stamps[..whole] == Repeat(s, whole);
      AfterLast(b, stamps);
      assert Refilled(drained, high) == 1.0;
    }
  }

  lemma NotNegative(a: real, b: real)
    requires a >= 0.0 && b > 0.0
    ensures a / b >= 0.0
  {
  }

  // A call with reading t is let through after every history of readings in
  // [start, high] exactly when it waits, past all of them, for what the lowest
  // bucket lacks of one token.
  lemma NeverStarvedIff(rate: real, start: real, high: real, t: real)
    requires rate > 0.0 && start <= high
    ensures NeverStarved(rate, start, high, t) <==> t >= high + (1.0 - Least(rate, start, high)) / rate
  {
    hide After, Flow, Least;
    var b := Full(rate, start);
    var lack := 1.0 - Least(rate, start, high);
    FlowOver(rate, lack, t - high);
    assert t - high >= lack / rate <==> t >= high + lack / rate;
    if t >= high + lack / rate {
      forall stamps | Within(stamps, start, high) ensures Allows(After(b, stamps), t) {
        LeastKept(rate, start, stamps, high);
        AfterUsable(b, stamps, |stamps|);
        assert stamps[..|stamps|] == stamps;
        FlowAdds(rate, After(b, stamps).last, high, t);
      }
    }
    if NeverStarved(rate, start, high, t) {
      var stamps := Starve(rate, start, high);
      assert Allows(After(b, stamps), t);
    }
  }

  // In particular, once 1/rate has passed since the bucket was made, a call
  // must wait a whole 1/rate past the highest reading, and need not wait more.
  lemma PatienceNeededIff(rate: real, start: real, high: real, t: real)
    requires rate > 0.0 && high >= start + 1.0 / rate
    ensures NeverStarved(rate, start, high, t) <==> t >= high + 1.0 / rate
  {
    hide Flow, NeverStarved;
    NotNegative(1.0, rate);
    FlowOver(rate, 1.0, high - start);
    NeverStarvedIff(rate, start, high, t);
  }

  // A reading taken before another call's but used after it: the bucket goes
  // ten tokens below zero, and a call a full 1/rate later is refused.
  lemma StaleReadingStarves()
    ensures After(Full(1.0, 0.0), [10.0, 0.0]).tokens == -10.0
    ensures !AllowedAt(Full(1.0, 0.0), [10.0, 0.0, 1.0], 2)
  {
    var b := Full(1.0, 0.0);
    AfterNothing(b);
    assert [10.0][..0] == [] && [10.0, 0.0][..1] == [10.0] && [10.0, 0.0, 1.0][..2] == [10.0, 0.0];
    assert After(b, [10.0]) == b.(last := 10.0, tokens := 0.0);
    assert After(b, [10.0, 0.0]) == b.(last := 0.0, tokens := -10.0);
  }

  // A new bucket lets through at once as many calls as fit max(1, rate), and
  // no more.
  lemma BurstIff(rate: real, start: real, k: nat)
    requires rate > 0.0
    ensures AllowedAt(Full(rate, start), Repeat(start, k + 1), k)
       <==> (k + 1) as real <= if rate > 1.0 then rate else 1.0
  {
    hide Flow;
    var b := Full(rate, start);
    var stamps := Repeat(start, k + 1);
    FlowNothing(rate);
    assert start - start == 0.0;
    assert stamps[..k] == Repeat(start, k);
    if k == 0 {
      AfterNothing(b);
    } else if k as real <= b.burst {
      Drains(b, start, k);
    } else {
      Drained(b, start, k);
    }
  }

  // Past that the bucket stays below one token.
  lemma {:induction false} Drained(b: Bucket, t: real, n: nat)
    requires b.last == t && 0.0 <= b.tokens <= b.burst && n >= 1 && n as real > b.tokens
    ensures var a := After(b, Repeat(t, n));
      a.tokens < 1.0 && a == b.(tokens := a.tokens) && a.tokens <= a.burst
    decreases n
  {
    hide Flow, After, Repeat;
    FlowNothing(b.rate);
    assert t - t == 0.0;
    var stamps := Repeat(t, n);
    AfterLast(b, stamps);
    assert stamps[..n - 1] == Repeat(t, n - 1);
    if n == 1 {
      AfterNothing(b);
      assert stamps[..0] == [];
    } else if (n - 1) as real <= b.tokens {
      Drains(b, t, n - 1);
    } else {
      Drained(b, t, n - 1);
    }
  }
}
