/** Claims, the two encodings of the actor chain, and the acceptance window
    (internal/token/claims.go). */
module Claims {
  import opened Wrappers
  import opened Strings

  // An RFC 8693 act object; `act` is the prior actor.
  datatype Actor = Actor(iss: string, sub: string, act: Option<Actor>)

  datatype Claims = Claims(
    iss: string, sub: string, aud: seq<string>,
    exp: int, nbf: int, iat: int,
    jti: string, txn: string,
    act: Option<Actor>, actChain: seq<Actor>,
    scope: string, purp: string, cnf: Option<string>)

  function ConfirmJKT(c: Claims): string {
    if c.cnf.None? then "" else c.cnf.value
  }

  // Audience.Single
  function SingleAudience(aud: seq<string>): Option<string> {
    if |aud| == 1 && aud[0] != "" then Some(aud[0]) else None
  }

  /******* The actor chain *******/

  function Subs(chain: seq<Actor>): seq<string> {
    if chain == [] then []
    else if chain[0].sub == "" then Subs(chain[1..])
    else [chain[0].sub] + Subs(chain[1..])
  }

  function ActorSubs(c: Claims): seq<string> {
    Subs(c.actChain) + if c.act.Some? && c.act.value.sub != "" then [c.act.value.sub] else []
  }

  function Depth(c: Claims): nat {
    |ActorSubs(c)|
  }

  lemma {:induction false} SubsAppend(a: seq<Actor>, b: seq<Actor>)
    ensures Subs(a + b) == Subs(a) + Subs(b)
  {
    if a == [] {
      assert a + b == b;
    } else {
      SubsAppend(a[1..], b);
      assert (a + b)[1..] == a[1..] + b;
    }
  }

  method ActorSubsOf(c: Claims) returns (out: seq<string>)
    ensures out == ActorSubs(c)
  {
    out := [];
    for i := 0 to |c.actChain|
      invariant out == Subs(c.actChain[..i])
    {
      var a := c.actChain[i];
      assert c.actChain[..i + 1] == c.actChain[..i] + [a];
      SubsAppend(c.actChain[..i], [a]);
      if a.sub != "" {
        out := out + [a.sub];
      }
    }
    assert c.actChain[..|c.actChain|] == c.actChain;
    if c.act.Some? && c.act.value.sub != "" {
      out := out + [c.act.value.sub];
    }
  }

  function NestedAct(iss: string, current: string, incoming: Option<Actor>): Actor {
    Actor(iss, current, incoming)
  }

  function Flat(a: Actor): Actor {
    a.(act := None)
  }

  function AppendChain(incoming: Claims): seq<Actor> {
    incoming.actChain +
    if incoming.act.Some? && incoming.act.value.sub != "" then [Flat(incoming.act.value)] else []
  }

  // The actors met walking an act object inwards, newest first.
  function Inward(a: Option<Actor>): seq<Actor>
    decreases a
  {
    if a.None? then [] else [Flat(a.value)] + Inward(a.value.act)
  }

  function Reverse<T>(xs: seq<T>): seq<T> {
    if xs == [] then [] else Reverse(xs[1..]) + [xs[0]]
  }

  lemma {:induction false} ReverseSnoc<T>(xs: seq<T>, x: T)
    ensures Reverse(xs + [x]) == [x] + Reverse(xs)
  {
    if xs == [] {
      assert [] + [x] == [x];
    } else {
      ReverseSnoc(xs[1..], x);
      assert (xs + [x])[1..] == xs[1..] + [x];
    }
  }

  // The whole chain in hop order, as the flat claim records it.
  function HopActors(c: Claims): seq<Actor> {
    c.actChain + if c.act.Some? then [Flat(c.act.value)] else []
  }

  // The nested act read inwards is the flat chain reversed, and every hop is
  // named. Holds trivially of a user token, which carries neither.
  ghost predicate Mirrored(c: Claims) {
    && Inward(c.act) == Reverse(HopActors(c))
    && (c.act.None? ==> c.actChain == [])
    && forall a | a in HopActors(c) :: a.sub != ""
  }

  // The chain claims of the next hop.
  function Delegate(incoming: Claims, iss: string, agent: string, to: Claims): Claims {
    to.(act := Some(NestedAct(iss, agent, incoming.act)), actChain := AppendChain(incoming))
  }

  lemma {:induction false} SubsOfNamed(chain: seq<Actor>)
    requires forall a | a in chain :: a.sub != ""
    ensures |Subs(chain)| == |chain|
    ensures forall i | 0 <= i < |chain| :: Subs(chain)[i] == chain[i].sub
  {
    if chain != [] {
      SubsOfNamed(chain[1..]);
    }
  }

  // One hop keeps the two encodings mirrored and adds the agent at the end.
  lemma DelegateMirrors(incoming: Claims, iss: string, agent: string, to: Claims)
    requires Mirrored(incoming) && agent != ""
    ensures var c := Delegate(incoming, iss, agent, to);
      && Mirrored(c)
      && ActorSubs(c) == ActorSubs(incoming) + [agent]
      && Depth(c) == |c.actChain| + 1
  {
    var c := Delegate(incoming, iss, agent, to);
    var me := Actor(iss, agent, None);
    assert incoming.act.Some? ==> Flat(incoming.act.value) in HopActors(incoming);
    assert AppendChain(incoming) == HopActors(incoming);
    assert HopActors(c) == HopActors(incoming) + [me];
    ReverseSnoc(HopActors(incoming), me);
    assert Inward(c.act) == [me] + Inward(incoming.act);
    SubsAppend(incoming.actChain, if incoming.act.Some? then [Flat(incoming.act.value)] else []);
    SubsOfNamed(AppendChain(incoming));
  }

  lemma {:induction false} ReverseAt<T>(xs: seq<T>, k: nat)
    requires k < |xs|
    ensures |Reverse(xs)| == |xs| && Reverse(xs)[k] == xs[|xs| - 1 - k]
  {
    if |xs| > 1 {
      ReverseAt(xs[1..], if k < |xs| - 1 then k else 0);
    }
  }

  // Reading a mirrored token: hop k of ActorSubs is the actor met after
  // walking inwards past the later ones.
  lemma MirroredHops(c: Claims, k: nat)
    requires Mirrored(c) && k < Depth(c)
    ensures Depth(c) == |Inward(c.act)|
    ensures ActorSubs(c)[k] == Inward(c.act)[Depth(c) - 1 - k].sub
  {
    SubsOfNamed(c.actChain);
    SubsOfNamed(HopActors(c));
    SubsAppend(c.actChain, if c.act.Some? then [Flat(c.act.value)] else []);
    assert c.act.Some? ==> Flat(c.act.value) in HopActors(c);
    assert ActorSubs(c) == Subs(HopActors(c));
    ReverseAt(HopActors(c), Depth(c) - 1 - k);
  }

  /******* Time *******/

  const SECOND: int := 1_000_000_000
  const CLOCK_SKEW: int := 30
  const DEFAULT_TTL: int := 120 * SECOND

  // time.Time{}: midnight, 1 January of year 1.
  const ZERO_TIME: int := -62135596800 * SECOND

  // time.Time is a number of nanoseconds since the Unix epoch; Unix() floors.
  function Unix(now: int): int {
    now / SECOND
  }

  function ReplayUntil(exp: int): int {
    if exp <= 0 then 0 else exp + CLOCK_SKEW
  }

  // The lifetime a configured ttl stands for.
  function MintTtl(ttl: int): int {
    if ttl <= 0 then DEFAULT_TTL else ttl
  }

  function KeyRetirementWait(ttl: int): int {
    MintTtl(ttl) + CLOCK_SKEW * SECOND
  }

  datatype TimeCheck = Current | Expired | NotYetValid

  // skew <= 0 selects the default; every caller passes 0.
  function ValidateTime(c: Claims, now: int, skewSeconds: int): TimeCheck {
    var skew := if skewSeconds <= 0 then CLOCK_SKEW else skewSeconds;
    if c.exp == 0 || Unix(now) > c.exp + skew then Expired
    else if c.nbf > 0 && Unix(now) + skew < c.nbf then NotYetValid
    else Current
  }

  // At time `now` the cache keeps a token's entry just while the validator
  // may still accept the token by its expiry.
  ghost predicate WindowsAgree(now: int) {
    forall c: Claims :: ValidateTime(c, now, 0) != Expired <==> Unix(now) <= ReplayUntil(c.exp)
  }

  // The two windows agree, for every token, exactly when the clock is past the
  // first 30 seconds of 1970.
  lemma ReplayWindowMatches(now: int)
    ensures WindowsAgree(now) <==> Unix(now) >= CLOCK_SKEW
  {
    if Unix(now) < CLOCK_SKEW {
      var exp := if Unix(now) > 0 then -1 else 0;
      var c := Claims("", "", [], exp, 0, 0, "", "", None, [], "", "", None);
      assert !(ValidateTime(c, now, 0) != Expired <==> Unix(now) <= ReplayUntil(c.exp));
    }
  }
}
