/** The rotatable signing ring (internal/token/keyring.go) and what rotation
    does to tokens already minted. */
module Keyrings {
  import opened Wrappers
  import opened Claims
  import opened Jws

  // An Ed25519 signer; `x` identifies its key pair.
  datatype Signer = Signer(kid: string, x: string, sub: string)

  function PublicJwk(s: Signer): Jwk {
    Jwk(s.kid, "OKP", "sig", "EdDSA", "Ed25519", s.x, "", "", "", s.sub)
  }

  // `usable` says the private material decodes to a key pair.
  datatype KeyFile = KeyFile(kid: string, usable: bool, x: string, sub: string)

  datatype Ring = Ring(active: string, byKid: map<string, Signer>)

  const NO_RING := Ring("", map[])

  ghost predicate ValidRing(r: Ring) {
    && r.active in r.byKid && r.active != ""
    && forall kid | kid in r.byKid :: kid != "" && r.byKid[kid].kid == kid
  }

  /******* Stability of published material *******/

  // Overlapping kids keep their key.
  ghost predicate StableMaterial(prev: Ring, next: Ring) {
    forall kid | kid in prev.byKid && kid in next.byKid :: PublicJwk(prev.byKid[kid]) == PublicJwk(next.byKid[kid])
  }

  ghost predicate AllowActivation(prev: Ring, next: Ring) {
    && next.active != ""
    && (prev.active != "" ==>
          && (next.active == prev.active || next.active in prev.byKid)
          && StableMaterial(prev, next))
  }

  // A JWKS document for the ring: the active key first, then the others in
  // whatever order the map is ranged over.
  ghost predicate IsJwks(r: Ring, keys: seq<Jwk>) {
    && keys != [] && keys[0].kid == r.active
    && (forall i | 0 <= i < |keys| :: keys[i].kid in r.byKid && keys[i] == PublicJwk(r.byKid[keys[i].kid]))
    && (forall i, j | 0 <= i < j < |keys| :: keys[i].kid != keys[j].kid)
    && (forall kid | kid in r.byKid :: exists i :: 0 <= i < |keys| && keys[i].kid == kid)
  }

  method JwksFrom(r: Ring) returns (keys: seq<Jwk>)
    requires ValidRing(r)
    ensures IsJwks(r, keys)
  {
    keys := [PublicJwk(r.byKid[r.active])];
    var rest := r.byKid.Keys - {r.active};
    while rest != {}
      invariant rest <= r.byKid.Keys && r.active !in rest
      invariant keys != [] && keys[0].kid == r.active
      invariant forall i | 0 <= i < |keys| :: keys[i].kid in r.byKid && keys[i] == PublicJwk(r.byKid[keys[i].kid])
      invariant forall i, j | 0 <= i < j < |keys| :: keys[i].kid != keys[j].kid
      invariant forall i | 0 <= i < |keys| :: keys[i].kid !in rest
      invariant forall kid | kid in r.byKid && kid !in rest :: exists i :: 0 <= i < |keys| && keys[i].kid == kid
    {
      var kid :| kid in rest;
      ghost var before, was := keys, rest;
      keys := keys + [PublicJwk(r.byKid[kid])];
      rest := rest - {kid};
      forall k | k in r.byKid && k !in rest ensures exists i :: 0 <= i < |keys| && keys[i].kid == k {
        if k == kid {
          assert keys[|before|].kid == k;
        } else {
          assert k !in was;
          var i :| 0 <= i < |before| && before[i].kid == k;
          assert keys[i].kid == k;
        }
      }
    }
  }

  // The first loop of publicMaterialStable.
  method IndexByKid(keys: seq<Jwk>, ghost r: Ring) returns (byKid: map<string, Jwk>)
    requires IsJwks(r, keys)
    ensures byKid.Keys == r.byKid.Keys
    ensures forall kid | kid in byKid :: byKid[kid] == PublicJwk(r.byKid[kid])
  {
    byKid := map[];
    for i := 0 to |keys|
      invariant forall k | 0 <= k < i :: keys[k].kid in byKid
      invariant forall kid | kid in byKid :: kid in r.byKid && byKid[kid] == PublicJwk(r.byKid[kid])
    {
      byKid := byKid[keys[i].kid := keys[i]];
    }
    forall kid | kid in r.byKid ensures kid in byKid {
      var i :| 0 <= i < |keys| && keys[i].kid == kid;
    }
  }

  // publicMaterialStable on two JWKS documents.
  method PublicMaterialStable(prev: seq<Jwk>, next: seq<Jwk>, ghost p: Ring, ghost n: Ring) returns (ok: bool)
    requires IsJwks(p, prev) && IsJwks(n, next)
    ensures ok <==> StableMaterial(p, n)
  {
    var byNext := IndexByKid(next, n);
    for i := 0 to |prev|
      invariant forall k | 0 <= k < i :: prev[k].kid in n.byKid ==> prev[k] == PublicJwk(n.byKid[prev[k].kid])
    {
      var j := prev[i];
      if j.kid in byNext && j != byNext[j.kid] {
        return false;
      }
    }
    forall kid | kid in p.byKid && kid in n.byKid ensures PublicJwk(p.byKid[kid]) == PublicJwk(n.byKid[kid]) {
      var i :| 0 <= i < |prev| && prev[i].kid == kid;
    }
    return true;
  }

  /******* Keyring.Replace *******/

  function SignersOf(keys: seq<KeyFile>): map<string, Signer> {
    if keys == [] then map[]
    else
      var f := keys[|keys| - 1];
      SignersOf(keys[..|keys| - 1])[f.kid := Signer(f.kid, f.x, f.sub)]
  }

  // Every key is usable and its kid is new.
  predicate DistinctKeys(keys: seq<KeyFile>) {
    keys == [] ||
    var init, f := keys[..|keys| - 1], keys[|keys| - 1];
    DistinctKeys(init) && f.kid != "" && f.kid !in SignersOf(init) && f.usable
  }

  // A signing file that decodes to a ring.
  predicate Loadable(active: string, keys: seq<KeyFile>) {
    active != "" && DistinctKeys(keys) && active in SignersOf(keys)
  }

  lemma {:induction false} DistinctKeysMeans(keys: seq<KeyFile>)
    requires DistinctKeys(keys)
    ensures forall i, j | 0 <= i < j < |keys| :: keys[i].kid != keys[j].kid
    ensures forall i | 0 <= i < |keys| :: keys[i].kid in SignersOf(keys)
              && SignersOf(keys)[keys[i].kid] == Signer(keys[i].kid, keys[i].x, keys[i].sub)
    ensures forall kid | kid in SignersOf(keys) :: kid != "" && SignersOf(keys)[kid].kid == kid
  {
    if keys != [] {
      var init := keys[..|keys| - 1];
      DistinctKeysMeans(init);
      assert forall i | 0 <= i < |init| :: init[i] == keys[i];
    }
  }

  lemma {:induction false} NotDistinct(keys: seq<KeyFile>, i: nat)
    requires i <= |keys| && !DistinctKeys(keys[..i])
    ensures !DistinctKeys(keys)
    decreases |keys| - i
  {
    if i < |keys| {
      assert keys[..i + 1][..i] == keys[..i];
      NotDistinct(keys, i + 1);
    } else {
      assert keys[..i] == keys;
    }
  }

  // A signing file loads when no kid is empty or used twice, every key is
  // usable and the active kid is one of them.
  lemma LoadableIff(active: string, keys: seq<KeyFile>)
    ensures Loadable(active, keys) <==>
      && (forall i | 0 <= i < |keys| :: keys[i].kid != "" && keys[i].usable)
      && (forall i, j | 0 <= i < j < |keys| :: keys[i].kid != keys[j].kid)
      && exists i :: 0 <= i < |keys| && keys[i].kid == active
  {
    DistinctIff(keys);
    KidsOf(keys);
  }

  lemma {:induction false} KidsOf(keys: seq<KeyFile>)
    ensures forall kid :: kid in SignersOf(keys) <==> exists i :: 0 <= i < |keys| && keys[i].kid == kid
  {
    if keys != [] {
      var init, n := keys[..|keys| - 1], |keys| - 1;
      KidsOf(init);
      forall kid ensures kid in SignersOf(keys) <==> exists i :: 0 <= i < |keys| && keys[i].kid == kid {
        if kid in SignersOf(init) {
          var i :| 0 <= i < |init| && init[i].kid == kid;
          assert keys[i].kid == kid;
        }
        if exists i :: 0 <= i < |keys| && keys[i].kid == kid {
          var i :| 0 <= i < |keys| && keys[i].kid == kid;
          assert i < n ==> init[i].kid == kid;
        }
      }
    }
  }

  lemma {:induction false} DistinctIff(keys: seq<KeyFile>)
    ensures DistinctKeys(keys) <==>
      && (forall i | 0 <= i < |keys| :: keys[i].kid != "" && keys[i].usable)
      && (forall i, j | 0 <= i < j < |keys| :: keys[i].kid != keys[j].kid)
  {
    if keys != [] {
      var init := keys[..|keys| - 1];
      DistinctIff(init);
      KidsOf(init);
      assert forall i | 0 <= i < |init| :: keys[i] == init[i];
    }
  }

  // A first ring may be any; after that the new active key has to be published
  // already and no kid may change its key.
  lemma AllowedIff(prev: Ring, next: Ring)
    requires ValidRing(next) && (prev == NO_RING || ValidRing(prev))
    ensures AllowActivation(prev, next) <==>
      || prev == NO_RING
      || (&& next.active in prev.byKid
          && forall kid | kid in prev.byKid && kid in next.byKid ::
               prev.byKid[kid].x == next.byKid[kid].x && prev.byKid[kid].sub == next.byKid[kid].sub)
  {
  }
  class Keyring {
    var active: string
    var byKid: map<string, Signer>

    ghost function Contents(): Ring
      reads this
    {
      Ring(active, byKid)
    }

    constructor ()
      ensures Contents() == NO_RING
    {
      active, byKid := "", map[];
    }

    // Swap the whole ring, or leave it as it was. The bootstrap call, on an
    // empty ring, may activate any kid.
    method Replace(newActive: string, keys: seq<KeyFile>) returns (ok: bool)
      requires Contents() == NO_RING || ValidRing(Contents())
      modifies this
      ensures var next := Ring(newActive, SignersOf(keys));
        && (ok <==> Loadable(newActive, keys) && AllowActivation(old(Contents()), next))
        && Contents() == if ok then next else old(Contents())
    {
      if |keys| == 0 || newActive == "" {
        return false;
      }
      var next: map<string, Signer> := map[];
      for i := 0 to |keys|
        invariant Contents() == old(Contents())
        invariant next == SignersOf(keys[..i]) && DistinctKeys(keys[..i])
      {
        var f := keys[i];
        assert keys[..i + 1][..i] == keys[..i];
        if f.kid == "" || f.kid in next || !f.usable {
          NotDistinct(keys, i + 1);
          return false;
        }
        next := next[f.kid := Signer(f.kid, f.x, f.sub)];
      }
      assert keys[..|keys|] == keys;
      if newActive !in next {
        return false;
      }
      DistinctKeysMeans(keys);
      if byKid != map[] {
        ghost var prev, cand := Contents(), Ring(newActive, next);
        var was := JwksFrom(Ring(active, byKid));
        var now := JwksFrom(Ring(newActive, next));
        var stable := PublicMaterialStable(was, now, prev, cand);
        if !stable || (newActive != active && newActive !in byKid) {
          return false;
        }
      }
      active, byKid := newActive, next;
      return true;
    }
  }

  method MayActivate(prev: Ring, next: Ring) returns (ok: bool)
    requires ValidRing(next) && (prev == NO_RING || ValidRing(prev))
    ensures ok <==> AllowActivation(prev, next)
  {
    if prev.active == "" {
      return true;
    }
    if next.active != prev.active && next.active !in prev.byKid {
      return false;
    }
    var was := JwksFrom(prev);
    var now := JwksFrom(next);
    ok := PublicMaterialStable(was, now, prev, next);
  }

  /******* Verifying under a ring *******/

  // What the ring mints.
  function Mint(r: Ring, claims: Claims): Token
    requires r.active in r.byKid
  {
    Signed("EdDSA", r.active, Ed25519(r.byKid[r.active].x), claims)
  }

  lemma {:induction false} MatchingOne(keys: seq<Jwk>, kid: string, alg: string, i: nat)
    requires i < |keys| && Matches(keys[i], kid, alg)
    requires forall j | 0 <= j < |keys| && j != i :: !Matches(keys[j], kid, alg)
    ensures Matching(keys, kid, alg) == [keys[i]]
  {
    var last := |keys| - 1;
    if i == last {
      MatchingNone(keys[..last], kid, alg);
    } else {
      MatchingOne(keys[..last], kid, alg, i);
    }
  }

  lemma {:induction false} MatchingNone(keys: seq<Jwk>, kid: string, alg: string)
    requires forall j | 0 <= j < |keys| :: !Matches(keys[j], kid, alg)
    ensures Matching(keys, kid, alg) == []
  {
    if keys != [] {
      MatchingNone(keys[..|keys| - 1], kid, alg);
    }
  }

  // What a ring accepts: the named key, or its only key if none is named.
  predicate RingAccepts(r: Ring, t: Token) {
    && t.Signed? && t.alg == "EdDSA"
    && if t.kid != "" then t.kid in r.byKid && Ed25519(r.byKid[t.kid].x) == t.key
       else r.active in r.byKid && r.byKid.Keys == {r.active} && Ed25519(r.byKid[r.active].x) == t.key
  }

  lemma {:induction false} MatchingAll(keys: seq<Jwk>, alg: string)
    requires forall j | 0 <= j < |keys| :: Matches(keys[j], "", alg)
    ensures Matching(keys, "", alg) == keys
  {
    if keys != [] {
      MatchingAll(keys[..|keys| - 1], alg);
    }
  }

  lemma SelectsNamed(r: Ring, keys: seq<Jwk>, kid: string)
    requires ValidRing(r) && IsJwks(r, keys) && kid != ""
    ensures SelectedKey(keys, kid, "EdDSA")
         == if kid in r.byKid then Ok(PublicJwk(r.byKid[kid])) else Err(UnknownKey)
  {
    if kid in r.byKid {
      var i :| 0 <= i < |keys| && keys[i].kid == kid;
      MatchingOne(keys, kid, "EdDSA", i);
    } else {
      MatchingNone(keys, kid, "EdDSA");
    }
  }

  lemma ListedOnce(r: Ring, keys: seq<Jwk>)
    requires ValidRing(r) && IsJwks(r, keys)
    ensures |keys| == 1 <==> r.byKid.Keys == {r.active}
  {
    if |keys| > 1 {
      assert keys[1].kid in r.byKid.Keys && keys[1].kid != r.active;
    } else {
      forall kid | kid in r.byKid.Keys ensures kid == r.active {
        var i :| 0 <= i < |keys| && keys[i].kid == kid;
      }
    }
  }

  lemma JwksMatches(r: Ring, keys: seq<Jwk>)
    requires ValidRing(r) && IsJwks(r, keys)
    ensures forall i | 0 <= i < |keys| :: Matches(keys[i], "", "EdDSA")
    ensures keys != [] && keys[0] == PublicJwk(r.byKid[r.active])
  {
  }

  lemma SelectsOnly(r: Ring, keys: seq<Jwk>)
    requires ValidRing(r) && IsJwks(r, keys)
    ensures SelectedKey(keys, "", "EdDSA")
         == if r.byKid.Keys == {r.active} then Ok(PublicJwk(r.byKid[r.active])) else Err(UnknownKey)
  {
    hide IsJwks, Matching, Matches, PublicJwk;
    JwksMatches(r, keys);
    MatchingAll(keys, "EdDSA");
    ListedOnce(r, keys);
  }

  lemma OtherAlgFails(r: Ring, keys: seq<Jwk>, t: Token)
    requires ValidRing(r) && IsJwks(r, keys) && t.Signed? && t.alg != "EdDSA"
    ensures Verify(t, keys).Err?
  {
    MatchingNone(keys, t.kid, t.alg);
  }

  // Verification does not depend on the order in which the JWKS lists the ring.
  lemma RingAcceptsIff(r: Ring, keys: seq<Jwk>, t: Token)
    requires ValidRing(r) && IsJwks(r, keys)
    ensures Verify(t, keys).Ok? <==> RingAccepts(r, t)
    ensures Verify(t, keys).Ok? ==> Verify(t, keys).value == t.claims
  {
    hide SelectedKey, IsJwks;
    if t.Signed? && t.alg != "EdDSA" {
      OtherAlgFails(r, keys, t);
    } else if t.Signed? {
      assert !IsNone("EdDSA");
      if t.kid != "" {
        SelectsNamed(r, keys, t.kid);
      } else {
        SelectsOnly(r, keys);
      }
    }
  }

  /******* Rotation *******/

  // A run of accepted installs, oldest first.
  ghost predicate IsRotation(rings: seq<Ring>) {
    && rings != []
    && (forall i | 0 <= i < |rings| :: ValidRing(rings[i]))
    && forall i | 0 <= i < |rings| - 1 :: AllowActivation(rings[i], rings[i + 1])
  }

  ghost predicate Published(rings: seq<Ring>, kid: string, from: nat, to: nat) {
    to < |rings| && forall i | from <= i <= to :: kid in rings[i].byKid
  }

  // AI13: what the current ring mints verifies under its own JWKS and under
  // the one published just before it.
  lemma MintedVerifiesNowAndBefore(rings: seq<Ring>, k: nat, claims: Claims, now: seq<Jwk>, before: seq<Jwk>)
    requires IsRotation(rings) && k < |rings| && IsJwks(rings[k], now)
    requires k > 0 ==> IsJwks(rings[k - 1], before)
    ensures Verify(Mint(rings[k], claims), now) == Ok(claims)
    ensures k > 0 ==> Verify(Mint(rings[k], claims), before) == Ok(claims)
  {
    var t := Mint(rings[k], claims);
    RingAcceptsIff(rings[k], now, t);
    if k > 0 {
      assert AllowActivation(rings[k - 1], rings[k - 1 + 1]);
      RingAcceptsIff(rings[k - 1], before, t);
    }
  }

  lemma {:induction false} MaterialKept(rings: seq<Ring>, kid: string, from: nat, to: nat)
    requires IsRotation(rings) && from <= to && Published(rings, kid, from, to)
    ensures rings[to].byKid[kid].x == rings[from].byKid[kid].x
  {
    if from < to {
      MaterialKept(rings, kid, from, to - 1);
      assert AllowActivation(rings[to - 1], rings[to - 1 + 1]);
      assert PublicJwk(rings[to - 1].byKid[kid]) == PublicJwk(rings[to].byKid[kid]);
    }
  }

  // ... and under every later one for as long as its kid stays published.
  lemma MintedVerifiesWhilePublished(rings: seq<Ring>, k: nat, m: nat, claims: Claims, keys: seq<Jwk>)
    requires IsRotation(rings) && k <= m < |rings| && Published(rings, rings[k].active, k, m) && IsJwks(rings[m], keys)
    ensures Verify(Mint(rings[k], claims), keys) == Ok(claims)
  {
    MaterialKept(rings, rings[k].active, k, m);
    RingAcceptsIff(rings[m], keys, Mint(rings[k], claims));
  }

  // Stability is checked between consecutive rings only, so what becomes of a
  // token depends on whether its kid was ever away. `shown` says at which
  // installs the kid is published.
  ghost predicate Shows(rings: seq<Ring>, kid: string, shown: seq<bool>) {
    |rings| == |shown| && forall i | 0 <= i < |rings| :: kid in rings[i].byKid <==> shown[i]
  }

  // A run of accepted installs with this presence in which the last ring
  // refuses a token the first one signed with the kid.
  ghost predicate Invalidates(rings: seq<Ring>, kid: string, shown: seq<bool>, claims: Claims) {
    && IsRotation(rings) && Shows(rings, kid, shown)
    && rings[0].active == kid && kid in rings[0].byKid
    && !RingAccepts(rings[|rings| - 1], Mint(rings[0], claims))
  }

  ghost predicate CanInvalidate(kid: string, shown: seq<bool>, claims: Claims) {
    exists rings :: Invalidates(rings, kid, shown, claims)
  }

  // A kid published first and last can come to carry another key if and only
  // if it was away somewhere between.
  lemma ReusedKidInvalidatesIff(kid: string, shown: seq<bool>, claims: Claims)
    requires kid != "" && shown != [] && shown[0] && shown[|shown| - 1]
    ensures CanInvalidate(kid, shown, claims) <==> false in shown
  {
    if CanInvalidate(kid, shown, claims) && false !in shown {
      var rings :| Invalidates(rings, kid, shown, claims);
      assert forall i | 0 <= i < |shown| :: shown[i] in shown;
      MaterialKept(rings, kid, 0, |rings| - 1);
      assert false;
    }
    if false in shown {
      var gap :| 0 <= gap < |shown| && shown[gap] == false;
      ReuseIsRotation(kid, "1", "2", shown, gap);
      assert "1"[0] != "2"[0];
      assert Invalidates(Reuse(kid, "1", "2", shown, gap), kid, shown, claims);
    }
  }

  // The witness: an anchor key stays published and takes over signing; the
  // kid has key x1 before the gap and x2 after it.
  function ReuseRing(kid: string, x: string, shown: bool, signs: bool): Ring {
    var anchor := kid + "'";
    var keys := map[anchor := Signer(anchor, "", "")];
    Ring(if signs then kid else anchor, if shown then keys[kid := Signer(kid, x, "")] else keys)
  }

  function Reuse(kid: string, x1: string, x2: string, shown: seq<bool>, gap: nat): (rings: seq<Ring>)
    ensures |rings| == |shown|
  {
    seq(|shown|, i requires 0 <= i < |shown| => ReuseRing(kid, if i < gap then x1 else x2, shown[i], i == 0))
  }

  lemma ReuseStep(kid: string, xa: string, xb: string, shownA: bool, shownB: bool, signs: bool)
    requires kid != "" && (signs ==> shownA) && (shownA && shownB ==> xa == xb)
    ensures ValidRing(ReuseRing(kid, xa, shownA, signs)) && ValidRing(ReuseRing(kid, xb, shownB, false))
    ensures AllowActivation(ReuseRing(kid, xa, shownA, signs), ReuseRing(kid, xb, shownB, false))
  {
    assert |kid + "'"| == |kid| + 1;
  }

  lemma ReuseShows(kid: string, x: string, shown: bool, signs: bool)
    ensures kid in ReuseRing(kid, x, shown, signs).byKid <==> shown
  {
    assert |kid + "'"| == |kid| + 1;
  }

  lemma ReuseIsRotation(kid: string, x1: string, x2: string, shown: seq<bool>, gap: nat)
    requires kid != "" && gap < |shown| && shown[0] && !shown[gap]
    ensures IsRotation(Reuse(kid, x1, x2, shown, gap)) && Shows(Reuse(kid, x1, x2, shown, gap), kid, shown)
  {
    hide ValidRing, AllowActivation, ReuseRing;
    var rings := Reuse(kid, x1, x2, shown, gap);
    forall i | 0 <= i < |rings| ensures kid in rings[i].byKid <==> shown[i] {
      ReuseShows(kid, if i < gap then x1 else x2, shown[i], i == 0);
    }
    forall i | 0 <= i < |rings| - 1 ensures AllowActivation(rings[i], rings[i + 1]) {
      ReuseStep(kid, if i < gap then x1 else x2, if i + 1 < gap then x1 else x2, shown[i], shown[i + 1], i == 0);
    }
    forall i | 0 <= i < |rings| ensures ValidRing(rings[i]) {
      ReuseStep(kid, if i < gap then x1 else x2, "", shown[i], false, i == 0);
    }
  }

  // Away once is enough: signed at the first of three installs, refused under
  // any listing of the third.
  lemma ReusedKidInvalidates(kid: string, x1: string, x2: string, claims: Claims, keys: seq<Jwk>)
    requires kid != "" && x1 != x2 && IsJwks(Reuse(kid, x1, x2, [true, false, true], 1)[2], keys)
    ensures IsRotation(Reuse(kid, x1, x2, [true, false, true], 1))
    ensures Verify(Mint(Reuse(kid, x1, x2, [true, false, true], 1)[0], claims), keys).Err?
  {
    hide IsJwks, Verify;
    var rings := Reuse(kid, x1, x2, [true, false, true], 1);
    ReuseIsRotation(kid, x1, x2, [true, false, true], 1);
    RingAcceptsIff(rings[2], keys, Mint(rings[0], claims));
  }

  /******* Retirement *******/

  // The claims of a token minted at `at` under a configured ttl.
  function Lifetime(c: Claims, at: int, ttl: int): Claims {
    c.(exp := Unix(at + MintTtl(ttl)), nbf := Unix(at), iat := Unix(at))
  }

  // From `removed` on no verifier accepts the token by time any more.
  ghost predicate DeadFrom(c: Claims, removed: int) {
    forall t: int | t >= removed :: ValidateTime(c, t, 0) == Expired
  }

  lemma UnixOrder(a: int, b: int)
    requires a <= b
    ensures Unix(a) <= Unix(b)
  {
  }

  lemma DeadFromIff(c: Claims, removed: int)
    ensures DeadFrom(c, removed) <==> c.exp == 0 || Unix(removed) > c.exp + CLOCK_SKEW
  {
    if Unix(removed) > c.exp + CLOCK_SKEW {
      forall t: int | t >= removed ensures ValidateTime(c, t, 0) == Expired {
        UnixOrder(removed, t);
      }
    } else if c.exp != 0 {
      assert ValidateTime(c, removed, 0) != Expired;
    }
  }

  // Removing a kid leaves no acceptable token behind exactly when it happens
  // in a later second than the last token's deadline, or that token was never
  // acceptable because it expires at second 0, which reads as "not set".
  lemma RetirementSafeIff(c: Claims, lastMint: int, ttl: int, removed: int)
    ensures DeadFrom(Lifetime(c, lastMint, ttl), removed)
       <==> Unix(removed) > Unix(lastMint + KeyRetirementWait(ttl)) || Unix(lastMint + MintTtl(ttl)) == 0
  {
    DeadFromIff(Lifetime(c, lastMint, ttl), removed);
    assert Unix(lastMint + MintTtl(ttl) + CLOCK_SKEW * SECOND) == Unix(lastMint + MintTtl(ttl)) + CLOCK_SKEW;
  }

  // One more second always suffices, for every token minted up to lastMint.
  lemma RetirementAfterWaitAndASecond(c: Claims, at: int, lastMint: int, ttl: int, removed: int)
    requires at <= lastMint && removed >= lastMint + KeyRetirementWait(ttl) + SECOND
    ensures DeadFrom(Lifetime(c, at, ttl), removed)
  {
    UnixOrder(at + MintTtl(ttl), lastMint + MintTtl(ttl));
    UnixOrder(lastMint + KeyRetirementWait(ttl) + SECOND, removed);
    var last := lastMint + MintTtl(ttl);
    assert Unix(last + CLOCK_SKEW * SECOND + SECOND) == Unix(last) + CLOCK_SKEW + 1;
    DeadFromIff(Lifetime(c, at, ttl), removed);
  }

  // Waiting exactly KeyRetirementWait never is enough: whatever the ttl and
  // the last mint, that token is still acceptable then.
  lemma ExactWaitIsTooShort(c: Claims, lastMint: int, ttl: int)
    requires Unix(lastMint + MintTtl(ttl)) != 0
    ensures !DeadFrom(Lifetime(c, lastMint, ttl), lastMint + KeyRetirementWait(ttl))
  {
    RetirementSafeIff(c, lastMint, ttl, lastMint + KeyRetirementWait(ttl));
  }

  // When ring i is installed, and which one is current at time t.
  ghost predicate IsTimeline(rings: seq<Ring>, installed: seq<int>) {
    && IsRotation(rings) && |installed| == |rings|
    && forall i, j | 0 <= i < j < |installed| :: installed[i] <= installed[j]
  }

  ghost predicate CurrentAt(installed: seq<int>, m: nat, t: int) {
    m < |installed| && installed[m] <= t && (m + 1 < |installed| ==> t < installed[m + 1])
  }

  // Rotation safety: a token minted at `at` from ring k (perhaps by a request
  // that still held an older snapshot) is, at any later time t, either past
  // its acceptance window or verifiable under the ring current at t, provided
  // its kid is published until the wait plus a second after the last mint.
  lemma RotationSafety(rings: seq<Ring>, installed: seq<int>, k: nat, gone: nat, c: Claims,
                       at: int, lastMint: int, ttl: int, m: nat, t: int, keys: seq<Jwk>)
    requires IsTimeline(rings, installed) && k < gone <= |rings|
    requires Published(rings, rings[k].active, k, gone - 1)
    requires at <= lastMint
    requires gone < |rings| ==> installed[gone] >= lastMint + KeyRetirementWait(ttl) + SECOND
    requires CurrentAt(installed, m, t) && m >= k && IsJwks(rings[m], keys)
    ensures var claims := Lifetime(c, at, ttl);
      ValidateTime(claims, t, 0) == Expired || Verify(Mint(rings[k], claims), keys) == Ok(claims)
  {
    var claims := Lifetime(c, at, ttl);
    if m < gone {
      MintedVerifiesWhilePublished(rings, k, m, claims, keys);
    } else {
      assert installed[gone] <= installed[m] <= t;
      RetirementAfterWaitAndASecond(c, at, lastMint, ttl, installed[gone]);
    }
  }
}
