/** Key selection and verification of compact JWS (internal/token/jws.go), with
    the signature schemes abstract. */
module Jws {
  import opened Wrappers
  import opened Strings
  import opened Claims

  datatype Jwk = Jwk(kid: string, kty: string, use: string, alg: string, crv: string,
                     x: string, y: string, n: string, e: string, sub: string)

  datatype PublicKey = Ed25519(x: string) | P256(px: string, py: string) | Rsa(n: string, e: string)

  // A compact token. `key` is the public half of the key that signed it; a
  // token that does not split or decode is Malformed.
  datatype Token = Malformed | Signed(alg: string, kid: string, key: PublicKey, claims: Claims)

  datatype TokenError = InvalidToken | NoneAlg | UnknownKey | AlgConfusion | UnsupportedAlg | BadSignature

  predicate IsNone(alg: string) {
    |alg| == 4 && (alg[0] == 'n' || alg[0] == 'N') && (alg[1] == 'o' || alg[1] == 'O')
    && (alg[2] == 'n' || alg[2] == 'N') && (alg[3] == 'e' || alg[3] == 'E')
  }

  // Whatever its case.
  lemma IsNoneIff(alg: string)
    ensures IsNone(alg) <==> ToLower(alg) == "none"
  {
    var low := ToLower(alg);
    assert low == "none" <==> |low| == 4 && low[0] == 'n' && low[1] == 'o' && low[2] == 'n' && low[3] == 'e';
  }

  predicate Matches(k: Jwk, kid: string, alg: string) {
    (kid == "" || k.kid == kid) && (k.alg == "" || k.alg == alg)
  }

  function Matching(keys: seq<Jwk>, kid: string, alg: string): seq<Jwk> {
    if keys == [] then []
    else Matching(keys[..|keys| - 1], kid, alg) +
         if Matches(keys[|keys| - 1], kid, alg) then [keys[|keys| - 1]] else []
  }

  function SelectedKey(keys: seq<Jwk>, kid: string, alg: string): Result<Jwk, TokenError> {
    var matched := Matching(keys, kid, alg);
    if kid == "" && |matched| != 1 then
      if |keys| == 1 then Ok(keys[0]) else Err(UnknownKey)
    else if matched == [] then Err(UnknownKey)
    else Ok(matched[0])
  }

  method SelectKey(keys: seq<Jwk>, kid: string, alg: string) returns (r: Result<Jwk, TokenError>)
    ensures r == SelectedKey(keys, kid, alg)
  {
    var matched: seq<Jwk> := [];
    for i := 0 to |keys|
      invariant matched == Matching(keys[..i], kid, alg)
    {
      var k := keys[i];
      assert keys[..i + 1][..i] == keys[..i];
      if kid != "" && k.kid != kid {
        continue;
      }
      if k.alg != "" && k.alg != alg {
        continue;
      }
      matched := matched + [k];
    }
    assert keys[..|keys|] == keys;
    if kid == "" && |matched| != 1 {
      return if |keys| == 1 then Ok(keys[0]) else Err(UnknownKey);
    }
    return if |matched| == 0 then Err(UnknownKey) else Ok(matched[0]);
  }

  function MatchAlg(alg: string, k: Jwk): Option<TokenError> {
    if alg == "EdDSA" then
      if k.kty != "OKP" || k.crv != "Ed25519" || (k.alg != "" && k.alg != "EdDSA") then Some(AlgConfusion) else None
    else if alg == "ES256" then
      if k.kty != "EC" || (k.crv != "" && k.crv != "P-256") || (k.alg != "" && k.alg != "ES256") then Some(AlgConfusion)
      else None
    else if alg == "RS256" then
      if k.kty != "RSA" || (k.alg != "" && k.alg != "RS256") then Some(AlgConfusion) else None
    else Some(UnsupportedAlg)
  }

  // The key verifySig builds from a JWK that MatchAlg let through.
  function KeyFor(alg: string, k: Jwk): PublicKey {
    if alg == "EdDSA" then Ed25519(k.x) else if alg == "ES256" then P256(k.x, k.y) else Rsa(k.n, k.e)
  }

  function Verify(t: Token, keys: seq<Jwk>): Result<Claims, TokenError> {
    if t.Malformed? then Err(InvalidToken)
    else if t.alg == "" || IsNone(t.alg) then Err(NoneAlg)
    else
      match SelectedKey(keys, t.kid, t.alg)
      case Err(e) => Err(e)
      case Ok(k) =>
        if MatchAlg(t.alg, k).Some? then Err(MatchAlg(t.alg, k).value)
        else if KeyFor(t.alg, k) != t.key then Err(BadSignature)
        else Ok(t.claims)
  }

  lemma {:induction false} MatchingMembers(keys: seq<Jwk>, kid: string, alg: string)
    ensures forall k :: k in Matching(keys, kid, alg) <==> k in keys && Matches(k, kid, alg)
  {
    if keys != [] {
      MatchingMembers(keys[..|keys| - 1], kid, alg);
      assert keys == keys[..|keys| - 1] + [keys[|keys| - 1]];
    }
  }

  // A verified token was signed by a published key whose type and algorithm
  // are the ones its header names; `none` never verifies.
  lemma VerifiedTokenIsSigned(t: Token, keys: seq<Jwk>)
    ensures Verify(t, keys).Ok? ==>
      && t.Signed? && !IsNone(t.alg) && Verify(t, keys).value == t.claims
      && exists k :: k in keys && MatchAlg(t.alg, k).None? && KeyFor(t.alg, k) == t.key
                     && (t.kid != "" ==> k.kid == t.kid)
  {
    if Verify(t, keys).Ok? {
      MatchingMembers(keys, t.kid, t.alg);
      var k := SelectedKey(keys, t.kid, t.alg).value;
      assert Matching(keys, t.kid, t.alg) != [] ==> Matching(keys, t.kid, t.alg)[0] in Matching(keys, t.kid, t.alg);
      assert k in keys && (t.kid != "" ==> k.kid == t.kid);
    }
  }

  // Which key is selected, by its place in the document: the first that the
  // named kid and the algorithm fit; without a kid the one that fits the
  // algorithm, or the document's only key.
  ghost predicate Selects(keys: seq<Jwk>, kid: string, alg: string, i: nat) {
    && i < |keys|
    && if kid != "" then
         && keys[i].kid == kid && keys[i].alg in {"", alg}
         && forall j | 0 <= j < i :: keys[j].kid != kid || keys[j].alg !in {"", alg}
       else
         || |keys| == 1
         || (keys[i].alg in {"", alg} && forall j | 0 <= j < |keys| && j != i :: keys[j].alg !in {"", alg})
  }

  ghost predicate FirstMatch(keys: seq<Jwk>, kid: string, alg: string, i: nat) {
    i < |keys| && Matches(keys[i], kid, alg) && forall j | 0 <= j < i :: !Matches(keys[j], kid, alg)
  }

  ghost predicate OnlyMatch(keys: seq<Jwk>, kid: string, alg: string, i: nat) {
    && i < |keys| && Matches(keys[i], kid, alg)
    && forall j | 0 <= j < |keys| && j != i :: !Matches(keys[j], kid, alg)
  }

  lemma {:induction false} MatchingFirst(keys: seq<Jwk>, kid: string, alg: string)
    ensures Matching(keys, kid, alg) == [] <==> forall j | 0 <= j < |keys| :: !Matches(keys[j], kid, alg)
    ensures Matching(keys, kid, alg) != [] ==>
      exists i: nat :: FirstMatch(keys, kid, alg, i) && keys[i] == Matching(keys, kid, alg)[0]
  {
    if keys != [] {
      var init := keys[..|keys| - 1];
      MatchingFirst(init, kid, alg);
      assert forall j | 0 <= j < |init| :: keys[j] == init[j];
      if Matching(init, kid, alg) != [] {
        var i: nat :| FirstMatch(init, kid, alg, i) && init[i] == Matching(init, kid, alg)[0];
        assert FirstMatch(keys, kid, alg, i);
      } else if Matches(keys[|init|], kid, alg) {
        assert FirstMatch(keys, kid, alg, |init|);
      }
    }
  }

  lemma {:induction false} MatchingOnly(keys: seq<Jwk>, kid: string, alg: string)
    ensures |Matching(keys, kid, alg)| == 1 <==> exists i: nat :: OnlyMatch(keys, kid, alg, i)
  {
    hide Matches;
    if keys != [] {
      var init, n := keys[..|keys| - 1], |keys| - 1;
      MatchingOnly(init, kid, alg);
      MatchingFirst(init, kid, alg);
      assert forall j | 0 <= j < n :: keys[j] == init[j];
      if Matches(keys[n], kid, alg) {
        assert Matching(init, kid, alg) == [] ==> OnlyMatch(keys, kid, alg, n);
      } else {
        assert forall i: nat :: OnlyMatch(keys, kid, alg, i) <==> OnlyMatch(init, kid, alg, i);
      }
    }
  }

  lemma SelectsIff(keys: seq<Jwk>, kid: string, alg: string, i: nat)
    ensures Selects(keys, kid, alg, i) <==>
      if kid != "" then FirstMatch(keys, kid, alg, i) else i < |keys| && (|keys| == 1 || OnlyMatch(keys, kid, alg, i))
  {
  }

  // The index selected, if any is, and no other key is.
  lemma SelectedIndex(keys: seq<Jwk>, kid: string, alg: string) returns (i: nat)
    requires SelectedKey(keys, kid, alg).Ok?
    ensures i < |keys| && Selects(keys, kid, alg, i) && keys[i] == SelectedKey(keys, kid, alg).value
  {
    hide Matching, Selects, Matches;
    MatchingFirst(keys, kid, alg);
    MatchingOnly(keys, kid, alg);
    if Matching(keys, kid, alg) == [] || (kid == "" && |keys| == 1) {
      i := 0;
    } else {
      i :| FirstMatch(keys, kid, alg, i) && keys[i] == Matching(keys, kid, alg)[0];
      if kid == "" {
        var k: nat :| OnlyMatch(keys, kid, alg, k);
        assert k == i;
      }
    }
    SelectsIff(keys, kid, alg, i);
  }

  lemma SelectsOne(keys: seq<Jwk>, kid: string, alg: string, i: nat, j: nat)
    requires Selects(keys, kid, alg, i) && Selects(keys, kid, alg, j)
    ensures i == j
  {
  }

  lemma SelectedSome(keys: seq<Jwk>, kid: string, alg: string, i: nat)
    requires Selects(keys, kid, alg, i)
    ensures SelectedKey(keys, kid, alg).Ok?
  {
    hide Matching, Selects, Matches;
    SelectsIff(keys, kid, alg, i);
    MatchingFirst(keys, kid, alg);
    MatchingOnly(keys, kid, alg);
  }

  lemma SelectedIff(keys: seq<Jwk>, kid: string, alg: string, k: Jwk)
    ensures SelectedKey(keys, kid, alg) == Ok(k) <==> exists i: nat :: Selects(keys, kid, alg, i) && keys[i] == k
    ensures SelectedKey(keys, kid, alg).Err? ==> SelectedKey(keys, kid, alg) == Err(UnknownKey)
  {
    hide Matching;
    if SelectedKey(keys, kid, alg).Ok? {
      var i := SelectedIndex(keys, kid, alg);
      forall j: nat | Selects(keys, kid, alg, j) ensures j == i {
        SelectsOne(keys, kid, alg, i, j);
      }
    }
    if i: nat :| Selects(keys, kid, alg, i) && keys[i] == k {
      SelectedSome(keys, kid, alg, i);
    }
  }

  // k is a key of the kind the algorithm names, and this is its public half.
  ghost predicate Fits(k: Jwk, alg: string, key: PublicKey) {
    || (alg == "EdDSA" && k.kty == "OKP" && k.crv == "Ed25519" && key == Ed25519(k.x))
    || (alg == "ES256" && k.kty == "EC" && k.crv in {"", "P-256"} && key == P256(k.x, k.y))
    || (alg == "RS256" && k.kty == "RSA" && key == Rsa(k.n, k.e))
  }

  // A token verifies exactly when the key selected for it is of the kind its
  // algorithm names, allows that algorithm, and signed it.
  lemma VerifiesIff(t: Token, keys: seq<Jwk>)
    ensures Verify(t, keys).Ok? <==>
      t.Signed? && exists i: nat ::
        Selects(keys, t.kid, t.alg, i) && keys[i].alg in {"", t.alg} && Fits(keys[i], t.alg, t.key)
    ensures Verify(t, keys).Ok? ==> Verify(t, keys).value == t.claims
  {
    hide SelectedKey;
    if t.Signed? {
      var r := SelectedKey(keys, t.kid, t.alg);
      if r.Ok? {
        SelectedIff(keys, t.kid, t.alg, r.value);
      }
      forall i: nat | Selects(keys, t.kid, t.alg, i) ensures r == Ok(keys[i]) {
        SelectedIff(keys, t.kid, t.alg, keys[i]);
      }
      assert t.alg in {"EdDSA", "ES256", "RS256"} ==> !IsNone(t.alg);
    }
  }

  // And how it fails otherwise, the first cause naming the error.
  lemma VerifyFails(t: Token, keys: seq<Jwk>)
    ensures var r := Verify(t, keys);
      && (r == Err(InvalidToken) <==> t.Malformed?)
      && (t.Signed? ==>
            && (r == Err(NoneAlg) <==> t.alg == "" || ToLower(t.alg) == "none")
            && (r != Err(NoneAlg) ==>
                  && (r == Err(UnknownKey) <==> forall i: nat :: !Selects(keys, t.kid, t.alg, i))
                  && forall i: nat | Selects(keys, t.kid, t.alg, i) ::
                       && (r == Err(UnsupportedAlg) <==> t.alg !in {"EdDSA", "ES256", "RS256"})
                       && (r in {Err(BadSignature), Err(AlgConfusion)} <==>
                             t.alg in {"EdDSA", "ES256", "RS256"}
                             && !(Fits(keys[i], t.alg, t.key) && keys[i].alg in {"", t.alg}))))
  {
    hide SelectedKey, Selects, Fits, IsNone;
    if t.Signed? {
      IsNoneIff(t.alg);
      if SelectedKey(keys, t.kid, t.alg).Ok? {
        var k := SelectedIndex(keys, t.kid, t.alg);
        forall i: nat | Selects(keys, t.kid, t.alg, i) ensures i == k {
          SelectsOne(keys, t.kid, t.alg, i, k);
        }
        KindFails(keys[k], t);
      } else {
        NoneSelected(keys, t.kid, t.alg);
      }
    }
  }

  lemma KindFails(k: Jwk, t: Token)
    requires t.Signed?
    ensures MatchAlg(t.alg, k) == Some(UnsupportedAlg) <==> t.alg !in {"EdDSA", "ES256", "RS256"}
    ensures MatchAlg(t.alg, k) in {None, Some(UnsupportedAlg), Some(AlgConfusion)}
    ensures Fits(k, t.alg, t.key) && k.alg in {"", t.alg} <==> MatchAlg(t.alg, k) == None && KeyFor(t.alg, k) == t.key
  {
  }

  lemma NoneSelected(keys: seq<Jwk>, kid: string, alg: string)
    requires SelectedKey(keys, kid, alg).Err?
    ensures SelectedKey(keys, kid, alg) == Err(UnknownKey) && forall i: nat :: !Selects(keys, kid, alg, i)
  {
    hide Selects, Matching;
    forall i: nat ensures !Selects(keys, kid, alg, i) {
      if Selects(keys, kid, alg, i) {
        SelectedSome(keys, kid, alg, i);
      }
    }
  }

  // In particular under a JWKS of one key, as an IdP may publish.
  lemma OneKeyVerifiesIff(t: Token, k: Jwk)
    ensures Verify(t, [k]).Ok? <==>
      t.Signed? && t.kid in {"", k.kid} && k.alg in {"", t.alg} && Fits(k, t.alg, t.key)
  {
    hide Verify, Fits;
    VerifiesIff(t, [k]);
    if t.Signed? {
      assert Selects([k], t.kid, t.alg, 0) <==> t.kid == "" || (k.kid == t.kid && k.alg in {"", t.alg});
    }
  }
}
