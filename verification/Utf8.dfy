/** UTF-8 validity (section 4 of RFC 3629) and boundEventString
    (internal/audit/logger.go). One `char` is one byte. */
module Utf8 {

  predicate In(c: char, lo: int, hi: int) {
    lo <= c as int <= hi
  }

  predicate Tail(c: char) {
    In(c, 0x80, 0xBF)
  }

  // The range of the second byte depends on the first: no overlong forms, no
  // surrogates, nothing above U+10FFFF.
  predicate Second(first: char, c: char) {
    match first as int
    case 0xE0 => In(c, 0xA0, 0xBF)
    case 0xED => In(c, 0x80, 0x9F)
    case 0xF0 => In(c, 0x90, 0xBF)
    case 0xF4 => In(c, 0x80, 0x8F)
    case _ => Tail(c)
  }

  // The length of the character s starts with; 0 if it starts with none.
  function RuneLength(s: string): (n: nat)
    ensures n <= |s| && n <= 4
  {
    if s == "" then 0
    else if In(s[0], 0, 0x7F) then 1
    else if In(s[0], 0xC2, 0xDF) then if |s| >= 2 && Tail(s[1]) then 2 else 0
    else if In(s[0], 0xE0, 0xEF) then if |s| >= 3 && Second(s[0], s[1]) && Tail(s[2]) then 3 else 0
    else if In(s[0], 0xF0, 0xF4) then
      if |s| >= 4 && Second(s[0], s[1]) && Tail(s[2]) && Tail(s[3]) then 4 else 0
    else 0
  }

  predicate Valid(s: string)
    decreases |s|
  {
    s == "" || (RuneLength(s) > 0 && Valid(s[RuneLength(s)..]))
  }

  // U+FFFD
  const REPLACEMENT := "\U{EF}\U{BF}\U{BD}"

  // strings.ToValidUTF8: each run of invalid bytes becomes one U+FFFD.
  function ToValid(s: string, inRun: bool): string
    decreases |s|
  {
    if s == "" then ""
    else
      var n := RuneLength(s);
      if n > 0 then s[..n] + ToValid(s[n..], false)
      else (if inRun then "" else REPLACEMENT) + ToValid(s[1..], true)
  }

  lemma RuneLengthPrefix(s: string, t: string)
    requires RuneLength(s) > 0
    ensures RuneLength(s + t) == RuneLength(s)
  {
    assert forall i | 0 <= i < |s| :: (s + t)[i] == s[i];
  }

  lemma {:induction false} ValidConcat(a: string, b: string)
    requires Valid(a) && Valid(b)
    ensures Valid(a + b)
    decreases |a|
  {
    hide RuneLength;
    if a == "" {
      assert a + b == b;
    } else {
      var n := RuneLength(a);
      RuneLengthPrefix(a, b);
      ValidConcat(a[n..], b);
      assert (a + b)[n..] == a[n..] + b;
    }
  }

  lemma RuneIsValid(s: string)
    requires RuneLength(s) > 0
    ensures Valid(s[..RuneLength(s)])
  {
    var r := s[..RuneLength(s)];
    assert forall i | 0 <= i < |r| :: r[i] == s[i];
    assert RuneLength(r) == |r|;
    assert r[|r|..] == "";
  }

  lemma {:induction false} ToValidIsValid(s: string, inRun: bool)
    ensures Valid(ToValid(s, inRun))
    ensures s != "" && !inRun ==> ToValid(s, inRun) != ""
    decreases |s|
  {
    if s != "" {
      var n := RuneLength(s);
      if n > 0 {
        ToValidIsValid(s[n..], false);
        RuneIsValid(s);
        ValidConcat(s[..n], ToValid(s[n..], false));
      } else {
        ToValidIsValid(s[1..], true);
        assert RuneLength(REPLACEMENT) == 3 && REPLACEMENT[3..] == "";
        assert Valid(REPLACEMENT);
        ValidConcat(if inRun then "" else REPLACEMENT, ToValid(s[1..], true));
      }
    }
  }

  lemma {:induction false} ToValidKeepsValid(s: string)
    requires Valid(s)
    ensures ToValid(s, false) == s
    decreases |s|
  {
    if s != "" {
      var n := RuneLength(s);
      ToValidKeepsValid(s[n..]);
      assert s[..n] + s[n..] == s;
    }
  }

  // What strings.ToValidUTF8 does: characters stay, a whole run of bytes that
  // start none becomes one U+FFFD.
  lemma RepairMeans(s: string, n: nat)
    requires 1 <= n <= |s| && (n == |s| || RuneLength(s[n..]) > 0)
    ensures RuneLength(s) > 0 ==> ToValid(s, false) == s[..RuneLength(s)] + ToValid(s[RuneLength(s)..], false)
    ensures (forall i | 0 <= i < n :: RuneLength(s[i..]) == 0) ==>
      ToValid(s, false) == "\U{EF}\U{BF}\U{BD}" + ToValid(s[n..], false)
  {
    hide RuneLength;
    if forall i | 0 <= i < n :: RuneLength(s[i..]) == 0 {
      assert s[0..] == s;
      RunSkipped(s, 1, n);
    }
  }

  lemma {:induction false} RunSkipped(s: string, i: nat, n: nat)
    requires i <= n <= |s| && (n == |s| || RuneLength(s[n..]) > 0)
    requires forall k | i <= k < n :: RuneLength(s[k..]) == 0
    ensures ToValid(s[i..], true) == ToValid(s[n..], false)
    decreases n - i
  {
    hide RuneLength;
    if i < n {
      RunSkipped(s, i + 1, n);
      assert s[i..][1..] == s[i + 1..];
    }
  }

  /******* Truncation *******/

  // What the shrinking loop leaves of s[..n].
  function LongestValid(s: string, n: nat): (r: string)
    requires n <= |s|
    ensures Valid(r) && r <= s[..n]
    ensures forall m | |r| < m <= n :: !Valid(s[..m])
  {
    if Valid(s[..n]) then s[..n] else LongestValid(s, n - 1)
  }

  // In a valid string a character ends at or within three bytes before any
  // position.
  lemma {:induction false} BoundaryNear(s: string, n: nat) returns (k: nat)
    requires Valid(s) && n <= |s|
    ensures k <= n <= k + 3 && Valid(s[..k])
    decreases |s|
  {
    hide RuneLength;
    var r := RuneLength(s);
    if n == 0 || n < r {
      k := 0;
      assert s[..0] == "";
    } else {
      var k' := BoundaryNear(s[r..], n - r);
      k := r + k';
      RuneIsValid(s);
      ValidConcat(s[..r], s[r..][..k']);
      assert s[..r] + s[r..][..k'] == s[..k];
    }
  }

  const MAX_EVENT_STRING: nat := 4096

  function BoundEventString(s: string): string {
    var v := if Valid(s) then s else ToValid(s, false);
    if |v| <= MAX_EVENT_STRING then v else LongestValid(v, MAX_EVENT_STRING)
  }

  method BoundEventStringOf(s: string) returns (r: string)
    ensures r == BoundEventString(s)
  {
    r := s;
    if !Valid(r) {
      r := ToValid(r, false);
    }
    if |r| <= MAX_EVENT_STRING {
      return;
    }
    ghost var full := r;
    r := r[..MAX_EVENT_STRING];
    while |r| > 0 && !Valid(r)
      invariant |r| <= MAX_EVENT_STRING && r == full[..|r|]
      invariant LongestValid(full, MAX_EVENT_STRING) == LongestValid(full, |r|)
    {
      r := r[..|r| - 1];
    }
  }

  // The result is valid, short, and the longest valid prefix of the (repaired)
  // string that is; at most three bytes go beyond the cut at 4096.
  lemma BoundMeaning(s: string)
    ensures var v, r := if Valid(s) then s else ToValid(s, false), BoundEventString(s);
      && v == ToValid(s, false)
      && Valid(v) && Valid(r) && r <= v && |r| <= 4096
      && (forall m | 0 <= m <= |v| && m <= 4096 && Valid(v[..m]) :: m <= |r|)
      && (|v| <= 4096 ==> r == v)
      && (|v| > 4096 ==> |r| >= 4096 - 3)
      && (r == "" <==> s == "")
  {
    ToValidIsValid(s, false);
    if Valid(s) {
      ToValidKeepsValid(s);
    }
    var v := if Valid(s) then s else ToValid(s, false);
    if |v| > MAX_EVENT_STRING {
      var k := BoundaryNear(v, MAX_EVENT_STRING);
      assert Valid(v[..k]);
    }
  }

  lemma BoundIdempotent(s: string)
    ensures BoundEventString(BoundEventString(s)) == BoundEventString(s)
  {
    BoundMeaning(s);
  }

  /******* The encoding it decides *******/

  predicate Scalar(cp: int) {
    0 <= cp <= 0x10FFFF && !(0xD800 <= cp <= 0xDFFF)
  }

  // Section 3 of RFC 3629.
  function Encode(cp: int): (r: string)
    requires Scalar(cp)
    ensures 1 <= |r| <= 4
  {
    if cp < 0x80 then [cp as char]
    else if cp < 0x800 then [(0xC0 + cp / 0x40) as char, (0x80 + cp % 0x40) as char]
    else if cp < 0x1_0000 then
      [(0xE0 + cp / 0x1000) as char, (0x80 + cp / 0x40 % 0x40) as char, (0x80 + cp % 0x40) as char]
    else
      [(0xF0 + cp / 0x4_0000) as char, (0x80 + cp / 0x1000 % 0x40) as char, (0x80 + cp / 0x40 % 0x40) as char,
       (0x80 + cp % 0x40) as char]
  }

  function EncodeAll(cps: seq<int>): string
    requires forall cp | cp in cps :: Scalar(cp)
  {
    if cps == [] then "" else Encode(cps[0]) + EncodeAll(cps[1..])
  }

  lemma EncodeIsRune(cp: int, rest: string)
    requires Scalar(cp)
    ensures RuneLength(Encode(cp) + rest) == |Encode(cp)|
  {
    var s := Encode(cp) + rest;
    assert forall i | 0 <= i < |Encode(cp)| :: s[i] == Encode(cp)[i];
    if cp < 0x80 {
    } else if cp < 0x800 {
    } else if cp < 0x1_0000 {
      Second3(cp);
    } else {
      Second4(cp);
    }
  }

  lemma Second3(cp: int)
    requires Scalar(cp) && 0x800 <= cp < 0x1_0000
    ensures var r := Encode(cp); |r| == 3 && In(r[0], 0xE0, 0xEF) && Second(r[0], r[1]) && Tail(r[2])
  {
    assert cp < 0x1000 ==> cp / 0x40 % 0x40 == cp / 0x40;
    assert 0xD000 <= cp < 0xD800 ==> cp / 0x40 % 0x40 == (cp - 0xD000) / 0x40;
  }

  lemma Second4(cp: int)
    requires Scalar(cp) && 0x1_0000 <= cp
    ensures var r := Encode(cp);
      |r| == 4 && In(r[0], 0xF0, 0xF4) && Second(r[0], r[1]) && Tail(r[2]) && Tail(r[3])
  {
    assert cp < 0x4_0000 ==> cp / 0x1000 % 0x40 == cp / 0x1000;
    assert 0x10_0000 <= cp ==> cp / 0x1000 % 0x40 == (cp - 0x10_0000) / 0x1000;
  }

  lemma RuneIsEncode(s: string) returns (cp: int)
    requires RuneLength(s) > 0
    ensures Scalar(cp) && Encode(cp) == s[..RuneLength(s)]
  {
    var n := RuneLength(s);
    if n == 1 {
      cp := s[0] as int;
    } else if n == 2 {
      cp := (s[0] as int - 0xC0) * 0x40 + (s[1] as int - 0x80);
    } else if n == 3 {
      cp := Decode3(s[0], s[1], s[2]);
    } else {
      cp := Decode4(s[0], s[1], s[2], s[3]);
    }
  }

  lemma Decode3(a: char, b: char, c: char) returns (cp: int)
    requires In(a, 0xE0, 0xEF) && Second(a, b) && Tail(c)
    ensures Scalar(cp) && Encode(cp) == [a, b, c]
  {
    var x, y, z := a as int - 0xE0, b as int - 0x80, c as int - 0x80;
    cp := x * 0x1000 + y * 0x40 + z;
    assert cp / 0x40 == x * 0x40 + y && cp % 0x40 == z;
    assert cp / 0x1000 == x && (x * 0x40 + y) % 0x40 == y;
  }

  lemma Decode4(a: char, b: char, c: char, d: char) returns (cp: int)
    requires In(a, 0xF0, 0xF4) && Second(a, b) && Tail(c) && Tail(d)
    ensures Scalar(cp) && Encode(cp) == [a, b, c, d]
  {
    var w, x, y, z := a as int - 0xF0, b as int - 0x80, c as int - 0x80, d as int - 0x80;
    cp := w * 0x4_0000 + x * 0x1000 + y * 0x40 + z;
    assert cp / 0x40 == w * 0x1000 + x * 0x40 + y && cp % 0x40 == z;
    assert cp / 0x1000 == w * 0x40 + x && (w * 0x1000 + x * 0x40 + y) % 0x40 == y;
    assert cp / 0x4_0000 == w && (w * 0x40 + x) % 0x40 == x;
  }

  ghost predicate Encodes(s: string, cps: seq<int>) {
    (forall cp | cp in cps :: Scalar(cp)) && s == EncodeAll(cps)
  }

  // A text is valid exactly when it is some scalar values, encoded.
  lemma {:induction false} ValidIff(s: string)
    ensures Valid(s) <==> exists cps :: Encodes(s, cps)
    decreases |s|
  {
    hide RuneLength, Encode, Scalar;
    if s == "" {
      assert Encodes(s, []);
    } else {
      if Valid(s) {
        var n := RuneLength(s);
        var cp := RuneIsEncode(s);
        ValidIff(s[n..]);
        var rest :| Encodes(s[n..], rest);
        assert ([cp] + rest)[1..] == rest;
        assert Encodes(s, [cp] + rest);
      }
      if cps :| Encodes(s, cps) {
        EncodesIsValid(s, cps);
      }
    }
  }

  lemma {:induction false} EncodesIsValid(s: string, cps: seq<int>)
    requires Encodes(s, cps)
    ensures Valid(s)
  {
    hide RuneLength, Encode, Scalar;
    if cps != [] {
      var rest := EncodeAll(cps[1..]);
      assert cps[0] in cps && s == Encode(cps[0]) + rest;
      EncodeIsRune(cps[0], rest);
      assert s[|Encode(cps[0])|..] == rest;
      EncodesIsValid(rest, cps[1..]);
    }
  }
}
