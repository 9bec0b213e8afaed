/** Go strings. A `char` stands for one byte, so `<` on characters is Go's
    byte-wise order; white space is the ASCII white space of `strings.Fields`. */
module Strings {

  predicate IsSpace(c: char) {
    c == ' ' || c == '\t' || c == '\n' || c == '\r' || c == '\U{0B}' || c == '\U{0C}'
  }

  // strings.TrimSpace(s) == ""
  predicate Blank(s: string) {
    forall i | 0 <= i < |s| :: IsSpace(s[i])
  }

  function TrimLeft(s: string): string {
    if s != "" && IsSpace(s[0]) then TrimLeft(s[1..]) else s
  }

  function TrimRight(s: string): string {
    if s != "" && IsSpace(s[|s| - 1]) then TrimRight(s[..|s| - 1]) else s
  }

  function TrimSpace(s: string): string {
    TrimRight(TrimLeft(s))
  }

  lemma {:induction false} TrimRightEmpty(s: string)
    ensures TrimRight(s) == "" <==> Blank(s)
  {
    if s != "" && IsSpace(s[|s| - 1]) {
      TrimRightEmpty(s[..|s| - 1]);
      assert forall i | 0 <= i < |s| - 1 :: s[i] == s[..|s| - 1][i];
    }
  }

  lemma {:induction false} TrimSpaceEmpty(s: string)
    ensures TrimSpace(s) == "" <==> Blank(s)
  {
    if s != "" && IsSpace(s[0]) {
      TrimSpaceEmpty(s[1..]);
      assert forall i | 1 <= i < |s| :: s[i] == s[1..][i - 1];
    } else {
      TrimRightEmpty(s);
    }
  }

  // Tab to carriage return, and the space.
  ghost predicate White(c: char) {
    9 <= c as int <= 13 || c as int == 32
  }

  // White space goes at both ends and nowhere else.
  lemma TrimSpaceMeans(s: string) returns (before: string, after: string)
    ensures s == before + TrimSpace(s) + after && forall c | c in before + after :: White(c)
    ensures var t := TrimSpace(s); t != "" ==> !White(t[0]) && !White(t[|t| - 1])
  {
    hide TrimLeft, TrimRight, Blank, White, IsSpace;
    before := TrimLeftMeans(s);
    after := TrimRightMeans(TrimLeft(s));
    BlankIsWhite(before);
    BlankIsWhite(after);
    forall c ensures White(c) <==> IsSpace(c) {
      SpaceIsWhite(c);
    }
    assert s == before + (TrimSpace(s) + after) && before + (TrimSpace(s) + after) == before + TrimSpace(s) + after;
  }

  lemma SpaceIsWhite(c: char)
    ensures White(c) <==> IsSpace(c)
  {
  }

  lemma BlankIsWhite(s: string)
    requires Blank(s)
    ensures forall c | c in s :: White(c)
  {
  }

  lemma {:induction false} TrimLeftMeans(s: string) returns (before: string)
    ensures s == before + TrimLeft(s) && Blank(before) && (TrimLeft(s) != "" ==> !IsSpace(TrimLeft(s)[0]))
  {
    if s != "" && IsSpace(s[0]) {
      var rest := TrimLeftMeans(s[1..]);
      before := [s[0]] + rest;
      assert s == [s[0]] + s[1..];
    } else {
      before := "";
    }
  }

  lemma {:induction false} TrimRightMeans(s: string) returns (after: string)
    ensures s == TrimRight(s) + after && Blank(after)
    ensures var t := TrimRight(s); t != "" ==> !IsSpace(t[|t| - 1]) && t[0] == s[0]
  {
    if s != "" && IsSpace(s[|s| - 1]) {
      var rest := TrimRightMeans(s[..|s| - 1]);
      after := rest + [s[|s| - 1]];
      assert s == s[..|s| - 1] + [s[|s| - 1]];
    } else {
      after := "";
    }
  }

  /******* Fields and Join *******/

  // A word is what strings.Fields yields: not empty, no white space.
  predicate IsWord(s: string) {
    s != "" && forall i | 0 <= i < |s| :: !IsSpace(s[i])
  }

  function WordLength(s: string): (n: nat)
    ensures n <= |s|
    ensures forall i | 0 <= i < n :: !IsSpace(s[i])
    ensures n < |s| ==> IsSpace(s[n])
  {
    if s == "" || IsSpace(s[0]) then 0 else 1 + WordLength(s[1..])
  }

  function Fields(s: string): (words: seq<string>)
    ensures forall w | w in words :: IsWord(w)
    decreases |s|
  {
    if s == "" then []
    else if IsSpace(s[0]) then Fields(s[1..])
    else [s[..WordLength(s)]] + Fields(s[WordLength(s)..])
  }

  lemma {:induction false} FieldsNone(s: string)
    ensures Fields(s) == [] <==> Blank(s)
    decreases |s|
  {
    if s != "" && IsSpace(s[0]) {
      FieldsNone(s[1..]);
      assert forall i | 1 <= i < |s| :: s[i] == s[1..][i - 1];
    }
  }

  // s holds w between white space or its ends.
  ghost predicate Cuts(s: string, before: string, w: string, after: string) {
    && s == before + w + after
    && (before == "" || IsSpace(before[|before| - 1])) && (after == "" || IsSpace(after[0]))
  }

  // The words of a text are its longest runs without white space.
  lemma {:induction false} FieldsMeans(s: string, w: string)
    ensures w in Fields(s) <==> IsWord(w) && exists before, after :: Cuts(s, before, w, after)
    decreases |s|
  {
    if w in Fields(s) {
      var before, after := WordFound(s, w);
    }
    if IsWord(w) && exists before, after :: Cuts(s, before, w, after) {
      var before, after :| Cuts(s, before, w, after);
      FoundWord(s, before, w, after);
    }
  }

  lemma FirstWord(s: string, n: nat)
    requires n == WordLength(s) > 0
    ensures IsWord(s[..n]) && Cuts(s, "", s[..n], s[n..])
  {
    assert s == s[..n] + s[n..];
  }

  lemma CutAfterSpace(s: string, before: string, w: string, after: string)
    requires s != "" && IsSpace(s[0]) && Cuts(s[1..], before, w, after)
    ensures Cuts(s, [s[0]] + before, w, after)
  {
    assert s == [s[0]] + s[1..];
  }

  lemma CutLater(s: string, n: nat, before: string, w: string, after: string)
    requires n <= |s| && (n < |s| ==> IsSpace(s[n])) && IsWord(w) && Cuts(s[n..], before, w, after)
    ensures Cuts(s, s[..n] + before, w, after)
  {
    assert s == s[..n] + s[n..];
    assert s[n..] != "" ==> s[n..][0] == (before + w + after)[0];
  }

  lemma {:induction false} WordFound(s: string, w: string) returns (before: string, after: string)
    requires w in Fields(s)
    ensures IsWord(w) && Cuts(s, before, w, after)
    decreases |s|
  {
    hide Cuts, IsWord;
    if IsSpace(s[0]) {
      var b, a := WordFound(s[1..], w);
      CutAfterSpace(s, b, w, a);
      before, after := [s[0]] + b, a;
    } else {
      var n := WordLength(s);
      if w == s[..n] {
        before, after := "", s[n..];
        FirstWord(s, n);
      } else {
        var b, a := WordFound(s[n..], w);
        CutLater(s, n, b, w, a);
        before, after := s[..n] + b, a;
      }
    }
  }

  lemma {:induction false} FoundWord(s: string, before: string, w: string, after: string)
    requires IsWord(w) && Cuts(s, before, w, after)
    ensures w in Fields(s)
    decreases |s|
  {
    hide Cuts, IsWord;
    var n := CutIndex(s, before, w, after);
    if n > 0 {
      FoundWord(s[n..], before[n..], w, after);
    }
  }

  // The word is the first of the text, or n characters on nothing is lost.
  lemma CutIndex(s: string, before: string, w: string, after: string) returns (n: nat)
    requires IsWord(w) && Cuts(s, before, w, after)
    ensures s != "" && n <= |before| && n <= |s|
    ensures if n == 0 then !IsSpace(s[0]) && w == s[..WordLength(s)] else Cuts(s[n..], before[n..], w, after)
    ensures n > 0 ==> n == if IsSpace(s[0]) then 1 else WordLength(s)
  {
    if before == "" {
      n := 0;
      CutFirst(s, w, after);
    } else {
      n := if IsSpace(s[0]) then 1 else WordLength(s);
      CutRest(s, before, w, after, n);
    }
  }

  lemma CutFirst(s: string, w: string, after: string)
    requires IsWord(w) && Cuts(s, "", w, after)
    ensures s != "" && !IsSpace(s[0]) && w == s[..WordLength(s)]
  {
    assert forall i | 0 <= i < |w| :: s[i] == w[i];
    assert after != "" ==> s[|w|] == after[0];
    assert WordLength(s) == |w|;
  }

  lemma CutRest(s: string, before: string, w: string, after: string, n: nat)
    requires IsWord(w) && Cuts(s, before, w, after) && before != ""
    requires n == if IsSpace(s[0]) then 1 else WordLength(s)
    ensures 0 < n <= |before| && n <= |s| && Cuts(s[n..], before[n..], w, after)
  {
    hide IsWord, IsSpace;
    var last := |before| - 1;
    assert s[last] == before[last];
    assert n <= |before|;
    Dropped(before, w + after, n);
    assert before + w + after == before + (w + after) && before[n..] + w + after == before[n..] + (w + after);
    assert n < |before| ==> before[n..][|before| - n - 1] == before[last];
  }

  lemma Dropped(a: string, b: string, n: nat)
    requires n <= |a|
    ensures (a + b)[n..] == a[n..] + b
  {
  }

  function Join(parts: seq<string>, sep: string): string {
    if parts == [] then ""
    else if |parts| == 1 then parts[0]
    else parts[0] + sep + Join(parts[1..], sep)
  }

  lemma {:induction false} FieldsOfWordThen(w: string, rest: string)
    requires IsWord(w)
    requires rest == "" || IsSpace(rest[0])
    ensures Fields(w + rest) == [w] + Fields(rest)
  {
    var s := w + rest;
    var n := WordLength(s);
    assert forall k | 0 <= k < |w| :: s[k] == w[k] && !IsSpace(s[k]);
    assert rest != "" ==> s[|w|] == rest[0];
    assert n == |w|;
    assert s[..n] == w && s[n..] == rest;
  }

  // Splitting what was joined gives the words back.
  lemma {:induction false} FieldsJoin(parts: seq<string>)
    requires forall w | w in parts :: IsWord(w)
    ensures Fields(Join(parts, " ")) == parts
  {
    if parts == [] {
    } else if |parts| == 1 {
      FieldsOfWordThen(parts[0], "");
      assert parts[0] + "" == parts[0];
    } else {
      var rest := Join(parts[1..], " ");
      FieldsJoin(parts[1..]);
      FieldsOfWordThen(parts[0], " " + rest);
      assert parts[0] + " " + rest == parts[0] + (" " + rest);
      assert (" " + rest)[1..] == rest;
    }
  }

  lemma {:induction false} JoinOfWordsNotEmpty(parts: seq<string>)
    requires parts != [] && forall w | w in parts :: IsWord(w)
    ensures Join(parts, " ") != ""
  {
    assert parts[0] in parts;
  }

  /******* The byte-wise order *******/

  predicate Less(a: string, b: string) {
    b != "" && (a == "" || a[0] < b[0] || (a[0] == b[0] && Less(a[1..], b[1..])))
  }

  lemma {:induction false} LessTotal(a: string, b: string)
    ensures Less(a, b) || Less(b, a) || a == b
    ensures !(Less(a, b) && Less(b, a))
    ensures Less(a, b) ==> a != b
  {
    if a != "" && b != "" && a[0] == b[0] {
      LessTotal(a[1..], b[1..]);
      assert a == [a[0]] + a[1..] && b == [b[0]] + b[1..];
    }
  }

  lemma {:induction false} LessTransitive(a: string, b: string, c: string)
    requires Less(a, b) && Less(b, c)
    ensures Less(a, c)
  {
    if a != "" && a[0] == b[0] && b[0] == c[0] {
      LessTransitive(a[1..], b[1..], c[1..]);
    }
  }

  // strings.ToLower on ASCII
  function ToLower(s: string): (r: string)
    ensures |r| == |s|
    ensures forall i | 0 <= i < |s| :: r[i] == if 'A' <= s[i] <= 'Z' then s[i] + ('a' - 'A') else s[i]
  {
    if s == "" then ""
    else [if 'A' <= s[0] <= 'Z' then s[0] + ('a' - 'A') else s[0]] + ToLower(s[1..])
  }

  /******* Path segments and substrings *******/

  predicate Contains(s: string, sub: string) {
    sub <= s || (s != "" && Contains(s[1..], sub))
  }

  lemma ContainsIff(s: string, sub: string)
    ensures Contains(s, sub) <==> exists before, after :: s == before + sub + after
  {
    if Contains(s, sub) {
      var before, after := Found(s, sub);
    }
    if exists before, after :: s == before + sub + after {
      var before, after :| s == before + sub + after;
      FindsAt(s, before, sub, after);
    }
  }

  lemma {:induction false} Found(s: string, sub: string) returns (before: string, after: string)
    requires Contains(s, sub)
    ensures s == before + sub + after
  {
    if sub <= s {
      before, after := "", s[|sub|..];
    } else {
      var b, a := Found(s[1..], sub);
      before, after := [s[0]] + b, a;
      assert s == [s[0]] + s[1..] && [s[0]] + (b + sub + a) == [s[0]] + b + sub + a;
    }
  }

  lemma {:induction false} FindsAt(s: string, before: string, sub: string, after: string)
    requires s == before + sub + after
    ensures Contains(s, sub)
    decreases |before|
  {
    if before == "" {
      assert s == sub + after;
    } else {
      assert s == before + (sub + after);
      Dropped(before, sub + after, 1);
      assert before[1..] + (sub + after) == before[1..] + sub + after;
      FindsAt(s[1..], before[1..], sub, after);
    }
  }

  // strings.LastIndex(s, c), or -1
  function LastIndex(s: string, c: char): (i: int)
    ensures -1 <= i < |s|
    ensures i >= 0 ==> s[i] == c
    ensures forall k | i < k < |s| :: s[k] != c
  {
    if s == "" then -1
    else if s[|s| - 1] == c then |s| - 1
    else LastIndex(s[..|s| - 1], c)
  }

  function TrimSuffix(s: string, c: char): string {
    if s != "" && s[|s| - 1] == c then s[..|s| - 1] else s
  }
}
