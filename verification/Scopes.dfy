/** OAuth scope strings as sets (internal/token/claims.go), and the narrowing
    the STS does with them (internal/sts/sts.go). */
module Scopes {
  import opened Wrappers
  import opened Strings

  ghost function ScopeSet(scope: string): set<string> {
    set w | w in Fields(scope)
  }

  method ScopeSetOf(scope: string) returns (out: set<string>)
    ensures out == ScopeSet(scope)
  {
    out := {};
    var words := Fields(scope);
    for i := 0 to |words|
      invariant out == set k | 0 <= k < i :: words[k]
    {
      out := out + {words[i]};
    }
  }

  // Go ranges over a map in any order, so each loop below takes elements in
  // any order and must not depend on it.
  method SubsetOf(want: set<string>, have: set<string>) returns (ok: bool)
    ensures ok <==> want <= have
  {
    var rest := want;
    while rest != {}
      invariant rest <= want && want - rest <= have
    {
      var s :| s in rest;
      if s !in have {
        return false;
      }
      rest := rest - {s};
    }
    return true;
  }

  method Intersect(a: set<string>, b: set<string>) returns (out: set<string>)
    ensures out == a * b
  {
    out := {};
    var rest := a;
    while rest != {}
      invariant rest <= a && out == (a - rest) * b
    {
      var s :| s in rest;
      if s in b {
        out := out + {s};
      }
      rest := rest - {s};
    }
  }

  /******* Sorting *******/

  ghost predicate Sorted(xs: seq<string>) {
    forall i, j | 0 <= i < j < |xs| :: !Less(xs[j], xs[i])
  }

  ghost function Elements(xs: seq<string>): (s: set<string>)
    ensures forall x :: x in s <==> x in xs
  {
    set x | x in xs
  }

  ghost predicate StrictlySorted(xs: seq<string>) {
    forall i, j | 0 <= i < j < |xs| :: Less(xs[i], xs[j])
  }

  // A strictly sorted enumeration of a set is unique.
  lemma {:induction false} SortedEnumerationUnique(xs: seq<string>, ys: seq<string>)
    requires StrictlySorted(xs) && StrictlySorted(ys)
    requires Elements(xs) == Elements(ys)
    ensures xs == ys
  {
    var sx, sy := Elements(xs), Elements(ys);
    assert xs != [] ==> xs[0] in sx;
    assert ys != [] ==> ys[0] in sy;
    if xs != [] {
      HeadIsLeast(xs);
      HeadIsLeast(ys);
      LessTotal(xs[0], ys[0]);
      assert xs[0] == ys[0];
      TailSet(xs);
      TailSet(ys);
      SortedEnumerationUnique(xs[1..], ys[1..]);
      assert xs == [xs[0]] + xs[1..] && ys == [ys[0]] + ys[1..];
    }
  }

  lemma HeadIsLeast(xs: seq<string>)
    requires xs != [] && StrictlySorted(xs)
    ensures forall x | x in xs :: x == xs[0] || Less(xs[0], x)
  {
    forall x | x in xs ensures x == xs[0] || Less(xs[0], x) {
      var i :| 0 <= i < |xs| && xs[i] == x;
    }
  }

  lemma TailSet(xs: seq<string>)
    requires xs != [] && StrictlySorted(xs)
    ensures Elements(xs[1..]) == Elements(xs) - {xs[0]}
  {
    forall x | x in xs && x != xs[0] ensures x in xs[1..] {
      var i :| 0 <= i < |xs| && xs[i] == x;
      assert xs[1..][i - 1] == x;
    }
    forall x | x in xs[1..] ensures x in xs && x != xs[0] {
      var i :| 0 <= i < |xs| - 1 && xs[1..][i] == x;
      LessTotal(xs[0], xs[i + 1]);
    }
  }

  ghost predicate Distinct(xs: seq<string>) {
    forall i, j | 0 <= i < j < |xs| :: xs[i] != xs[j]
  }

  lemma SortedDistinct(xs: seq<string>)
    requires Sorted(xs) && Distinct(xs)
    ensures StrictlySorted(xs)
  {
    forall i, j | 0 <= i < j < |xs| ensures Less(xs[i], xs[j]) {
      LessTotal(xs[i], xs[j]);
    }
  }

  ghost predicate Permutation(xs: seq<string>, ys: seq<string>) {
    multiset(xs) == multiset(ys)
  }

  // Element i moved down to position j.
  function Moved(s: seq<string>, i: nat, j: nat): (t: seq<string>)
    requires j <= i < |s|
    ensures |t| == |s|
  {
    s[..j] + [s[i]] + s[j..i] + s[i + 1..]
  }

  lemma MovedNowhere(s: seq<string>, i: nat)
    requires i < |s|
    ensures Moved(s, i, i) == s
  {
  }

  lemma MovedDownOne(s: seq<string>, i: nat, j: nat)
    requires 0 < j <= i < |s|
    ensures var t := Moved(s, i, j);
      t[j] == s[i] && t[j - 1] == s[j - 1] && Moved(s, i, j - 1) == t[j := t[j - 1]][j - 1 := t[j]]
  {
  }

  lemma MovedPermutes(s: seq<string>, i: nat, j: nat)
    requires j <= i < |s|
    ensures Permutation(Moved(s, i, j), s)
  {
    assert s == s[..j] + s[j..i] + [s[i]] + s[i + 1..];
  }

  lemma MovedSorts(s: seq<string>, i: nat, j: nat)
    requires j <= i < |s| && Sorted(s[..i])
    requires forall m | j <= m < i :: Less(s[i], s[m])
    requires j > 0 ==> !Less(s[i], s[j - 1])
    ensures Sorted(Moved(s, i, j)[..i + 1])
  {
    hide Less;
    var x, t := s[i], Moved(s, i, j);
    assert forall m | 0 <= m < j :: t[m] == s[m];
    assert forall m | j < m <= i :: t[m] == s[m - 1];
    assert forall k, m | 0 <= k < m < i :: !Less(s[..i][m], s[..i][k]);
    forall m | 0 <= m < j ensures !Less(x, s[m]) {
      NotLessTransitive(s[m], s[j - 1], x);
    }
    forall m | j <= m < i ensures !Less(s[m], x) {
      LessTotal(x, s[m]);
    }
  }

  lemma NotLessTransitive(a: string, b: string, c: string)
    requires (a == b || !Less(b, a)) && !Less(c, b)
    ensures !Less(c, a)
  {
    hide Less;
    LessTotal(a, b);
    LessTotal(b, c);
    LessTotal(a, c);
    if Less(a, b) && Less(b, c) {
      LessTransitive(a, b, c);
    }
  }

  // In-place insertion sort.
  method SortStrings(a: array<string>)
    modifies a
    ensures Sorted(a[..]) && Permutation(a[..], old(a[..]))
  {
    hide Less;
    var i := 0;
    while i < a.Length
      invariant i <= a.Length && Sorted(a[..i])
      invariant Permutation(a[..], old(a[..]))
    {
      Insert(a, i);
      i := i + 1;
    }
    assert a[..] == a[..a.Length];
  }

  // The inner loop: sink a[i] into the sorted prefix a[..i].
  method Insert(a: array<string>, i: nat)
    requires i < a.Length && Sorted(a[..i])
    modifies a
    ensures Sorted(a[..i + 1]) && Permutation(a[..], old(a[..]))
  {
    hide Less, Sorted, Permutation, Moved;
    ghost var s := a[..];
    var j := i;
    MovedNowhere(s, i);
    while j > 0 && Less(a[j], a[j - 1])
      invariant 0 <= j <= i && a[..] == Moved(s, i, j)
      invariant forall m | j <= m < i :: Less(s[i], s[m])
    {
      MovedDownOne(s, i, j);
      a[j], a[j - 1] := a[j - 1], a[j];
      j := j - 1;
    }
    if j > 0 {
      MovedDownOne(s, i, j);
    }
    assert s[..i] == old(a[..i]);
    MovedSorts(s, i, j);
    MovedPermutes(s, i, j);
    assert a[..i + 1] == Moved(s, i, j)[..i + 1];
  }

  /******* JoinScopes *******/

  ghost predicate IsLeast(m: string, s: set<string>) {
    m in s && forall x | x in s :: x == m || Less(m, x)
  }

  lemma LeastExists(s: set<string>) returns (m: string)
    requires s != {}
    ensures IsLeast(m, s)
  {
    hide Less;
    var y :| y in s;
    m := y;
    if s != {y} {
      var m' := LeastExists(s - {y});
      LessTotal(m', y);
      if Less(m', y) {
        m := m';
      } else {
        forall x | x in s - {y} ensures Less(y, x) {
          if x != m' {
            LessTransitive(y, m', x);
          }
        }
      }
    }
  }

  // The sorted enumeration of a set.
  ghost function SortedSeq(s: set<string>): (xs: seq<string>)
    ensures StrictlySorted(xs) && Elements(xs) == s
  {
    hide Less;
    if s == {} then []
    else
      assert exists m :: IsLeast(m, s) by { var m := LeastExists(s); }
      var m :| IsLeast(m, s);
      var rest := SortedSeq(s - {m});
      assert Elements([m] + rest) == {m} + Elements(rest);
      [m] + rest
  }

  ghost function Joined(s: set<string>): string {
    Join(SortedSeq(s), " ")
  }

  // The result does not depend on the order in which the map is ranged over.
  method JoinScopes(scopes: set<string>) returns (out: string)
    ensures out == Joined(scopes)
  {
    var parts: seq<string> := [];
    var rest := scopes;
    while rest != {}
      invariant rest <= scopes && Elements(parts) == scopes - rest
      invariant Distinct(parts)
    {
      var s :| s in rest;
      assert Elements(parts + [s]) == Elements(parts) + {s};
      parts := parts + [s];
      rest := rest - {s};
    }
    var a := new string[|parts|](i requires 0 <= i < |parts| => parts[i]);
    assert a[..] == parts;
    SortStrings(a);
    var sorted := a[..];
    PermutationKeeps(sorted, parts);
    SortedDistinct(sorted);
    SortedEnumerationUnique(sorted, SortedSeq(scopes));
    out := Join(sorted, " ");
  }

  lemma PermutationKeeps(xs: seq<string>, ys: seq<string>)
    requires Permutation(xs, ys) && Distinct(ys)
    ensures Distinct(xs) && Elements(xs) == Elements(ys)
  {
    forall x ensures x in xs <==> x in ys {
      assert x in xs <==> x in multiset(xs);
      assert x in ys <==> x in multiset(ys);
    }
    DistinctCounts(ys);
    forall i, j | 0 <= i < j < |xs| ensures xs[i] != xs[j] {
      assert xs == xs[..j] + [xs[j]] + xs[j + 1..];
      assert xs[i] in multiset(xs[..j]);
      assert multiset(xs)[xs[j]] == multiset(xs[..j])[xs[j]] + 1 + multiset(xs[j + 1..])[xs[j]];
    }
  }

  lemma {:induction false} DistinctCounts(ys: seq<string>)
    requires Distinct(ys)
    ensures forall y :: multiset(ys)[y] <= 1
  {
    if ys != [] {
      DistinctCounts(ys[1..]);
      assert ys == [ys[0]] + ys[1..];
      assert ys[0] !in ys[1..];
    }
  }

  // For sets of words, JoinScopes loses nothing.
  lemma ScopeSetOfJoined(s: set<string>)
    requires forall w | w in s :: IsWord(w)
    ensures ScopeSet(Joined(s)) == s
    ensures Joined(s) == "" <==> s == {}
  {
    assert Elements(SortedSeq(s)) == s;
    FieldsJoin(SortedSeq(s));
    if s != {} {
      assert SortedSeq(s) != [];
      JoinOfWordsNotEmpty(SortedSeq(s));
    }
  }

  /******* narrowScope *******/

  ghost function Ceiling(incoming: string, max: seq<string>): set<string> {
    var cap := ScopeSet(Join(max, " "));
    if incoming != "" then cap * ScopeSet(incoming) else cap
  }

  ghost function Narrow(requested: string, incoming: string, max: seq<string>): Option<string> {
    if Blank(requested) then Some(Joined(Ceiling(incoming, max)))
    else if ScopeSet(requested) <= Ceiling(incoming, max) then Some(Joined(ScopeSet(requested)))
    else None
  }

  method NarrowScope(requested: string, incoming: string, max: seq<string>) returns (out: Option<string>)
    ensures out == Narrow(requested, incoming, max)
  {
    var ceiling := ScopeSetOf(Join(max, " "));
    if incoming != "" {
      var from := ScopeSetOf(incoming);
      ceiling := Intersect(ceiling, from);
    }
    TrimSpaceEmpty(requested);
    var want := ceiling;
    if TrimSpace(requested) != "" {
      want := ScopeSetOf(requested);
      var ok := SubsetOf(want, ceiling);
      if !ok {
        return None;
      }
    }
    var s := JoinScopes(want);
    out := Some(s);
  }

  // What is issued is what was asked for (or the whole ceiling), never more
  // than the agent's max_scopes.
  lemma NarrowMeaning(requested: string, incoming: string, max: seq<string>)
    ensures var out := Narrow(requested, incoming, max);
      && (out.Some? <==> Blank(requested) || ScopeSet(requested) <= Ceiling(incoming, max))
      && (out.Some? ==>
            && ScopeSet(out.value) == (if Blank(requested) then Ceiling(incoming, max) else ScopeSet(requested))
            && ScopeSet(out.value) <= ScopeSet(Join(max, " "))
            && (incoming != "" ==> ScopeSet(out.value) <= ScopeSet(incoming)))
  {
    ScopeSetOfJoined(Ceiling(incoming, max));
    ScopeSetOfJoined(ScopeSet(requested));
  }

  // A hop that is not refused narrows its subject token exactly when that
  // token's scope text is not empty or the agent may have no scope at all: an
  // empty text means "no ceiling".
  lemma HopNarrowsIff(requested: string, incoming: string, max: seq<string>)
    requires Narrow(requested, incoming, max).Some?
    ensures ScopeSet(Narrow(requested, incoming, max).value) <= ScopeSet(incoming)
       <==> incoming != "" || ScopeSet(Join(max, " ")) == {}
  {
    NarrowMeaning(requested, incoming, max);
    FieldsNone(requested);
    assert ScopeSet("") == {};
    if !Blank(requested) {
      assert Fields(requested)[0] in ScopeSet(requested);
    }
  }

  lemma SingleScope(w: string)
    requires IsWord(w)
    ensures ScopeSet(w) == {w} && Joined({w}) == w && Join([w], " ") == w
  {
    FieldsJoin([w]);
    SortedEnumerationUnique(SortedSeq({w}), [w]);
  }

  lemma SingleScopes()
    ensures ScopeSet("read") == {"read"} && ScopeSet("admin") == {"admin"} && Joined({"admin"}) == "admin"
    ensures ScopeSet(Join(["write"], " ")) == {"write"} && ScopeSet(Join(["admin"], " ")) == {"admin"}
  {
    hide ScopeSet, Joined, Join;
    SingleScope("read");
    SingleScope("write");
    SingleScope("admin");
  }

  // Two hops that widen: the first narrows {"read"} against {"write"} to the
  // empty text, and the second hop's agent then gets its full max_scopes.
  lemma EmptyScopeWidens()
    ensures Narrow("", "read", ["write"]) == Some("")
    ensures Narrow("", "", ["admin"]) == Some("admin")
    ensures !(ScopeSet("admin") <= ScopeSet("read"))
  {
    hide ScopeSet, Joined, Join;
    SingleScopes();
    ScopeSetOfJoined({});
    assert "read"[0] != "write"[0] && "read"[0] != "admin"[0];
    assert Ceiling("read", ["write"]) == {};
    assert Ceiling("", ["admin"]) == {"admin"};
    assert "admin" in ScopeSet("admin") && "admin" !in ScopeSet("read");
  }
}
