/** sort.SliceStable: what it promises, and the one result that keeps the
    promise, as an insertion sort. */
module StableSort {

  // Place x after everything it is not less than, scanning from the right.
  function Insert<T>(ys: seq<T>, x: T, less: (T, T) -> bool): seq<T> {
    if ys == [] || !less(x, ys[|ys| - 1]) then ys + [x]
    else Insert(ys[..|ys| - 1], x, less) + [ys[|ys| - 1]]
  }

  function Sort<T>(xs: seq<T>, less: (T, T) -> bool): seq<T> {
    if xs == [] then []
    else Insert(Sort(xs[..|xs| - 1], less), xs[|xs| - 1], less)
  }

  function Filter<T>(xs: seq<T>, keep: T -> bool): seq<T> {
    if xs == [] then []
    else Filter(xs[..|xs| - 1], keep) + if keep(xs[|xs| - 1]) then [xs[|xs| - 1]] else []
  }

  ghost predicate StrictWeakOrder<T(!new)>(less: (T, T) -> bool) {
    && (forall x, y :: !(less(x, y) && less(y, x)))
    && (forall x, y, z :: !less(x, y) && !less(y, z) ==> !less(x, z))
  }

  ghost predicate Sorted<T>(xs: seq<T>, less: (T, T) -> bool) {
    forall i, j | 0 <= i < j < |xs| :: !less(xs[j], xs[i])
  }

  lemma FilterSnoc<T>(xs: seq<T>, x: T, keep: T -> bool)
    ensures Filter(xs + [x], keep) == Filter(xs, keep) + if keep(x) then [x] else []
  {
    assert (xs + [x])[..|xs|] == xs;
  }

  lemma {:induction false} FilterConcat<T>(a: seq<T>, b: seq<T>, keep: T -> bool)
    ensures Filter(a + b, keep) == Filter(a, keep) + Filter(b, keep)
  {
    if b == [] {
      assert a + b == a;
    } else {
      var b' := b[..|b| - 1];
      FilterConcat(a, b', keep);
      FilterSnoc(a + b', b[|b| - 1], keep);
      assert a + b == (a + b') + [b[|b| - 1]];
    }
  }

  lemma {:induction false} FilterMembers<T>(xs: seq<T>, keep: T -> bool)
    ensures forall x :: x in Filter(xs, keep) <==> x in xs && keep(x)
  {
    if xs != [] {
      FilterMembers(xs[..|xs| - 1], keep);
      assert xs == xs[..|xs| - 1] + [xs[|xs| - 1]];
    }
  }

  lemma {:induction false} FilterCounts<T>(xs: seq<T>, keep: T -> bool, x: T)
    ensures multiset(Filter(xs, keep))[x] == if keep(x) then multiset(xs)[x] else 0
  {
    if xs != [] {
      FilterCounts(xs[..|xs| - 1], keep, x);
      assert xs == xs[..|xs| - 1] + [xs[|xs| - 1]];
    }
  }

  lemma {:induction false} FilterTwice<T>(xs: seq<T>, p: T -> bool, q: T -> bool)
    requires forall x | x in xs :: p(x) ==> q(x)
    ensures Filter(Filter(xs, p), q) == Filter(xs, p)
  {
    if xs != [] {
      var xs', x := xs[..|xs| - 1], xs[|xs| - 1];
      FilterTwice(xs', p, q);
      FilterSnoc(Filter(xs', p), x, q);
      assert !p(x) ==> Filter(xs, p) == Filter(xs', p);
    }
  }

  lemma {:induction false} FilterNone<T>(xs: seq<T>, keep: T -> bool)
    requires forall x | x in xs :: !keep(x)
    ensures Filter(xs, keep) == []
  {
    if xs != [] {
      FilterNone(xs[..|xs| - 1], keep);
    }
  }

  lemma {:induction false} InsertMembers<T>(ys: seq<T>, x: T, less: (T, T) -> bool)
    ensures multiset(Insert(ys, x, less)) == multiset(ys) + multiset{x}
  {
    if !(ys == [] || !less(x, ys[|ys| - 1])) {
      InsertMembers(ys[..|ys| - 1], x, less);
      assert ys == ys[..|ys| - 1] + [ys[|ys| - 1]];
    }
  }

  lemma {:induction false} InsertSorts<T(!new)>(ys: seq<T>, x: T, less: (T, T) -> bool)
    requires StrictWeakOrder(less) && Sorted(ys, less)
    ensures Sorted(Insert(ys, x, less), less)
  {
    var r := Insert(ys, x, less);
    if ys == [] || !less(x, ys[|ys| - 1]) {
      forall i, j | 0 <= i < j < |r| ensures !less(r[j], r[i]) {
        if j == |ys| {
          assert i < |ys| - 1 ==> !less(ys[|ys| - 1], ys[i]);
        }
      }
    } else {
      var ys', y := ys[..|ys| - 1], ys[|ys| - 1];
      InsertSorts(ys', x, less);
      InsertMembers(ys', x, less);
      var r' := Insert(ys', x, less);
      forall i | 0 <= i < |r'| ensures !less(y, r'[i]) {
        assert r'[i] in multiset(r');
        if r'[i] != x {
          assert r'[i] in ys';
          var k :| 0 <= k < |ys'| && ys'[k] == r'[i];
          assert ys[k] == r'[i];
        }
      }
    }
  }

  // Sorted, and the same elements.
  lemma {:induction false} SortSorts<T(!new)>(xs: seq<T>, less: (T, T) -> bool)
    requires StrictWeakOrder(less)
    ensures Sorted(Sort(xs, less), less) && multiset(Sort(xs, less)) == multiset(xs)
  {
    if xs != [] {
      var init, x := xs[..|xs| - 1], xs[|xs| - 1];
      assert xs == init + [x];
      SortSnoc(init, x, less);
      hide Sort, Insert, StrictWeakOrder, Sorted;
      SortSorts(init, less);
      InsertSorts(Sort(init, less), x, less);
      InsertMembers(Sort(init, less), x, less);
    }
  }

  lemma {:induction false} InsertAtEnd<T>(ys: seq<T>, x: T, less: (T, T) -> bool)
    requires forall y | y in ys :: !less(x, y)
    ensures Insert(ys, x, less) == ys + [x]
  {
  }

  lemma InsertSnoc<T>(ys: seq<T>, y: T, x: T, less: (T, T) -> bool)
    ensures Insert(ys + [y], x, less) == if less(x, y) then Insert(ys, x, less) + [y] else ys + [y] + [x]
  {
    assert (ys + [y])[..|ys|] == ys;
  }

  lemma SortSnoc<T>(xs: seq<T>, x: T, less: (T, T) -> bool)
    ensures Sort(xs + [x], less) == Insert(Sort(xs, less), x, less)
  {
    assert (xs + [x])[..|xs|] == xs;
  }

  // What is kept of a sorted sequence is not above anything x is not below.
  lemma NotLessThanKept<T(!new)>(ys: seq<T>, x: T, less: (T, T) -> bool, keep: T -> bool)
    requires StrictWeakOrder(less) && Sorted(ys, less)
    requires ys == [] || !less(x, ys[|ys| - 1])
    ensures forall y | y in Filter(ys, keep) :: !less(x, y)
  {
    FilterMembers(ys, keep);
    forall y | y in Filter(ys, keep) ensures !less(x, y) {
      var k :| 0 <= k < |ys| && ys[k] == y;
      assert k < |ys| - 1 ==> !less(ys[|ys| - 1], ys[k]);
    }
  }

  lemma {:induction false} FilterInsert<T(!new)>(ys: seq<T>, x: T, less: (T, T) -> bool, keep: T -> bool)
    requires StrictWeakOrder(less) && Sorted(ys, less)
    ensures Filter(Insert(ys, x, less), keep)
         == if keep(x) then Insert(Filter(ys, keep), x, less) else Filter(ys, keep)
    decreases |ys|
  {
    hide StrictWeakOrder, Filter;
    if ys == [] || !less(x, ys[|ys| - 1]) {
      FilterSnoc(ys, x, keep);
      NotLessThanKept(ys, x, less, keep);
      InsertAtEnd(Filter(ys, keep), x, less);
      assert Filter(ys, keep) + [] == Filter(ys, keep);
    } else {
      var ys', y := ys[..|ys| - 1], ys[|ys| - 1];
      assert ys == ys' + [y];
      FilterInsert(ys', x, less, keep);
      FilterInsertStep(ys', y, x, less, keep);
    }
  }

  lemma FilterInsertStep<T(!new)>(ys: seq<T>, y: T, x: T, less: (T, T) -> bool, keep: T -> bool)
    requires less(x, y)
    requires Filter(Insert(ys, x, less), keep)
          == if keep(x) then Insert(Filter(ys, keep), x, less) else Filter(ys, keep)
    ensures Filter(Insert(ys + [y], x, less), keep)
         == if keep(x) then Insert(Filter(ys + [y], keep), x, less) else Filter(ys + [y], keep)
  {
    InsertSnoc(ys, y, x, less);
    FilterSnoc(Insert(ys, x, less), y, keep);
    FilterSnoc(ys, y, keep);
    InsertSnoc(Filter(ys, keep), y, x, less);
    hide Filter, Insert;
    if !keep(y) {
      assert Filter(ys + [y], keep) == Filter(ys, keep);
    }
  }

  // Stable sorting commutes with dropping elements.
  lemma {:induction false} FilterSort<T(!new)>(xs: seq<T>, less: (T, T) -> bool, keep: T -> bool)
    requires StrictWeakOrder(less)
    ensures Filter(Sort(xs, less), keep) == Sort(Filter(xs, keep), less)
    decreases |xs|
  {
    if xs != [] {
      var xs', x := xs[..|xs| - 1], xs[|xs| - 1];
      assert xs == xs' + [x];
      FilterSort(xs', less, keep);
      SortSorts(xs', less);
      FilterInsert(Sort(xs', less), x, less, keep);
      SortSnoc(xs', x, less);
      FilterSnoc(xs', x, keep);
      SortSnoc(Filter(xs', keep), x, less);
      hide Filter, Insert, Sort;
      if !keep(x) {
        assert Filter(xs, keep) == Filter(xs', keep);
      }
    }
  }

  lemma {:induction false} SortOfSorted<T>(xs: seq<T>, less: (T, T) -> bool)
    requires Sorted(xs, less)
    ensures Sort(xs, less) == xs
  {
    if xs != [] {
      var xs', x := xs[..|xs| - 1], xs[|xs| - 1];
      SortOfSorted(xs', less);
      InsertAtEnd(xs', x, less);
    }
  }

  // Stability: elements none of which is less than another keep their order.
  lemma SortIsStable<T(!new)>(xs: seq<T>, less: (T, T) -> bool, keep: T -> bool)
    requires StrictWeakOrder(less)
    requires forall x, y | keep(x) && keep(y) :: !less(x, y)
    ensures Filter(Sort(xs, less), keep) == Filter(xs, keep)
  {
    FilterSort(xs, less, keep);
    FilterMembers(xs, keep);
    var f := Filter(xs, keep);
    forall i, j | 0 <= i < j < |f| ensures !less(f[j], f[i]) {
      assert f[i] in f && f[j] in f;
    }
    SortOfSorted(f, less);
  }

  /******* Where the kept elements sit *******/

  ghost predicate Increasing(idx: seq<nat>, bound: nat) {
    && (forall m | 0 <= m < |idx| :: idx[m] < bound)
    && (forall m, n | 0 <= m < n < |idx| :: idx[m] < idx[n])
  }

  lemma FilterAt<T>(xs: seq<T>, keep: T -> bool, i: nat)
    requires i < |xs| && keep(xs[i])
    ensures |Filter(xs[..i], keep)| < |Filter(xs, keep)| && Filter(xs, keep)[|Filter(xs[..i], keep)|] == xs[i]
  {
    hide Filter;
    FilterSnoc(xs[..i], xs[i], keep);
    FilterConcat(xs[..i] + [xs[i]], xs[i + 1..], keep);
    assert xs == xs[..i] + [xs[i]] + xs[i + 1..];
  }

  // Kept elements keep their order.
  lemma FilterEmbeds<T>(xs: seq<T>, keep: T -> bool, idx: seq<nat>) returns (pos: seq<nat>)
    requires Increasing(idx, |xs|) && forall m | 0 <= m < |idx| :: keep(xs[idx[m]])
    ensures |pos| == |idx| && Increasing(pos, |Filter(xs, keep)|)
    ensures forall m | 0 <= m < |idx| :: Filter(xs, keep)[pos[m]] == xs[idx[m]]
  {
    hide Filter;
    pos := seq(|idx|, m requires 0 <= m < |idx| => |Filter(xs[..idx[m]], keep)|);
    forall m | 0 <= m < |idx| ensures pos[m] < |Filter(xs, keep)| && Filter(xs, keep)[pos[m]] == xs[idx[m]] {
      FilterAt(xs, keep, idx[m]);
    }
    forall m, n | 0 <= m < n < |idx| ensures pos[m] < pos[n] {
      FilterAt(xs[..idx[n]], keep, idx[m]);
      assert xs[..idx[n]][..idx[m]] == xs[..idx[m]];
    }
  }

  // And every element of the filtered sequence comes from the original.
  lemma {:induction false} FilterOrigins<T>(xs: seq<T>, keep: T -> bool) returns (idx: seq<nat>)
    ensures |idx| == |Filter(xs, keep)| && Increasing(idx, |xs|)
    ensures forall p | 0 <= p < |idx| :: xs[idx[p]] == Filter(xs, keep)[p]
  {
    if xs == [] {
      idx := [];
    } else {
      var xs', x := xs[..|xs| - 1], xs[|xs| - 1];
      assert xs == xs' + [x];
      FilterSnoc(xs', x, keep);
      hide Filter;
      var before := FilterOrigins(xs', keep);
      idx := before + if keep(x) then [|xs'|] else [];
      assert forall p | 0 <= p < |before| :: xs[idx[p]] == xs'[before[p]] == Filter(xs, keep)[p];
    }
  }

  lemma FilterSorted<T>(xs: seq<T>, less: (T, T) -> bool, keep: T -> bool)
    requires Sorted(xs, less)
    ensures Sorted(Filter(xs, keep), less)
  {
    var idx := FilterOrigins(xs, keep);
    hide Filter;
    forall i, j | 0 <= i < j < |Filter(xs, keep)| ensures !less(Filter(xs, keep)[j], Filter(xs, keep)[i]) {
      assert !less(xs[idx[j]], xs[idx[i]]);
    }
  }

  /******* Any stable sort *******/

  // ys is xs rearranged by perm: sorted, and elements neither of which is less
  // than the other keep their order.
  ghost predicate Arranges<T>(xs: seq<T>, ys: seq<T>, less: (T, T) -> bool, perm: seq<nat>) {
    && |ys| == |xs| && Rearranges(xs, ys, perm)
    && forall i, j | 0 <= i < j < |ys| :: !less(ys[j], ys[i]) && (less(ys[i], ys[j]) || perm[i] < perm[j])
  }

  ghost predicate Rearranges<T>(xs: seq<T>, ys: seq<T>, perm: seq<nat>) {
    && |perm| == |ys| && (forall i | 0 <= i < |ys| :: perm[i] < |xs| && ys[i] == xs[perm[i]])
    && forall i, j | 0 <= i < j < |ys| :: perm[i] != perm[j]
  }

  // What sort.SliceStable promises.
  ghost predicate IsStableSort<T>(xs: seq<T>, ys: seq<T>, less: (T, T) -> bool) {
    exists perm: seq<nat> :: Arranges(xs, ys, less, perm)
  }

  ghost function Below(n: nat): (r: set<nat>)
    ensures |r| == n && forall v: nat :: v in r <==> v < n
  {
    if n == 0 then {} else Below(n - 1) + {n - 1}
  }

  ghost function Members(xs: seq<nat>): (r: set<nat>)
    ensures forall v :: v in r <==> v in xs
  {
    set v | v in xs
  }

  lemma {:induction false} DistinctCount(perm: seq<nat>)
    requires forall i, j | 0 <= i < j < |perm| :: perm[i] != perm[j]
    ensures |Members(perm)| == |perm|
  {
    if perm != [] {
      var init, last := perm[..|perm| - 1], perm[|perm| - 1];
      DistinctCount(init);
      assert perm == init + [last] && last !in init;
      assert Members(perm) == Members(init) + {last};
    }
  }

  lemma {:induction false} SubsetSize(a: set<nat>, b: set<nat>)
    requires a <= b
    ensures |a| <= |b|
  {
    if a != {} {
      var x: nat :| x in a;
      SubsetSize(a - {x}, b - {x});
    }
  }

  // Distinct indices below n, n of them, include the last.
  lemma LastIsThere(perm: seq<nat>, n: nat)
    requires 0 < n == |perm| && forall i | 0 <= i < n :: perm[i] < n
    requires forall i, j | 0 <= i < j < n :: perm[i] != perm[j]
    ensures n - 1 in perm
  {
    if n - 1 !in perm {
      DistinctCount(perm);
      SubsetSize(Members(perm), Below(n - 1));
    }
  }

  function Without<T>(xs: seq<T>, q: nat): (r: seq<T>)
    requires q < |xs|
    ensures |r| == |xs| - 1
    ensures forall i | 0 <= i < |r| :: r[i] == if i < q then xs[i] else xs[i + 1]
  {
    xs[..q] + xs[q + 1..]
  }

  // Where Insert puts x: before exactly the elements at q and later.
  lemma {:induction false} InsertAt<T>(ys: seq<T>, x: T, less: (T, T) -> bool, q: nat)
    requires q <= |ys| && (forall i | q <= i < |ys| :: less(x, ys[i])) && (q == 0 || !less(x, ys[q - 1]))
    ensures Insert(ys, x, less) == ys[..q] + [x] + ys[q..]
    decreases |ys|
  {
    if q == |ys| {
      assert ys[..q] == ys && ys[q..] == [];
    } else {
      var ys' := ys[..|ys| - 1];
      InsertAt(ys', x, less, q);
      assert ys'[..q] == ys[..q] && ys'[q..] + [ys[|ys| - 1]] == ys[q..];
    }
  }

  // Dropping the last element of xs from an arrangement leaves one of the rest.
  lemma DropLast<T>(xs: seq<T>, ys: seq<T>, less: (T, T) -> bool, perm: seq<nat>, q: nat)
    requires Arranges(xs, ys, less, perm) && q < |perm| && perm[q] == |xs| - 1
    ensures Arranges(xs[..|xs| - 1], Without(ys, q), less, Without(perm, q))
    ensures forall i | q < i < |ys| :: less(xs[|xs| - 1], ys[i])
    ensures forall i | 0 <= i < q :: !less(xs[|xs| - 1], ys[i])
  {
  }

  // There is one stable sort: whatever arranges xs is Sort(xs).
  lemma {:induction false} StableSortIsUnique<T>(xs: seq<T>, ys: seq<T>, less: (T, T) -> bool, perm: seq<nat>)
    requires Arranges(xs, ys, less, perm)
    ensures ys == Sort(xs, less)
    decreases |xs|
  {
    hide Insert, Without;
    if xs != [] {
      var n := |xs| - 1;
      LastIsThere(perm, |xs|);
      var q: nat :| q < |perm| && perm[q] == n;
      DropLast(xs, ys, less, perm, q);
      hide Arranges;
      StableSortIsUnique(xs[..n], Without(ys, q), less, Without(perm, q));
      Restored(ys, xs[n], less, q);
    }
  }

  lemma Restored<T>(ys: seq<T>, x: T, less: (T, T) -> bool, q: nat)
    requires q < |ys| && ys[q] == x
    requires (forall i | q < i < |ys| :: less(x, ys[i])) && forall i | 0 <= i < q :: !less(x, ys[i])
    ensures Insert(Without(ys, q), x, less) == ys
  {
    hide Insert;
    var rest := Without(ys, q);
    InsertAt(rest, x, less, q);
    assert rest[..q] == ys[..q] && rest[q..] == ys[q + 1..];
    assert ys == ys[..q] + [x] + ys[q + 1..];
  }

  // x is less than the elements from q on and than none before.
  ghost predicate SplitsAt<T>(ys: seq<T>, x: T, less: (T, T) -> bool, q: nat) {
    q <= |ys| && (forall i | q <= i < |ys| :: less(x, ys[i])) && (forall i | 0 <= i < q :: !less(x, ys[i]))
  }

  lemma {:induction false} Place<T(!new)>(ys: seq<T>, x: T, less: (T, T) -> bool) returns (q: nat)
    requires StrictWeakOrder(less) && Sorted(ys, less)
    ensures SplitsAt(ys, x, less, q)
    decreases |ys|
  {
    if ys == [] || !less(x, ys[|ys| - 1]) {
      q := |ys|;
      forall i | 0 <= i < q ensures !less(x, ys[i]) {
        assert i < |ys| - 1 ==> !less(ys[|ys| - 1], ys[i]);
      }
    } else {
      q := Place(ys[..|ys| - 1], x, less);
    }
  }

  function Splice<T>(ys: seq<T>, x: T, q: nat): seq<T>
    requires q <= |ys|
  {
    ys[..q] + [x] + ys[q..]
  }

  lemma SpliceAt<T>(ys: seq<T>, x: T, q: nat)
    requires q <= |ys|
    ensures |Splice(ys, x, q)| == |ys| + 1 && Splice(ys, x, q)[q] == x
    ensures forall i | 0 <= i < q :: Splice(ys, x, q)[i] == ys[i]
    ensures forall i | q < i <= |ys| :: Splice(ys, x, q)[i] == ys[i - 1]
  {
  }

  lemma InsertSplices<T>(ys: seq<T>, x: T, less: (T, T) -> bool, q: nat)
    requires SplitsAt(ys, x, less, q)
    ensures q <= |ys| && Insert(ys, x, less) == Splice(ys, x, q)
  {
    hide Insert;
    InsertAt(ys, x, less, q);
  }

  lemma Spliced<T(!new)>(xs: seq<T>, ys: seq<T>, less: (T, T) -> bool, before: seq<nat>, q: nat)
    requires xs != [] && Arranges(xs[..|xs| - 1], ys, less, before) && SplitsAt(ys, xs[|xs| - 1], less, q)
    requires StrictWeakOrder(less)
    ensures |before| == |ys|
    ensures Arranges(xs, Splice(ys, xs[|xs| - 1], q), less, Splice<nat>(before, |xs| - 1, q))
  {
    hide Splice;
    var x := xs[|xs| - 1];
    var n: nat := |xs| - 1;
    var zs, perm := Splice(ys, x, q), Splice<nat>(before, n, q);
    SpliceAt(ys, x, q);
    SpliceAt<nat>(before, n, q);
    forall i | 0 <= i < |zs| ensures perm[i] < |xs| && zs[i] == xs[perm[i]] {
      var k := if i < q then i else i - 1;
      assert i != q ==> ys[k] == xs[..n][before[k]];
    }
    forall i, j | 0 <= i < j < |zs| ensures InOrder(zs[i], zs[j], perm[i], perm[j], less) {
      var k, l := if i < q then i else i - 1, if j < q then j else j - 1;
      assert i != q && j != q ==> InOrder(ys[k], ys[l], before[k], before[l], less);
      assert i == q ==> less(x, ys[l]) && before[l] < n;
      assert j == q ==> !less(x, ys[k]) && before[k] < n;
    }
    assert forall i, j | 0 <= i < j < |zs| ::
      InOrder(zs[i], zs[j], perm[i], perm[j], less) ==> perm[i] != perm[j] && !less(zs[j], zs[i]);
  }

  ghost predicate InOrder<T>(x: T, y: T, p: nat, q: nat, less: (T, T) -> bool) {
    !less(y, x) && (less(x, y) || p < q) && p != q
  }

  lemma EmptyArranges<T>(less: (T, T) -> bool)
    ensures Arranges([], Sort([], less), less, [])
  {
  }

  lemma SortArrangesStep<T(!new)>(xs: seq<T>, less: (T, T) -> bool, before: seq<nat>) returns (perm: seq<nat>)
    requires StrictWeakOrder(less) && xs != []
    requires Arranges(xs[..|xs| - 1], Sort(xs[..|xs| - 1], less), less, before)
    ensures Arranges(xs, Sort(xs, less), less, perm)
  {
    hide Sort, Insert, StrictWeakOrder, Sorted, Arranges, SplitsAt, Splice;
    var init, x := xs[..|xs| - 1], xs[|xs| - 1];
    assert xs == init + [x];
    SortSorts(init, less);
    SortSnoc(init, x, less);
    var q := Place(Sort(init, less), x, less);
    InsertSplices(Sort(init, less), x, less, q);
    Spliced(xs, Sort(init, less), less, before, q);
    var last: nat := |xs| - 1;
    perm := Splice<nat>(before, last, q);
  }

  // And Sort is one.
  lemma {:induction false} SortArranges<T(!new)>(xs: seq<T>, less: (T, T) -> bool) returns (perm: seq<nat>)
    requires StrictWeakOrder(less)
    ensures Arranges(xs, Sort(xs, less), less, perm)
    decreases |xs|
  {
    hide Sort, StrictWeakOrder, Arranges;
    if xs == [] {
      EmptyArranges(less);
      perm := [];
    } else {
      var before := SortArranges(xs[..|xs| - 1], less);
      perm := SortArrangesStep(xs, less, before);
    }
  }

  lemma StableSortIff<T(!new)>(xs: seq<T>, ys: seq<T>, less: (T, T) -> bool)
    requires StrictWeakOrder(less)
    ensures IsStableSort(xs, ys, less) <==> ys == Sort(xs, less)
  {
    hide Arranges;
    if IsStableSort(xs, ys, less) {
      var perm: seq<nat> :| Arranges(xs, ys, less, perm);
      StableSortIsUnique(xs, ys, less, perm);
    }
    if ys == Sort(xs, less) {
      var perm := SortArranges(xs, less);
    }
  }
}
