/** Conditions tried in order: all must hold, and the first that does not names
    the refusal. */
module FirstFailure {
  import opened Wrappers

  // What has to hold, and what a request is told when it does not.
  datatype Check<R> = Check(holds: bool, reason: R)

  ghost predicate AllHold<R>(cs: seq<Check<R>>) {
    forall k | 0 <= k < |cs| :: cs[k].holds
  }

  ghost predicate FirstFails<R>(cs: seq<Check<R>>, k: nat) {
    && k < |cs| && !cs[k].holds && forall j | 0 <= j < k :: cs[j].holds
  }

  // Refused with the reason of the first that fails, if one does.
  ghost predicate Decides<R>(cs: seq<Check<R>>, refused: Option<R>) {
    && (refused.None? <==> AllHold(cs))
    && forall k: nat | FirstFails(cs, k) :: refused == Some(cs[k].reason)
  }

  lemma Concat<R>(a: seq<Check<R>>, b: seq<Check<R>>)
    ensures AllHold(a + b) <==> AllHold(a) && AllHold(b)
    ensures forall k: nat ::
      (FirstFails(a + b, k) <==> if k < |a| then FirstFails(a, k) else AllHold(a) && FirstFails(b, k - |a|))
  {
    var cs := a + b;
    assert forall k | 0 <= k < |a| :: cs[k] == a[k];
    assert forall k | 0 <= k < |b| :: cs[k + |a|] == b[k];
    forall k: nat
      ensures FirstFails(cs, k) <==> if k < |a| then FirstFails(a, k) else AllHold(a) && FirstFails(b, k - |a|)
    {
      if FirstFails(cs, k) && k >= |a| {
        forall j | 0 <= j < |a| ensures a[j].holds {
          assert cs[j].holds;
        }
        forall j | 0 <= j < k - |a| ensures b[j].holds {
          assert cs[j + |a|].holds;
        }
      }
    }
  }

  lemma Then<R>(a: seq<Check<R>>, b: seq<Check<R>>, first: Option<R>, second: Option<R>)
    requires Decides(a, first) && Decides(b, second)
    ensures Decides(a + b, if first.Some? then first else second)
  {
    hide AllHold, FirstFails;
    Concat(a, b);
    if first.Some? {
      SomeFails(a);
    }
  }

  lemma {:induction false} SomeFails<R>(cs: seq<Check<R>>)
    requires !AllHold(cs)
    ensures exists k: nat :: FirstFails(cs, k)
  {
    var init := cs[..|cs| - 1];
    if AllHold(init) {
      assert forall j | 0 <= j < |init| :: cs[j] == init[j];
      assert FirstFails(cs, |init|);
    } else {
      SomeFails(init);
      var k: nat :| FirstFails(init, k);
      assert forall j | 0 <= j < |init| :: cs[j] == init[j];
      assert FirstFails(cs, k);
    }
  }

  lemma Single<R>(c: Check<R>)
    ensures Decides([c], if c.holds then None else Some(c.reason))
  {
    assert [c][0] == c;
  }
}
