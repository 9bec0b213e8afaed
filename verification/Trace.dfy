/** Incident reconstruction from verified audit files and unverified visor
    JSONL (internal/audit/trace.go). */
module Trace {
  import opened Wrappers
  import opened Strings
  import opened AppendLog
  import opened Audit
  import opened StableSort
  import opened Claims

  datatype Record = Record(
    source: string, verified: bool, timestamp: Timestamp, eventType: string, reasonCode: string,
    agentId: string, workload: string, principal: string, audience: string,
    server: string, tool: string, decision: string,
    hops: seq<string>, sessionId: string, txn: string, jti: string, chainIndex: nat)

  datatype Query = Query(txn: string, jti: string)

  // The instant of a timestamp text, where it is one that time.Parse accepts.
  type Parser = string -> Option<int>

  function TimeOf(t: Timestamp, parse: Parser): int {
    match t
    case Formatted(nanos) => nanos
    case RawText(s) => if parse(s).Some? then parse(s).value else ZERO_TIME
  }

  predicate RecordLess(a: Record, b: Record, parse: Parser) {
    var ta, tb := TimeOf(a.timestamp, parse), TimeOf(b.timestamp, parse);
    if ta != tb then
      if (ta == ZERO_TIME) != (tb == ZERO_TIME) then ta != ZERO_TIME else ta < tb
    else if a.verified && b.verified then
      if a.source != b.source then Less(a.source, b.source) else a.chainIndex < b.chainIndex
    else if a.verified != b.verified then a.verified
    else false
  }

  function Before(parse: Parser): (Record, Record) -> bool {
    (a, b) => RecordLess(a, b, parse)
  }

  lemma RecordLessIsStrictWeakOrder(parse: Parser)
    ensures StrictWeakOrder(Before(parse))
  {
    hide Less;
    var less := Before(parse);
    forall x, y ensures !(less(x, y) && less(y, x)) {
      LessTotal(x.source, y.source);
    }
    forall x, y, z | !less(x, y) && !less(y, z) ensures !less(x, z) {
      NotLessSource(x.source, y.source, z.source);
      NotLessSource(z.source, y.source, x.source);
    }
  }

  lemma NotLessSource(a: string, b: string, c: string)
    ensures Less(a, b) && Less(b, c) ==> Less(a, c)
    ensures a == b || Less(a, b) || Less(b, a)
    ensures a == c || Less(a, c) || Less(c, a)
    ensures b == c || Less(b, c) || Less(c, b)
    ensures !(Less(a, b) && Less(b, a)) && !(Less(a, c) && Less(c, a)) && !(Less(b, c) && Less(c, b))
    ensures !Less(a, a)
  {
    LessTotal(a, b);
    LessTotal(a, c);
    LessTotal(b, c);
    LessTotal(a, a);
    if Less(a, b) && Less(b, c) {
      LessTransitive(a, b, c);
    }
  }

  // Undated records last, then by time; at one time verified records first,
  // by file and by place in it.
  lemma RecordOrder(a: Record, b: Record, parse: Parser)
    ensures var ta, tb := TimeOf(a.timestamp, parse), TimeOf(b.timestamp, parse);
      RecordLess(a, b, parse) <==>
        || (ta != ZERO_TIME && tb == ZERO_TIME)
        || (ta != ZERO_TIME && tb != ZERO_TIME && ta < tb)
        || (ta == tb && a.verified && !b.verified)
        || (ta == tb && a.verified && b.verified && a.source == b.source && a.chainIndex < b.chainIndex)
        || (ta == tb && a.verified && b.verified && Less(a.source, b.source))
    ensures a.timestamp.RawText? ==>
      TimeOf(a.timestamp, parse)
        == match parse(a.timestamp.text) case None => -62135596800 * 1_000_000_000 case Some(t) => t
  {
    LessTotal(a.source, b.source);
  }

  /******* Loading *******/

  function RecordFromEvent(path: string, e: Event): Record {
    Record(path, true, e.timestamp, e.eventType, e.reasonCode, e.agentId, e.workload, e.principal, e.audience,
           "", "", "", e.hops, "", e.txn, e.jti, e.chainIndex)
  }

  function FromEvents(path: string, es: seq<Event>): (r: seq<Record>)
    ensures |r| == |es| && forall i | 0 <= i < |r| :: r[i] == RecordFromEvent(path, es[i])
  {
    seq(|es|, i requires 0 <= i < |es| => RecordFromEvent(path, es[i]))
  }

  // A hash-chained file; a generic one is its parsed lines, or None when a
  // line does not parse.
  datatype AuditFile = AuditFile(path: string, pieces: seq<Piece<Event>>)
  datatype VisorFile = VisorFile(path: string, records: Option<seq<Record>>)

  ghost function LoadAudit(f: AuditFile): Option<seq<Record>> {
    if Readable(f.pieces) && Accepted(Records(f.pieces)) then Some(FromEvents(f.path, Records(f.pieces))) else None
  }

  ghost function LoadAudits(fs: seq<AuditFile>): Option<seq<Record>> {
    if fs == [] then Some([])
    else
      var before, f := LoadAudits(fs[..|fs| - 1]), fs[|fs| - 1];
      if before.None? || Blank(f.path) then before
      else if LoadAudit(f).None? then None
      else Some(before.value + LoadAudit(f).value)
  }

  ghost function LoadVisors(fs: seq<VisorFile>): Option<seq<Record>> {
    if fs == [] then Some([])
    else
      var before, f := LoadVisors(fs[..|fs| - 1]), fs[|fs| - 1];
      if before.None? || Blank(f.path) then before
      else if f.records.None? then None
      else Some(before.value + f.records.value)
  }

  // r is the record of event e of the file at path, field by field.
  ghost predicate Tells(r: Record, path: string, e: Event) {
    && r.source == path && r.verified && r.timestamp == e.timestamp && r.chainIndex == e.chainIndex
    && r.eventType == e.eventType && r.reasonCode == e.reasonCode && r.agentId == e.agentId
    && r.workload == e.workload && r.principal == e.principal && r.audience == e.audience
    && r.hops == e.hops && r.txn == e.txn && r.jti == e.jti
    && r.server == r.tool == r.decision == r.sessionId == ""
  }

  ghost predicate InFiles(fs: seq<AuditFile>, r: Record) {
    exists f, e :: f in fs && !Blank(f.path) && e in Records(f.pieces) && Tells(r, f.path, e)
  }

  // Loading succeeds when every named file is readable and accepted, and then
  // gives the record of each event in them.
  lemma {:induction false} LoadedRecords(fs: seq<AuditFile>)
    ensures LoadAudits(fs).Some? <==>
      forall f | f in fs && !Blank(f.path) :: Readable(f.pieces) && Accepted(Records(f.pieces))
    ensures LoadAudits(fs).Some? ==> forall r :: r in LoadAudits(fs).value <==> InFiles(fs, r)
  {
    hide Accepted, Readable, Records, Blank;
    if fs != [] {
      var init, f := fs[..|fs| - 1], fs[|fs| - 1];
      assert fs == init + [f];
      LoadedRecords(init);
      if LoadAudits(fs).Some? {
        forall r ensures r in LoadAudits(fs).value <==> InFiles(fs, r) {
          InOneMore(init, f, r);
          if !Blank(f.path) {
            InOne(f, r);
          }
        }
      }
    }
  }

  lemma InOneMore(fs: seq<AuditFile>, f: AuditFile, r: Record)
    ensures InFiles(fs + [f], r) <==>
      InFiles(fs, r) || (!Blank(f.path) && exists e :: e in Records(f.pieces) && Tells(r, f.path, e))
  {
    hide Records, Blank, Tells;
    var all := fs + [f];
    if InFiles(fs, r) {
      var g, e :| g in fs && !Blank(g.path) && e in Records(g.pieces) && Tells(r, g.path, e);
      assert g in all;
    }
    if !Blank(f.path) && exists e :: e in Records(f.pieces) && Tells(r, f.path, e) {
      assert f in all;
    }
  }

  lemma InOne(f: AuditFile, r: Record)
    ensures r in FromEvents(f.path, Records(f.pieces)) <==> exists e :: e in Records(f.pieces) && Tells(r, f.path, e)
  {
    var es := Records(f.pieces);
    var rs := FromEvents(f.path, es);
    if r in rs {
      var i :| 0 <= i < |rs| && rs[i] == r;
      assert es[i] in es && Tells(r, f.path, es[i]);
    }
    if exists e :: e in es && Tells(r, f.path, e) {
      var e :| e in es && Tells(r, f.path, e);
      var i :| 0 <= i < |es| && es[i] == e;
      assert rs[i] == r;
    }
  }

  method LoadAuditRecords(f: AuditFile) returns (out: Option<seq<Record>>)
    ensures out == LoadAudit(f)
  {
    hide Complete, VerifyEvent, Accepted, Records, Tip;
    var pieces := f.pieces;
    var prev, recs: seq<Record>, i := GENESIS, [], 0;
    NothingRead(pieces);
    while i < |pieces|
      invariant 0 <= i <= |pieces|
      invariant forall k | 0 <= k < i :: LineOk(pieces, k)
      invariant Accepted(Records(pieces[..i])) && prev == Tip(Records(pieces[..i]))
      invariant recs == FromEvents(f.path, Records(pieces[..i]))
    {
      match pieces[i] {
        case Newline =>
          assert pieces[..i + 1] == pieces[..i] + [pieces[i]];
          RecordsConcat(pieces[..i], [pieces[i]]);
          RecordsOfOne(pieces[i]);
          assert Records(pieces[..i + 1]) == Records(pieces[..i]);
        case Fragment =>
          assert !LineOk(pieces, i);
          return None;
        case Body(e, length) =>
          RecordAt(pieces, i);
          AcceptedSnoc(Records(pieces[..i]), e);
          if length + 1 > MAX_LINE_BYTES || (i + 1 < |pieces| && !pieces[i + 1].Newline?) {
            assert !LineOk(pieces, i);
            return None;
          }
          if !Complete(e) || !VerifyEvent(e, prev, |recs| + 1) {
            NotAcceptedAt(pieces, i);
            return None;
          }
          prev, recs := e.hash, recs + [RecordFromEvent(f.path, e)];
      }
      i := i + 1;
    }
    assert pieces[..i] == pieces;
    return Some(recs);
  }

  /******* Selection *******/

  // The transactions traced; None when the query matches nothing.
  ghost function Transactions(q: Query, verified: seq<Record>): Option<set<string>> {
    if q.jti == "" then Some({q.txn})
    else if forall r | r in verified :: r.jti != q.jti then None
    else
      var minted := set r | r in verified && r.jti == q.jti && r.txn != "" :: r.txn;
      if q.txn == "" then Some(minted)
      else if q.txn in minted then Some({q.txn})
      else None
  }

  predicate KeepsVerified(r: Record, q: Query, txns: set<string>) {
    (r.txn in txns && r.txn != "") || (q.jti != "" && r.jti == q.jti && r.txn == "")
  }

  predicate KeepsUnverified(r: Record, txns: set<string>) {
    (r.txn != "" && r.txn in txns) || (r.sessionId != "" && r.sessionId in txns)
  }

  function PicksVerified(q: Query, txns: set<string>): Record -> bool {
    (r: Record) => KeepsVerified(r, q, txns)
  }

  function PicksUnverified(txns: set<string>): Record -> bool {
    (r: Record) => KeepsUnverified(r, txns)
  }

  function IsVerified(): Record -> bool {
    (r: Record) => r.verified
  }

  function Selected(q: Query, txns: set<string>, verified: seq<Record>, unverified: seq<Record>): seq<Record> {
    Filter(verified, PicksVerified(q, txns)) + Filter(unverified, PicksUnverified(txns))
  }

  datatype TraceError = QueryRequired | AuditUnreadable | VisorUnreadable

  ghost function Traced(query: Query, audits: seq<AuditFile>, visors: seq<VisorFile>, parse: Parser)
    : Result<seq<Record>, TraceError>
  {
    var q := Query(TrimSpace(query.txn), TrimSpace(query.jti));
    if q.txn == "" && q.jti == "" then Err(QueryRequired)
    else if LoadAudits(audits).None? then Err(AuditUnreadable)
    else if LoadVisors(visors).None? then Err(VisorUnreadable)
    else
      var verified := LoadAudits(audits).value;
      match Transactions(q, verified)
      case None => Ok([])
      case Some(txns) => Ok(Sort(Selected(q, txns, verified, LoadVisors(visors).value), Before(parse)))
  }

  // The answers allowed when the sort is only known to be a stable one.
  ghost predicate MayAnswer(query: Query, audits: seq<AuditFile>, visors: seq<VisorFile>, parse: Parser,
                            out: Result<seq<Record>, TraceError>)
  {
    var q := Query(TrimSpace(query.txn), TrimSpace(query.jti));
    if q.txn == "" && q.jti == "" then out == Err(QueryRequired)
    else if LoadAudits(audits).None? then out == Err(AuditUnreadable)
    else if LoadVisors(visors).None? then out == Err(VisorUnreadable)
    else
      var verified := LoadAudits(audits).value;
      match Transactions(q, verified)
      case None => out == Ok([])
      case Some(txns) =>
        out.Ok? && IsStableSort(Selected(q, txns, verified, LoadVisors(visors).value), out.value, Before(parse))
  }

  // There is exactly one: Traced, whatever stable sort is used.
  lemma TracedIsTheAnswer(query: Query, audits: seq<AuditFile>, visors: seq<VisorFile>, parse: Parser,
                          out: Result<seq<Record>, TraceError>)
    ensures MayAnswer(query, audits, visors, parse, out) <==> out == Traced(query, audits, visors, parse)
  {
    hide LoadAudits, LoadVisors, Transactions, Selected, Before, Sort, IsStableSort, StrictWeakOrder;
    var q := Query(TrimSpace(query.txn), TrimSpace(query.jti));
    RecordLessIsStrictWeakOrder(parse);
    if LoadAudits(audits).Some? && LoadVisors(visors).Some? && out.Ok? {
      var verified := LoadAudits(audits).value;
      match Transactions(q, verified)
      case None =>
      case Some(txns) =>
        StableSortIff(Selected(q, txns, verified, LoadVisors(visors).value), out.value, Before(parse));
    }
  }

  method Trace(query: Query, audits: seq<AuditFile>, visors: seq<VisorFile>, parse: Parser)
    returns (out: Result<seq<Record>, TraceError>)
    ensures out == Traced(query, audits, visors, parse)
  {
    var q := Query(TrimSpace(query.txn), TrimSpace(query.jti));
    if q.txn == "" && q.jti == "" {
      return Err(QueryRequired);
    }
    var verified := LoadAll(audits);
    if verified.None? {
      return Err(AuditUnreadable);
    }
    var unverified := LoadGeneric(visors);
    if unverified.None? {
      return Err(VisorUnreadable);
    }
    var txns := ChooseTransactions(q, verified.value);
    if txns.None? {
      return Ok([]);
    }
    var picked := Select(q, txns.value, verified.value, unverified.value);
    return Ok(Sort(picked, Before(parse)));
  }

  method LoadAll(fs: seq<AuditFile>) returns (out: Option<seq<Record>>)
    ensures out == LoadAudits(fs)
  {
    var recs: seq<Record> := [];
    for i := 0 to |fs|
      invariant LoadAudits(fs[..i]) == Some(recs)
    {
      assert fs[..i + 1][..i] == fs[..i];
      TrimSpaceEmpty(fs[i].path);
      if TrimSpace(fs[i].path) != "" {
        var loaded := LoadAuditRecords(fs[i]);
        if loaded.None? {
          LoadFails(fs, i + 1);
          return None;
        }
        recs := recs + loaded.value;
      }
    }
    assert fs[..|fs|] == fs;
    return Some(recs);
  }

  lemma {:induction false} LoadFails(fs: seq<AuditFile>, i: nat)
    requires i <= |fs| && LoadAudits(fs[..i]).None?
    ensures LoadAudits(fs).None?
    decreases |fs| - i
  {
    if i < |fs| {
      assert fs[..i + 1][..i] == fs[..i];
      LoadFails(fs, i + 1);
    } else {
      assert fs[..i] == fs;
    }
  }

  method LoadGeneric(fs: seq<VisorFile>) returns (out: Option<seq<Record>>)
    ensures out == LoadVisors(fs)
  {
    var recs: seq<Record> := [];
    for i := 0 to |fs|
      invariant LoadVisors(fs[..i]) == Some(recs)
    {
      assert fs[..i + 1][..i] == fs[..i];
      TrimSpaceEmpty(fs[i].path);
      if TrimSpace(fs[i].path) != "" {
        if fs[i].records.None? {
          GenericFails(fs, i + 1);
          return None;
        }
        recs := recs + fs[i].records.value;
      }
    }
    assert fs[..|fs|] == fs;
    return Some(recs);
  }

  lemma {:induction false} GenericFails(fs: seq<VisorFile>, i: nat)
    requires i <= |fs| && LoadVisors(fs[..i]).None?
    ensures LoadVisors(fs).None?
    decreases |fs| - i
  {
    if i < |fs| {
      assert fs[..i + 1][..i] == fs[..i];
      GenericFails(fs, i + 1);
    } else {
      assert fs[..i] == fs;
    }
  }

  method ChooseTransactions(q: Query, verified: seq<Record>) returns (out: Option<set<string>>)
    ensures out == Transactions(q, verified)
  {
    if q.jti == "" {
      return Some({q.txn});
    }
    var txns, direct := {}, false;
    for i := 0 to |verified|
      invariant direct <==> exists k | 0 <= k < i :: verified[k].jti == q.jti
      invariant txns == set k | 0 <= k < i && verified[k].jti == q.jti && verified[k].txn != "" :: verified[k].txn
    {
      var r := verified[i];
      if r.jti == q.jti {
        direct := true;
        if r.txn != "" {
          txns := txns + {r.txn};
        }
      }
    }
    assert txns == set r | r in verified && r.jti == q.jti && r.txn != "" :: r.txn;
    if !direct {
      return None;
    }
    if q.txn != "" {
      if q.txn !in txns {
        return None;
      }
      txns := {q.txn};
    }
    return Some(txns);
  }

  method Select(q: Query, txns: set<string>, verified: seq<Record>, unverified: seq<Record>) returns (out: seq<Record>)
    ensures out == Selected(q, txns, verified, unverified)
  {
    out := [];
    for i := 0 to |verified|
      invariant out == Filter(verified[..i], PicksVerified(q, txns))
    {
      var r := verified[i];
      assert verified[..i + 1][..i] == verified[..i];
      if r.txn in txns && r.txn != "" {
        out := out + [r];
      } else if q.jti != "" && r.jti == q.jti && r.txn == "" {
        out := out + [r];
      }
    }
    assert verified[..|verified|] == verified;
    ghost var first := out;
    for i := 0 to |unverified|
      invariant out == first + Filter(unverified[..i], PicksUnverified(txns))
    {
      var r := unverified[i];
      assert unverified[..i + 1][..i] == unverified[..i];
      if r.txn != "" && r.txn in txns {
        out := out + [r];
      } else if r.sessionId != "" && r.sessionId in txns {
        out := out + [r];
      }
    }
    assert unverified[..|unverified|] == unverified;
  }

  /******* What a trace returns *******/

  // x is a transaction the query is about: the one it names, which a jti given
  // with it must confirm, or those the records of its jti carry.
  ghost predicate Traces(txn: string, jti: string, verified: seq<Record>, x: string) {
    && x != "" && (txn != "" ==> x == txn)
    && (jti != "" ==> exists k :: 0 <= k < |verified| && verified[k].jti == jti && verified[k].txn == x)
  }

  // A verified record of such a transaction, or one of the jti that names no
  // transaction, unless a transaction was asked for that the jti is not of.
  ghost predicate ShowsVerified(txn: string, jti: string, verified: seq<Record>, r: Record) {
    || Traces(txn, jti, verified, r.txn)
    || (r.txn == "" && jti != "" && r.jti == jti && (txn != "" ==> Traces(txn, jti, verified, txn)))
  }

  ghost predicate ShowsUnverified(txn: string, jti: string, verified: seq<Record>, r: Record) {
    Traces(txn, jti, verified, r.txn) || Traces(txn, jti, verified, r.sessionId)
  }

  // For every query, by transaction, by jti or by both: the output holds
  // exactly the records shown, each as often as the files do, sorted.
  lemma TraceReturns(query: Query, audits: seq<AuditFile>, visors: seq<VisorFile>, parse: Parser, r: Record)
    requires var t, j := TrimSpace(query.txn), TrimSpace(query.jti); t != "" || j != ""
    requires LoadAudits(audits).Some? && LoadVisors(visors).Some?
    ensures var t, j := TrimSpace(query.txn), TrimSpace(query.jti);
      var v, u, out := LoadAudits(audits).value, LoadVisors(visors).value, Traced(query, audits, visors, parse);
      && out.Ok? && Sorted(out.value, Before(parse))
      && multiset(out.value)[r] == (if ShowsVerified(t, j, v, r) then multiset(v)[r] else 0)
                                 + (if ShowsUnverified(t, j, v, r) then multiset(u)[r] else 0)
  {
    hide LoadAudits, LoadVisors, Sort, Filter, StrictWeakOrder, Before;
    var t, j := TrimSpace(query.txn), TrimSpace(query.jti);
    var q, v, u := Query(t, j), LoadAudits(audits).value, LoadVisors(visors).value;
    RecordLessIsStrictWeakOrder(parse);
    var txns := Transactions(q, v);
    if txns.Some? {
      var picked := Selected(q, txns.value, v, u);
      SortSorts(picked, Before(parse));
      FilterCounts(v, PicksVerified(q, txns.value), r);
      FilterCounts(u, PicksUnverified(txns.value), r);
    }
  }

  ghost predicate InVisors(fs: seq<VisorFile>, r: Record) {
    exists f :: f in fs && !Blank(f.path) && f.records.Some? && r in f.records.value
  }

  // The unverified side: every named file has to parse, and then gives its
  // records.
  lemma {:induction false} LoadedVisors(fs: seq<VisorFile>)
    ensures LoadVisors(fs).Some? <==> forall f | f in fs && !Blank(f.path) :: f.records.Some?
    ensures LoadVisors(fs).Some? ==> forall r :: r in LoadVisors(fs).value <==> InVisors(fs, r)
  {
    hide Blank;
    if fs != [] {
      var init, f := fs[..|fs| - 1], fs[|fs| - 1];
      assert fs == init + [f];
      LoadedVisors(init);
      forall r ensures InVisors(fs, r) <==> InVisors(init, r) || InVisors([f], r) {
        if InVisors(init, r) {
          var g :| g in init && !Blank(g.path) && g.records.Some? && r in g.records.value;
          assert g in fs;
        }
        if InVisors([f], r) {
          assert f in fs;
        }
      }
      assert forall r :: InVisors([f], r) <==> !Blank(f.path) && f.records.Some? && r in f.records.value by {
        assert f in [f];
      }
    }
  }

  // Which traces fail, and how.
  lemma TraceFails(query: Query, audits: seq<AuditFile>, visors: seq<VisorFile>, parse: Parser)
    ensures var out := Traced(query, audits, visors, parse);
      var asks := !Blank(query.txn) || !Blank(query.jti);
      && (out == Err(QueryRequired) <==> !asks)
      && (out == Err(AuditUnreadable) <==>
            asks && exists f :: f in audits && !Blank(f.path) && !(Readable(f.pieces) && Accepted(Records(f.pieces))))
      && (out == Err(VisorUnreadable) <==>
            && asks && LoadAudits(audits).Some?
            && exists f :: f in visors && !Blank(f.path) && f.records.None?)
  {
    hide LoadAudits, LoadVisors, Transactions, Selected, Sort, Readable, Accepted, Records, Blank;
    TrimSpaceEmpty(query.txn);
    TrimSpaceEmpty(query.jti);
    LoadedRecords(audits);
    LoadedVisors(visors);
  }

  /******* Unverified input cannot touch the verified part *******/

  // loadGenericRecords marks nothing verified.
  ghost predicate Generic(fs: seq<VisorFile>) {
    forall f, r | f in fs && f.records.Some? && r in f.records.value :: !r.verified
  }

  lemma {:induction false} VisorsUnverified(fs: seq<VisorFile>)
    requires Generic(fs) && LoadVisors(fs).Some?
    ensures forall r | r in LoadVisors(fs).value :: !r.verified
  {
    if fs != [] {
      VisorsUnverified(fs[..|fs| - 1]);
    }
  }

  lemma {:induction false} AuditsVerified(fs: seq<AuditFile>)
    requires LoadAudits(fs).Some?
    ensures forall r | r in LoadAudits(fs).value :: r.verified
  {
    if fs != [] {
      AuditsVerified(fs[..|fs| - 1]);
    }
  }

  lemma SelectedVerified(q: Query, txns: set<string>, verified: seq<Record>, unverified: seq<Record>, parse: Parser)
    requires forall r | r in verified :: r.verified
    requires forall r | r in unverified :: !r.verified
    ensures Filter(Sort(Selected(q, txns, verified, unverified), Before(parse)), IsVerified())
         == Sort(Filter(verified, PicksVerified(q, txns)), Before(parse))
  {
    hide Filter, Sort, StrictWeakOrder, Before;
    var keep, kv, ku := IsVerified(), PicksVerified(q, txns), PicksUnverified(txns);
    RecordLessIsStrictWeakOrder(parse);
    FilterSort(Selected(q, txns, verified, unverified), Before(parse), keep);
    FilterConcat(Filter(verified, kv), Filter(unverified, ku), keep);
    FilterMembers(unverified, ku);
    FilterNone(Filter(unverified, ku), keep);
    FilterTwice(verified, kv, keep);
    assert Filter(verified, kv) + [] == Filter(verified, kv);
  }

  // The verified part of the output: the selected audit records, sorted, as
  // if no visor file had been given.
  lemma VerifiedPart(query: Query, audits: seq<AuditFile>, visors: seq<VisorFile>, parse: Parser)
    requires Generic(visors) && Traced(query, audits, visors, parse).Ok?
    ensures var q := Query(TrimSpace(query.txn), TrimSpace(query.jti));
      var verified := LoadAudits(audits).value;
      Filter(Traced(query, audits, visors, parse).value, IsVerified())
        == match Transactions(q, verified)
           case None => []
           case Some(txns) => Sort(Filter(verified, PicksVerified(q, txns)), Before(parse))
  {
    var q := Query(TrimSpace(query.txn), TrimSpace(query.jti));
    var verified, unverified := LoadAudits(audits).value, LoadVisors(visors).value;
    AuditsVerified(audits);
    VisorsUnverified(visors);
    hide Filter, Sort, Selected, StrictWeakOrder, Before, LoadAudits, LoadVisors;
    match Transactions(q, verified)
    case None => assert Filter<Record>([], IsVerified()) == [] by { FilterNone<Record>([], IsVerified()); }
    case Some(txns) => SelectedVerified(q, txns, verified, unverified, parse);
  }

  // AI20: two traces of the same audit files agree on every verified record
  // and on their order, whatever parseable visor files they are given.
  lemma TraceNonInterference(query: Query, audits: seq<AuditFile>, v1: seq<VisorFile>, v2: seq<VisorFile>,
                             parse: Parser)
    requires Generic(v1) && Generic(v2) && LoadVisors(v1).Some? && LoadVisors(v2).Some?
    ensures var a, b := Traced(query, audits, v1, parse), Traced(query, audits, v2, parse);
      && (a.Ok? <==> b.Ok?)
      && (a.Ok? ==> Filter(a.value, IsVerified()) == Filter(b.value, IsVerified()))
  {
    if Traced(query, audits, v1, parse).Ok? {
      VerifiedPart(query, audits, v1, parse);
      VerifiedPart(query, audits, v2, parse);
    }
  }
}
