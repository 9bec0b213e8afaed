/** The append-only JSONL files behind the replay cache and the audit log: what
    a failed write, a failed Sync and a crash can leave in them.

    A file is a sequence of pieces. `Body` is one complete encoded record with
    its length, `Newline` the terminator written with it, `Fragment` a non-empty
    proper prefix of an encoded record (which decodes as nothing). Reading is by
    line: a line holding anything but one `Body`, or too long for the scanner's
    buffer, ends it with an error; an empty line is skipped. */
module AppendLog {
  import opened Wrappers

  datatype Piece<T> = Body(rec: T, length: nat) | Fragment | Newline

  // bufio.Scanner must hold a line and its newline in one buffer of this size.
  const MAX_LINE_BYTES: nat := 1024 * 1024

  // pieces[..synced] has reached stable storage.
  datatype Disk<T> = Disk(pieces: seq<Piece<T>>, synced: nat)

  // How one Write followed by Sync can end; only the last is acknowledged.
  datatype IO = NothingWritten | Torn | NewlineLost | SyncFailed | Synced

  ghost predicate ValidDisk<T>(d: Disk<T>) {
    d.synced <= |d.pieces|
  }

  function Written<T>(rec: T, length: nat, io: IO): seq<Piece<T>> {
    match io
    case NothingWritten => []
    case Torn => [Fragment]
    case NewlineLost => [Body(rec, length)]
    case SyncFailed => [Body(rec, length), Newline]
    case Synced => [Body(rec, length), Newline]
  }

  function Append<T>(d: Disk<T>, rec: T, length: nat, io: IO): Disk<T> {
    var pieces := d.pieces + Written(rec, length, io);
    Disk(pieces, if io.Synced? then |pieces| else d.synced)
  }

  // A power failure. Synced pieces survive; of the rest some prefix does,
  // possibly cut in the middle of a record.
  ghost predicate CanSurvive<T>(d: Disk<T>, keep: nat) {
    d.synced <= keep <= |d.pieces|
  }

  function Crash<T>(d: Disk<T>, keep: nat, torn: bool): Disk<T>
    requires keep <= |d.pieces|
  {
    var pieces := d.pieces[..keep] +
                  if torn && keep < |d.pieces| && d.pieces[keep].Body? then [Fragment] else [];
    Disk(pieces, |pieces|)
  }

  // What a restart can cost a file. Killing the process costs nothing, but
  // makes nothing durable either: a later power failure can still take what
  // was never synced.
  datatype Loss = ProcessKilled | PowerLost(keep: nat, torn: bool)

  ghost predicate CanLose<T>(d: Disk<T>, loss: Loss) {
    loss.PowerLost? ==> CanSurvive(d, loss.keep)
  }

  function After<T>(d: Disk<T>, loss: Loss): Disk<T>
    requires loss.PowerLost? ==> loss.keep <= |d.pieces|
  {
    match loss
    case ProcessKilled => d
    case PowerLost(keep, torn) => Crash(d, keep, torn)
  }

  /******* Reading *******/

  predicate LineOk<T>(pieces: seq<Piece<T>>, i: nat)
    requires i < |pieces|
  {
    && !pieces[i].Fragment?
    && (pieces[i].Body? ==> pieces[i].length < MAX_LINE_BYTES && (i + 1 < |pieces| ==> pieces[i + 1].Newline?))
  }

  ghost predicate Readable<T>(pieces: seq<Piece<T>>) {
    forall i | 0 <= i < |pieces| :: LineOk(pieces, i)
  }

  function Records<T>(pieces: seq<Piece<T>>): seq<T> {
    if pieces == [] then []
    else if pieces[0].Body? then [pieces[0].rec] + Records(pieces[1..])
    else Records(pieces[1..])
  }

  predicate Terminated<T>(pieces: seq<Piece<T>>) {
    pieces == [] || pieces[|pieces| - 1].Newline?
  }

  lemma {:induction false} RecordsConcat<T>(a: seq<Piece<T>>, b: seq<Piece<T>>)
    ensures Records(a + b) == Records(a) + Records(b)
  {
    if a == [] {
      assert a + b == b;
    } else {
      RecordsConcat(a[1..], b);
      assert (a + b)[1..] == a[1..] + b;
    }
  }

  lemma RecordsOfOne<T>(p: Piece<T>)
    ensures Records([p]) == if p.Body? then [p.rec] else []
  {
    assert [p][1..] == [];
  }

  lemma RecordsWritten<T>(rec: T, length: nat, io: IO)
    ensures Records(Written(rec, length, io)) == if io.NothingWritten? || io.Torn? then [] else [rec]
  {
    RecordsOfOne(Body(rec, length));
    RecordsOfOne<T>(Newline);
    RecordsOfOne<T>(Fragment);
    assert [Body(rec, length), Newline] == [Body(rec, length)] + [Newline];
    RecordsConcat([Body(rec, length)], [Newline]);
  }

  // Which ways of ending leave the file on a line of its own.
  lemma TerminatedAfter<T>(d: Disk<T>, rec: T, length: nat, io: IO)
    ensures Terminated(Append(d, rec, length, io).pieces) <==>
      io == Synced || io == SyncFailed || (io == NothingWritten && Terminated(d.pieces))
    ensures io == Synced ==> Append(d, rec, length, io).synced == |Append(d, rec, length, io).pieces|
    ensures io != Synced ==> Append(d, rec, length, io).synced == d.synced
  {
    assert d.pieces + [] == d.pieces;
  }

  lemma RecordsOfAppend<T>(d: Disk<T>, rec: T, length: nat, io: IO)
    ensures Records(Append(d, rec, length, io).pieces)
         == Records(d.pieces) + if io.NothingWritten? || io.Torn? then [] else [rec]
  {
    RecordsConcat(d.pieces, Written(rec, length, io));
    RecordsWritten(rec, length, io);
  }

  // What a crash leaves is a prefix of the records, and no synced one is lost.
  lemma RecordsOfCrash<T>(d: Disk<T>, keep: nat, torn: bool)
    requires ValidDisk(d) && CanSurvive(d, keep)
    ensures Records(Crash(d, keep, torn).pieces)
         == Records(d.pieces[..d.synced]) + Records(d.pieces[d.synced..keep])
  {
    var tail: seq<Piece<T>> := if torn && keep < |d.pieces| && d.pieces[keep].Body? then [Fragment] else [];
    RecordsConcat(d.pieces[..keep], tail);
    RecordsOfOne<T>(Fragment);
    RecordsConcat(d.pieces[..d.synced], d.pieces[d.synced..keep]);
    assert d.pieces[..d.synced] + d.pieces[d.synced..keep] == d.pieces[..keep];
  }

  lemma RecordsSplit<T>(pieces: seq<Piece<T>>, k: nat)
    requires k <= |pieces|
    ensures Records(pieces) == Records(pieces[..k]) + Records(pieces[k..])
  {
    RecordsConcat(pieces[..k], pieces[k..]);
    assert pieces[..k] + pieces[k..] == pieces;
  }

  lemma RecordAt<T>(pieces: seq<Piece<T>>, i: nat)
    requires i < |pieces| && pieces[i].Body?
    ensures Records(pieces[..i + 1]) == Records(pieces[..i]) + [pieces[i].rec]
    ensures Records(pieces[..i + 1]) <= Records(pieces)
    ensures pieces[i].rec in Records(pieces)
  {
    hide Records;
    assert pieces[..i + 1] == pieces[..i] + [pieces[i]];
    RecordsConcat(pieces[..i], [pieces[i]]);
    RecordsOfOne(pieces[i]);
    RecordsSplit(pieces, i + 1);
  }

  // A full write keeps a readable file readable exactly when it starts on a
  // line of its own and fits the scanner. After an unterminated record it joins
  // that line; otherwise the file can no longer be read even though the write
  // was acknowledged.
  lemma ReadableAfterWriteIff<T>(pieces: seq<Piece<T>>, rec: T, length: nat)
    requires Readable(pieces)
    ensures Readable(pieces + [Body(rec, length), Newline]) <==> Terminated(pieces) && length < MAX_LINE_BYTES
  {
    var n, all := |pieces|, pieces + [Body(rec, length), Newline];
    forall i | 0 <= i < n ensures LineOk(all, i) <==> i < n - 1 || Terminated(pieces) {
      assert LineOk(pieces, i) && all[i] == pieces[i] && (i + 1 < n ==> all[i + 1] == pieces[i + 1]);
    }
    assert LineOk(all, n) <==> length < MAX_LINE_BYTES;
    assert n > 0 ==> (LineOk(all, n - 1) <==> Terminated(pieces));
  }

  // A write that lost its newline leaves the file readable but unterminated.
  lemma ReadableAfterLostNewline<T>(pieces: seq<Piece<T>>, rec: T, length: nat)
    requires Readable(pieces) && Terminated(pieces) && length < MAX_LINE_BYTES
    ensures Readable(pieces + [Body(rec, length)]) && !Terminated(pieces + [Body(rec, length)])
  {
    var all := pieces + [Body(rec, length)];
    forall i | 0 <= i < |pieces| ensures LineOk(all, i) {
      assert LineOk(pieces, i);
    }
  }

  // What a power failure leaves can be read when the surviving prefix can and
  // no record was cut in the middle.
  lemma ReadableAfterCrashIff<T>(d: Disk<T>, keep: nat, torn: bool)
    requires CanSurvive(d, keep)
    ensures Readable(Crash(d, keep, torn).pieces) <==>
      Readable(d.pieces[..keep]) && !(torn && keep < |d.pieces| && d.pieces[keep].Body?)
  {
    var kept, left := d.pieces[..keep], Crash(d, keep, torn).pieces;
    if |left| > keep {
      assert left[keep] == Fragment && !LineOk(left, keep);
    } else {
      assert left == kept;
    }
  }
}
