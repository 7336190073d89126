/**
 The output log of one task. A reader thread first reserves a sequence number and
 an offset under a lock, and later commits its chunk in a database transaction that
 also enforces the retention cap. Reservations and commits of different threads
 interleave freely, so chunks may be committed out of order.

 A client reads the log in pages that never split a UTF-8 sequence.
 */
module TaskOutput {
  import opened Utf8

  datatype Stream = Stdout | Stderr

  datatype Chunk = Chunk(no: nat, stream: Stream, offset: nat, data: seq<Byte>) {
    function End(): nat { offset + |data| }
  }

  /** The shared counters behind the readers' lock. */
  datatype Counters = Counters(nextOffset: nat, seqNo: nat, stdout: nat, stderr: nat)

  /** The columns of a task row that describe its output. */
  datatype TaskRow = TaskRow(stdoutBytes: nat, stderrBytes: nat, totalBytes: nat, truncatedBefore: nat)

  /** The chunk table in `seq` order, and its row in the tasks table. */
  datatype Stored = Stored(chunks: seq<Chunk>, row: TaskRow)

  function Bytes(cs: seq<Chunk>): nat {
    if cs == [] then 0 else Bytes(cs[..|cs| - 1]) + |cs[|cs| - 1].data|
  }

  function Text(cs: seq<Chunk>): (t: seq<Byte>)
    ensures |t| == Bytes(cs)
  {
    if cs == [] then [] else Text(cs[..|cs| - 1]) + cs[|cs| - 1].data
  }

  // ------------------------------------------------------------ storing

  function Advance(c: Counters, stream: Stream, n: nat): Counters {
    Counters(c.nextOffset + n, c.seqNo + 1,
             if stream == Stdout then c.stdout + n else c.stdout,
             if stream == Stderr then c.stderr + n else c.stderr)
  }

  /** An insert into a table read in `seq` order. */
  function Insert(cs: seq<Chunk>, c: Chunk): seq<Chunk> {
    if cs == [] || cs[|cs| - 1].no < c.no then cs + [c]
    else Insert(cs[..|cs| - 1], c) + [cs[|cs| - 1]]
  }

  function Count(row: TaskRow, c: Chunk): TaskRow {
    row.(stdoutBytes := if c.stream == Stdout then row.stdoutBytes + |c.data| else row.stdoutBytes,
         stderrBytes := if c.stream == Stderr then row.stderrBytes + |c.data| else row.stderrBytes,
         totalBytes := row.totalBytes + |c.data|)
  }

  /** How many of the oldest chunks have to go for the rest to fit. */
  function DropCount(cs: seq<Chunk>, cap: nat): (k: nat)
    ensures k <= |cs| && Bytes(cs[k..]) <= cap
    ensures k > 0 ==> Bytes(cs[k - 1..]) > cap
    ensures Bytes(cs) <= cap ==> k == 0
  {
    DropFrom(cs, cap, 0)
  }

  lemma NoBytes(cs: seq<Chunk>)
    ensures Bytes(cs) > 0 ==> cs != []
  {
  }

  function DropFrom(cs: seq<Chunk>, cap: nat, i: nat): (k: nat)
    requires i <= |cs| && (i > 0 ==> Bytes(cs[i - 1..]) > cap)
    ensures i <= k <= |cs| && Bytes(cs[k..]) <= cap
    ensures k > 0 ==> Bytes(cs[k - 1..]) > cap
    ensures Bytes(cs[i..]) <= cap ==> k == i
    decreases |cs| - i
  {
    hide Bytes;
    if Bytes(cs[i..]) <= cap then i
    else
      assert i < |cs| by { NoBytes(cs[i..]); }
      DropFrom(cs, cap, i + 1)
  }

  function Max(a: int, b: int): int { if a < b then b else a }

  /** The commit transaction. */
  function Commit(d: Stored, c: Chunk, cap: nat): Stored {
    var cs := Insert(d.chunks, c);
    var row := Count(d.row, c);
    var k := DropCount(cs, cap);
    Stored(cs[k..], if k == 0 then row else row.(truncatedBefore := Max(row.truncatedBefore, cs[k - 1].End())))
  }

  // ------------------------------------------------------------ interleavings

  /** The log plus its history: every reservation so far, and which are not committed yet. */
  datatype Log = Log(counters: Counters, stored: Stored, reserved: seq<Chunk>, inFlight: set<nat>)

  datatype Step =
    | Reserve(stream: Stream, data: seq<Byte>)
    | CommitStep(no: nat, cap: nat)

  const EMPTY := Log(Counters(0, 0, 0, 0), Stored([], TaskRow(0, 0, 0, 0)), [], {})

  /** Readers only store non-empty chunks, and commit what they reserved once. */
  function Apply(l: Log, step: Step): Log {
    match step
    case Reserve(stream, data) =>
      if data == [] then l
      else l.(counters := Advance(l.counters, stream, |data|),
              reserved := l.reserved + [Chunk(l.counters.seqNo, stream, l.counters.nextOffset, data)],
              inFlight := l.inFlight + {l.counters.seqNo})
    case CommitStep(no, cap) =>
      if no !in l.inFlight || no >= |l.reserved| then l
      else l.(stored := Commit(l.stored, l.reserved[no], cap), inFlight := l.inFlight - {no})
  }

  function Run(steps: seq<Step>): Log {
    if steps == [] then EMPTY else Apply(Run(steps[..|steps| - 1]), steps[|steps| - 1])
  }

  /** The reservations, in `seq` order, cover the offsets from 0 without gap or overlap. */
  ghost predicate Tiles(cs: seq<Chunk>) {
    forall i :: 0 <= i < |cs| ==> cs[i].no == i && cs[i].offset == Bytes(cs[..i]) && cs[i].data != []
  }

  function StreamBytes(cs: seq<Chunk>, skip: set<nat>, stream: Stream): nat {
    if cs == [] then 0
    else
      var last := cs[|cs| - 1];
      var here := if |cs| - 1 !in skip && last.stream == stream then |last.data| else 0;
      StreamBytes(cs[..|cs| - 1], skip, stream) + here
  }

  ghost predicate Counted(l: Log) {
    && l.counters.seqNo == |l.reserved| && l.counters.nextOffset == Bytes(l.reserved)
    && l.counters.stdout == StreamBytes(l.reserved, {}, Stdout)
    && l.counters.stderr == StreamBytes(l.reserved, {}, Stderr)
    && l.stored.row.stdoutBytes == StreamBytes(l.reserved, l.inFlight, Stdout)
    && l.stored.row.stderrBytes == StreamBytes(l.reserved, l.inFlight, Stderr)
    && l.stored.row.totalBytes == l.stored.row.stdoutBytes + l.stored.row.stderrBytes
  }

  ghost predicate Sorted(cs: seq<Chunk>) {
    forall i, j :: 0 <= i < j < |cs| ==> cs[i].no < cs[j].no
  }

  /** The table holds committed reservations; whatever else was committed lies below the cut. */
  ghost predicate AccountedIn(rs: seq<Chunk>, cs: seq<Chunk>, inFlight: set<nat>, cut: nat) {
    && Sorted(cs)
    && (forall no :: no in inFlight ==> no < |rs|)
    && (forall i :: 0 <= i < |cs| ==> cs[i].no < |rs| && cs[i].no !in inFlight && rs[cs[i].no] == cs[i])
    && (forall i :: 0 <= i < |rs| && i !in inFlight && rs[i] !in cs ==> rs[i].End() <= cut)
  }

  ghost predicate Accounted(l: Log) {
    AccountedIn(l.reserved, l.stored.chunks, l.inFlight, l.stored.row.truncatedBefore)
  }

  /** The cut is always at a chunk boundary. */
  ghost predicate CutAt(l: Log, m: nat) {
    m <= |l.reserved| && l.stored.row.truncatedBefore == Bytes(l.reserved[..m])
  }

  ghost predicate Inv(l: Log) {
    Tiles(l.reserved) && Counted(l) && Accounted(l) && exists m: nat :: CutAt(l, m)
  }

  // ------------------------------------------------------------ sums

  lemma BytesSnoc(cs: seq<Chunk>, c: Chunk)
    ensures Bytes(cs + [c]) == Bytes(cs) + |c.data|
  {
    assert (cs + [c])[..|cs|] == cs;
  }

  lemma {:induction false} BytesPrefix(cs: seq<Chunk>, i: nat)
    requires i < |cs|
    ensures Bytes(cs[..i + 1]) == Bytes(cs[..i]) + |cs[i].data|
    ensures Bytes(cs[..i + 1]) <= Bytes(cs)
    decreases |cs|
  {
    assert cs[..i + 1] == cs[..i] + [cs[i]];
    BytesSnoc(cs[..i], cs[i]);
    if i + 1 < |cs| {
      BytesPrefix(cs[..|cs| - 1], i);
      assert cs[..|cs| - 1][..i + 1] == cs[..i + 1] && cs[..|cs| - 1][..i] == cs[..i];
    } else {
      assert cs[..i + 1] == cs;
    }
  }

  lemma StreamBytesSnoc(cs: seq<Chunk>, c: Chunk, skip: set<nat>, stream: Stream)
    ensures StreamBytes(cs + [c], skip, stream) ==
            StreamBytes(cs, skip, stream) + if |cs| !in skip && c.stream == stream then |c.data| else 0
  {
    assert (cs + [c])[..|cs|] == cs;
  }

  /** Adding to the skipped set something beyond the sequence changes nothing; taking a member out adds its bytes. */
  lemma {:induction false} StreamBytesSkip(cs: seq<Chunk>, skip: set<nat>, no: nat, stream: Stream)
    requires no in skip
    ensures StreamBytes(cs, skip - {no}, stream) ==
            StreamBytes(cs, skip, stream) + if no < |cs| && cs[no].stream == stream then |cs[no].data| else 0
    decreases |cs|
  {
    if cs != [] {
      StreamBytesSkip(cs[..|cs| - 1], skip, no, stream);
    }
  }

  lemma {:induction false} StreamsSum(cs: seq<Chunk>)
    ensures StreamBytes(cs, {}, Stdout) + StreamBytes(cs, {}, Stderr) == Bytes(cs)
    decreases |cs|
  {
    if cs != [] {
      StreamsSum(cs[..|cs| - 1]);
    }
  }

  // ------------------------------------------------------------ the steps

  lemma ReserveKeeps(l: Log, stream: Stream, data: seq<Byte>)
    requires Inv(l) && data != []
    ensures Inv(Apply(l, Reserve(stream, data)))
  {
    hide Tiles, Counted, AccountedIn, Bytes;
    var l' := Apply(l, Reserve(stream, data));
    ReserveTiles(l, stream, data);
    ReserveCounts(l, stream, data);
    ReserveAccounts(l, stream, data);
    var m: nat :| CutAt(l, m);
    assert l'.reserved[..m] == l.reserved[..m];
    assert CutAt(l', m);
  }

  lemma ReserveTiles(l: Log, stream: Stream, data: seq<Byte>)
    requires Tiles(l.reserved) && Counted(l) && data != []
    ensures Tiles(Apply(l, Reserve(stream, data)).reserved)
  {
    hide Bytes, StreamBytes;
    var rs := Apply(l, Reserve(stream, data)).reserved;
    assert forall i :: 0 <= i < |rs| ==> rs[..i] == l.reserved[..i];
    assert l.reserved[..|l.reserved|] == l.reserved;
  }

  lemma ReserveCounts(l: Log, stream: Stream, data: seq<Byte>)
    requires Counted(l) && Accounted(l) && data != []
    ensures Counted(Apply(l, Reserve(stream, data)))
  {
    hide Bytes, StreamBytes, AccountedIn;
    var l' := Apply(l, Reserve(stream, data));
    var c := l'.reserved[|l.reserved|];
    BytesSnoc(l.reserved, c);
    StreamBytesSnoc(l.reserved, c, {}, Stdout);
    StreamBytesSnoc(l.reserved, c, {}, Stderr);
    StreamBytesSnoc(l.reserved, c, l'.inFlight, Stdout);
    StreamBytesSnoc(l.reserved, c, l'.inFlight, Stderr);
    FreshSkip(l, Stdout);
    FreshSkip(l, Stderr);
  }

  lemma ReserveAccounts(l: Log, stream: Stream, data: seq<Byte>)
    requires Counted(l) && Accounted(l) && data != []
    ensures Accounted(Apply(l, Reserve(stream, data)))
  {
    hide Bytes, StreamBytes;
    var l' := Apply(l, Reserve(stream, data));
    assert forall i :: 0 <= i < |l.reserved| ==> l'.reserved[i] == l.reserved[i];
  }

  lemma FreshSkip(l: Log, stream: Stream)
    requires Accounted(l) && l.counters.seqNo == |l.reserved|
    ensures StreamBytes(l.reserved, l.inFlight + {l.counters.seqNo}, stream) ==
        StreamBytes(l.reserved, l.inFlight, stream)
  {
    var no := l.counters.seqNo;
    StreamBytesSkip(l.reserved, l.inFlight + {no}, no, stream);
    assert l.inFlight + {no} - {no} == l.inFlight;
  }

  lemma {:induction false} InsertKeepsOrder(cs: seq<Chunk>, c: Chunk)
    requires Sorted(cs) && forall i :: 0 <= i < |cs| ==> cs[i].no != c.no
    ensures Sorted(Insert(cs, c))
    ensures forall x :: x in Insert(cs, c) <==> x == c || x in cs
    decreases |cs|
  {
    if cs == [] || cs[|cs| - 1].no < c.no {
    } else {
      var (init, last) := (cs[..|cs| - 1], cs[|cs| - 1]);
      InsertKeepsOrder(init, c);
      assert cs == init + [last];
      forall i | 0 <= i < |Insert(init, c)|
        ensures Insert(init, c)[i].no < last.no
      {
        assert Insert(init, c)[i] in Insert(init, c);
      }
    }
  }

  /** A dropped chunk is no later in `seq` order than the last dropped one, so it ends at or below the cut. */
  lemma TilesOrdered(cs: seq<Chunk>, i: nat, j: nat)
    requires Tiles(cs) && i <= j < |cs|
    ensures cs[i].End() <= cs[j].End() == Bytes(cs[..j + 1])
    decreases j
  {
    BytesPrefix(cs, j);
    if i < j {
      TilesOrdered(cs, i, j - 1);
      assert cs[j - 1].End() == Bytes(cs[..j]);
    }
  }

  lemma InsertAccounts(rs: seq<Chunk>, cs: seq<Chunk>, inFlight: set<nat>, cut: nat, no: nat)
    requires AccountedIn(rs, cs, inFlight, cut) && no in inFlight && rs[no].no == no
    ensures AccountedIn(rs, Insert(cs, rs[no]), inFlight - {no}, cut)
  {
    InsertKeepsOrder(cs, rs[no]);
    hide Insert;
    forall i | 0 <= i < |Insert(cs, rs[no])|
      ensures var c := Insert(cs, rs[no])[i]; c.no < |rs| && c.no !in inFlight - {no} && rs[c.no] == c
    {
      assert Insert(cs, rs[no])[i] in Insert(cs, rs[no]);
    }
  }

  lemma DropAccounts(rs: seq<Chunk>, cs: seq<Chunk>, inFlight: set<nat>, cut: nat, k: nat, cut': nat)
    requires Tiles(rs) && AccountedIn(rs, cs, inFlight, cut) && k <= |cs|
    requires cut <= cut' && (k > 0 ==> cs[k - 1].End() <= cut')
    ensures AccountedIn(rs, cs[k..], inFlight, cut')
  {
    hide Tiles, Bytes;
    var rest := cs[k..];
    assert forall i :: 0 <= i < |rest| ==> rest[i] == cs[k + i];
    forall i | 0 <= i < |rs| && i !in inFlight && rs[i] !in rest
      ensures rs[i].End() <= cut'
    {
      hide AccountedIn;
      DroppedEndsBelow(rs, cs, inFlight, cut, k, cut', i);
    }
  }

  lemma DroppedEndsBelow(
      rs: seq<Chunk>, cs: seq<Chunk>, inFlight: set<nat>, cut: nat, k: nat, cut': nat, i: nat)
    requires Tiles(rs) && AccountedIn(rs, cs, inFlight, cut) && k <= |cs| && i < |rs| && i !in inFlight
    requires cut <= cut' && (k > 0 ==> cs[k - 1].End() <= cut') && rs[i] !in cs[k..]
    ensures rs[i].End() <= cut'
  {
    hide Tiles, Bytes;
    if rs[i] in cs {
      var p :| 0 <= p < |cs| && cs[p] == rs[i];
      NotBehind(cs, k, p);
      TilesOrdered(rs, cs[p].no, cs[k - 1].no);
    }
  }

  lemma NotBehind(cs: seq<Chunk>, k: nat, p: nat)
    requires k <= |cs| && p < |cs| && cs[p] !in cs[k..]
    ensures p < k
  {
    assert cs == cs[..k] + cs[k..];
  }

  lemma CommitCut(d: Stored, c: Chunk, cap: nat)
    ensures var cs := Insert(d.chunks, c);
            var k := DropCount(cs, cap);
            var d' := Commit(d, c, cap);
            && d'.chunks == cs[k..]
            && d.row.truncatedBefore <= d'.row.truncatedBefore
            && (k > 0 ==> cs[k - 1].End() <= d'.row.truncatedBefore)
            && (d'.row.truncatedBefore == d.row.truncatedBefore || (k > 0 && d'.row.truncatedBefore == cs[k - 1].End()))
  {
  }

  lemma ApplyCommit(l: Log, no: nat, cap: nat)
    requires Tiles(l.reserved) && Accounted(l) && no in l.inFlight
    ensures no < |l.reserved| && l.reserved[no].no == no
    ensures Apply(l, CommitStep(no, cap)) ==
        l.(stored := Commit(l.stored, l.reserved[no], cap), inFlight := l.inFlight - {no})
  {
    hide Commit, Bytes;
  }

  lemma CommitAccounts(l: Log, no: nat, cap: nat)
    requires Tiles(l.reserved) && Accounted(l) && no in l.inFlight
    ensures Accounted(Apply(l, CommitStep(no, cap)))
  {
    hide Tiles, Insert, Commit, Apply, AccountedIn, DropCount;
    ApplyCommit(l, no, cap);
    var d' := Commit(l.stored, l.reserved[no], cap);
    var cs := Insert(l.stored.chunks, l.reserved[no]);
    CommitCut(l.stored, l.reserved[no], cap);
    InsertAccounts(l.reserved, l.stored.chunks, l.inFlight, l.stored.row.truncatedBefore, no);
    DropAccounts(l.reserved, cs, l.inFlight - {no}, l.stored.row.truncatedBefore, DropCount(cs, cap),
        d'.row.truncatedBefore);
  }

  lemma CommitCuts(l: Log, no: nat, cap: nat)
    requires Tiles(l.reserved) && Accounted(l) && no in l.inFlight && exists m: nat :: CutAt(l, m)
    ensures exists m: nat :: CutAt(Apply(l, CommitStep(no, cap)), m)
  {
    hide Tiles, Insert, Commit, Apply, Bytes, Sorted, DropCount;
    ApplyCommit(l, no, cap);
    var d' := Commit(l.stored, l.reserved[no], cap);
    var l' := l.(stored := d', inFlight := l.inFlight - {no});
    var cs := Insert(l.stored.chunks, l.reserved[no]);
    CommitCut(l.stored, l.reserved[no], cap);
    InsertAccounts(l.reserved, l.stored.chunks, l.inFlight, l.stored.row.truncatedBefore, no);
    var m: nat :| CutAt(l, m);
    if d'.row.truncatedBefore == l.stored.row.truncatedBefore {
      assert CutAt(l', m);
    } else {
      var c := cs[DropCount(cs, cap) - 1];
      TilesOrdered(l.reserved, c.no, c.no);
      assert CutAt(l', c.no + 1);
    }
  }

  lemma CommitCounts(l: Log, no: nat, cap: nat)
    requires Counted(l) && Accounted(l) && no in l.inFlight
    ensures Counted(Apply(l, CommitStep(no, cap)))
  {
    StreamBytesSkip(l.reserved, l.inFlight, no, Stdout);
    StreamBytesSkip(l.reserved, l.inFlight, no, Stderr);
  }

  lemma StepKeeps(l: Log, step: Step)
    requires Inv(l)
    ensures Inv(Apply(l, step))
  {
    match step
    case Reserve(stream, data) =>
      if data != [] {
        ReserveKeeps(l, stream, data);
      }
    case CommitStep(no, cap) =>
      if no in l.inFlight {
        CommitAccounts(l, no, cap);
        CommitCuts(l, no, cap);
        CommitCounts(l, no, cap);
      }
  }

  // ------------------------------------------------------------ main results about storing

  /** Every interleaving of reservations and commits keeps the log accounted for. */
  lemma {:induction false} EveryInterleavingAccounts(steps: seq<Step>)
    ensures Inv(Run(steps))
  {
    if steps == [] {
      assert CutAt(EMPTY, 0);
    } else {
      EveryInterleavingAccounts(steps[..|steps| - 1]);
      StepKeeps(Run(steps[..|steps| - 1]), steps[|steps| - 1]);
    }
  }

  /** After a commit the retained bytes fit its cap, and one chunk more would not have. */
  lemma CommitFitsTightly(d: Stored, c: Chunk, cap: nat)
    ensures Bytes(Commit(d, c, cap).chunks) <= cap
    ensures exists k :: 0 <= k <= |Insert(d.chunks, c)| && Commit(d, c, cap).chunks == Insert(d.chunks, c)[k..]
                        && (k > 0 ==> Bytes(Insert(d.chunks, c)[k - 1..]) > cap)
  {
    var k := DropCount(Insert(d.chunks, c), cap);
    assert Commit(d, c, cap).chunks == Insert(d.chunks, c)[k..];
  }

  /** Something committed ends at the cut and is gone, or nothing was ever dropped. */
  ghost predicate CutIsEarned(l: Log) {
    l.stored.row.truncatedBefore == 0 || exists i :: 0 <= i < |l.reserved| && GoneAt(l, i, l.stored.row.truncatedBefore)
  }

  predicate GoneAt(l: Log, i: nat, at: nat)
    requires i < |l.reserved|
  {
    i !in l.inFlight && l.reserved[i] !in l.stored.chunks && l.reserved[i].End() == at
  }

  lemma ReserveEarns(l: Log, stream: Stream, data: seq<Byte>)
    requires Inv(l) && CutIsEarned(l)
    ensures CutIsEarned(Apply(l, Reserve(stream, data)))
  {
    hide Bytes, StreamBytes, Tiles, CutAt;
    var l' := Apply(l, Reserve(stream, data));
    if data != [] && l.stored.row.truncatedBefore != 0 {
      var i :| 0 <= i < |l.reserved| && GoneAt(l, i, l.stored.row.truncatedBefore);
      assert l'.reserved[i] == l.reserved[i] && GoneAt(l', i, l.stored.row.truncatedBefore);
    }
  }

  lemma CommitEarns(l: Log, no: nat, cap: nat)
    requires Inv(l) && CutIsEarned(l) && no in l.inFlight
    ensures CutIsEarned(Apply(l, CommitStep(no, cap)))
  {
    hide Bytes, StreamBytes, CutAt, Commit, Apply, Insert, DropCount;
    ApplyCommit(l, no, cap);
    var l' := Apply(l, CommitStep(no, cap));
    var rs := l.reserved;
    var cs := Insert(l.stored.chunks, rs[no]);
    var k := DropCount(cs, cap);
    CommitCut(l.stored, rs[no], cap);
    InsertKeepsOrder(l.stored.chunks, rs[no]);
    InsertAccounts(rs, l.stored.chunks, l.inFlight, l.stored.row.truncatedBefore, no);
    if l'.stored.row.truncatedBefore != l.stored.row.truncatedBefore {
      var c := cs[k - 1];
      FirstIsGone(cs, k, c);
      assert GoneAt(l', c.no, c.End());
    } else if l.stored.row.truncatedBefore != 0 {
      var i :| 0 <= i < |rs| && GoneAt(l, i, l.stored.row.truncatedBefore);
      assert rs[i] != rs[no] && rs[i] !in cs;
      NotInSuffix(cs, k, rs[i]);
      assert GoneAt(l', i, l.stored.row.truncatedBefore);
    }
  }

  lemma FirstIsGone(cs: seq<Chunk>, k: nat, c: Chunk)
    requires Sorted(cs) && 0 < k <= |cs| && c == cs[k - 1]
    ensures c !in cs[k..]
  {
  }

  lemma NotInSuffix(cs: seq<Chunk>, k: nat, c: Chunk)
    requires k <= |cs| && c !in cs
    ensures c !in cs[k..]
  {
  }

  /** In every interleaving the cut is the end of the last dropped chunk: what lies below it was really dropped up
      to there, and every dropped chunk ends at or below it. */
  lemma {:induction false} EveryCutIsEarned(steps: seq<Step>)
    ensures var l := Run(steps);
            && CutIsEarned(l)
            && forall i :: 0 <= i < |l.reserved| && i !in l.inFlight && l.reserved[i] !in l.stored.chunks ==>
                 l.reserved[i].End() <= l.stored.row.truncatedBefore
  {
    hide Apply, Tiles, Counted, Bytes, CutAt, CutIsEarned;
    EveryInterleavingAccounts(steps);
    if steps == [] {
      NothingDropped();
    } else {
      var (front, step) := (steps[..|steps| - 1], steps[|steps| - 1]);
      EveryCutIsEarned(front);
      EveryInterleavingAccounts(front);
      match step
      case Reserve(stream, data) => ReserveEarns(Run(front), stream, data);
      case CommitStep(no, cap) =>
        if no in Run(front).inFlight {
          CommitEarns(Run(front), no, cap);
        } else {
          NotInFlight(Run(front), no, cap);
        }
    }
  }

  lemma NothingDropped()
    ensures CutIsEarned(EMPTY)
  {
  }

  lemma NotInFlight(l: Log, no: nat, cap: nat)
    requires no !in l.inFlight
    ensures Apply(l, CommitStep(no, cap)) == l
  {
  }

  ghost predicate Quiescent(l: Log) {
    Inv(l) && l.inFlight == {}
  }

  /** The last `j` chunks of the table are the last `j` reservations. */
  ghost predicate EndsWith(cs: seq<Chunk>, rs: seq<Chunk>, j: nat) {
    j <= |cs| && j <= |rs| && cs[|cs| - j..] == rs[|rs| - j..]
  }

  lemma {:induction false} TableHoldsSuffix(l: Log, j: nat)
    requires Tiles(l.reserved) && Accounted(l) && j <= |l.reserved|
    requires forall i :: |l.reserved| - j <= i < |l.reserved| ==> l.reserved[i] in l.stored.chunks
    ensures EndsWith(l.stored.chunks, l.reserved, j)
    decreases j
  {
    hide Tiles, AccountedIn, Sorted, Numbered, DrawnFrom;
    var (cs, rs) := (l.stored.chunks, l.reserved);
    if j > 0 {
      TableIsDrawn(l);
      TableHoldsSuffix(l, j - 1);
      var (q, r) := (|cs| - j, |rs| - j);
      assert |cs| - (j - 1) == q + 1 && |rs| - (j - 1) == r + 1;
      SuffixStep(cs, rs, q, r);
      assert cs[q..] == [cs[q]] + cs[q + 1..] && rs[r..] == [rs[r]] + rs[r + 1..];
    }
  }

  lemma TableIsDrawn(l: Log)
    requires Tiles(l.reserved) && Accounted(l)
    ensures Sorted(l.stored.chunks) && Numbered(l.reserved) && DrawnFrom(l.stored.chunks, l.reserved)
  {
    hide Bytes;
  }

  ghost predicate Numbered(rs: seq<Chunk>) {
    forall i :: 0 <= i < |rs| ==> rs[i].no == i
  }

  ghost predicate DrawnFrom(cs: seq<Chunk>, rs: seq<Chunk>) {
    forall i :: 0 <= i < |cs| ==> cs[i].no < |rs| && rs[cs[i].no] == cs[i]
  }

  /** The chunk in front of a table suffix of reservations is the reservation in front of them. */
  lemma SuffixStep(cs: seq<Chunk>, rs: seq<Chunk>, q: int, r: nat)
    requires Sorted(cs) && Numbered(rs) && DrawnFrom(cs, rs)
    requires r < |rs| && -1 <= q < |cs| && cs[q + 1..] == rs[r + 1..] && rs[r] in cs
    ensures q >= 0 && cs[q] == rs[r]
  {
    assert forall i :: q < i < |cs| ==> cs[i] == cs[q + 1..][i - q - 1] == rs[r + i - q];
    assert forall i :: q < i < |cs| ==> cs[i].no > r;
  }

  lemma NothingAboveCutIsMissing(l: Log, m: nat, i: nat)
    requires Quiescent(l) && CutAt(l, m) && m <= i < |l.reserved|
    ensures l.reserved[i] in l.stored.chunks
  {
    TilesOrdered(l.reserved, m, i);
    BytesPrefix(l.reserved, m);
  }

  lemma BelowCut(l: Log, m: nat, low: seq<Chunk>, i: nat)
    requires Quiescent(l) && CutAt(l, m) && l.stored.chunks == low + l.reserved[m..] && i < |low|
    ensures low[i].End() <= l.stored.row.truncatedBefore
  {
    hide Bytes, Counted;
    var (c, cs, rs) := (low[i], l.stored.chunks, l.reserved);
    assert cs[i] == c && rs[c.no] == c;
    assert c.no < m by {
      if m < |rs| {
        assert cs[|low|] == rs[m];
      }
    }
    TilesOrdered(rs, c.no, m - 1);
  }

  /** When nothing is in flight, the row counts every reserved byte, and the table is a (possibly empty) list of
      stale chunks below the cut followed by exactly the reservations that tile the offsets from the cut to the end. */
  lemma QuiescentLogTiles(l: Log) returns (m: nat, low: seq<Chunk>)
    requires Quiescent(l)
    ensures l.stored.row.totalBytes == Bytes(l.reserved) == l.counters.nextOffset
    ensures CutAt(l, m)
    ensures l.stored.chunks == low + l.reserved[m..]
    ensures forall i :: 0 <= i < |low| ==> low[i].End() <= l.stored.row.truncatedBefore
  {
    hide Bytes, StreamBytes, Tiles, AccountedIn;
    StreamsSum(l.reserved);
    m :| CutAt(l, m);
    var (cs, rs) := (l.stored.chunks, l.reserved);
    forall i | m <= i < |rs|
      ensures rs[i] in cs
    {
      NothingAboveCutIsMissing(l, m, i);
    }
    TableHoldsSuffix(l, |rs| - m);
    low := cs[..|cs| - (|rs| - m)];
    forall i | 0 <= i < |low|
      ensures low[i].End() <= l.stored.row.truncatedBefore
    {
      BelowCut(l, m, low, i);
    }
  }
}
