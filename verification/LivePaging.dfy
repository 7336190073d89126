/**
 Pages of a log that is still being written. A chunk that is reserved but not yet
 committed is missing from the table, and a page reads on behind it. So is a chunk
 that was dropped after the page's start had been read from the row: a page makes
 two queries, first for the row and then for the chunks.
 */
module LivePaging {
  import opened Wrappers
  import opened Utf8
  import opened TaskOutput
  import opened TaskPaging

  // ------------------------------------------------------------ tables with gaps

  ghost predicate Apart(rows: seq<Chunk>) {
    forall i, j :: 0 <= i < j < |rows| ==> rows[i].End() <= rows[j].offset
  }

  /** Every row holds the bytes of the text at its own offset. */
  ghost predicate Shows(rows: seq<Chunk>, t: seq<Byte>) {
    forall i :: 0 <= i < |rows| ==>
      rows[i].data != [] && rows[i].End() <= |t| && rows[i].data == t[rows[i].offset..rows[i].End()]
  }

  predicate Spans(c: Chunk, x: nat) {
    c.offset <= x < c.End()
  }

  ghost predicate CoveredAt(rows: seq<Chunk>, x: nat) {
    exists i :: 0 <= i < |rows| && Spans(rows[i], x)
  }

  ghost predicate Covers(rows: seq<Chunk>, a: nat, b: nat) {
    forall x: nat :: a <= x < b ==> CoveredAt(rows, x)
  }

  lemma CoveredByRest(rows: seq<Chunk>, x: nat)
    requires rows != []
    ensures CoveredAt(rows, x) <==> Spans(rows[0], x) || CoveredAt(rows[1..], x)
  {
    if CoveredAt(rows[1..], x) {
      var i :| 0 <= i < |rows[1..]| && Spans(rows[1..][i], x);
      assert rows[i + 1] == rows[1..][i];
    }
    if CoveredAt(rows, x) && !Spans(rows[0], x) {
      var i :| 0 <= i < |rows| && Spans(rows[i], x);
      assert rows[1..][i - 1] == rows[i];
    }
  }

  /** A first row that ends at or before `a` does not matter. */
  lemma CoversBehind(rows: seq<Chunk>, a: nat, b: nat)
    requires rows != [] && rows[0].End() <= a
    ensures Covers(rows, a, b) <==> Covers(rows[1..], a, b)
  {
    hide CoveredAt;
    forall x: nat | a <= x < b
      ensures CoveredAt(rows, x) <==> CoveredAt(rows[1..], x)
    {
      CoveredByRest(rows, x);
    }
  }

  /** From inside the first row on, the first row covers up to its end. */
  lemma CoversWithin(rows: seq<Chunk>, a: nat, b: nat)
    requires rows != [] && rows[0].offset <= a
    ensures b <= rows[0].End() ==> Covers(rows, a, b)
    ensures a <= rows[0].End() <= b ==> (Covers(rows, a, b) <==> Covers(rows[1..], rows[0].End(), b))
  {
    hide CoveredAt;
    forall x: nat | a <= x < b
      ensures CoveredAt(rows, x) <==> x < rows[0].End() || CoveredAt(rows[1..], x)
    {
      CoveredByRest(rows, x);
    }
  }

  lemma GapIsNotCovered(rows: seq<Chunk>, a: nat, b: nat)
    requires rows != [] && Apart(rows) && a < rows[0].offset && a < b
    ensures !Covers(rows, a, b)
  {
    forall i | 0 <= i < |rows|
      ensures !Spans(rows[i], a)
    {
      assert i > 0 ==> rows[0].End() <= rows[i].offset;
    }
    assert !CoveredAt(rows, a);
  }

  // ------------------------------------------------------------ reading a table with gaps

  /** What a page over such a table is: it never reads more than it moves, and it reads the text it moves over
      exactly when the rows cover it. */
  ghost predicate Honest(p: Page, rows: seq<Chunk>, t: seq<Byte>, pos: nat) {
    && pos <= p.next <= |t| && |PieceText(p.pieces)| <= p.next - pos
    && (PieceText(p.pieces) == t[pos..p.next] <==> Covers(rows, pos, p.next))
  }

  lemma EmptyIsHonest(rows: seq<Chunk>, t: seq<Byte>, pos: nat, more: bool)
    requires pos <= |t|
    ensures Honest(Page([], pos, more), rows, t, pos)
  {
    assert t[pos..pos] == [];
  }

  /** A page that ends inside the first row. */
  lemma PartIsHonest(rows: seq<Chunk>, t: seq<Byte>, pos: nat, from: nat, take: nat, stream: Stream)
    requires rows != [] && Apart(rows) && take > 0 && rows[0].offset <= from && from + take <= rows[0].End() <= |t|
    requires pos <= from && (pos < from ==> from == rows[0].offset)
    ensures Honest(Page([Piece(stream, from, t[from..from + take])], from + take, true), rows, t, pos)
  {
    var piece := Piece(stream, from, t[from..from + take]);
    assert [piece][1..] == [] && PieceText([piece]) == piece.data + PieceText([]);
    if pos < from {
      GapIsNotCovered(rows, pos, from + take);
    } else {
      CoversWithin(rows, pos, from + take);
    }
  }

  /** A page that takes all of the first row and goes on behind it. */
  lemma WholeIsHonest(q: Page, rows: seq<Chunk>, t: seq<Byte>, pos: nat, from: nat, stream: Stream)
    requires rows != [] && Apart(rows) && rows[0].offset <= from < rows[0].End() <= |t|
    requires pos <= from && (pos < from ==> from == rows[0].offset) && Honest(q, rows[1..], t, rows[0].End())
    ensures Honest(q.(pieces := [Piece(stream, from, t[from..rows[0].End()])] + q.pieces), rows, t, pos)
  {
    hide Covers;
    var e := rows[0].End();
    var piece := Piece(stream, from, t[from..e]);
    assert ([piece] + q.pieces)[1..] == q.pieces;
    assert PieceText([piece] + q.pieces) == piece.data + PieceText(q.pieces);
    if pos < from {
      GapIsNotCovered(rows, pos, q.next);
    } else {
      CoversWithin(rows, pos, q.next);
      SplitsAt(t, pos, e, q.next, PieceText(q.pieces));
    }
  }

  lemma SplitsAt(t: seq<Byte>, a: nat, b: nat, c: nat, tail: seq<Byte>)
    requires a <= b <= c <= |t|
    ensures t[a..b] + tail == t[a..c] <==> tail == t[b..c]
  {
    assert t[a..c] == t[a..b] + t[b..c];
    if t[a..b] + tail == t[a..c] {
      assert tail == (t[a..b] + tail)[b - a..] == t[a..c][b - a..] == t[b..c];
    }
  }

  lemma {:induction false} ScanIsHonest(rows: seq<Chunk>, t: seq<Byte>, start: nat, pos: nat, room: nat)
    requires Apart(rows) && Shows(rows, t) && start <= pos <= |t|
    requires pos == start || forall i :: 0 <= i < |rows| ==> pos <= rows[i].offset
    ensures Honest(Scan(rows, start, pos, room), rows, t, pos)
    decreases |rows|
  {
    hide Scan, Floor, Honest, Covers, Apart, Shows;
    if rows == [] {
      ScanNone(start, pos, room);
      EmptyIsHonest(rows, t, pos, false);
    } else {
      var c := rows[0];
      var skip := Max(start - c.offset, 0);
      ScanTurn(rows, start, pos, room);
      RestIsApart(rows, t);
      if skip >= |c.data| {
        ScanIsHonest(rows[1..], t, start, pos, room);
        SkipIsHonest(Scan(rows, start, pos, room), rows, t, pos);
      } else {
        var (slice, from) := (c.data[skip..], c.offset + skip);
        var take := Floor(slice, Min(|slice|, room));
        FirstShows(rows, t, skip, take);
        if take == 0 {
          EmptyIsHonest(rows, t, pos, true);
        } else if take < |slice| {
          PartIsHonest(rows, t, pos, from, take, c.stream);
        } else {
          assert slice == slice[..take] == t[from..c.End()];
          ScanIsHonest(rows[1..], t, start, c.End(), room - take);
          WholeIsHonest(Scan(rows[1..], start, c.End(), room - take), rows, t, pos, from, c.stream);
        }
      }
    }
  }

  lemma FirstShows(rows: seq<Chunk>, t: seq<Byte>, skip: nat, take: nat)
    requires rows != [] && Shows(rows, t) && skip + take <= |rows[0].data|
    ensures rows[0].End() <= |t|
    ensures rows[0].data[skip..][..take] == t[rows[0].offset + skip..rows[0].offset + skip + take]
  {
    var c := rows[0];
    assert c.data == t[c.offset..c.End()];
  }

  lemma SkipIsHonest(p: Page, rows: seq<Chunk>, t: seq<Byte>, pos: nat)
    requires rows != [] && rows[0].End() <= pos && Honest(p, rows[1..], t, pos)
    ensures Honest(p, rows, t, pos)
  {
    CoversBehind(rows, pos, p.next);
  }

  lemma RestIsApart(rows: seq<Chunk>, t: seq<Byte>)
    requires rows != [] && Apart(rows) && Shows(rows, t)
    ensures Apart(rows[1..]) && Shows(rows[1..], t) && rows[0].data != []
    ensures forall i :: 0 <= i < |rows[1..]| ==> rows[0].End() <= rows[1..][i].offset
  {
  }

  // ------------------------------------------------------------ the log behind the table

  lemma TileShows(rs: seq<Chunk>, i: nat)
    requires Tiles(rs) && i < |rs|
    ensures rs[i].End() <= |Text(rs)| && rs[i].data == Text(rs)[rs[i].offset..rs[i].End()]
  {
    hide Text, Bytes;
    TextSplit(rs, i);
    TextCons(rs[i..]);
    var (a, d, b) := (Text(rs[..i]), rs[i].data, Text(rs[i..][1..]));
    assert |a| == rs[i].offset;
    assert (a + (d + b))[|a|..|a| + |d|] == d;
  }

  lemma TilesApart(rs: seq<Chunk>, i: nat, j: nat)
    requires Tiles(rs) && i < j < |rs|
    ensures rs[i].End() <= rs[j].offset
  {
    TilesOrdered(rs, i, j - 1);
    hide Bytes;
  }

  lemma {:induction false} FindTile(rs: seq<Chunk>, n: nat, x: nat) returns (i: nat)
    requires Tiles(rs) && n <= |rs| && x < Bytes(rs[..n])
    ensures i < n && Spans(rs[i], x)
  {
    if x < rs[n - 1].offset {
      i := FindTile(rs, n - 1, x);
    } else {
      i := n - 1;
      TilesOrdered(rs, i, i);
    }
  }

  lemma TableShows(l: Log)
    requires Inv(l)
    ensures Apart(l.stored.chunks) && Shows(l.stored.chunks, Text(l.reserved))
  {
    hide Tiles, Counted, Text, Bytes, CutAt;
    var (cs, rs) := (l.stored.chunks, l.reserved);
    forall i, j | 0 <= i < j < |cs|
      ensures cs[i].End() <= cs[j].offset
    {
      TilesApart(rs, cs[i].no, cs[j].no);
    }
    forall i | 0 <= i < |cs|
      ensures cs[i].data != [] && cs[i].End() <= |Text(rs)| && cs[i].data == Text(rs)[cs[i].offset..cs[i].End()]
    {
      TileShows(rs, cs[i].no);
      TileIsNotEmpty(rs, cs[i].no);
    }
  }

  lemma TileIsNotEmpty(rs: seq<Chunk>, i: nat)
    requires Tiles(rs) && i < |rs|
    ensures rs[i].data != []
  {
  }

  /** A reservation has bytes in `[a, b)`. */
  predicate Meets(c: Chunk, a: nat, b: nat) {
    Max(a, c.offset) < Min(b, c.End())
  }

  /** Committed and no longer in the table. */
  predicate Dropped(l: Log, i: nat)
    requires i < |l.reserved|
  {
    i !in l.inFlight && l.reserved[i] !in l.stored.chunks
  }

  /** Not in the table: still in flight, or dropped. */
  predicate Away(l: Log, i: nat)
    requires i < |l.reserved|
  {
    i in l.inFlight || Dropped(l, i)
  }

  ghost predicate NoneAway(l: Log, a: nat, b: nat) {
    forall i :: 0 <= i < |l.reserved| && Away(l, i) ==> !Meets(l.reserved[i], a, b)
  }

  lemma AwayIsNotStored(l: Log, i: nat)
    requires Inv(l) && i < |l.reserved|
    ensures Away(l, i) <==> l.reserved[i] !in l.stored.chunks
  {
    hide Counted, CutAt, Bytes;
    assert l.reserved[i].no == i;
  }

  /** The table covers a range exactly when no reservation that is away meets it. */
  lemma CoversExactly(l: Log, a: nat, b: nat)
    requires Inv(l) && a <= b <= Bytes(l.reserved)
    ensures Covers(l.stored.chunks, a, b) <==> NoneAway(l, a, b)
  {
    hide Tiles, Counted, Bytes, CutAt, AccountedIn, Away;
    var (cs, rs) := (l.stored.chunks, l.reserved);
    if Covers(cs, a, b) {
      forall i | 0 <= i < |rs| && Away(l, i)
        ensures !Meets(rs[i], a, b)
      {
        var x: nat := Max(a, rs[i].offset);
        assert a <= x < b ==> CoveredAt(cs, x);
        AwayIsNotCovered(l, i, x);
      }
    }
    if NoneAway(l, a, b) {
      forall x: nat | a <= x < b
        ensures CoveredAt(cs, x)
      {
        assert rs[..|rs|] == rs;
        var i := FindTile(rs, |rs|, x);
        AwayIsNotStored(l, i);
      }
    }
  }

  lemma AwayIsNotCovered(l: Log, i: nat, x: nat)
    requires Inv(l) && i < |l.reserved| && Away(l, i)
    ensures Spans(l.reserved[i], x) ==> !CoveredAt(l.stored.chunks, x)
  {
    hide Tiles, Counted, Bytes, CutAt, Away;
    AwayIsNotStored(l, i);
    var (cs, rs) := (l.stored.chunks, l.reserved);
    forall j | 0 <= j < |cs|
      ensures Spans(rs[i], x) ==> !Spans(cs[j], x)
    {
      var k := cs[j].no;
      assert cs[j] in cs && rs[k] == cs[j];
      if k < i {
        TilesApart(rs, k, i);
      } else {
        TilesApart(rs, i, k);
      }
    }
  }

  // ------------------------------------------------------------ where a page ends

  /** A page ends where it started or inside the last chunk it took. */
  lemma {:induction false} ScanEnds(rows: seq<Chunk>, start: nat, pos: nat, room: nat)
    ensures var p := Scan(rows, start, pos, room);
            p.next == pos || exists k :: 0 <= k < |rows| && rows[k].offset < p.next <= rows[k].End()
    decreases |rows|
  {
    hide Scan, Floor;
    if rows == [] {
      ScanNone(start, pos, room);
    } else {
      var c := rows[0];
      var skip := Max(start - c.offset, 0);
      ScanTurn(rows, start, pos, room);
      assert forall k :: 0 <= k < |rows[1..]| ==> rows[1..][k] == rows[k + 1];
      if skip >= |c.data| {
        ScanEnds(rows[1..], start, pos, room);
      } else {
        var slice := c.data[skip..];
        var take := Floor(slice, Min(|slice|, room));
        if take == |slice| {
          ScanEnds(rows[1..], start, c.End(), room - take);
        }
      }
    }
  }

  /** With room for everything a page reaches the end of every row above its start. */
  lemma {:induction false} ScanReaches(rows: seq<Chunk>, start: nat, pos: nat, room: nat, k: nat)
    requires Apart(rows) && k < |rows| && start < rows[k].End() && Bytes(rows) <= room
    requires forall i :: 0 <= i < |rows| ==> rows[i].data != []
    ensures Scan(rows, start, pos, room).next >= rows[k].End()
    decreases |rows|
  {
    hide Scan, Floor, Bytes;
    var c := rows[0];
    var skip := Max(start - c.offset, 0);
    ScanTurn(rows, start, pos, room);
    BytesCons(rows);
    assert forall i :: 0 <= i < |rows[1..]| ==> rows[1..][i] == rows[i + 1];
    if skip >= |c.data| {
      ScanReaches(rows[1..], start, pos, room, k - 1);
    } else {
      var slice := c.data[skip..];
      FloorAtEnd(slice, |slice|);
      if k > 0 {
        ScanReaches(rows[1..], start, c.End(), room - |slice|, k - 1);
      } else {
        ScanGoesOn(rows[1..], start, c.End(), room - |slice|);
      }
    }
  }

  lemma {:induction false} ScanGoesOn(rows: seq<Chunk>, start: nat, pos: nat, room: nat)
    requires Apart(rows) && forall i :: 0 <= i < |rows| ==> pos <= rows[i].offset
    ensures Scan(rows, start, pos, room).next >= pos
  {
    hide Scan;
    ScanEnds(rows, start, pos, room);
  }

  /** The bytes that these rows have above `start`. */
  function BytesAbove(rows: seq<Chunk>, start: nat): nat {
    if rows == [] then 0
    else
      var c := rows[0];
      (if c.End() <= start then 0 else c.End() - Max(start, c.offset)) + BytesAbove(rows[1..], start)
  }

  /** A page of this size takes some of row `j`: everything before it fits, and a whole character of it as well. */
  predicate Reaches(rows: seq<Chunk>, start: nat, room: nat, j: nat)
    requires j < |rows|
  {
    var before := BytesAbove(rows[..j], start);
    before <= room && Floor(rows[j].data, Min(|rows[j].data|, room - before)) > 0
  }

  lemma FirstReachesExactly(rows: seq<Chunk>, start: nat, pos: nat, room: nat)
    requires Apart(rows) && rows != [] && start <= rows[0].offset && rows[0].data != []
    requires pos == start || pos <= rows[0].offset
    ensures Scan(rows, start, pos, room).next > rows[0].offset <==> Reaches(rows, start, room, 0)
  {
    hide Scan, Floor;
    var (c, rest) := (rows[0], rows[1..]);
    ScanTurn(rows, start, pos, room);
    assert c.data[0..] == c.data && rows[..0] == [];
    var take := Floor(c.data, Min(|c.data|, room));
    if take == |c.data| {
      assert forall i :: 0 <= i < |rest| ==> rest[i] == rows[i + 1];
      ScanGoesOn(rest, start, c.End(), room - take);
    }
  }

  lemma {:induction false} ScanReachesExactly(rows: seq<Chunk>, start: nat, pos: nat, room: nat, j: nat)
    requires Apart(rows) && j < |rows| && start <= rows[j].offset
    requires forall i :: 0 <= i < |rows| ==> rows[i].data != []
    requires pos == start || forall i :: 0 <= i < |rows| ==> pos <= rows[i].offset
    ensures Scan(rows, start, pos, room).next > rows[j].offset <==> Reaches(rows, start, room, j)
    decreases |rows|
  {
    hide Scan, Floor, BytesAbove;
    var c := rows[0];
    var (skip, rest) := (Max(start - c.offset, 0), rows[1..]);
    if j == 0 {
      FirstReachesExactly(rows, start, pos, room);
      return;
    }
    ScanTurn(rows, start, pos, room);
    AboveSplits(rows, start, j);
    assert forall i :: 0 <= i < |rest| ==> rest[i] == rows[i + 1];
    if skip >= |c.data| {
      ScanReachesExactly(rest, start, pos, room, j - 1);
    } else {
      var slice := c.data[skip..];
      if room >= |slice| {
        FloorAtEnd(slice, |slice|);
        ScanReachesExactly(rest, start, c.End(), room - |slice|, j - 1);
      }
    }
  }

  lemma AboveSplits(rows: seq<Chunk>, start: nat, j: nat)
    requires j < |rows|
    ensures BytesAbove(rows[..0], start) == 0
    ensures j > 0 ==>
      var c := rows[0];
      var here := if c.End() <= start then 0 else c.End() - Max(start, c.offset);
      BytesAbove(rows[..j], start) == here + BytesAbove(rows[1..][..j - 1], start)
  {
    if j > 0 {
      assert rows[..j][1..] == rows[1..][..j - 1];
    }
  }

  // ------------------------------------------------------------ two reads

  /** The log after some more steps. */
  function After(l: Log, steps: seq<Step>): Log {
    if steps == [] then l else Apply(After(l, steps[..|steps| - 1]), steps[|steps| - 1])
  }

  lemma {:induction false} AfterKeeps(l: Log, steps: seq<Step>)
    requires Inv(l)
    ensures Inv(After(l, steps))
  {
    hide Inv, Apply;
    if steps != [] {
      AfterKeeps(l, steps[..|steps| - 1]);
      StepKeeps(After(l, steps[..|steps| - 1]), steps[|steps| - 1]);
    }
  }

  /** The page reads exactly the bytes of the log that it moves over. */
  ghost predicate Exact(l: Log, start: nat, room: nat) {
    var p := Scan(l.stored.chunks, start, start, room);
    start <= p.next <= |Text(l.reserved)| && PieceText(p.pieces) == Text(l.reserved)[start..p.next]
  }

  lemma ExactWhenNoneAway(l: Log, start: nat, room: nat)
    requires Inv(l) && start <= Bytes(l.reserved)
    ensures start <= Scan(l.stored.chunks, start, start, room).next <= |Text(l.reserved)|
    ensures Exact(l, start, room) <==> NoneAway(l, start, Scan(l.stored.chunks, start, start, room).next)
  {
    hide Inv, Apart, Shows, Covers, NoneAway, Scan, Text, Bytes, PieceText;
    TableShows(l);
    ScanIsHonest(l.stored.chunks, Text(l.reserved), start, start, room);
    CoversExactly(l, start, Scan(l.stored.chunks, start, start, room).next);
  }

  // ------------------------------------------------------------ main results

  /** A page whose start comes from the row at one moment and whose chunks are read any number of steps later is
      exact if and only if no reservation that meets it is in flight, or dropped, at the second read. */
  lemma PageReadsExactlyWhenStored(l: Log, steps: seq<Step>, offset: Option<int>, room: nat)
    requires Inv(l) && StartOf(offset, l.stored.row.truncatedBefore) <= Bytes(After(l, steps).reserved)
    ensures
      var start := StartOf(offset, l.stored.row.truncatedBefore);
      var late := After(l, steps);
      Exact(late, start, room) <==> NoneAway(late, start, Scan(late.stored.chunks, start, start, room).next)
  {
    hide Inv, After, Exact, NoneAway, Bytes, Scan;
    AfterKeeps(l, steps);
    ExactWhenNoneAway(After(l, steps), StartOf(offset, l.stored.row.truncatedBefore), room);
  }

  /** A reservation that is away and ends above `start` comes before row `j` of the table. */
  predicate GapBefore(l: Log, start: nat, i: nat, j: nat) {
    && i < |l.reserved| && Away(l, i) && start < l.reserved[i].End()
    && j < |l.stored.chunks| && i <= l.stored.chunks[j].no
  }

  /** The same as a condition on what is there before the chunks are read: a page of a given size is exact if and
      only if it reaches no row behind a gap. */
  lemma PageExactlyWhenNoGapReached(l: Log, steps: seq<Step>, offset: Option<int>, room: nat)
    requires Inv(l) && StartOf(offset, l.stored.row.truncatedBefore) <= Bytes(After(l, steps).reserved)
    ensures
      var start := StartOf(offset, l.stored.row.truncatedBefore);
      var late := After(l, steps);
      Exact(late, start, room) <==>
      forall i, j: nat :: GapBefore(late, start, i, j) ==> !Reaches(late.stored.chunks, start, room, j)
  {
    hide Inv, After, Exact, Bytes, Away, Reaches;
    var (start, late) := (StartOf(offset, l.stored.row.truncatedBefore), After(l, steps));
    AfterKeeps(l, steps);
    if Exact(late, start, room) {
      forall i, j: nat | GapBefore(late, start, i, j)
        ensures !Reaches(late.stored.chunks, start, room, j)
      {
        ReachedGapIsNotExact(late, start, room, i, j);
      }
    } else {
      var i, j := GapReached(late, start, room);
    }
  }

  /** A row behind a gap lies above the start, and a page reads some of it exactly when it reaches it. */
  lemma BehindGap(l: Log, start: nat, room: nat, i: nat, j: nat)
    requires Inv(l) && GapBefore(l, start, i, j)
    ensures l.reserved[i].End() <= l.stored.chunks[j].offset && l.reserved[i].data != []
    ensures Reaches(l.stored.chunks, start, room, j) <==>
            Scan(l.stored.chunks, start, start, room).next > l.stored.chunks[j].offset
  {
    hide Counted, CutAt, Bytes, Scan, Tiles, Away, Apart, Shows, Reaches;
    var (cs, rs) := (l.stored.chunks, l.reserved);
    AwayIsNotStored(l, i);
    assert cs[j] in cs && rs[cs[j].no] == cs[j];
    TilesApart(rs, i, cs[j].no);
    TileIsNotEmpty(rs, i);
    TableShows(l);
    RowsAreNotEmpty(cs, Text(rs));
    ScanReachesExactly(cs, start, start, room, j);
  }

  lemma ReachedGapIsNotExact(l: Log, start: nat, room: nat, i: nat, j: nat)
    requires Inv(l) && start <= Bytes(l.reserved) && GapBefore(l, start, i, j)
    ensures Reaches(l.stored.chunks, start, room, j) ==> !Exact(l, start, room)
  {
    hide Inv, Bytes, Scan, Exact, Reaches, Away;
    BehindGap(l, start, room, i, j);
    ExactWhenNoneAway(l, start, room);
    assert Reaches(l.stored.chunks, start, room, j) ==>
        Meets(l.reserved[i], start, Scan(l.stored.chunks, start, start, room).next);
  }

  lemma GapReached(l: Log, start: nat, room: nat) returns (i: nat, j: nat)
    requires Inv(l) && start <= Bytes(l.reserved) && !Exact(l, start, room)
    ensures GapBefore(l, start, i, j) && Reaches(l.stored.chunks, start, room, j)
  {
    hide Counted, CutAt, Bytes, Scan, Exact, Tiles, Away, Reaches;
    var (cs, rs) := (l.stored.chunks, l.reserved);
    var next := Scan(cs, start, start, room).next;
    ExactWhenNoneAway(l, start, room);
    i :| 0 <= i < |rs| && Away(l, i) && Meets(rs[i], start, next);
    ScanEnds(cs, start, start, room);
    j :| 0 <= j < |cs| && cs[j].offset < next <= cs[j].End();
    if cs[j].no < i {
      TilesApart(rs, cs[j].no, i);
    }
    BehindGap(l, start, room, i, j);
  }

  /** No reservation that is away and ends above `start` comes before a chunk of the table. */
  ghost predicate Gapless(l: Log, start: nat) {
    forall i, j: nat :: !GapBefore(l, start, i, j)
  }

  /** Pages of every size are exact if and only if the table has no gap above the start. */
  lemma EveryPageExactlyWhenGapless(l: Log, steps: seq<Step>, offset: Option<int>)
    requires Inv(l) && StartOf(offset, l.stored.row.truncatedBefore) <= Bytes(After(l, steps).reserved)
    ensures
      var start := StartOf(offset, l.stored.row.truncatedBefore);
      var late := After(l, steps);
      (forall room: nat :: Exact(late, start, room)) <==> Gapless(late, start)
  {
    hide Inv, After, Exact, Bytes, GapBefore, Reaches;
    var (start, late) := (StartOf(offset, l.stored.row.truncatedBefore), After(l, steps));
    AfterKeeps(l, steps);
    if Gapless(late, start) {
      forall room: nat
        ensures Exact(late, start, room)
      {
        PageExactlyWhenNoGapReached(l, steps, offset, room);
      }
    } else {
      var i, j: nat :| GapBefore(late, start, i, j);
      var room := Bytes(late.stored.chunks);
      EverythingIsReached(late, start, i, j);
      ReachedGapIsNotExact(late, start, room, i, j);
    }
  }

  lemma EverythingIsReached(l: Log, start: nat, i: nat, j: nat)
    requires Inv(l) && GapBefore(l, start, i, j)
    ensures Reaches(l.stored.chunks, start, Bytes(l.stored.chunks), j)
  {
    hide Counted, CutAt, Bytes, Scan, Tiles, Away, Apart, Shows, Reaches;
    var cs := l.stored.chunks;
    BehindGap(l, start, Bytes(cs), i, j);
    TableShows(l);
    RowsAreNotEmpty(cs, Text(l.reserved));
    ScanReaches(cs, start, start, Bytes(cs), j);
  }

  lemma RowsAreNotEmpty(rows: seq<Chunk>, t: seq<Byte>)
    requires Shows(rows, t)
    ensures forall i :: 0 <= i < |rows| ==> rows[i].data != []
  {
  }

  const RACE: seq<Step> := [Reserve(Stdout, [65]), Reserve(Stderr, [66]), CommitStep(1, 10)]

  /** Two reservations of one byte, the second committed first: a page from 0 answers 2 and holds only the second. */
  lemma InFlightByteIsSkipped(room: nat)
    requires room >= 1
    ensures
      var l := Run(RACE);
      && l.inFlight == {0} && Text(l.reserved) == [65, 66]
      && Scan(l.stored.chunks, 0, 0, room) == Page([Piece(Stderr, 1, [66])], 2, false)
  {
    hide Scan, Floor, Run, Text, Bytes;
    var l := RaceLog();
    OneByteRow(Stderr, room);
  }

  lemma OneByteRow(stream: Stream, room: nat)
    requires room >= 1
    ensures Scan([Chunk(1, stream, 1, [66])], 0, 0, room) == Page([Piece(stream, 1, [66])], 2, false)
  {
    hide Scan, Floor;
    var c := Chunk(1, stream, 1, [66]);
    ScanTurn([c], 0, 0, room);
    ScanNone(0, 2, room - 1);
    assert [c][1..] == [] && c.data[0..] == c.data;
    FloorAtEnd(c.data, 1);
  }

  lemma FloorAtEnd(s: seq<Byte>, i: nat)
    requires i >= |s|
    ensures Floor(s, i) == i
  {
  }

  lemma RaceLog() returns (l: Log)
    ensures l == Run(RACE)
    ensures l.inFlight == {0} && l.stored.chunks == [Chunk(1, Stderr, 1, [66])] && Text(l.reserved) == [65, 66]
  {
    hide Run, Commit, Text, Bytes;
    var (a, b) := (Chunk(0, Stdout, 0, [65]), Chunk(1, Stderr, 1, [66]));
    var l2 := RaceReserved();
    l := Apply(l2, RACE[2]);
    RunOfThree(RACE);
    FirstCommit(b, 10);
    TextOfTwo(a, b);
    assert [65] + [66] == [65, 66];
  }

  lemma RaceReserved() returns (l: Log)
    ensures l == Apply(Apply(EMPTY, RACE[0]), RACE[1])
    ensures l.reserved == [Chunk(0, Stdout, 0, [65]), Chunk(1, Stderr, 1, [66])]
    ensures l.inFlight == {0, 1} && l.stored == EMPTY.stored
  {
    hide Commit;
    var l1 := Apply(EMPTY, RACE[0]);
    assert l1.reserved == [Chunk(0, Stdout, 0, [65])];
    l := Apply(l1, RACE[1]);
  }

  lemma RunOfThree(steps: seq<Step>)
    requires |steps| == 3
    ensures Run(steps) == Apply(Apply(Apply(EMPTY, steps[0]), steps[1]), steps[2])
  {
    hide Apply;
    assert steps[..2][..1] == steps[..1] && steps[..1][..0] == [] && steps[..3] == steps;
    assert Run(steps[..1]) == Apply(EMPTY, steps[0]);
    assert Run(steps[..2]) == Apply(Run(steps[..1]), steps[1]);
  }

  lemma FirstCommit(c: Chunk, cap: nat)
    requires |c.data| <= cap
    ensures Commit(EMPTY.stored, c, cap) == Stored([c], Count(EMPTY.stored.row, c))
  {
    hide DropCount;
    assert [c][..0] == [] && [c][0..] == [c] && Bytes([c]) == |c.data|;
    assert DropCount([c], cap) == 0;
  }

  lemma TextOfTwo(a: Chunk, b: Chunk)
    ensures Text([a, b]) == a.data + b.data
  {
    assert [a, b][..1] == [a] && [a][..0] == [];
  }

  const FIRST: seq<Step> := [Reserve(Stdout, [65]), CommitStep(0, 1)]
  const SECOND: seq<Step> := [Reserve(Stdout, [66]), CommitStep(1, 1)]

  /** Under a cap of one byte: the row is read after the first byte, the chunks after the second. Nothing is in
      flight at either moment, and the first byte is lost. */
  lemma DroppedBetweenReads(room: nat)
    requires room >= 1
    ensures
      var l := Run(FIRST);
      var late := After(l, SECOND);
      && StartOf(None, l.stored.row.truncatedBefore) == 0 && l.inFlight == late.inFlight == {}
      && Text(late.reserved) == [65, 66]
      && Scan(late.stored.chunks, 0, 0, room) == Page([Piece(Stdout, 1, [66])], 2, false)
  {
    hide Scan, Floor, Run, After, Text, Bytes;
    var l := FirstLog();
    var late := SecondLog(l);
    OneByteRow(Stdout, room);
  }

  lemma FirstLog() returns (l: Log)
    ensures l == Run(FIRST)
    ensures l.reserved == l.stored.chunks == [Chunk(0, Stdout, 0, [65])] && l.inFlight == {}
    ensures l.stored.row == TaskRow(1, 0, 1, 0) && l.counters == Counters(1, 1, 1, 0)
  {
    hide Run, Commit;
    var a := Chunk(0, Stdout, 0, [65]);
    var l1 := Log(Counters(1, 1, 1, 0), EMPTY.stored, [a], {0});
    RunOfTwo(FIRST);
    assert Apply(EMPTY, FIRST[0]) == l1;
    FirstCommit(a, 1);
    l := Apply(l1, FIRST[1]);
  }

  lemma RunOfTwo(steps: seq<Step>)
    requires |steps| == 2
    ensures Run(steps) == Apply(Apply(EMPTY, steps[0]), steps[1])
  {
    hide Apply;
    assert steps[..1][..0] == [] && Run(steps[..1]) == Apply(EMPTY, steps[0]);
  }

  lemma SecondLog(l: Log) returns (late: Log)
    requires l.reserved == l.stored.chunks == [Chunk(0, Stdout, 0, [65])] && l.inFlight == {}
    requires l.stored.row == TaskRow(1, 0, 1, 0) && l.counters == Counters(1, 1, 1, 0)
    ensures late == After(l, SECOND) && late.inFlight == {}
    ensures late.stored.chunks == [Chunk(1, Stdout, 1, [66])] && Text(late.reserved) == [65, 66]
  {
    hide Text, Commit, Bytes;
    var (a, b) := (Chunk(0, Stdout, 0, [65]), Chunk(1, Stdout, 1, [66]));
    var l1 := Apply(l, SECOND[0]);
    assert SECOND[..1][..0] == [] && After(l, SECOND[..1]) == l1;
    assert l1.reserved == [a, b] && l1.stored == l.stored;
    late := Apply(l1, SECOND[1]);
    assert After(l, SECOND) == late;
    CommitOverCap(l.stored, a, b);
    TextOfTwo(a, b);
    assert [65] + [66] == [65, 66];
  }

  /** A second byte under a cap of one drops the first. */
  lemma CommitOverCap(s: Stored, a: Chunk, b: Chunk)
    requires s.chunks == [a] && a.no < b.no && |a.data| == |b.data| == 1
    ensures Commit(s, b, 1).chunks == [b]
  {
    var cs := Insert(s.chunks, b);
    assert cs == [a, b];
    BytesOfTwo(a, b);
    assert cs[0..] == cs && cs[1..] == [b] && cs[2..] == [];
    assert DropCount(cs, 1) == 1;
  }

  lemma BytesOfTwo(a: Chunk, b: Chunk)
    ensures Bytes([a, b]) == |a.data| + |b.data| && Bytes([b]) == |b.data| && Bytes([]) == 0
  {
    assert [a, b][..1] == [a] && [a][..0] == [] && [b][..0] == [];
    assert Bytes([a]) == |a.data|;
  }
}
