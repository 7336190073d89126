/**
 Reading a task's output in pages, and the log of a task manager as an object.
 On a quiescent log, following `next` from page to page yields exactly the bytes
 from the requested offset (or the retention cut) to the end.
 */
module TaskPaging {
  import opened Wrappers
  import opened Utf8
  import opened TaskOutput

  datatype Piece = Piece(stream: Stream, offset: nat, data: seq<Byte>)

  datatype Page = Page(pieces: seq<Piece>, next: nat, more: bool)

  const PAGE_LIMIT: nat := 4 * 1024 * 1024

  function Min(a: int, b: int): int { if a < b then a else b }

  /** The bytes of a page: as many as fit, never ending inside a UTF-8 sequence of a chunk. */
  function Scan(rows: seq<Chunk>, start: nat, pos: nat, room: nat): Page
    decreases |rows|
  {
    if rows == [] then Page([], pos, false)
    else
      var c := rows[0];
      var skip := Max(start - c.offset, 0);
      if skip >= |c.data| then Scan(rows[1..], start, pos, room)
      else
        var slice := c.data[skip..];
        var take := Floor(slice, Min(|slice|, room));
        var next := c.offset + skip + take;
        if take == 0 then Page([], pos, true)
        else if take < |slice| then Page([Piece(c.stream, c.offset + skip, slice[..take])], next, true)
        else
          var p := Scan(rows[1..], start, next, room - take);
          p.(pieces := [Piece(c.stream, c.offset + skip, slice)] + p.pieces)
  }

  function PieceText(ps: seq<Piece>): seq<Byte> {
    if ps == [] then [] else ps[0].data + PieceText(ps[1..])
  }

  /** Consecutive pieces starting at `pos`. */
  predicate PiecesFrom(ps: seq<Piece>, pos: nat) {
    ps == [] || (ps[0].offset == pos && ps[0].data != [] && PiecesFrom(ps[1..], pos + |ps[0].data|))
  }

  /** A piece is part of a chunk and carries that chunk's stream. */
  ghost predicate CutFrom(p: Piece, rows: seq<Chunk>) {
    exists i :: 0 <= i < |rows| && rows[i].offset <= p.offset && p.offset + |p.data| <= rows[i].End()
                && p.stream == rows[i].stream && p.data == rows[i].data[p.offset - rows[i].offset..][..|p.data|]
  }

  ghost predicate Contiguous(rows: seq<Chunk>, base: nat) {
    rows == [] || (rows[0].offset == base && Contiguous(rows[1..], rows[0].End()))
  }

  /** No chunk continues a UTF-8 sequence at offset `at`. */
  ghost predicate EndsClean(rows: seq<Chunk>, at: nat) {
    forall i :: 0 <= i < |rows| && rows[i].offset < at < rows[i].End() ==>
        !Continuation(rows[i].data[at - rows[i].offset])
  }

  // ------------------------------------------------------------ texts

  lemma {:induction false} TextCons(rows: seq<Chunk>)
    requires rows != []
    ensures Text(rows) == rows[0].data + Text(rows[1..])
    decreases |rows|
  {
    var n := |rows|;
    if n == 1 {
      assert rows[..0] == [] && rows[1..] == [];
    } else {
      hide Text, Bytes;
      var (front, last) := (rows[..n - 1], rows[n - 1]);
      TextSnoc(rows);
      TextSnoc(rows[1..]);
      TextCons(front);
      assert front[1..] == rows[1..][..n - 2];
      assert rows[0].data + Text(front[1..]) + last.data == rows[0].data + (Text(front[1..]) + last.data);
    }
  }

  lemma TextSnoc(rows: seq<Chunk>)
    requires rows != []
    ensures Text(rows) == Text(rows[..|rows| - 1]) + rows[|rows| - 1].data
  {
  }

  lemma BytesCons(rows: seq<Chunk>)
    requires rows != []
    ensures Bytes(rows) == |rows[0].data| + Bytes(rows[1..])
  {
    TextCons(rows);
  }

  /** The text from inside the first row on. */
  lemma TextFrom(rows: seq<Chunk>, a: nat, e: nat)
    requires rows != [] && a <= |rows[0].data| <= e <= Bytes(rows)
    ensures Bytes(rows) == |rows[0].data| + Bytes(rows[1..])
    ensures Text(rows)[a..e] == rows[0].data[a..] + Text(rows[1..])[..e - |rows[0].data|]
  {
    TextCons(rows);
  }

  lemma {:induction false} TextSplit(rows: seq<Chunk>, m: nat)
    requires m <= |rows|
    ensures Text(rows) == Text(rows[..m]) + Text(rows[m..])
    decreases |rows| - m
  {
    if m == |rows| {
      assert rows[..m] == rows && rows[m..] == [];
    } else {
      hide Text, Bytes;
      TextSplit(rows, m + 1);
      TextCons(rows[m..]);
      TextSnoc(rows[..m + 1]);
      assert rows[..m + 1][..m] == rows[..m] && rows[m..][1..] == rows[m + 1..];
      assert Text(rows[..m]) + rows[m].data + Text(rows[m + 1..]) ==
          Text(rows[..m]) + (rows[m].data + Text(rows[m + 1..]));
    }
  }

  lemma {:induction false} TilesContiguous(rows: seq<Chunk>, m: nat)
    requires Tiles(rows) && m <= |rows|
    ensures Contiguous(rows[m..], Bytes(rows[..m]))
    decreases |rows| - m
  {
    if m < |rows| {
      TilesContiguous(rows, m + 1);
      BytesPrefix(rows, m);
      assert rows[m..][1..] == rows[m + 1..];
    }
  }

  lemma {:induction false} ContiguousBounds(rows: seq<Chunk>, base: nat, i: nat)
    requires Contiguous(rows, base) && i < |rows|
    ensures base <= rows[i].offset
    decreases i
  {
    if i > 0 {
      ContiguousBounds(rows[1..], rows[0].End(), i - 1);
    }
  }

  // ------------------------------------------------------------ one page

  /** What a page promises about the rows it was read from. */
  ghost predicate PageOf(p: Page, rows: seq<Chunk>, base: nat, start: nat, pos: nat, room: nat) {
    && base <= pos <= p.next <= base + Bytes(rows)
    && p.next - pos <= room
    && PieceText(p.pieces) == Text(rows)[pos - base..p.next - base]
    && PiecesFrom(p.pieces, pos)
    && (forall k :: 0 <= k < |p.pieces| ==> CutFrom(p.pieces[k], rows))
    && (p.more <==> p.next < base + Bytes(rows))
    && (p.next == start || EndsClean(rows, p.next))
  }

  lemma CutFromLonger(p: Piece, rows: seq<Chunk>)
    requires rows != [] && CutFrom(p, rows[1..])
    ensures CutFrom(p, rows)
  {
    var i :| 0 <= i < |rows[1..]| && rows[1..][i].offset <= p.offset && p.offset + |p.data| <= rows[1..][i].End()
             && p.stream == rows[1..][i].stream
             && p.data == rows[1..][i].data[p.offset - rows[1..][i].offset..][..|p.data|];
    assert rows[1..][i] == rows[i + 1];
  }

  lemma EndsCleanLonger(rows: seq<Chunk>, at: nat)
    requires rows != [] && EndsClean(rows[1..], at) && rows[0].End() <= at
    ensures EndsClean(rows, at)
  {
    forall i | 0 <= i < |rows| && rows[i].offset < at < rows[i].End()
      ensures !Continuation(rows[i].data[at - rows[i].offset])
    {
      assert rows[i] == rows[1..][i - 1];
    }
  }

  /** A page whose first row was skipped or fully read is the page of the other rows. */
  lemma PageExtends(p: Page, rows: seq<Chunk>, base: nat, start: nat, pos: nat, room: nat)
    requires rows != [] && Contiguous(rows, base) && rows[0].End() <= pos
    requires PageOf(p, rows[1..], rows[0].End(), start, pos, room)
    ensures PageOf(p, rows, base, start, pos, room)
  {
    hide Text, Bytes, CutFrom, EndsClean, PiecesFrom, PieceText, Contiguous;
    FirstOffset(rows, base);
    BytesCons(rows);
    TextCons(rows);
    assert Text(rows)[pos - base..p.next - base] == Text(rows[1..])[pos - rows[0].End()..p.next - rows[0].End()];
    forall k | 0 <= k < |p.pieces|
      ensures CutFrom(p.pieces[k], rows)
    {
      CutFromLonger(p.pieces[k], rows);
    }
    if p.next != start {
      EndsCleanLonger(rows, p.next);
    }
  }

  lemma FirstRowCut(rows: seq<Chunk>, skip: nat, take: nat)
    requires rows != [] && skip + take <= |rows[0].data|
    ensures CutFrom(Piece(rows[0].stream, rows[0].offset + skip, rows[0].data[skip..][..take]), rows)
  {
    var p := Piece(rows[0].stream, rows[0].offset + skip, rows[0].data[skip..][..take]);
    assert rows[0].data[p.offset - rows[0].offset..][..|p.data|] == p.data;
  }

  lemma PrependText(ps: seq<Piece>, piece: Piece, rows: seq<Chunk>, pos: nat)
    requires piece.data != [] && piece.offset == pos && PiecesFrom(ps, pos + |piece.data|)
    requires CutFrom(piece, rows) && forall k :: 0 <= k < |ps| ==> CutFrom(ps[k], rows)
    ensures PiecesFrom([piece] + ps, pos) && PieceText([piece] + ps) == piece.data + PieceText(ps)
    ensures forall k :: 0 <= k < |[piece] + ps| ==> CutFrom(([piece] + ps)[k], rows)
  {
    assert ([piece] + ps)[1..] == ps;
  }

  lemma PagePrepends(p: Page, rows: seq<Chunk>, base: nat, start: nat, pos: nat, room: nat)
    requires rows != [] && Contiguous(rows, base) && base <= pos < rows[0].End() && start <= pos
    requires rows[0].End() - pos <= room
    requires PageOf(p, rows[1..], rows[0].End(), start, rows[0].End(), room - (rows[0].End() - pos))
    ensures PageOf(p.(pieces := [Piece(rows[0].stream, pos, rows[0].data[pos - base..])] + p.pieces), rows, base, start,
        pos, room)
  {
    hide CutFrom, EndsClean, Text, Contiguous, Bytes, PiecesFrom, PieceText;
    FirstOffset(rows, base);
    var c := rows[0];
    var piece := Piece(c.stream, pos, c.data[pos - base..]);
    PageExtends(p, rows, base, start, c.End(), room - (c.End() - pos));
    assert CutFrom(piece, rows) by {
      FirstRowCut(rows, pos - base, |piece.data|);
      assert c.data[pos - base..][..|piece.data|] == piece.data;
    }
    PrependText(p.pieces, piece, rows, pos);
    TextFrom(rows, pos - base, p.next - base);
    TextFrom(rows, |c.data|, p.next - base);
    assert c.data[|c.data|..] == [];
  }

  lemma FirstOffset(rows: seq<Chunk>, base: nat)
    requires rows != [] && Contiguous(rows, base)
    ensures rows[0].offset == base && Contiguous(rows[1..], rows[0].End())
  {
  }

  lemma CleanInFirst(rows: seq<Chunk>, base: nat, at: nat)
    requires rows != [] && Contiguous(rows, base) && base <= at < rows[0].End()
    requires at > base ==> !Continuation(rows[0].data[at - base])
    ensures EndsClean(rows, at)
  {
    forall i | 0 <= i < |rows| && rows[i].offset < at < rows[i].End()
      ensures !Continuation(rows[i].data[at - rows[i].offset])
    {
      if i > 0 {
        ContiguousBounds(rows[1..], rows[0].End(), i - 1);
      }
    }
  }

  /** A page that ends inside the first row. */
  lemma PagePartial(rows: seq<Chunk>, base: nat, start: nat, pos: nat, room: nat, take: nat)
    requires rows != [] && Contiguous(rows, base) && base <= pos && 0 < take <= room && pos + take < rows[0].End()
    requires !Continuation(rows[0].data[pos - base + take])
    ensures PageOf(Page([Piece(rows[0].stream, pos, rows[0].data[pos - base..][..take])], pos + take, true), rows, base,
        start, pos, room)
  {
    hide CutFrom, EndsClean, Text, Bytes;
    var c := rows[0];
    var piece := Piece(c.stream, pos, c.data[pos - base..][..take]);
    TextCons(rows);
    BytesCons(rows);
    CleanInFirst(rows, base, pos + take);
    FirstRowCut(rows, pos - base, take);
    var p := Page([piece], pos + take, true);
    assert [piece][1..] == [] && PiecesFrom([], pos + take);
    assert PieceText([piece]) == piece.data + PieceText([]) == piece.data;
    assert Text(rows)[pos - base..pos + take - base] == c.data[pos - base..pos - base + take] == piece.data;
    assert |Text(rows)| == Bytes(rows);
    assert PiecesFrom(p.pieces, pos);
    assert CutFrom(p.pieces[0], rows);
  }

  lemma PageEmpty(rows: seq<Chunk>, base: nat, start: nat, pos: nat, room: nat)
    requires Contiguous(rows, base) && (rows != [] ==> base <= pos < rows[0].End() && (pos == start || pos == base))
    requires rows == [] ==> pos == base
    ensures PageOf(Page([], pos, rows != []), rows, base, start, pos, room)
  {
    if rows != [] {
      TextCons(rows);
      if pos == base {
        CleanInFirst(rows, base, pos);
      }
    }
    assert Text(rows)[pos - base..pos - base] == [];
  }

  /** One turn of the page loop, as an equation. */
  lemma ScanTurn(rows: seq<Chunk>, start: nat, pos: nat, room: nat)
    requires rows != []
    ensures
      var c := rows[0];
      var skip := Max(start - c.offset, 0);
      Scan(rows, start, pos, room) ==
        if skip >= |c.data| then Scan(rows[1..], start, pos, room)
        else
          var slice := c.data[skip..];
          var take := Floor(slice, Min(|slice|, room));
          if take == 0 then Page([], pos, true)
          else if take < |slice|
              then Page([Piece(c.stream, c.offset + skip, slice[..take])], c.offset + skip + take, true)
          else
            var p := Scan(rows[1..], start, c.End(), room - take);
            p.(pieces := [Piece(c.stream, c.offset + skip, slice)] + p.pieces)
  {
  }

  /** The same for a first row that starts at `base` and reaches beyond `start`. */
  lemma ScanTurnAt(rows: seq<Chunk>, base: nat, start: nat, room: nat)
    requires rows != [] && rows[0].offset == base && Max(start, base) < rows[0].End()
    ensures
      var (c, pos) := (rows[0], Max(start, base));
      var slice := c.data[pos - base..];
      var take := Floor(slice, Min(|slice|, room));
      Scan(rows, start, pos, room) ==
        if take == 0 then Page([], pos, true)
        else if take < |slice| then Page([Piece(c.stream, pos, slice[..take])], pos + take, true)
        else
          var p := Scan(rows[1..], start, c.End(), room - take);
          p.(pieces := [Piece(c.stream, pos, slice)] + p.pieces)
  {
    hide Scan, Floor;
    ScanTurn(rows, start, Max(start, base), room);
    assert Max(start - base, 0) == Max(start, base) - base;
  }

  lemma ScanNone(start: nat, pos: nat, room: nat)
    ensures Bytes([]) == 0 && Scan([], start, pos, room) == Page([], pos, false)
  {
  }

  /** A turn that ends the page, or takes all of the first row. */
  lemma ScanTakes(rows: seq<Chunk>, base: nat, start: nat, room: nat)
    requires rows != [] && Contiguous(rows, base) && start < rows[0].End()
    requires var (pos, c) := (Max(start, base), rows[0]);
             c.End() - pos <= room ==>
               PageOf(Scan(rows[1..], start, c.End(), room - (c.End() - pos)), rows[1..], c.End(), start, c.End(),
                   room - (c.End() - pos))
    requires Max(start, base) < rows[0].End()
    ensures PageOf(Scan(rows, start, Max(start, base), room), rows, base, start, Max(start, base), room)
  {
    hide PageOf, Contiguous, Text, Bytes, Scan, Floor;
    var (pos, c) := (Max(start, base), rows[0]);
    FirstOffset(rows, base);
    ScanTurnAt(rows, base, start, room);
    var slice := c.data[pos - base..];
    var take := Floor(slice, Min(|slice|, room));
    if take == 0 {
      PageEmpty(rows, base, start, pos, room);
    } else if take < |slice| {
      PagePartial(rows, base, start, pos, room, take);
    } else {
      PagePrepends(Scan(rows[1..], start, c.End(), room - take), rows, base, start, pos, room);
    }
  }

  /** The loop reads a correct page, whatever the limit. */
  lemma {:induction false} ScanReads(rows: seq<Chunk>, base: nat, start: nat, room: nat)
    requires Contiguous(rows, base) && start <= base + Bytes(rows)
    ensures PageOf(Scan(rows, start, Max(start, base), room), rows, base, start, Max(start, base), room)
    decreases |rows|
  {
    hide PageOf, Contiguous, Text, Bytes, Scan;
    var pos := Max(start, base);
    if rows == [] {
      ScanNone(start, pos, room);
      PageEmpty(rows, base, start, pos, room);
    } else {
      var c := rows[0];
      FirstOffset(rows, base);
      BytesCons(rows);
      if Max(start - base, 0) >= |c.data| {
        ScanTurn(rows, start, pos, room);
        ScanReads(rows[1..], c.End(), start, room);
        PageExtends(Scan(rows[1..], start, pos, room), rows, base, start, pos, room);
      } else {
        if c.End() - pos <= room {
          ScanReads(rows[1..], c.End(), start, room - (c.End() - pos));
        }
        ScanTakes(rows, base, start, room);
      }
    }
  }

  ghost predicate ValidChunks(rows: seq<Chunk>) {
    forall i :: 0 <= i < |rows| ==> Valid(rows[i].data)
  }

  lemma SliceTakes(data: seq<Byte>, skip: nat, room: nat)
    requires Valid(data) && skip < |data| && room >= 4
    ensures Floor(data[skip..], Min(|data| - skip, room)) > 0
  {
    ValidStructure(data);
    SliceStructure(data, skip, |data|);
    assert data[skip..|data|] == data[skip..];
    FloorIsNear(data[skip..], Min(|data| - skip, room));
  }

  lemma ScanForward(rows: seq<Chunk>, base: nat, start: nat, room: nat)
    requires Contiguous(rows, base) && start <= base
    ensures Scan(rows, start, base, room).next >= base
  {
    ScanReads(rows, base, start, room);
  }

  /** With room for a whole sequence, a page that does not start at the end moves forward. */
  lemma {:induction false} ScanProgresses(rows: seq<Chunk>, base: nat, start: nat, room: nat)
    requires Contiguous(rows, base) && ValidChunks(rows) && base <= start < base + Bytes(rows) && room >= 4
    ensures Scan(rows, start, start, room).next > start
    decreases |rows|
  {
    hide Contiguous, Text, Bytes, Scan, Valid;
    ScanNone(start, start, room);
    var c := rows[0];
    FirstOffset(rows, base);
    BytesCons(rows);
    ScanTurn(rows, start, start, room);
    if start - base >= |c.data| {
      ScanProgresses(rows[1..], c.End(), start, room);
    } else {
      SliceTakes(c.data, start - base, room);
      if c.End() - start <= room {
        ScanForward(rows[1..], c.End(), start, room - (c.End() - start));
      }
    }
  }

  /** Rows that end at or below `start` contribute nothing. */
  lemma {:induction false} ScanSkips(low: seq<Chunk>, rows: seq<Chunk>, start: nat, pos: nat, room: nat)
    requires forall i :: 0 <= i < |low| ==> low[i].End() <= start
    ensures Scan(low + rows, start, pos, room) == Scan(rows, start, pos, room)
    decreases |low|
  {
    if low == [] {
      assert low + rows == rows;
    } else {
      assert (low + rows)[1..] == low[1..] + rows;
      ScanSkips(low[1..], rows, start, pos, room);
    }
  }

  // ------------------------------------------------------------ main results

  /** The rows a page of a quiescent log is read from. */
  lemma LogPage(l: Log, start: nat, room: nat) returns (m: nat)
    requires Quiescent(l) && l.stored.row.truncatedBefore <= start <= l.stored.row.totalBytes
    ensures Tiles(l.reserved) && CutAt(l, m) && Contiguous(l.reserved[m..], l.stored.row.truncatedBefore)
    ensures l.stored.row.totalBytes == Bytes(l.reserved) == l.stored.row.truncatedBefore + Bytes(l.reserved[m..])
    ensures Text(l.reserved) == Text(l.reserved[..m]) + Text(l.reserved[m..])
    ensures Scan(l.stored.chunks, start, start, room) == Scan(l.reserved[m..], start, start, room)
  {
    var low;
    m, low := QuiescentLogTiles(l);
    ScanSkips(low, l.reserved[m..], start, start, room);
    TilesContiguous(l.reserved, m);
    TextSplit(l.reserved, m);
  }

  lemma CleanInLog(rows: seq<Chunk>, m: nat, at: nat)
    requires Tiles(rows) && m <= |rows| && EndsClean(rows[m..], at) && Bytes(rows[..m]) <= at
    ensures EndsClean(rows, at)
  {
    forall i | 0 <= i < |rows| && rows[i].offset < at < rows[i].End()
      ensures !Continuation(rows[i].data[at - rows[i].offset])
    {
      if i < m {
        TilesOrdered(rows, i, m - 1);
      } else {
        assert rows[m..][i - m] == rows[i];
      }
    }
  }

  lemma DropPrefix(a: seq<Byte>, b: seq<Byte>, i: nat, j: nat)
    requires |a| <= i <= j <= |a| + |b|
    ensures (a + b)[i..j] == b[i - |a|..j - |a|]
  {
  }

  /** One page of a quiescent log from any offset between the cut and the end: it holds exactly the bytes
      `[start, next)`, at most `room` of them, does not end inside a sequence of a chunk, and says `more`
      exactly when bytes remain. With room for four bytes and valid chunks it moves forward. */
  lemma PageRefinesLog(l: Log, start: nat, room: nat)
    requires Quiescent(l) && l.stored.row.truncatedBefore <= start <= l.stored.row.totalBytes
    ensures
      var p := Scan(l.stored.chunks, start, start, room);
      && start <= p.next <= l.stored.row.totalBytes == |Text(l.reserved)|
      && PieceText(p.pieces) == Text(l.reserved)[start..p.next]
      && PiecesFrom(p.pieces, start)
      && p.next - start <= room
      && (p.more <==> p.next < l.stored.row.totalBytes)
      && (p.next == start || EndsClean(l.reserved, p.next))
      && (ValidChunks(l.reserved) && room >= 4 && start < l.stored.row.totalBytes ==> p.next > start)
  {
    hide Quiescent, Tiles, Contiguous, Text, Bytes, Scan, PieceText, PiecesFrom, CutFrom, EndsClean, Valid;
    var cut := l.stored.row.truncatedBefore;
    var m := LogPage(l, start, room);
    var rows := l.reserved[m..];
    var p := Scan(rows, start, start, room);
    ScanReads(rows, cut, start, room);
    DropPrefix(Text(l.reserved[..m]), Text(rows), start, p.next);
    if p.next != start {
      CleanInLog(l.reserved, m, p.next);
    }
    if ValidChunks(l.reserved) && room >= 4 && start < l.stored.row.totalBytes {
      assert ValidChunks(rows);
      ScanProgresses(rows, cut, start, room);
    }
  }

  /** What a client gets by following `next` until the end of the log. */
  function ReadAll(rows: seq<Chunk>, total: nat, start: nat, room: nat): seq<Byte>
    decreases total - start
  {
    if start >= total then []
    else
      var p := Scan(rows, start, start, room);
      if p.next <= start then PieceText(p.pieces) else PieceText(p.pieces) + ReadAll(rows, total, p.next, room)
  }

  /** Paging refines the log: the concatenated pages are the bytes from `start` to the end. */
  lemma {:induction false} PagingRefinesLog(l: Log, start: nat, room: nat)
    requires Quiescent(l) && ValidChunks(l.reserved) && room >= 4
    requires l.stored.row.truncatedBefore <= start <= l.stored.row.totalBytes
    ensures start <= |Text(l.reserved)|
    ensures ReadAll(l.stored.chunks, l.stored.row.totalBytes, start, room) == Text(l.reserved)[start..]
    decreases l.stored.row.totalBytes - start
  {
    hide Quiescent, ValidChunks, PiecesFrom, EndsClean;
    PageRefinesLog(l, start, room);
    var (t, total) := (Text(l.reserved), l.stored.row.totalBytes);
    if start < total {
      var p := Scan(l.stored.chunks, start, start, room);
      PagingRefinesLog(l, p.next, room);
      assert t[start..] == t[start..p.next] + t[p.next..];
    }
  }

  /** Four is the exact limit: below it some log of valid chunks is stuck on a page. */
  lemma ProgressExactlyFromFour(room: nat)
    requires room >= 1
    ensures room >= 4 <==>
      (forall steps: seq<Step>, start: nat ::
         var l := Run(steps);
         l.inFlight == {} && ValidChunks(l.reserved)
             && l.stored.row.truncatedBefore <= start < l.stored.row.totalBytes ==>
           Scan(l.stored.chunks, start, start, room).next > start)
  {
    if room >= 4 {
      forall steps: seq<Step>, start: nat |
          Run(steps).inFlight == {} && ValidChunks(Run(steps).reserved)
          && Run(steps).stored.row.truncatedBefore <= start < Run(steps).stored.row.totalBytes
        ensures Scan(Run(steps).stored.chunks, start, start, room).next > start
      {
        EveryInterleavingAccounts(steps);
        PageRefinesLog(Run(steps), start, room);
      }
    } else {
      StuckOnOneCharacter(room);
    }
  }

  const WIDE: seq<Byte> := [0xF0, 0x9F, 0x98, 0x80]
  const WIDE_STEPS: seq<Step> := [Reserve(Stdout, WIDE), CommitStep(0, 4)]

  /** One four-byte character read with a smaller limit: the page is empty and `next` does not move. */
  lemma StuckOnOneCharacter(room: nat)
    requires 1 <= room < 4
    ensures var l := Run(WIDE_STEPS);
            && l.inFlight == {} && ValidChunks(l.reserved)
            && l.stored.row.truncatedBefore <= 0 < l.stored.row.totalBytes
            && Scan(l.stored.chunks, 0, 0, room) == Page([], 0, true)
  {
    hide Run, Scan, Floor, Utf8.Valid, Bytes;
    var l := WideLog();
    WideText(room);
    ScanTurn(l.stored.chunks, 0, 0, room);
    assert WIDE[0..] == WIDE;
  }

  lemma WideText(room: nat)
    requires 1 <= room < 4
    ensures Utf8.Valid(WIDE) && Floor(WIDE, room) == 0
  {
    assert WIDE[4..] == [];
  }

  lemma WideLog() returns (l: Log)
    ensures l == Run(WIDE_STEPS)
    ensures l.inFlight == {} && l.reserved == l.stored.chunks == [Chunk(0, Stdout, 0, WIDE)]
    ensures l.stored.row.truncatedBefore == 0 && l.stored.row.totalBytes == 4
  {
    hide DropCount;
    var c := Chunk(0, Stdout, 0, WIDE);
    assert WIDE_STEPS[..1] == [WIDE_STEPS[0]] && WIDE_STEPS[..1][..0] == [];
    var l1 := Apply(EMPTY, WIDE_STEPS[0]);
    assert Run(WIDE_STEPS[..1]) == l1 && l1.reserved == [c];
    assert [c][..0] == [] && Bytes([c]) == 4 && [c][0..] == [c];
    l := Apply(l1, WIDE_STEPS[1]);
    assert Run(WIDE_STEPS) == l;
  }

  // ------------------------------------------------------------ the stored log as the manager keeps it

  /** Where a page starts: at the requested offset, but not before the cut. */
  function StartOf(offset: Option<int>, truncatedBefore: nat): (r: nat)
    ensures offset.Some? && offset.value >= truncatedBefore ==> r == offset.value
    ensures offset.None? || offset.value < truncatedBefore ==> r == truncatedBefore
  {
    Max(Max(if offset.Some? then offset.value else truncatedBefore, truncatedBefore), 0)
  }

  function Clamp(n: nat): (r: nat)
    ensures 1 <= n <= 4 * 1024 * 1024 ==> r == n
    ensures n == 0 ==> r == 1
    ensures n > 4 * 1024 * 1024 ==> r == 4 * 1024 * 1024
  {
    Max(1, Min(n, PAGE_LIMIT))
  }

  /** The first offset a request asks for: the one it names, but not before the cut. */
  ghost predicate Requested(offset: Option<int>, cut: nat, from: nat) {
    if offset.Some? && offset.value >= cut then from == offset.value else from == cut
  }

  /** The text of a page is its pieces in order. */
  lemma PageIsBounded(rows: seq<Chunk>, start: nat, pos: nat, room: nat)
    ensures |PieceText(Scan(rows, start, pos, room).pieces)| <= room
    ensures var ps := Scan(rows, start, pos, room).pieces;
            forall k :: 0 <= k < |ps| ==> start <= ps[k].offset
    decreases |rows|
  {
    hide Scan, Floor;
    if rows == [] {
      ScanNone(start, pos, room);
    } else {
      var c := rows[0];
      var skip := Max(start - c.offset, 0);
      ScanTurn(rows, start, pos, room);
      if skip >= |c.data| {
        PageIsBounded(rows[1..], start, pos, room);
      } else {
        var slice := c.data[skip..];
        var take := Floor(slice, Min(|slice|, room));
        if take == |slice| {
          var q := Scan(rows[1..], start, c.End(), room - take);
          PageIsBounded(rows[1..], start, c.End(), room - take);
          var piece := Piece(c.stream, c.offset + skip, slice);
          assert ([piece] + q.pieces)[1..] == q.pieces;
        } else if take > 0 {
          var piece := Piece(c.stream, c.offset + skip, slice[..take]);
          assert [piece][1..] == [] && PieceText([piece]) == piece.data + PieceText([]);
        }
      }
    }
  }

  /** A page with pieces already collected in front of it. */
  function Behind(ps: seq<Piece>, p: Page): Page {
    p.(pieces := ps + p.pieces)
  }

  lemma BehindNothing(p: Page)
    ensures Behind([], p) == p
  {
  }

  lemma NoneBehind(ps: seq<Piece>, start: nat, pos: nat, room: nat)
    ensures Behind(ps, Scan([], start, pos, room)) == Page(ps, pos, false)
  {
    ScanNone(start, pos, room);
  }

  /** One turn of the loop, with the pieces read so far in front. */
  lemma TurnBehind(ps: seq<Piece>, rows: seq<Chunk>, start: nat, pos: nat, room: nat)
    requires rows != []
    ensures
      var c := rows[0];
      var skip := Max(start - c.offset, 0);
      Behind(ps, Scan(rows, start, pos, room)) ==
        if skip >= |c.data| then Behind(ps, Scan(rows[1..], start, pos, room))
        else
          var slice := c.data[skip..];
          var take := Floor(slice, Min(|slice|, room));
          var piece := Piece(c.stream, c.offset + skip, slice[..take]);
          if take == 0 then Page(ps, pos, true)
          else if take < |slice| then Page(ps + [piece], c.offset + skip + take, true)
          else Behind(ps + [piece], Scan(rows[1..], start, c.offset + skip + take, room - take))
  {
    hide Scan, Floor;
    ScanTurn(rows, start, pos, room);
    var c := rows[0];
    var skip := Max(start - c.offset, 0);
    if skip < |c.data| {
      var slice := c.data[skip..];
      var take := Floor(slice, Min(|slice|, room));
      if take == |slice| {
        assert slice[..take] == slice;
        var q := Scan(rows[1..], start, c.End(), room - take);
        var piece := Piece(c.stream, c.offset + skip, slice);
        assert ps + ([piece] + q.pieces) == ps + [piece] + q.pieces;
      }
    }
  }

  class TaskLog {
    var counters: Counters
    var chunks: seq<Chunk>
    var row: TaskRow

    constructor ()
      ensures counters == EMPTY.counters && Stored(chunks, row) == EMPTY.stored
    {
      counters, chunks, row := Counters(0, 0, 0, 0), [], TaskRow(0, 0, 0, 0);
    }

    /** The section under the readers' lock. */
    method ReserveRange(stream: Stream, data: seq<Byte>) returns (c: Chunk)
      modifies this`counters
      ensures counters == Advance(old(counters), stream, |data|)
      ensures c == Chunk(old(counters.seqNo), stream, old(counters.nextOffset), data)
    {
      c := Chunk(counters.seqNo, stream, counters.nextOffset, data);
      counters := counters.(seqNo := counters.seqNo + 1, nextOffset := counters.nextOffset + |data|);
      if stream == Stdout {
        counters := counters.(stdout := counters.stdout + |data|);
      } else {
        counters := counters.(stderr := counters.stderr + |data|);
      }
    }

    /** The transaction: insert, count, and drop the oldest chunks while over the cap. */
    method CommitChunk(c: Chunk, cap: nat)
      modifies this`chunks, this`row
      ensures Stored(chunks, row) == Commit(Stored(old(chunks), old(row)), c, cap)
    {
      hide Insert, Bytes, DropCount;
      chunks := Insert(chunks, c);
      if c.stream == Stdout {
        row := row.(stdoutBytes := row.stdoutBytes + |c.data|, totalBytes := row.totalBytes + |c.data|);
      } else {
        row := row.(stderrBytes := row.stderrBytes + |c.data|, totalBytes := row.totalBytes + |c.data|);
      }
      assert row == Count(old(row), c);
      var retained := Bytes(chunks);
      if retained > cap {
        DropOldest(retained - cap, cap);
      } else {
        assert chunks[0..] == chunks;
      }
    }

    /** The loop that deletes the oldest rows until the excess is gone. */
    method DropOldest(over: int, ghost cap: nat)
      requires over == Bytes(chunks) - cap > 0
      modifies this`chunks, this`row
      ensures var k := DropCount(old(chunks), cap);
              && k > 0 && chunks == old(chunks)[k..]
              && row == old(row).(truncatedBefore := Max(old(row).truncatedBefore, old(chunks)[k - 1].End()))
    {
      hide Bytes;
      var excess := over;
      var rows := chunks;
      var newTrunc: nat, i := 0, 0;
      assert rows[0..] == rows;
      while i < |rows| && excess > 0
        invariant 0 <= i <= |rows| && chunks == rows[i..] && row == old(row)
        invariant excess == Bytes(rows[i..]) - cap
        invariant i > 0 ==> Bytes(rows[i - 1..]) > cap
        invariant newTrunc == if i == 0 then 0 else rows[i - 1].End()
        invariant DropFrom(rows, cap, i) == DropCount(rows, cap)
      {
        BytesCons(rows[i..]);
        assert rows[i..][1..] == rows[i + 1..];
        chunks := chunks[1..];
        excess := excess - |rows[i].data|;
        newTrunc := rows[i].End();
        i := i + 1;
      }
      assert i == DropCount(rows, cap);
      row := row.(truncatedBefore := Max(row.truncatedBefore, newTrunc));
    }

    /** How much of one chunk goes on the page, and whether some of it is left behind. */
    method TakeFrom(c: Chunk, start: nat, room: nat) returns (skip: nat, take: nat, left: bool)
      ensures skip == Max(start - c.offset, 0)
      ensures skip >= |c.data| ==> take == 0 && !left
      ensures skip < |c.data| ==>
        take == Floor(c.data[skip..], Min(|c.data| - skip, room)) && left == (take < |c.data| - skip)
    {
      skip := Max(start - c.offset, 0);
      var slice := c.data[Min(skip, |c.data|)..];
      if slice == [] {
        return skip, 0, false;
      }
      take := FloorLoop(slice, Min(|slice|, room));
      left := take < |slice|;
    }

    /** Bounded output retrieval. `info` is the row as an earlier query read it; chunks may have been committed and
        dropped since. */
    method Output(info: TaskRow, offset: Option<int>, maxBytes: nat) returns (p: Page, moreAvailable: bool)
      ensures var start := StartOf(offset, info.truncatedBefore);
              && p == Scan(chunks, start, start, Clamp(maxBytes))
              && moreAvailable == (p.more || p.next < info.totalBytes)
      ensures 1 <= maxBytes <= 4 * 1024 * 1024 ==> |PieceText(p.pieces)| <= maxBytes
      ensures forall from: nat :: Requested(offset, info.truncatedBefore, from) ==>
                forall k :: 0 <= k < |p.pieces| ==> from <= p.pieces[k].offset
    {
      hide Scan, Floor, Behind, PieceText, StartOf, Clamp;
      var start := StartOf(offset, info.truncatedBefore);
      var max := Clamp(maxBytes);
      var out: seq<Piece> := [];
      var used, next: nat, more, i := 0, start, false, 0;
      assert chunks[0..] == chunks;
      BehindNothing(Scan(chunks, start, start, max));
      while i < |chunks| && !more
        invariant 0 <= i <= |chunks| && used <= max
        invariant Scan(chunks, start, start, max) ==
                  if more then Page(out, next, true) else Behind(out, Scan(chunks[i..], start, next, max - used))
      {
        var c := chunks[i];
        TurnBehind(out, chunks[i..], start, next, max - used);
        assert chunks[i..][1..] == chunks[i + 1..];
        i := i + 1;
        var skip, take, left := TakeFrom(c, start, max - used);
        if take > 0 {
          out := out + [Piece(c.stream, c.offset + skip, c.data[skip..][..take])];
          used, next := used + take, c.offset + skip + take;
        }
        more := left;
      }
      assert !more ==> chunks[i..] == [];
      NoneBehind(out, start, next, max - used);
      p := Page(out, next, more);
      PageIsBounded(chunks, start, start, max);
      moreAvailable := more || next < info.totalBytes;
    }
  }

  /** A client that asks for pages, each from where the last one ended, until no more is available: it gets the log
      from the offset it asked for, or from the cut, to the end. */
  method ReadToEnd(log: TaskLog, ghost l: Log, offset: Option<int>, maxBytes: nat) returns (all: seq<Byte>)
    requires log.chunks == l.stored.chunks && log.row == l.stored.row
    requires Quiescent(l) && ValidChunks(l.reserved) && maxBytes >= 4
    ensures forall from: nat :: Requested(offset, l.stored.row.truncatedBefore, from) ==>
              all == if from <= |Text(l.reserved)| then Text(l.reserved)[from..] else []
  {
    hide Quiescent, ValidChunks, Scan, Text, Bytes, PiecesFrom, EndsClean, PieceText;
    ghost var (t, cut) := (Text(l.reserved), l.stored.row.truncatedBefore);
    ghost var from := StartOf(offset, cut);
    var p, more := log.Output(log.row, offset, maxBytes);
    all := Concatenated(p.pieces);
    TotalIsText(l);
    if from > |t| {
      BeyondTheEnd(l, from, Clamp(maxBytes));
      NoPieces();
    } else {
      PageRefinesLog(l, from, Clamp(maxBytes));
    }
    while more
      invariant from > |t| ==> !more && all == []
      invariant from <= |t| ==> from <= p.next <= |t| && cut <= p.next && all == t[from..p.next]
      invariant from <= |t| ==> (more <==> p.next < |t|)
      decreases |t| - p.next
    {
      ghost var next := p.next;
      PageRefinesLog(l, next, Clamp(maxBytes));
      p, more := log.Output(log.row, Some(p.next), maxBytes);
      var text := Concatenated(p.pieces);
      assert t[from..next] + t[next..p.next] == t[from..p.next];
      all := all + text;
    }
    if from <= |t| {
      assert t[from..|t|] == t[from..];
    }
  }

  lemma NoPieces()
    ensures PieceText([]) == []
  {
  }

  method Concatenated(ps: seq<Piece>) returns (text: seq<Byte>)
    ensures text == PieceText(ps)
  {
    text := [];
    var i := |ps|;
    while i > 0
      invariant 0 <= i <= |ps| && text == PieceText(ps[i..])
    {
      i := i - 1;
      assert ps[i..][1..] == ps[i + 1..];
      text := ps[i].data + text;
    }
    assert ps[0..] == ps;
  }

  lemma TotalIsText(l: Log)
    requires Quiescent(l)
    ensures l.stored.row.truncatedBefore <= l.stored.row.totalBytes == |Text(l.reserved)|
  {
    hide Bytes;
    var m, low := QuiescentLogTiles(l);
    TextSplit(l.reserved, m);
  }

  /** Beyond the end there is nothing to read. */
  lemma BeyondTheEnd(l: Log, start: nat, room: nat)
    requires Quiescent(l) && start > |Text(l.reserved)|
    ensures Scan(l.stored.chunks, start, start, room) == Page([], start, false)
  {
    hide Scan, Bytes, Counted, CutAt, Tiles;
    var (cs, rs) := (l.stored.chunks, l.reserved);
    forall i | 0 <= i < |cs|
      ensures cs[i].End() <= start
    {
      TilesOrdered(rs, cs[i].no, cs[i].no);
      BytesPrefix(rs, cs[i].no);
    }
    ScanSkips(cs, [], start, start, room);
    assert cs + [] == cs;
    ScanNone(start, start, room);
  }
}
