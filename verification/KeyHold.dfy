/**
 Private-key blocks in the stream redactor. While the buffer holds a begin marker
 without its end marker, everything from the line of the begin marker on is held
 back, so that the block reaches the redactor in one piece. The hold ends with the
 end marker itself, not with its line.
 */
module KeyHold {
  import opened Wrappers
  import opened Utf8
  import opened Redaction

  // ------------------------------------------------------------ one buffer

  /** The first begin marker is at `b`, no end marker follows it, and the buffer is small. */
  ghost predicate Held(buf: seq<Byte>, b: nat) {
    && OccursAt(buf, KEY_BEGIN, b) && (forall i :: 0 <= i < b ==> !OccursAt(buf, KEY_BEGIN, i))
    && (forall j :: b <= j <= |buf| ==> !OccursAt(buf, KEY_END, j)) && |buf| < MAX_HOLD
  }

  /** `cut` is where the line of position `b` starts. */
  predicate StartsLineOf(s: seq<Byte>, cut: nat, b: nat) {
    cut <= b <= |s| && (cut > 0 ==> s[cut - 1] == NEWLINE) && NEWLINE !in s[cut..b]
  }

  lemma HeldMeans(buf: seq<Byte>, b: nat)
    requires Held(buf, b)
    ensures Find(buf, KEY_BEGIN) == Some(b) && HoldsKey(buf)
  {
    assert b <= |buf|;
    var begin := Find(buf, KEY_BEGIN).value;
    assert begin == b;
    forall j | 0 <= j <= |buf[b..]|
      ensures !OccursAt(buf[b..], KEY_END, j)
    {
      OccursInSuffix(buf, KEY_END, b, b + j);
    }
  }

  lemma HoldsKeyMeans(buf: seq<Byte>)
    requires HoldsKey(buf)
    ensures Held(buf, Find(buf, KEY_BEGIN).value)
  {
    var b := Find(buf, KEY_BEGIN).value;
    forall j | b <= j <= |buf|
      ensures !OccursAt(buf, KEY_END, j)
    {
      OccursInSuffix(buf, KEY_END, b, j);
    }
  }

  lemma OccursInSuffix(s: seq<Byte>, needle: seq<Byte>, a: nat, i: nat)
    requires a <= i && a <= |s|
    ensures OccursAt(s, needle, i) <==> OccursAt(s[a..], needle, i - a)
  {
    if i + |needle| <= |s| {
      assert s[a..][i - a..i - a + |needle|] == s[i..i + |needle|];
    }
  }

  /** An unterminated key block is held back from the line of its begin marker on. */
  lemma KeyIsHeldBack(buf: seq<Byte>, b: nat)
    requires Held(buf, b)
    ensures SafeCut(buf) <= b
    ensures CleanAfterAscii(buf) ==> StartsLineOf(buf, SafeCut(buf), b)
  {
    HeldMeans(buf, b);
    var r := LineStart(buf[..b]);
    assert buf[r..b] == buf[..b][r..];
    if CleanAfterAscii(buf) {
      LineBoundaryIsWhole(buf, r);
    }
  }

  lemma WholeBuffer(buf: seq<Byte>)
    ensures buf[0..] == buf
  {
  }

  /** Otherwise the cut is behind the last line, or near the end of an over-long line, or nowhere. */
  lemma CutIsExact(buf: seq<Byte>)
    requires CleanAfterAscii(buf) && ShortRuns(buf) && !exists b :: Held(buf, b)
    ensures NEWLINE in buf ==>
              0 < SafeCut(buf) && buf[SafeCut(buf) - 1] == NEWLINE && NEWLINE !in buf[SafeCut(buf)..]
    ensures NEWLINE !in buf && |buf| > 64 * 1024 ==> |buf| - 515 <= SafeCut(buf) <= |buf| - 512
    ensures NEWLINE !in buf && |buf| <= 64 * 1024 ==> SafeCut(buf) == 0
  {
    if HoldsKey(buf) {
      HoldsKeyMeans(buf);
      assert false;
    }
    if NEWLINE in buf {
      LineBoundaryIsWhole(buf, LineStart(buf));
      WholeBuffer(buf);
    } else if |buf| > MAX_HOLD {
      FloorIsNear(buf, |buf| - TAIL_HOLD);
    }
  }

  // ------------------------------------------------------------ a key in a text

  /** The only begin marker is at `b`, and the first end marker from there on at `e`. */
  ghost predicate KeyAt(t: seq<Byte>, b: nat, e: nat) {
    && OccursAt(t, KEY_BEGIN, b) && (forall i :: 0 <= i <= |t| && OccursAt(t, KEY_BEGIN, i) ==> i == b)
    && b <= e && OccursAt(t, KEY_END, e) && (forall j :: b <= j < e ==> !OccursAt(t, KEY_END, j))
  }

  lemma OccursInSlice(t: seq<Byte>, needle: seq<Byte>, c: nat, x: nat, i: nat)
    requires c <= x <= |t|
    ensures OccursAt(t[c..x], needle, i) <==> c + i + |needle| <= x && OccursAt(t, needle, c + i)
  {
    if c + i + |needle| <= x {
      SliceOfSlice(t, c, x, i, i + |needle|);
    }
  }

  lemma SliceOfSlice(t: seq<Byte>, c: nat, x: nat, i: nat, j: nat)
    requires c <= x <= |t| && i <= j && c + j <= x
    ensures t[c..x][i..j] == t[c + i..c + j]
  {
    var (p, q) := (t[c..x][i..j], t[c + i..c + j]);
    assert |p| == |q|;
    forall k | 0 <= k < |p|
      ensures p[k] == q[k]
    {
      assert p[k] == t[c..x][i + k] == t[c + (i + k)];
      assert q[k] == t[c + i + k];
    }
  }

  /** A slice without the whole begin marker, or with the end marker, is not held. */
  lemma NotHeld(t: seq<Byte>, b: nat, e: nat, c: nat, x: nat)
    requires KeyAt(t, b, e) && c <= x <= |t| && (x < b + |KEY_BEGIN| || x >= e + |KEY_END| || c > b)
    ensures !exists i :: Held(t[c..x], i)
  {
    forall i
      ensures !Held(t[c..x], i)
    {
      if 0 <= i {
        OccursInSlice(t, KEY_BEGIN, c, x, i);
        if c <= e {
          OccursInSlice(t, KEY_END, c, x, e - c);
        }
      }
    }
  }

  /** Between the two markers a slice is held, as long as it is small. */
  lemma IsHeld(t: seq<Byte>, b: nat, e: nat, c: nat, x: nat)
    requires KeyAt(t, b, e) && c <= b && b + |KEY_BEGIN| <= x < e + |KEY_END| && x <= |t| && x - c < MAX_HOLD
    ensures Held(t[c..x], b - c)
  {
    OccursInSlice(t, KEY_BEGIN, c, x, b - c);
    forall i | 0 <= i < b - c
      ensures !OccursAt(t[c..x], KEY_BEGIN, i)
    {
      OccursInSlice(t, KEY_BEGIN, c, x, i);
    }
    forall j | b - c <= j <= |t[c..x]|
      ensures !OccursAt(t[c..x], KEY_END, j)
    {
      OccursInSlice(t, KEY_END, c, x, j);
    }
  }

  // ------------------------------------------------------------ where blocks end

  /** The positions at which the released blocks end. */
  function Ends(blocks: seq<seq<Byte>>, base: nat): set<nat> {
    if blocks == [] then {} else {base + |blocks[0]|} + Ends(blocks[1..], base + |blocks[0]|)
  }

  /** One push over the slice from `c`: the end it adds, and what follows. */
  lemma EndsOfPush(t: seq<Byte>, c: nat, x: nat, chunks: seq<seq<Byte>>)
    requires c <= x && x + |Concat(chunks)| == |t| && t[x..] == Concat(chunks) && chunks != []
    ensures
      var x' := x + |chunks[0]|;
      && x' <= |t| && t[x'..] == Concat(chunks[1..])
      && var cut := SafeCut(t[c..x']);
         Ends(Feed(t[c..x], chunks).blocks, c) ==
         (if cut == 0 then {} else {c + cut}) + Ends(Feed(t[c + cut..x'], chunks[1..]).blocks, c + cut)
  {
    hide SafeCut, Feed, Ends, Concat;
    var x' := x + |chunks[0]|;
    ConcatSplits(chunks);
    SplitText(t, x, chunks[0], Concat(chunks[1..]));
    assert t[c..x] + chunks[0] == t[c..x'];
    EndsOfFeed(t[c..x], chunks, c);
    SliceOfSlice(t, c, x', SafeCut(t[c..x']), x' - c);
    assert t[c..x'][SafeCut(t[c..x'])..x' - c] == t[c..x'][SafeCut(t[c..x'])..];
  }

  lemma ConcatSplits(chunks: seq<seq<Byte>>)
    requires chunks != []
    ensures Concat(chunks) == chunks[0] + Concat(chunks[1..])
  {
  }

  lemma SplitText(t: seq<Byte>, x: nat, chunk: seq<Byte>, rest: seq<Byte>)
    requires x <= |t| && t[x..] == chunk + rest
    ensures x + |chunk| <= |t| && t[x..x + |chunk|] == chunk && t[x + |chunk|..] == rest
  {
    assert t[x..x + |chunk|] == t[x..][..|chunk|];
    assert t[x + |chunk|..] == t[x..][|chunk|..];
  }

  lemma EndsOfFeed(pending: seq<Byte>, chunks: seq<seq<Byte>>, c: nat)
    requires chunks != []
    ensures
      var buf := pending + chunks[0];
      var cut := SafeCut(buf);
      Ends(Feed(pending, chunks).blocks, c) ==
      (if cut == 0 then {} else {c + cut}) + Ends(Feed(buf[cut..], chunks[1..]).blocks, c + cut)
  {
    hide SafeCut;
    var buf := pending + chunks[0];
    var cut := SafeCut(buf);
    var later := Feed(buf[cut..], chunks[1..]);
    if cut > 0 {
      assert ([buf[..cut]] + later.blocks)[1..] == later.blocks;
    }
  }

  lemma {:induction false} EndsGrow(blocks: seq<seq<Byte>>, base: nat)
    ensures forall p :: p in Ends(blocks, base) ==> p >= base
    decreases |blocks|
  {
    if blocks != [] {
      EndsGrow(blocks[1..], base + |blocks[0]|);
    }
  }

  /** No block ends behind the begin of the key and before its end marker. */
  ghost predicate Whole(ends: set<nat>, b: nat, e: nat) {
    forall p :: p in ends ==> !(b < p <= e)
  }

  /** The end of the first push that completes what comes before `need`. */
  function Arrival(chunks: seq<seq<Byte>>, need: nat, x: nat): nat {
    if x >= need || chunks == [] then x else Arrival(chunks[1..], need, x + |chunks[0]|)
  }

  // ------------------------------------------------------------ keys of several lines

  /** Whenever a push from `x` on leaves the begin marker complete and the end marker not, the buffer is small. */
  ghost predicate Roomy(pending: seq<Byte>, chunks: seq<seq<Byte>>, x: nat, b: nat, e: nat)
    decreases |chunks|
  {
    chunks == [] ||
    var (buf, x') := (pending + chunks[0], x + |chunks[0]|);
    && (b + |KEY_BEGIN| <= x' < e + |KEY_END| ==> |buf| < MAX_HOLD)
    && Roomy(buf[SafeCut(buf)..], chunks[1..], x', b, e)
  }

  lemma RoomyPush(t: seq<Byte>, c: nat, x: nat, chunks: seq<seq<Byte>>, b: nat, e: nat)
    requires c <= x && x + |Concat(chunks)| == |t| && t[x..] == Concat(chunks) && chunks != []
    requires Roomy(t[c..x], chunks, x, b, e)
    ensures
      var x' := x + |chunks[0]|;
      && x' <= |t|
      && (b + |KEY_BEGIN| <= x' < e + |KEY_END| ==> x' - c < MAX_HOLD)
      && Roomy(t[c + SafeCut(t[c..x'])..x'], chunks[1..], x', b, e)
  {
    hide SafeCut, Concat;
    var x' := x + |chunks[0]|;
    ConcatSplits(chunks);
    SplitText(t, x, chunks[0], Concat(chunks[1..]));
    var buf := t[c..x'];
    assert t[c..x] + chunks[0] == buf;
    assert buf[SafeCut(buf)..] == t[c + SafeCut(buf)..x'];
  }

  lemma MarkerIsOneLine(t: seq<Byte>, b: nat, e: nat)
    requires KeyAt(t, b, e)
    ensures forall i :: b <= i < b + |KEY_BEGIN| ==> i < |t| && t[i] != NEWLINE
  {
    assert forall i :: b <= i < b + |KEY_BEGIN| ==> t[b..b + |KEY_BEGIN|][i - b] == t[i];
  }

  /** A push that does not complete the end marker cuts nothing behind the begin marker. */
  lemma PushWaits(t: seq<Byte>, b: nat, e: nat, c: nat, x: nat)
    requires KeyAt(t, b, e) && ShortRuns(t) && CleanAfterAscii(t)
    requires c <= b && c <= x < e + |KEY_END| && x <= |t| && (b + |KEY_BEGIN| <= x ==> x - c < MAX_HOLD)
    ensures c + SafeCut(t[c..x]) <= b
  {
    hide SafeCut, ShortRuns, CleanAfterAscii, KeyAt;
    if x < b + |KEY_BEGIN| {
      NotHeld(t, b, e, c, x);
      SliceStructure(t, c, x);
      CutIsExact(t[c..x]);
      MarkerIsOneLine(t, b, e);
      var q := c + SafeCut(t[c..x]);
      assert q > c ==> t[c..x][q - c - 1] == t[q - 1];
    } else {
      IsHeld(t, b, e, c, x);
      KeyIsHeldBack(t[c..x], b - c);
    }
  }

  /** The push that completes the end marker cuts behind the last newline so far, which is in the key or later. */
  lemma CutAtArrival(t: seq<Byte>, b: nat, e: nat, c: nat, x: nat)
    requires KeyAt(t, b, e) && ShortRuns(t) && CleanAfterAscii(t) && NEWLINE in t[b..e]
    requires c <= b && e + |KEY_END| <= x <= |t|
    ensures var q := c + SafeCut(t[c..x]); b < q <= x && (q > e <==> NEWLINE in t[e..x])
  {
    hide SafeCut, ShortRuns, CleanAfterAscii, KeyAt;
    var buf := t[c..x];
    NotHeld(t, b, e, c, x);
    SliceStructure(t, c, x);
    var k :| 0 <= k < |t[b..e]| && t[b..e][k] == NEWLINE;
    assert buf[b + k - c] == t[b + k] == NEWLINE;
    CutIsExact(buf);
    var q := c + SafeCut(buf);
    assert buf[q - c - 1] == t[q - 1] == NEWLINE;
    NewlineFrom(buf, q - c, b + k - c);
    if q > e {
      assert t[e..x][q - 1 - e] == NEWLINE;
    }
    forall i | e <= i < x && t[i] == NEWLINE
      ensures q > i
    {
      NewlineFrom(buf, q - c, i - c);
    }
    assert forall i :: e <= i < x ==> t[e..x][i - e] == t[i];
  }

  lemma {:induction false} KeyIsWhole(t: seq<Byte>, b: nat, e: nat, c: nat, x: nat, chunks: seq<seq<Byte>>)
    requires KeyAt(t, b, e) && ShortRuns(t) && CleanAfterAscii(t) && NEWLINE in t[b..e]
    requires c <= b && c <= x < e + |KEY_END| && x + |Concat(chunks)| == |t| && t[x..] == Concat(chunks)
    requires Roomy(t[c..x], chunks, x, b, e)
    ensures var at := Arrival(chunks, e + |KEY_END|, x);
            && e < at <= |t|
            && (Whole(Ends(Feed(t[c..x], chunks).blocks, c), b, e) <==> NEWLINE in t[e..at])
    decreases |chunks|
  {
    hide SafeCut, ShortRuns, CleanAfterAscii, Feed, Ends, KeyAt, Roomy;
    MarkersAreInside(t, b, e);
    NotAllRead(x, chunks, |t|);
    var x' := x + |chunks[0]|;
    EndsOfPush(t, c, x, chunks);
    RoomyPush(t, c, x, chunks, b, e);
    var q := c + SafeCut(t[c..x']);
    if x' < e + |KEY_END| {
      PushWaits(t, b, e, c, x');
      KeyIsWhole(t, b, e, q, x', chunks[1..]);
    } else {
      assert Arrival(chunks[1..], e + |KEY_END|, x') == x';
      CutAtArrival(t, b, e, c, x');
      EndsGrow(Feed(t[q..x'], chunks[1..]).blocks, q);
    }
  }

  lemma NotAllRead(x: nat, chunks: seq<seq<Byte>>, n: nat)
    requires x + |Concat(chunks)| == n && x < n
    ensures chunks != []
  {
  }

  // ------------------------------------------------------------ keys that leave room

  ghost predicate LinesWithin(t: seq<Byte>, m: nat) {
    forall i: nat, j: nat :: LineAt(t, i, j) ==> j - i <= m
  }

  /** Only the line of the begin marker waits in the buffer besides the key. */
  ghost predicate Waiting(t: seq<Byte>, b: nat, e: nat, c: nat, x: nat) {
    c <= b && c <= x < e + |KEY_END| <= |t| && NEWLINE !in t[c..if x < b + |KEY_BEGIN| then x else b]
  }

  lemma WaitsInOneLine(t: seq<Byte>, b: nat, e: nat, m: nat, c: nat, x: nat)
    requires LinesWithin(t, m) && Waiting(t, b, e, c, x) && b <= |t|
    ensures if x < b + |KEY_BEGIN| then x - c <= m else b - c <= m
  {
    var y := if x < b + |KEY_BEGIN| then x else b;
    assert forall i :: c <= i < y ==> t[c..y][i - c] == t[i];
    assert LineAt(t, c, y);
  }

  lemma StillWaiting(t: seq<Byte>, b: nat, e: nat, m: nat, c: nat, x: nat)
    requires KeyAt(t, b, e) && ShortRuns(t) && CleanAfterAscii(t) && LinesWithin(t, m) && m <= MAX_HOLD
    requires c <= b && c <= x < e + |KEY_END| && (b + |KEY_BEGIN| <= x ==> x - c < MAX_HOLD)
    ensures Waiting(t, b, e, c + SafeCut(t[c..x]), x)
  {
    hide SafeCut, ShortRuns, CleanAfterAscii, KeyAt;
    MarkersAreInside(t, b, e);
    PushWaits(t, b, e, c, x);
    SliceStructure(t, c, x);
    var (buf, cut) := (t[c..x], SafeCut(t[c..x]));
    if x < b + |KEY_BEGIN| {
      NotHeld(t, b, e, c, x);
      CutIsExact(buf);
      assert buf[cut..] == t[c + cut..x];
      if NEWLINE !in buf {
        assert forall i :: c <= i < x ==> buf[i - c] == t[i];
        assert LineAt(t, c, x);
      }
    } else {
      IsHeld(t, b, e, c, x);
      KeyIsHeldBack(buf, b - c);
      SliceOfSlice(t, c, x, cut, b - c);
    }
  }

  lemma {:induction false} StaysRoomy(
      t: seq<Byte>, b: nat, e: nat, m: nat, k: nat, c: nat, x: nat, chunks: seq<seq<Byte>>)
    requires KeyAt(t, b, e) && ShortRuns(t) && CleanAfterAscii(t) && LinesWithin(t, m)
    requires e + |KEY_END| - b + m + k <= MAX_HOLD && forall i :: 0 <= i < |chunks| ==> |chunks[i]| <= k
    requires c <= x && x + |Concat(chunks)| == |t| && t[x..] == Concat(chunks)
    requires x < e + |KEY_END| ==> Waiting(t, b, e, c, x)
    ensures Roomy(t[c..x], chunks, x, b, e)
    decreases |chunks|
  {
    hide SafeCut, ShortRuns, CleanAfterAscii, KeyAt, LinesWithin, Concat;
    if chunks != [] {
      var x' := x + |chunks[0]|;
      MarkersAreInside(t, b, e);
      ConcatSplits(chunks);
      SplitText(t, x, chunks[0], Concat(chunks[1..]));
      var buf := t[c..x'];
      assert t[c..x] + chunks[0] == buf;
      if x' < e + |KEY_END| {
        WaitsInOneLine(t, b, e, m, c, x);
        StillWaiting(t, b, e, m, c, x');
      }
      StaysRoomy(t, b, e, m, k, c + SafeCut(buf), x', chunks[1..]);
      assert buf[SafeCut(buf)..] == t[c + SafeCut(buf)..x'];
    }
  }

  // ------------------------------------------------------------ main results

  /** A key of several lines in valid text, its end marker reached while the buffer is small: no released block ends
      between the two markers exactly when the push that completes the end marker also brings a newline from there
      on. */
  lemma KeyStaysWholeExactly(t: seq<Byte>, chunks: seq<seq<Byte>>, b: nat, e: nat)
    requires Valid(t) && Concat(chunks) == t && KeyAt(t, b, e) && NEWLINE in t[b..e]
    requires Roomy([], chunks, 0, b, e)
    ensures e < Arrival(chunks, e + |KEY_END|, 0) <= |t|
    ensures Whole(Ends(Feed([], chunks).blocks, 0), b, e) <==> NEWLINE in t[e..Arrival(chunks, e + |KEY_END|, 0)]
  {
    hide Valid, KeyAt, Feed, Ends, Roomy;
    ValidStructure(t);
    assert t[0..] == t && t[0..0] == [];
    MarkersAreInside(t, b, e);
    KeyIsWhole(t, b, e, 0, 0, chunks);
  }

  /** The buffer stays small enough if the key, one line and one chunk together are. */
  lemma SmallKeyIsRoomy(t: seq<Byte>, chunks: seq<seq<Byte>>, b: nat, e: nat, m: nat, k: nat)
    requires Valid(t) && Concat(chunks) == t && KeyAt(t, b, e) && LinesWithin(t, m)
    requires (forall i :: 0 <= i < |chunks| ==> |chunks[i]| <= k) && e + |KEY_END| - b + m + k <= MAX_HOLD
    ensures Roomy([], chunks, 0, b, e)
  {
    hide Valid, KeyAt, LinesWithin, Roomy;
    ValidStructure(t);
    assert t[0..] == t && t[0..0] == [];
    MarkersAreInside(t, b, e);
    StaysRoomy(t, b, e, m, k, 0, 0, chunks);
  }

  /** A key on one line is never split while lines are bounded, in whatever chunks it arrives. */
  lemma OneLineKeyStaysWhole(t: seq<Byte>, chunks: seq<seq<Byte>>, b: nat, e: nat)
    requires Valid(t) && Concat(chunks) == t && BoundedLines(t) && KeyAt(t, b, e) && NEWLINE !in t[b..e]
    ensures Whole(Ends(Feed([], chunks).blocks, 0), b, e)
  {
    hide Valid, KeyAt, Feed, BoundedLines, ShortRuns, CleanAfterAscii, Ends, AllEndLines, Concat;
    ValidStructure(t);
    assert [] + Concat(chunks) == t;
    FeedCutsAtLines([], chunks);
    FeedConserves([], chunks);
    MarkersAreInside(t, b, e);
    var f := Feed([], chunks);
    EndsAreLineEnds(f.blocks, f.rest, t, 0);
    assert forall i :: b <= i < e ==> t[b..e][i - b] == t[i];
  }

  lemma {:induction false} EndsAreLineEnds(blocks: seq<seq<Byte>>, rest: seq<Byte>, t: seq<Byte>, base: nat)
    requires AllEndLines(blocks) && base <= |t| && t[base..] == Concat(blocks) + rest
    ensures forall p :: p in Ends(blocks, base) ==> base < p <= |t| && t[p - 1] == NEWLINE
    decreases |blocks|
  {
    if blocks != [] {
      var end := base + |blocks[0]|;
      ConcatSplits(blocks);
      assert Concat(blocks) + rest == blocks[0] + (Concat(blocks[1..]) + rest);
      SplitText(t, base, blocks[0], Concat(blocks[1..]) + rest);
      assert t[base..end][|blocks[0]| - 1] == t[end - 1];
      EndsAreLineEnds(blocks[1..], rest, t, end);
    }
  }

  lemma MarkersAreInside(t: seq<Byte>, b: nat, e: nat)
    requires KeyAt(t, b, e)
    ensures e + |KEY_END| <= |t| && b <= e
  {
  }

  /** A key in two chunks, the first ending right behind the end marker: the redactor sees it in two blocks. */
  lemma KeyIsSplit()
    ensures Feed([], [KEY_BEGIN + [NEWLINE] + KEY_END, [NEWLINE]]).blocks ==
            [KEY_BEGIN + [NEWLINE], KEY_END + [NEWLINE]]
  {
    hide SafeCut;
    var c1 := KEY_BEGIN + [NEWLINE] + KEY_END;
    var chunks := [c1, [NEWLINE]];
    assert [] + c1 == c1 && chunks[1..] == [[NEWLINE]] && chunks[1..][1..] == [];
    SplitAtEndMarker(c1);
    var rest := c1[12..];
    assert rest == KEY_END && c1[..12] == KEY_BEGIN + [NEWLINE];
    LastLineReleased(rest + [NEWLINE]);
    var buf := rest + [NEWLINE];
    assert buf[..|buf|] == buf && buf[|buf|..] == [];
    assert Feed(rest, [[NEWLINE]]) == Flow([buf], []);
  }

  lemma SplitAtEndMarker(buf: seq<Byte>)
    requires buf == KEY_BEGIN + [NEWLINE] + KEY_END
    ensures SafeCut(buf) == 12
  {
    hide SafeCut;
    assert buf[12..21] == KEY_END;
    assert OccursAt(buf, KEY_END, 12) && OccursAt(buf, KEY_BEGIN, 0);
    assert forall i :: Held(buf, i) ==> i == 0;
    AsciiIsClean(buf);
    CutIsExact(buf);
    assert forall i :: 12 <= i < 21 ==> buf[i] == KEY_END[i - 12];
    assert buf[11] == NEWLINE;
    var q := SafeCut(buf);
    NewlineFrom(buf, q, 11);
    assert forall i :: 12 <= i < 21 ==> buf[i] != NEWLINE;
  }

  lemma NewlineFrom(buf: seq<Byte>, q: nat, i: nat)
    requires q <= |buf| && i < |buf| && buf[i] == NEWLINE
    ensures q <= i ==> NEWLINE in buf[q..]
  {
    if q <= i {
      assert buf[q..][i - q] == NEWLINE;
    }
  }

  lemma LastLineReleased(buf: seq<Byte>)
    requires buf == KEY_END + [NEWLINE]
    ensures SafeCut(buf) == |buf|
  {
    hide SafeCut;
    assert buf[9] == NEWLINE;
    forall i
      ensures !Held(buf, i)
    {
      assert !OccursAt(buf, KEY_BEGIN, i);
    }
    AsciiIsClean(buf);
    CutIsExact(buf);
    var q := SafeCut(buf);
    NewlineFrom(buf, q, 9);
  }

  lemma AsciiIsClean(s: seq<Byte>)
    requires forall i :: 0 <= i < |s| ==> s[i] < 0x80
    ensures CleanAfterAscii(s) && ShortRuns(s)
  {
  }
}
