/**
 Streaming redaction. Output bytes arrive in arbitrary chunks; the redactor holds
 a tail back and releases a prefix at a safe cut. On UTF-8 input with bounded lines
 every cut is at a line boundary, so a redaction that works line by line gives the
 same result on the stream as on the whole text.
 */
module Redaction {
  import opened Wrappers
  import opened Utf8

  const MAX_HOLD: nat := 64 * 1024
  const TAIL_HOLD: nat := 512
  const NEWLINE: Byte := 10

  /** `-----BEGIN ` and `-----END ` */
  const KEY_BEGIN: seq<Byte> := [45, 45, 45, 45, 45, 66, 69, 71, 73, 78, 32]
  const KEY_END: seq<Byte> := [45, 45, 45, 45, 45, 69, 78, 68, 32]

  predicate OccursAt(hay: seq<Byte>, needle: seq<Byte>, i: nat) {
    i + |needle| <= |hay| && hay[i..i + |needle|] == needle
  }

  /** The first occurrence of `needle` at or after `i`. */
  function FindFrom(hay: seq<Byte>, needle: seq<Byte>, i: nat): (r: Option<nat>)
    requires i <= |hay|
    ensures r.Some? ==> OccursAt(hay, needle, r.value) && i <= r.value
    ensures r.Some? ==> forall k :: i <= k < r.value ==> !OccursAt(hay, needle, k)
    ensures r == None ==> forall k :: i <= k <= |hay| ==> !OccursAt(hay, needle, k)
    decreases |hay| - i
  {
    if OccursAt(hay, needle, i) then Some(i)
    else if i == |hay| then None
    else FindFrom(hay, needle, i + 1)
  }

  function Find(hay: seq<Byte>, needle: seq<Byte>): Option<nat> {
    FindFrom(hay, needle, 0)
  }

  function LastNewline(buf: seq<Byte>): (r: Option<nat>)
    ensures r.Some? ==> r.value < |buf| && buf[r.value] == NEWLINE && NEWLINE !in buf[r.value + 1..]
    ensures r == None ==> NEWLINE !in buf
  {
    if buf == [] then None
    else if buf[|buf| - 1] == NEWLINE then Some(|buf| - 1)
    else LastNewline(buf[..|buf| - 1])
  }

  /** The index just after the last newline, or 0. */
  function LineStart(buf: seq<Byte>): (r: nat)
    ensures r <= |buf| && (r > 0 ==> buf[r - 1] == NEWLINE) && NEWLINE !in buf[r..]
  {
    var nl := LastNewline(buf);
    if nl.Some? then nl.value + 1 else 0
  }

  function Min(a: nat, b: nat): nat { if a < b then a else b }

  /** An unterminated private-key block is held back while the buffer is small. */
  predicate HoldsKey(buf: seq<Byte>) {
    var begin := Find(buf, KEY_BEGIN);
    begin.Some? && Find(buf[begin.value..], KEY_END) == None && |buf| < MAX_HOLD
  }

  function SafeCut(buf: seq<Byte>): (cut: nat)
    ensures cut <= |buf|
  {
    if HoldsKey(buf) then Floor(buf, LineStart(buf[..Find(buf, KEY_BEGIN).value]))
    else if NEWLINE in buf then Floor(buf, LineStart(buf))
    else if |buf| > MAX_HOLD then Floor(buf, |buf| - TAIL_HOLD)
    else 0
  }

  /** What becomes of one block of bytes: its lossy decoding, redacted. */
  type Redactor = seq<Byte> -> seq<Byte>

  /** The replacements made in one block, by rule. */
  type Counter = seq<Byte> -> multiset<string>

  // ------------------------------------------------------------ the object

  class StreamRedactor {
    var pending: seq<Byte>
    var report: multiset<string>
    const redact: Redactor
    const count: Counter

    constructor (redact: Redactor, count: Counter)
      ensures pending == [] && report == multiset{} && this.redact == redact && this.count == count
    {
      pending, report := [], multiset{};
      this.redact, this.count := redact, count;
    }

    /** Feed bytes; returns redacted bytes ready for storage. */
    method Push(chunk: seq<Byte>) returns (out: seq<Byte>)
      modifies this`pending, this`report
      ensures var buf := old(pending) + chunk;
              var ready := buf[..SafeCut(buf)];
              && pending == buf[SafeCut(buf)..]
              && out == (if ready == [] then [] else redact(ready))
              && report == old(report) + (if ready == [] then multiset{} else count(ready))
    {
      pending := pending + chunk;
      var cut := CutPoint();
      if cut == 0 {
        return [];
      }
      var ready := pending[..cut];
      pending := pending[cut..];
      out := redact(ready);
      report := report + count(ready);
    }

    /** Flush remaining bytes at end of stream. */
    method Finish() returns (out: seq<Byte>)
      modifies this`pending, this`report
      ensures pending == [] && out == (if old(pending) == [] then [] else redact(old(pending)))
      ensures report == old(report) + (if old(pending) == [] then multiset{} else count(old(pending)))
    {
      var rest := pending;
      pending := [];
      if rest == [] {
        return [];
      }
      out := redact(rest);
      report := report + count(rest);
    }

    method CutPoint() returns (cut: nat)
      ensures cut == SafeCut(pending)
    {
      var begin := Find(pending, KEY_BEGIN);
      if begin.Some? {
        var after := pending[begin.value..];
        if Find(after, KEY_END) == None && |pending| < MAX_HOLD {
          var nl := LastNewline(pending[..begin.value]);
          var line := if nl.Some? then nl.value + 1 else 0;
          cut := FloorLoop(pending, Min(begin.value, line));
          return;
        }
      }
      var last := LastNewline(pending);
      if last.Some? {
        cut := FloorLoop(pending, last.value + 1);
      } else if |pending| > MAX_HOLD {
        cut := FloorLoop(pending, |pending| - TAIL_HOLD);
      } else {
        cut := 0;
      }
    }
  }

  // ------------------------------------------------------------ a whole stream

  function Concat(chunks: seq<seq<Byte>>): seq<Byte> {
    if chunks == [] then [] else chunks[0] + Concat(chunks[1..])
  }

  /** The blocks released while the chunks are pushed, and what is still pending. */
  datatype Flow = Flow(blocks: seq<seq<Byte>>, rest: seq<Byte>)

  function Feed(pending: seq<Byte>, chunks: seq<seq<Byte>>): Flow
    decreases |chunks|
  {
    if chunks == [] then Flow([], pending)
    else
      var buf := pending + chunks[0];
      var cut := SafeCut(buf);
      var later := Feed(buf[cut..], chunks[1..]);
      if cut == 0 then later else Flow([buf[..cut]] + later.blocks, later.rest)
  }

  function RedactAll(f: Redactor, blocks: seq<seq<Byte>>): seq<Byte> {
    if blocks == [] then [] else f(blocks[0]) + RedactAll(f, blocks[1..])
  }

  /** Everything the stream emits: the released blocks, then the flush. */
  function StreamOutput(f: Redactor, chunks: seq<seq<Byte>>): seq<Byte> {
    var flow := Feed([], chunks);
    RedactAll(f, flow.blocks) + if flow.rest == [] then [] else f(flow.rest)
  }

  function CountAll(f: Counter, blocks: seq<seq<Byte>>): multiset<string> {
    if blocks == [] then multiset{} else f(blocks[0]) + CountAll(f, blocks[1..])
  }

  /** The report at the end of the stream. */
  function StreamReport(f: Counter, chunks: seq<seq<Byte>>): multiset<string> {
    var flow := Feed([], chunks);
    CountAll(f, flow.blocks) + if flow.rest == [] then multiset{} else f(flow.rest)
  }

  predicate EndsLine(b: seq<Byte>) {
    b != [] && b[|b| - 1] == NEWLINE
  }

  ghost predicate AllEndLines(blocks: seq<seq<Byte>>) {
    forall i :: 0 <= i < |blocks| ==> EndsLine(blocks[i])
  }

  /** A redaction that never looks across the end of a line. */
  ghost predicate LineLocal(f: Redactor) {
    f([]) == [] && forall x, y :: EndsLine(x) ==> f(x + y) == f(x) + f(y)
  }

  ghost predicate LineLocalCount(f: Counter) {
    f([]) == multiset{} && forall x, y :: EndsLine(x) ==> f(x + y) == f(x) + f(y)
  }

  predicate LineAt(s: seq<Byte>, i: nat, j: nat) {
    i <= j <= |s| && forall k :: i <= k < j ==> s[k] != NEWLINE
  }

  /** No line is longer than the redactor is willing to hold. */
  ghost predicate BoundedLines(s: seq<Byte>) {
    forall i: nat, j: nat :: LineAt(s, i, j) ==> j - i <= MAX_HOLD
  }

  // ------------------------------------------------------------ one cut

  lemma LineBoundaryIsWhole(buf: seq<Byte>, r: nat)
    requires CleanAfterAscii(buf) && r <= |buf| && (r > 0 ==> buf[r - 1] == NEWLINE)
    ensures Floor(buf, r) == r
  {
    if 0 < r < |buf| {
      assert !SplitAt(buf, r - 1);
    }
  }

  /** On a clean buffer without an over-long line the cut is 0 or just after a newline. */
  lemma CutAtLine(buf: seq<Byte>)
    requires CleanAfterAscii(buf) && (NEWLINE !in buf ==> |buf| <= MAX_HOLD)
    ensures SafeCut(buf) > 0 ==> EndsLine(buf[..SafeCut(buf)])
  {
    if HoldsKey(buf) {
      var begin := Find(buf, KEY_BEGIN).value;
      var r := LineStart(buf[..begin]);
      LineBoundaryIsWhole(buf, r);
    } else if NEWLINE in buf {
      LineBoundaryIsWhole(buf, LineStart(buf));
    }
  }

  lemma CleanSlice(s: seq<Byte>, i: nat, j: nat)
    requires CleanAfterAscii(s) && BoundedLines(s) && i <= j <= |s|
    ensures CleanAfterAscii(s[i..j]) && BoundedLines(s[i..j])
  {
    SliceStructure(s, i, j);
    forall a: nat, b: nat | LineAt(s[i..j], a, b)
      ensures b - a <= MAX_HOLD
    {
      assert forall k :: i + a <= k < i + b ==> s[k] == s[i..j][k - i];
      assert LineAt(s, i + a, i + b);
    }
  }

  lemma OneLine(buf: seq<Byte>)
    requires BoundedLines(buf)
    ensures NEWLINE !in buf ==> |buf| <= MAX_HOLD
  {
    assert NEWLINE !in buf ==> LineAt(buf, 0, |buf|);
  }

  // ------------------------------------------------------------ every chunking

  /** Nothing is lost, duplicated or reordered, for any bytes and any chunking. */
  lemma {:induction false} FeedConserves(pending: seq<Byte>, chunks: seq<seq<Byte>>)
    ensures Concat(Feed(pending, chunks).blocks) + Feed(pending, chunks).rest == pending + Concat(chunks)
    decreases |chunks|
  {
    hide SafeCut;
    if chunks == [] {
      assert pending + Concat(chunks) == [] + pending;
    } else {
      var buf := pending + chunks[0];
      var cut := SafeCut(buf);
      var (tail, later) := (Concat(chunks[1..]), Feed(buf[cut..], chunks[1..]));
      FeedConserves(buf[cut..], chunks[1..]);
      Regroup(pending, chunks[0], tail, cut);
      if cut > 0 {
        assert ([buf[..cut]] + later.blocks)[1..] == later.blocks;
        Associate(buf[..cut], Concat(later.blocks), later.rest);
      } else {
        assert buf[cut..] == buf && [] + (buf + tail) == buf + tail;
      }
    }
  }

  lemma Associate(a: seq<Byte>, b: seq<Byte>, c: seq<Byte>)
    ensures a + b + c == a + (b + c)
  {
  }

  lemma Regroup(pending: seq<Byte>, chunk: seq<Byte>, tail: seq<Byte>, cut: nat)
    requires cut <= |pending + chunk|
    ensures pending + (chunk + tail) == (pending + chunk)[..cut] + ((pending + chunk)[cut..] + tail)
  {
    assert pending + chunk == (pending + chunk)[..cut] + (pending + chunk)[cut..];
  }

  lemma {:induction false} FeedCutsAtLines(pending: seq<Byte>, chunks: seq<seq<Byte>>)
    requires CleanAfterAscii(pending + Concat(chunks)) && BoundedLines(pending + Concat(chunks))
    ensures AllEndLines(Feed(pending, chunks).blocks)
    decreases |chunks|
  {
    hide SafeCut, CleanAfterAscii, BoundedLines;
    if chunks != [] {
      var s := pending + Concat(chunks);
      var buf := pending + chunks[0];
      var cut := SafeCut(buf);
      Regroup(pending, chunks[0], Concat(chunks[1..]), cut);
      CleanSlice(s, 0, |buf|);
      assert s[0..|buf|] == buf;
      OneLine(buf);
      CutAtLine(buf);
      CleanSlice(s, cut, |s|);
      assert s[cut..|s|] == buf[cut..] + Concat(chunks[1..]);
      FeedCutsAtLines(buf[cut..], chunks[1..]);
    }
  }

  lemma {:induction false} RedactBlocks(f: Redactor, blocks: seq<seq<Byte>>, rest: seq<Byte>)
    requires LineLocal(f) && AllEndLines(blocks)
    ensures RedactAll(f, blocks) + f(rest) == f(Concat(blocks) + rest)
    decreases |blocks|
  {
    if blocks == [] {
      assert Concat(blocks) + rest == rest;
    } else {
      assert EndsLine(blocks[0]);
      RedactBlocks(f, blocks[1..], rest);
      assert Concat(blocks) + rest == blocks[0] + (Concat(blocks[1..]) + rest);
    }
  }

  lemma {:induction false} CountBlocks(f: Counter, blocks: seq<seq<Byte>>, rest: seq<Byte>)
    requires LineLocalCount(f) && AllEndLines(blocks)
    ensures CountAll(f, blocks) + f(rest) == f(Concat(blocks) + rest)
    decreases |blocks|
  {
    if blocks == [] {
      assert Concat(blocks) + rest == rest;
    } else {
      assert EndsLine(blocks[0]);
      CountBlocks(f, blocks[1..], rest);
      assert Concat(blocks) + rest == blocks[0] + (Concat(blocks[1..]) + rest);
    }
  }

  // ------------------------------------------------------------ main results

  /** Streaming refines batch: for valid text with bounded lines, any chunking and any line-local
      redaction, the stream emits exactly the redaction of the whole text. */
  lemma StreamRefinesBatch(f: Redactor, chunks: seq<seq<Byte>>)
    requires LineLocal(f) && Valid(Concat(chunks)) && BoundedLines(Concat(chunks))
    ensures StreamOutput(f, chunks) == f(Concat(chunks))
  {
    var flow := Feed([], chunks);
    ValidStructure(Concat(chunks));
    assert [] + Concat(chunks) == Concat(chunks);
    FeedCutsAtLines([], chunks);
    FeedConserves([], chunks);
    RedactBlocks(f, flow.blocks, flow.rest);
  }

  /** And it reports exactly the replacements of the whole text. */
  lemma ReportRefinesBatch(f: Counter, chunks: seq<seq<Byte>>)
    requires LineLocalCount(f) && Valid(Concat(chunks)) && BoundedLines(Concat(chunks))
    ensures StreamReport(f, chunks) == f(Concat(chunks))
  {
    var flow := Feed([], chunks);
    ValidStructure(Concat(chunks));
    assert [] + Concat(chunks) == Concat(chunks);
    FeedCutsAtLines([], chunks);
    FeedConserves([], chunks);
    CountBlocks(f, flow.blocks, flow.rest);
  }

  lemma OverlongLineIsSplit(buf: seq<Byte>)
    requires NEWLINE !in buf && |buf| > MAX_HOLD && ShortRuns(buf)
    ensures SafeCut(buf) > 0 && !EndsLine(buf[..SafeCut(buf)])
  {
    FloorIsNear(buf, |buf| - TAIL_HOLD);
  }

  /** The first block of a feed is the first cut that is not 0. */
  lemma FeedTurn(pending: seq<Byte>, chunk: seq<Byte>, chunks: seq<seq<Byte>>)
    ensures var buf := pending + chunk;
            var cut := SafeCut(buf);
            Feed(pending, [chunk] + chunks).blocks ==
              (if cut == 0 then [] else [buf[..cut]]) + Feed(buf[cut..], chunks).blocks
  {
    hide SafeCut;
    assert ([chunk] + chunks)[1..] == chunks;
  }

  /** Pushing up to the middle of an over-long line either splits it or leaves it alone in the buffer. */
  lemma PushIntoLongLine(text: seq<Byte>, i: nat)
    requires i + MAX_HOLD < |text| && LineAt(text, i, i + MAX_HOLD + 1) && ShortRuns(text) && CleanAfterAscii(text)
    ensures var (a, q) := (text[..i + MAX_HOLD], i + MAX_HOLD);
            var cut := SafeCut(a);
            (cut > 0 && !EndsLine(a[..cut])) || (cut <= i && LineAt(text, cut, q + 1))
  {
    var q := i + MAX_HOLD;
    var a := text[..q];
    SliceStructure(text, 0, q);
    assert text[0..q] == a;
    if NEWLINE in a {
      var r := LineStart(a);
      LineBoundaryIsWhole(a, r);
      assert text[r - 1] == NEWLINE && r <= i;
      forall k | r <= k < q + 1
        ensures text[k] != NEWLINE
      {
        if k < i { assert text[k] == a[r..][k - r]; }
      }
    } else if |a| > MAX_HOLD {
      OverlongLineIsSplit(a);
    } else {
      assert forall k :: 0 <= k < q ==> text[k] == a[k];
    }
  }

  lemma SplitBufferIsBad(text: seq<Byte>, cut: nat, q: nat)
    requires cut <= q < |text| && q - cut >= MAX_HOLD && LineAt(text, cut, q + 1) && ShortRuns(text)
    ensures var buf := text[..q][cut..] + text[q..q + 1];
            SafeCut(buf) > 0 && !EndsLine(buf[..SafeCut(buf)])
  {
    var buf := text[..q][cut..] + text[q..q + 1];
    assert buf == text[cut..q + 1];
    SliceStructure(text, cut, q + 1);
    OverlongLineIsSplit(buf);
  }

  lemma LongLineIsSplit(text: seq<Byte>, i: nat, j: nat) returns (chunks: seq<seq<Byte>>)
    requires Valid(text) && LineAt(text, i, j) && j - i > MAX_HOLD
    ensures Concat(chunks) == text && !AllEndLines(Feed([], chunks).blocks)
  {
    hide Valid, SafeCut, Feed, ShortRuns, CleanAfterAscii;
    ValidStructure(text);
    var q := i + MAX_HOLD;
    var (a, b, c) := (text[..q], text[q..q + 1], text[q + 1..]);
    chunks := [a] + ([b] + [c]);
    ThreeChunks(text, q);
    PushIntoLongLine(text, i);
    var cut := SafeCut(a);
    assert [] + a == a;
    FeedTurn([], a, [b] + [c]);
    FeedTurn(a[cut..], b, [c]);
    var blocks := Feed([], chunks).blocks;
    if cut > 0 && !EndsLine(a[..cut]) {
      assert blocks[0] == a[..cut];
    } else {
      SplitBufferIsBad(text, cut, q);
      var buf := a[cut..] + b;
      assert blocks[if cut == 0 then 0 else 1] == buf[..SafeCut(buf)];
    }
  }

  lemma ThreeChunks(text: seq<Byte>, q: nat)
    requires q < |text|
    ensures Concat([text[..q]] + ([text[q..q + 1]] + [text[q + 1..]])) == text
  {
    var (a, b, c) := (text[..q], text[q..q + 1], text[q + 1..]);
    assert ([a] + ([b] + [c]))[1..] == [b] + [c] && ([b] + [c])[1..] == [c] && [c][1..] == [];
    assert Concat([c]) == c && Concat([b] + [c]) == b + c;
  }

  /** Bounded lines are exactly what keeps every cut of every chunking at a line boundary. */
  lemma CutsAtLinesExactlyWhenBounded(text: seq<Byte>)
    requires Valid(text)
    ensures BoundedLines(text) <==>
            (forall chunks :: Concat(chunks) == text ==> AllEndLines(Feed([], chunks).blocks))
  {
    if BoundedLines(text) {
      ValidStructure(text);
      forall chunks | Concat(chunks) == text
        ensures AllEndLines(Feed([], chunks).blocks)
      {
        assert [] + Concat(chunks) == text;
        FeedCutsAtLines([], chunks);
      }
    } else {
      var i: nat, j: nat :| LineAt(text, i, j) && j - i > MAX_HOLD;
      var chunks := LongLineIsSplit(text, i, j);
    }
  }

  /** A bound on what is held between pushes: at most `MAX_HOLD` bytes, or one unfinished line of `k` bytes more. */
  predicate Held(pending: seq<Byte>, k: nat) {
    |pending| <= MAX_HOLD || (NEWLINE !in pending && |pending| <= MAX_HOLD + k)
  }

  lemma PushStructure(pending: seq<Byte>, chunk: seq<Byte>, rest: seq<Byte>, cut: nat)
    requires cut <= |pending + chunk|
    requires ShortRuns(pending + (chunk + rest)) && CleanAfterAscii(pending + (chunk + rest))
    ensures ShortRuns(pending + chunk) && CleanAfterAscii(pending + chunk)
    ensures ShortRuns((pending + chunk)[cut..] + rest) && CleanAfterAscii((pending + chunk)[cut..] + rest)
  {
    hide ShortRuns, CleanAfterAscii;
    var s := pending + (chunk + rest);
    SliceStructure(s, 0, |pending + chunk|);
    assert s[0..|pending + chunk|] == pending + chunk;
    SliceStructure(s, cut, |s|);
    assert s[cut..|s|] == (pending + chunk)[cut..] + rest;
  }

  lemma FeedOnce(pending: seq<Byte>, chunks: seq<seq<Byte>>)
    requires chunks != []
    ensures Concat(chunks) == chunks[0] + Concat(chunks[1..])
    ensures var buf := pending + chunks[0];
            Feed(pending, chunks).rest == Feed(buf[SafeCut(buf)..], chunks[1..]).rest
  {
  }

  lemma PushHolds(pending: seq<Byte>, chunk: seq<Byte>, k: nat)
    requires Held(pending, k) && |chunk| <= k && ShortRuns(pending + chunk) && CleanAfterAscii(pending + chunk)
    ensures var buf := pending + chunk; |buf| <= MAX_HOLD + 2 * k && Held(buf[SafeCut(buf)..], k)
  {
    var buf := pending + chunk;
    if HoldsKey(buf) {
    } else if NEWLINE in buf {
      var r := LineStart(buf);
      LineBoundaryIsWhole(buf, r);
      if r <= |pending| {
        assert pending[r - 1] == NEWLINE;
      }
    } else if |buf| > MAX_HOLD {
      FloorIsNear(buf, |buf| - TAIL_HOLD);
    }
  }

  /** For valid text in chunks of at most `k` bytes, never more than `MAX_HOLD + k` bytes stay pending. */
  lemma {:induction false} PendingIsBounded(pending: seq<Byte>, chunks: seq<seq<Byte>>, k: nat)
    requires Held(pending, k) && (forall i :: 0 <= i < |chunks| ==> |chunks[i]| <= k)
    requires ShortRuns(pending + Concat(chunks)) && CleanAfterAscii(pending + Concat(chunks))
    ensures |Feed(pending, chunks).rest| <= MAX_HOLD + k
    decreases |chunks|
  {
    if chunks != [] {
      hide SafeCut, ShortRuns, CleanAfterAscii, Held, Concat, Feed;
      var buf := pending + chunks[0];
      var cut := SafeCut(buf);
      FeedOnce(pending, chunks);
      PushStructure(pending, chunks[0], Concat(chunks[1..]), cut);
      PushHolds(pending, chunks[0], k);
      PendingIsBounded(buf[cut..], chunks[1..], k);
    }
  }

  lemma PendingIsBoundedForText(chunks: seq<seq<Byte>>, k: nat, n: nat)
    requires Valid(Concat(chunks)) && n <= |chunks| && forall i :: 0 <= i < |chunks| ==> |chunks[i]| <= k
    ensures |Feed([], chunks[..n]).rest| <= MAX_HOLD + k
  {
    ValidStructure(Concat(chunks));
    PrefixConcat(chunks, n);
    var p := Concat(chunks[..n]);
    SliceStructure(Concat(chunks), 0, |p|);
    assert Concat(chunks)[0..|p|] == p == [] + p;
    PendingIsBounded([], chunks[..n], k);
  }

  lemma {:induction false} PrefixConcat(chunks: seq<seq<Byte>>, n: nat)
    requires n <= |chunks|
    ensures Concat(chunks[..n]) <= Concat(chunks)
    decreases n
  {
    if n > 0 {
      PrefixConcat(chunks[1..], n - 1);
      assert chunks[..n][1..] == chunks[1..][..n - 1];
    }
  }
}
