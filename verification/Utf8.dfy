/**
 The facts about UTF-8 that byte-level code in the service relies on: a byte with
 the top bits `10` continues a sequence, a sequence has at most three of them, and
 an ASCII byte ends one.
 */
module Utf8 {
  newtype Byte = x: int | 0 <= x < 256

  /** `b & 0b1100_0000 == 0b1000_0000` */
  predicate Continuation(b: Byte) {
    0x80 <= b < 0xC0
  }

  /** The length announced by a leading byte; 0 for a byte that cannot lead. */
  function SequenceLength(b: Byte): nat {
    if b < 0x80 then 1
    else if b < 0xC0 then 0
    else if b < 0xE0 then 2
    else if b < 0xF0 then 3
    else if b < 0xF8 then 4
    else 0
  }

  /** A concatenation of complete sequences. Every valid UTF-8 text is one; overlong forms and
      surrogates are not excluded, so what is proved for `Valid` holds for a superset. */
  predicate Valid(s: seq<Byte>) {
    s == [] ||
    var n := SequenceLength(s[0]);
    && 1 <= n <= |s|
    && (forall i :: 1 <= i < n ==> Continuation(s[i]))
    && Valid(s[n..])
  }

  predicate FourAt(s: seq<Byte>, i: nat) {
    i + 3 < |s| && Continuation(s[i]) && Continuation(s[i + 1]) && Continuation(s[i + 2]) && Continuation(s[i + 3])
  }

  /** No four continuation bytes in a row. */
  ghost predicate ShortRuns(s: seq<Byte>) {
    forall i: nat :: !FourAt(s, i)
  }

  predicate SplitAt(s: seq<Byte>, i: nat) {
    i + 1 < |s| && s[i] < 0x80 && Continuation(s[i + 1])
  }

  /** No continuation byte directly after an ASCII byte. */
  ghost predicate CleanAfterAscii(s: seq<Byte>) {
    forall i: nat :: !SplitAt(s, i)
  }

  lemma {:induction false} ValidStructure(s: seq<Byte>)
    requires Valid(s)
    ensures s != [] ==> !Continuation(s[0])
    ensures ShortRuns(s) && CleanAfterAscii(s)
    decreases |s|
  {
    if s != [] {
      var n := SequenceLength(s[0]);
      var t := s[n..];
      ValidStructure(t);
      assert n < |s| ==> s[n] == t[0];
      forall i: nat
        ensures !FourAt(s, i) && !SplitAt(s, i)
      {
        if i >= n {
          assert FourAt(s, i) == FourAt(t, i - n) && SplitAt(s, i) == SplitAt(t, i - n);
        }
      }
    }
  }

  lemma SliceStructure(s: seq<Byte>, i: nat, j: nat)
    requires i <= j <= |s|
    ensures ShortRuns(s) ==> ShortRuns(s[i..j])
    ensures CleanAfterAscii(s) ==> CleanAfterAscii(s[i..j])
  {
    forall k: nat
      ensures FourAt(s[i..j], k) ==> FourAt(s, i + k)
      ensures SplitAt(s[i..j], k) ==> SplitAt(s, i + k)
    {
    }
  }

  /** The greatest index at or below `i` that does not split a sequence (or 0). */
  function Floor(s: seq<Byte>, i: nat): (r: nat)
    ensures r <= i
    ensures r == 0 || r >= |s| || !Continuation(s[r])
    ensures forall k :: r < k <= i && k < |s| ==> Continuation(s[k])
  {
    if 0 < i < |s| && Continuation(s[i]) then Floor(s, i - 1) else i
  }

  /** Rounding down moves at most three bytes. */
  lemma FloorIsNear(s: seq<Byte>, i: nat)
    requires ShortRuns(s)
    ensures i >= 4 ==> Floor(s, i) >= i - 3
  {
    if i >= 4 {
      assert !FourAt(s, i - 3);
    }
  }

  /** The loop that rounds an index down. */
  method FloorLoop(s: seq<Byte>, i: nat) returns (r: nat)
    ensures r == Floor(s, i)
  {
    r := i;
    while 0 < r < |s| && Continuation(s[r])
      invariant Floor(s, r) == Floor(s, i)
      decreases r
    {
      r := r - 1;
    }
  }
}
