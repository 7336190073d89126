/**
 The gate file: three lines holding the value, the time of writing and a digest of
 both. The digest is a parameter; all that is used of it is its fixed width and
 that it is a single line.
 */
module GateFile {
  import opened Wrappers

  type Digest = string -> string

  const WIDTH: nat := 64

  /** A line that survives being printed and read back. */
  predicate Plain(s: string) {
    forall i :: 0 <= i < |s| ==> s[i] != '\n' && s[i] != '\r'
  }

  predicate NoFeed(s: string) {
    forall i :: 0 <= i < |s| ==> s[i] != '\n'
  }

  /** The two line ends that are read alike. */
  predicate IsEnd(e: string) {
    e == "\n" || e == "\r\n"
  }

  ghost predicate IsDigest(h: Digest) {
    forall s :: |h(s)| == WIDTH && Plain(h(s))
  }

  function Value(enabled: bool): string {
    if enabled then "enabled" else "disabled"
  }

  function Body(value: string, ts: string): string {
    value + "\n" + ts
  }

  function Sum(h: Digest, value: string, ts: string): string {
    h("LocalPilot-gate\n" + Body(value, ts))
  }

  function Record(h: Digest, value: string, ts: string): string {
    Body(value, ts) + "\n" + Sum(h, value, ts) + "\n"
  }

  // ------------------------------------------------------------ reading

  function EndOfLine(s: string): (k: nat)
    ensures k <= |s| && (k < |s| ==> s[k] == '\n')
    ensures forall i :: 0 <= i < k ==> s[i] != '\n'
  {
    if s == "" || s[0] == '\n' then 0 else 1 + EndOfLine(s[1..])
  }

  /** The first line and what follows; a carriage return before the line feed is dropped. */
  function NextLine(s: string): Option<(string, string)> {
    if s == "" then None
    else
      var k := EndOfLine(s);
      if k == |s| then Some((s, ""))
      else Some((if k > 0 && s[k - 1] == '\r' then s[..k - 1] else s[..k], s[k + 1..]))
  }

  function Read(h: Digest, text: Option<string>): Option<bool> {
    if text.None? then None else
    var l1 := NextLine(text.value);
    if l1.None? then None else
    var l2 := NextLine(l1.value.1);
    if l2.None? then None else
    var l3 := NextLine(l2.value.1);
    if l3.None? then None else
    Verdict(h, l1.value.0, l2.value.0, l3.value.0)
  }

  function Verdict(h: Digest, value: string, ts: string, sum: string): Option<bool> {
    if Sum(h, value, ts) != sum then None
    else if value == "enabled" then Some(true)
    else if value == "disabled" then Some(false)
    else None
  }

  // ------------------------------------------------------------ lines

  lemma NextLineOf(line: string, rest: string)
    requires Plain(line)
    ensures NextLine(line + "\n" + rest) == Some((line, rest))
  {
    var s := line + "\n" + rest;
    var k := EndOfLine(s);
    assert s[|line|] == '\n';
    assert forall i :: 0 <= i < |line| ==> s[i] == line[i];
    assert k == |line| && s[..k] == line && s[k + 1..] == rest;
  }

  lemma LastLineOf(line: string)
    requires Plain(line) && line != ""
    ensures NextLine(line) == Some((line, ""))
  {
  }

  /** A line is followed by its end, or is the last one. */
  lemma NextLineRebuilds(s: string) returns (e: string)
    requires NextLine(s).Some?
    ensures var (line, rest) := NextLine(s).value;
            && s != "" && NoFeed(line) && IsEnd(e)
            && (s == line + e + rest || (s == line && rest == ""))
  {
    var k := EndOfLine(s);
    if k < |s| && k > 0 && s[k - 1] == '\r' {
      e := "\r\n";
      assert s == s[..k - 1] + e + s[k + 1..];
    } else {
      e := "\n";
      assert k < |s| ==> s == s[..k] + e + s[k + 1..];
    }
  }

  // ------------------------------------------------------------ main results

  lemma ReadsThreeLines(h: Digest, v: string, ts: string, sum: string)
    requires Plain(v) && Plain(ts) && Plain(sum)
    ensures Read(h, Some(Body(v, ts) + "\n" + sum + "\n")) == Verdict(h, v, ts, sum)
  {
    hide Plain, NextLine, Verdict;
    var r3 := sum + "\n" + "";
    var r2 := ts + "\n" + r3;
    assert Body(v, ts) + "\n" + sum + "\n" == v + "\n" + r2;
    NextLineOf(v, r2);
    NextLineOf(ts, r3);
    NextLineOf(sum, "");
  }

  /** What was written is read back. */
  lemma ReadsWhatWasWritten(h: Digest, enabled: bool, ts: string)
    requires IsDigest(h) && Plain(ts)
    ensures Read(h, Some(Record(h, Value(enabled), ts))) == Some(enabled)
  {
    hide Read;
    ReadsThreeLines(h, Value(enabled), ts, Sum(h, Value(enabled), ts));
  }

  /** A record cut anywhere before the end of its digest opens nothing. */
  lemma TruncatedReadsAsNothing(h: Digest, enabled: bool, ts: string, k: nat)
    requires IsDigest(h) && Plain(ts) && k < |Record(h, Value(enabled), ts)| - 1
    ensures Read(h, Some(Record(h, Value(enabled), ts)[..k])) == None
  {
    var (v, sum) := (Value(enabled), Sum(h, Value(enabled), ts));
    var cut := Record(h, v, ts)[..k];
    if k <= |v| {
      assert cut == v[..k];
      if k > 0 {
        LastLineOf(cut);
      }
    } else {
      var r2 := (ts + "\n" + sum)[..k - |v| - 1];
      assert cut == v + "\n" + r2;
      NextLineOf(v, r2);
      if |r2| <= |ts| {
        assert r2 == ts[..|r2|];
        if r2 != "" {
          LastLineOf(r2);
        }
      } else {
        var r3 := sum[..|r2| - |ts| - 1];
        assert r2 == ts + "\n" + r3;
        NextLineOf(ts, r3);
        if r3 != "" {
          LastLineOf(r3);
        }
      }
    }
  }

  /** Only a file that starts with a genuine record for that very value is read as it, whichever line ends it has. */
  lemma OnlyGenuineRecordsAreRead(h: Digest, text: string, enabled: bool)
    requires Read(h, Some(text)) == Some(enabled)
    ensures exists ts, e1, e2 :: Genuine(h, text, enabled, ts, e1, e2)
  {
    hide NextLine, NoFeed;
    var (v, r1) := NextLine(text).value;
    var (ts, r2) := NextLine(r1).value;
    var (sum, r3) := NextLine(r2).value;
    var e1 := NextLineRebuilds(text);
    var e2 := NextLineRebuilds(r1);
    var e3 := NextLineRebuilds(r2);
    assert v == Value(enabled) && sum == Sum(h, v, ts);
    assert text == v + e1 + r1 && r1 == ts + e2 + r2;
    Rejoined(text, v, e1, ts, e2, sum, r1, r2);
    assert Genuine(h, text, enabled, ts, e1, e2);
  }

  /** The file begins with the value, a time and the digest of both, each on its line. */
  predicate Genuine(h: Digest, text: string, enabled: bool, ts: string, e1: string, e2: string) {
    NoFeed(ts) && IsEnd(e1) && IsEnd(e2) &&
    var value := if enabled then "enabled" else "disabled";
    value + e1 + ts + e2 + h("LocalPilot-gate\n" + (value + "\n" + ts)) <= text
  }

  lemma Rejoined(text: string, v: string, e1: string, ts: string, e2: string, sum: string, r1: string, r2: string)
    requires text == v + e1 + r1 && r1 == ts + e2 + r2 && sum <= r2
    ensures v + e1 + ts + e2 + sum <= text
  {
    assert text == v + e1 + ts + e2 + r2;
  }

  /** Exchanging the value of a record, digest kept, opens nothing unless the digests collide. */
  lemma ForgedReadsAsNothing(h: Digest, enabled: bool, ts: string)
    requires IsDigest(h) && Plain(ts)
    ensures var forged := Body(Value(enabled), ts) + "\n" + Sum(h, Value(!enabled), ts) + "\n";
            Read(h, Some(forged)) == if Sum(h, "enabled", ts) == Sum(h, "disabled", ts) then Some(enabled) else None
  {
    hide Read;
    ReadsThreeLines(h, Value(enabled), ts, Sum(h, Value(!enabled), ts));
  }
}
