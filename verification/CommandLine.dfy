/**
 Windows argument quoting and splitting: `QuoteArg` prints one argument,
 `SplitWindowsArgs` parses a command line, and the two are inverse on every list
 of arguments.
 */
module CommandLine {

  function Repeat(c: char, n: nat): (s: string)
    ensures |s| == n && forall i :: 0 <= i < n ==> s[i] == c
  {
    seq(n, i => c)
  }

  /** The characters that make an argument unsafe to copy verbatim. */
  predicate NeedsQuotes(c: char) {
    c in {' ', '\t', '\n', '\U{0B}', '"'}
  }

  /** The part of a quoted argument after its opening quote, with `k` backslashes held back. */
  function QuotedTail(arg: string, k: nat): string {
    if arg == [] then Repeat('\\', 2 * k) + "\""
    else if arg[0] == '\\' then QuotedTail(arg[1..], k + 1)
    else if arg[0] == '"' then Repeat('\\', 2 * k + 1) + "\"" + QuotedTail(arg[1..], 0)
    else Repeat('\\', k) + [arg[0]] + QuotedTail(arg[1..], 0)
  }

  predicate Plain(arg: string) {
    arg != [] && forall i :: 0 <= i < |arg| ==> !NeedsQuotes(arg[i])
  }

  function Quoted(arg: string): string {
    if Plain(arg) then arg else "\"" + QuotedTail(arg, 0)
  }

  /** A command line: the quoted arguments separated by single spaces. */
  function Joined(args: seq<string>): string {
    if args == [] then []
    else if |args| == 1 then Quoted(args[0])
    else Quoted(args[0]) + " " + Joined(args[1..])
  }

  /** The number of backslashes at the front of `s`. */
  function Run(s: string): (n: nat)
    ensures n <= |s| && (forall i :: 0 <= i < n ==> s[i] == '\\') && (n < |s| ==> s[n] != '\\')
  {
    if s == [] || s[0] != '\\' then 0 else 1 + Run(s[1..])
  }

  predicate StartsWith(s: string, c: char) {
    s != [] && s[0] == c
  }

  /** What is parsed from `s` when `cur` has been read of the current argument. */
  function Parse(s: string, cur: string, inQuote: bool, started: bool): seq<string>
    decreases |s|
  {
    if s == [] then if started then [cur] else []
    else if s[0] == '\\' then
      var n := Run(s);
      var rest := s[n..];
      if !StartsWith(rest, '"') then Parse(rest, cur + Repeat('\\', n), inQuote, true)
      else if n % 2 == 1 then Parse(rest[1..], cur + Repeat('\\', n / 2) + "\"", inQuote, true)
      else Parse(rest, cur + Repeat('\\', n / 2), inQuote, true)
    else if s[0] == '"' then
      if inQuote && StartsWith(s[1..], '"') then Parse(s[2..], cur + "\"", inQuote, true)
      else Parse(s[1..], cur, !inQuote, true)
    else if (s[0] == ' ' || s[0] == '\t') && !inQuote then
      if started then [cur] + Parse(s[1..], [], false, false) else Parse(s[1..], cur, false, false)
    else Parse(s[1..], cur + [s[0]], inQuote, true)
  }

  /** A command line split into its arguments. */
  function Split(line: string): seq<string> {
    Parse(line, [], false, false)
  }

  // ------------------------------------------------------------ the two loops

  method QuoteArg(arg: string) returns (out: string)
    ensures out == Quoted(arg)
  {
    if arg != [] && !(exists i :: 0 <= i < |arg| && arg[i] in {' ', '\t', '\n', '\U{0B}', '"'}) {
      return arg;
    }
    out := "\"";
    var backslashes := 0;
    for i := 0 to |arg|
      invariant 0 <= backslashes
      invariant out + QuotedTail(arg[i..], backslashes) == "\"" + QuotedTail(arg, 0)
    {
      var c := arg[i];
      assert arg[i..][0] == c && arg[i..][1..] == arg[i + 1..];
      if c == '\\' {
        backslashes := backslashes + 1;
      } else if c == '"' {
        out := out + Repeat('\\', backslashes * 2 + 1) + "\"";
        backslashes := 0;
      } else {
        out := out + Repeat('\\', backslashes) + [c];
        backslashes := 0;
      }
    }
    assert arg[|arg|..] == [];
    out := out + Repeat('\\', backslashes * 2) + "\"";
  }

  lemma {:induction false} RunIs(s: string, n: nat)
    requires n <= |s| && (forall i :: 0 <= i < n ==> s[i] == '\\') && (n < |s| ==> s[n] != '\\')
    ensures Run(s) == n
  {
    if n > 0 {
      RunIs(s[1..], n - 1);
    }
  }

  lemma SplitParses(line: string)
    ensures Split(line) == [] + Parse(line, [], false, false)
  {
  }

  lemma ParseEnds(cur: string, inQuote: bool, started: bool)
    ensures Parse([], cur, inQuote, started) == if started then [cur] else []
  {
  }

  lemma ParseOpens(tail: string, cur: string, started: bool)
    ensures Parse("\"" + tail, cur, false, started) == Parse(tail, cur, true, true)
  {
    assert ("\"" + tail)[1..] == tail;
  }

  lemma ParseSeparates(tail: string, cur: string)
    ensures Parse(" " + tail, cur, false, true) == [cur] + Parse(tail, [], false, false)
  {
    assert (" " + tail)[1..] == tail;
  }

  /** One turn of the splitter at a backslash run that ends at `j`. */
  lemma ParseAtRun(line: string, i: nat, j: nat, cur: string, inQuote: bool, started: bool)
    requires i < j <= |line| && (forall k :: i <= k < j ==> line[k] == '\\') && (j < |line| ==> line[j] != '\\')
    ensures Parse(line[i..], cur, inQuote, started) ==
      if j < |line| && line[j] == '"' then
        if (j - i) % 2 == 1 then Parse(line[j + 1..], cur + Repeat('\\', (j - i) / 2) + "\"", inQuote, true)
        else Parse(line[j..], cur + Repeat('\\', (j - i) / 2), inQuote, true)
      else Parse(line[j..], cur + Repeat('\\', j - i), inQuote, true)
  {
    var s := line[i..];
    RunIs(s, j - i);
    assert s[j - i..] == line[j..];
    assert j < |line| ==> line[j..][1..] == line[j + 1..];
  }

  /** One turn of the splitter at any other character. */
  lemma ParseAtChar(line: string, i: nat, cur: string, inQuote: bool, started: bool)
    requires i < |line| && line[i] != '\\'
    ensures Parse(line[i..], cur, inQuote, started) ==
      if line[i] == '"' then
        if inQuote && i + 1 < |line| && line[i + 1] == '"' then Parse(line[i + 2..], cur + "\"", inQuote, true)
        else Parse(line[i + 1..], cur, !inQuote, true)
      else if (line[i] == ' ' || line[i] == '\t') && !inQuote then
        if started then [cur] + Parse(line[i + 1..], [], false, false) else Parse(line[i + 1..], cur, false, false)
      else Parse(line[i + 1..], cur + [line[i]], inQuote, true)
  {
    var s := line[i..];
    assert s[1..] == line[i + 1..];
    if i + 1 < |line| {
      assert s[2..] == line[i + 2..];
    }
  }

  method SplitWindowsArgs(line: string) returns (args: seq<string>)
    ensures args == Split(line)
  {
    hide Parse, Split;
    args := [];
    var cur := "";
    var inQuote, started := false, false;
    var i := 0;
    assert line[0..] == line;
    SplitParses(line);
    while i < |line|
      invariant 0 <= i <= |line|
      invariant args + Parse(line[i..], cur, inQuote, started) == Split(line)
    {
      var c := line[i];
      if c == '\\' {
        var start := i;
        var n := 0;
        while i < |line| && line[i] == '\\'
          invariant start <= i <= |line| && n == i - start
          invariant forall k :: start <= k < i ==> line[k] == '\\'
        {
          n := n + 1;
          i := i + 1;
        }
        ParseAtRun(line, start, i, cur, inQuote, started);
        if i < |line| && line[i] == '"' {
          cur := cur + Repeat('\\', n / 2);
          if n % 2 == 1 {
            cur := cur + "\"";
            i := i + 1;
          }
        } else {
          cur := cur + Repeat('\\', n);
        }
        started := true;
        continue;
      }
      ParseAtChar(line, i, cur, inQuote, started);
      if c == '"' {
        if inQuote && i + 1 < |line| && line[i + 1] == '"' {
          cur := cur + "\"";
          i := i + 1;
        } else {
          inQuote := !inQuote;
        }
        started := true;
      } else if (c == ' ' || c == '\t') && !inQuote {
        if started {
          args := args + [cur];
          cur := "";
          started := false;
        }
      } else {
        cur := cur + [c];
        started := true;
      }
      i := i + 1;
    }
    assert line[i..] == [];
    ParseEnds(cur, inQuote, started);
    if started {
      args := args + [cur];
    }
  }

  // ------------------------------------------------------------ printing then parsing

  lemma RunOfRepeat(k: nat, rest: string)
    requires !StartsWith(rest, '\\')
    ensures Run(Repeat('\\', k) + rest) == k && (Repeat('\\', k) + rest)[k..] == rest
  {
    RunIs(Repeat('\\', k) + rest, k);
  }

  /** A backslash run in front of something that is neither a backslash nor a quote is literal. */
  lemma ParseBackslashes(k: nat, rest: string, cur: string, inQuote: bool)
    requires !StartsWith(rest, '\\') && !StartsWith(rest, '"')
    ensures Parse(Repeat('\\', k) + rest, cur, inQuote, true) == Parse(rest, cur + Repeat('\\', k), inQuote, true)
  {
    RunOfRepeat(k, rest);
    if k == 0 {
      assert Repeat('\\', k) + rest == rest && cur + Repeat('\\', k) == cur;
    }
  }

  /** An even run in front of a quote halves and leaves the quote to be read. */
  lemma ParseEvenRun(k: nat, rest: string, cur: string, inQuote: bool)
    requires StartsWith(rest, '"')
    ensures Parse(Repeat('\\', 2 * k) + rest, cur, inQuote, true) == Parse(rest, cur + Repeat('\\', k), inQuote, true)
  {
    RunOfRepeat(2 * k, rest);
    if k == 0 {
      assert Repeat('\\', 2 * k) + rest == rest && cur + Repeat('\\', k) == cur;
    }
  }

  /** An odd run in front of a quote halves and makes the quote literal. */
  lemma ParseOddRun(k: nat, rest: string, cur: string, inQuote: bool)
    ensures Parse(Repeat('\\', 2 * k + 1) + "\"" + rest, cur, inQuote, true)
         == Parse(rest, cur + Repeat('\\', k) + "\"", inQuote, true)
  {
    RunOfRepeat(2 * k + 1, "\"" + rest);
    assert Repeat('\\', 2 * k + 1) + "\"" + rest == Repeat('\\', 2 * k + 1) + ("\"" + rest);
    assert ("\"" + rest)[1..] == rest;
  }

  lemma RepeatGrows(cur: string, k: nat, arg: string)
    requires StartsWith(arg, '\\')
    ensures cur + Repeat('\\', k + 1) + arg[1..] == cur + Repeat('\\', k) + arg
  {
  }

  /** Reading back a quoted argument yields the held backslashes, the argument, and leaves the quotes. */
  lemma {:induction false} ParseQuotedTail(arg: string, k: nat, rest: string, cur: string)
    requires !StartsWith(rest, '"')
    ensures Parse(QuotedTail(arg, k) + rest, cur, true, true) == Parse(rest, cur + Repeat('\\', k) + arg, false, true)
    decreases arg
  {
    if arg == [] {
      assert QuotedTail(arg, k) + rest == Repeat('\\', 2 * k) + ("\"" + rest);
      ParseEvenRun(k, "\"" + rest, cur, true);
      assert ("\"" + rest)[1..] == rest;
      assert cur + Repeat('\\', k) + arg == cur + Repeat('\\', k);
    } else if arg[0] == '\\' {
      ParseQuotedTail(arg[1..], k + 1, rest, cur);
      RepeatGrows(cur, k, arg);
    } else if arg[0] == '"' {
      var tail := QuotedTail(arg[1..], 0) + rest;
      assert QuotedTail(arg, k) + rest == Repeat('\\', 2 * k + 1) + "\"" + tail;
      ParseOddRun(k, tail, cur, true);
      ParseQuotedTail(arg[1..], 0, rest, cur + Repeat('\\', k) + "\"");
      assert cur + Repeat('\\', k) + "\"" + Repeat('\\', 0) + arg[1..] == cur + Repeat('\\', k) + arg;
    } else {
      var tail := QuotedTail(arg[1..], 0) + rest;
      assert QuotedTail(arg, k) + rest == Repeat('\\', k) + ([arg[0]] + tail);
      ParseBackslashes(k, [arg[0]] + tail, cur, true);
      assert ([arg[0]] + tail)[1..] == tail;
      ParseQuotedTail(arg[1..], 0, rest, cur + Repeat('\\', k) + [arg[0]]);
      assert cur + Repeat('\\', k) + [arg[0]] + Repeat('\\', 0) + arg[1..] == cur + Repeat('\\', k) + arg;
    }
  }

  predicate Separates(c: char) {
    c == ' ' || c == '\t'
  }

  /** An argument without quotes and separators is read verbatim up to a separator or the end. */
  lemma {:induction false} ParsePlain(arg: string, rest: string, cur: string, started: bool)
    requires forall i :: 0 <= i < |arg| ==> arg[i] != '"' && !Separates(arg[i])
    requires !StartsWith(rest, '"') && !StartsWith(rest, '\\')
    ensures Parse(arg + rest, cur, false, started) == Parse(rest, cur + arg, false, started || arg != [])
    decreases |arg|
  {
    if arg == [] {
      assert arg + rest == rest && cur + arg == cur;
    } else {
      var n := if arg[0] == '\\' then Run(arg) else 1;
      var (head, tail) := (arg[..n], arg[n..]);
      assert arg + rest == head + (tail + rest);
      assert (arg + rest)[n..] == tail + rest;
      ParsePlain(tail, rest, cur + head, true);
      assert cur + head + tail == cur + arg;
      assert tail != [] ==> tail[0] == arg[n];
      if arg[0] == '\\' {
        assert head == Repeat('\\', n);
        RunOfRepeat(n, tail + rest);
        assert Parse(arg + rest, cur, false, started) == Parse(tail + rest, cur + head, false, true);
      } else {
        assert head == [arg[0]];
        assert Parse(arg + rest, cur, false, started) == Parse(tail + rest, cur + head, false, true);
      }
    }
  }

  lemma ParseQuoted(arg: string, rest: string)
    requires !StartsWith(rest, '"') && !StartsWith(rest, '\\')
    ensures Parse(Quoted(arg) + rest, [], false, false) == Parse(rest, arg, false, true)
  {
    hide Parse, QuotedTail;
    if Plain(arg) {
      ParsePlain(arg, rest, [], false);
      assert [] + arg == arg;
    } else {
      var tail := QuotedTail(arg, 0) + rest;
      assert Quoted(arg) + rest == "\"" + tail;
      ParseOpens(tail, [], false);
      ParseQuotedTail(arg, 0, rest, []);
      assert [] + Repeat('\\', 0) + arg == arg;
    }
  }

  // ------------------------------------------------------------ main results

  /** Splitting a joined command line gives back exactly the arguments, whatever they contain. */
  lemma {:induction false} SplitJoined(args: seq<string>)
    ensures Split(Joined(args)) == args
    decreases |args|
  {
    hide Parse, Quoted;
    if args == [] {
      ParseEnds([], false, false);
    } else if |args| == 1 {
      ParseQuoted(args[0], []);
      ParseEnds(args[0], false, true);
      assert Quoted(args[0]) + [] == Quoted(args[0]);
    } else {
      var rest := " " + Joined(args[1..]);
      assert Joined(args) == Quoted(args[0]) + rest;
      ParseQuoted(args[0], rest);
      ParseSeparates(Joined(args[1..]), args[0]);
      SplitJoined(args[1..]);
    }
  }

  /** Different argument lists never share a command line. */
  lemma JoinedIsInjective(xs: seq<string>, ys: seq<string>)
    requires Joined(xs) == Joined(ys)
    ensures xs == ys
  {
    SplitJoined(xs);
    SplitJoined(ys);
  }

  lemma {:induction false} JoinedSnoc(args: seq<string>, last: string)
    ensures Joined(args + [last]) == if args == [] then Quoted(last) else Joined(args) + " " + Quoted(last)
    decreases |args|
  {
    hide Quoted;
    if |args| > 0 {
      JoinedSnoc(args[1..], last);
      assert (args + [last])[1..] == args[1..] + [last];
      if |args| > 1 {
        var (q, j) := (Quoted(args[0]), Joined(args[1..]));
        assert q + " " + (j + " " + Quoted(last)) == q + " " + j + " " + Quoted(last);
      }
    }
  }

  lemma JoinedNone()
    ensures Joined([]) == ""
  {
  }

  /** A command line is built by quoting each argument and joining them with blanks. */
  method JoinArgs(args: seq<string>) returns (line: string)
    ensures line == Joined(args)
  {
    hide Quoted, Joined;
    line := "";
    JoinedNone();
    for i := 0 to |args|
      invariant line == Joined(args[..i])
    {
      var q := QuoteArg(args[i]);
      JoinedSnoc(args[..i], args[i]);
      assert args[..i + 1] == args[..i] + [args[i]];
      line := if i == 0 then q else line + " " + q;
    }
    assert args[..|args|] == args;
  }

  /** The loops compose to the identity on every list. */
  method QuoteThenSplit(args: seq<string>) returns (again: seq<string>)
    ensures again == args
  {
    var line := JoinArgs(args);
    again := SplitWindowsArgs(line);
    SplitJoined(args);
  }

  // ------------------------------------------------------------ when quoting is necessary

  function Chars(args: seq<string>): nat {
    if args == [] then 0 else |args[0]| + Chars(args[1..])
  }

  /** Splitting never adds characters, and loses some at every quote and every unquoted separator. */
  lemma {:induction false} SplitShrinks(s: string, cur: string, inQuote: bool, started: bool)
    requires !started ==> cur == []
    ensures Chars(Parse(s, cur, inQuote, started)) <= |cur| + |s|
    ensures (exists i :: 0 <= i < |s| && (s[i] == '"' || (!inQuote && Separates(s[i])))) ==>
              Chars(Parse(s, cur, inQuote, started)) < |cur| + |s|
    decreases |s|
  {
    if s == [] {
    } else if s[0] == '\\' {
      var n := Run(s);
      var rest := s[n..];
      if !StartsWith(rest, '"') {
        SplitShrinks(rest, cur + Repeat('\\', n), inQuote, true);
        forall i | 0 <= i < |s| && (s[i] == '"' || Separates(s[i]))
          ensures i >= n && rest[i - n] == s[i]
        {
        }
      } else if n % 2 == 1 {
        SplitShrinks(rest[1..], cur + Repeat('\\', n / 2) + "\"", inQuote, true);
      } else {
        SplitShrinks(rest, cur + Repeat('\\', n / 2), inQuote, true);
      }
    } else if s[0] == '"' && inQuote && StartsWith(s[1..], '"') {
      SplitShrinks(s[2..], cur + "\"", inQuote, true);
    } else if s[0] == '"' {
      SplitShrinks(s[1..], cur, !inQuote, true);
    } else if Separates(s[0]) && !inQuote {
      SplitShrinks(s[1..], [], false, false);
      if started {
        assert ([cur] + Parse(s[1..], [], false, false))[1..] == Parse(s[1..], [], false, false);
      }
    } else {
      SplitShrinks(s[1..], cur + [s[0]], inQuote, true);
      forall i | 0 <= i < |s| && (s[i] == '"' || (!inQuote && Separates(s[i])))
        ensures i >= 1 && s[1..][i - 1] == s[i]
      {
      }
    }
  }

  /** Copying an argument verbatim is right exactly when it is not empty and holds no blank, tab or quote;
      the newline and vertical tab that the quoter also avoids would have survived. */
  lemma VerbatimExactlyWhen(arg: string)
    ensures Split(arg) == [arg] <==>
            arg != [] && forall i :: 0 <= i < |arg| ==> arg[i] != '"' && arg[i] != ' ' && arg[i] != '\t'
  {
    if arg == [] {
      assert Split(arg) == [];
    } else if i :| 0 <= i < |arg| && (arg[i] == '"' || Separates(arg[i])) {
      SplitShrinks(arg, [], false, false);
      assert Chars([arg]) == |arg| by { assert [arg][1..] == []; }
    } else {
      ParsePlain(arg, [], [], false);
      assert arg + [] == arg && [] + arg == arg;
    }
  }

  lemma {:induction false} QuotedTailIsLonger(arg: string, k: nat)
    ensures |QuotedTail(arg, k)| >= |arg| + k + 1
    decreases arg
  {
    if arg != [] {
      QuotedTailIsLonger(arg[1..], if arg[0] == '\\' then k + 1 else 0);
    }
  }

  /** An argument is quoted only if it is empty or contains a blank, tab, newline, vertical tab or quote. */
  lemma QuotesOnlyWhenNeeded(arg: string)
    ensures Quoted(arg) == arg <==>
            arg != "" && forall i :: 0 <= i < |arg| ==>
              arg[i] != ' ' && arg[i] != '\t' && arg[i] != '\n' && arg[i] != '\U{0B}' && arg[i] != '"'
  {
    QuotedTailIsLonger(arg, 0);
  }

  lemma {:induction false} ParseInQuote(w: string, rest: string, cur: string)
    requires forall i :: 0 <= i < |w| ==> w[i] != '"' && w[i] != '\\'
    ensures Parse(w + rest, cur, true, true) == Parse(rest, cur + w, true, true)
    decreases |w|
  {
    if w == [] {
      assert w + rest == rest && cur + w == cur;
    } else {
      ParseInQuote(w[1..], rest, cur + [w[0]]);
      assert (w + rest)[1..] == w[1..] + rest;
      assert cur + [w[0]] + w[1..] == cur + w;
    }
  }

  /** Inside quotes two quotes are one, and the argument goes on; blanks there do not separate. */
  lemma DoubledQuote(a: string, b: string)
    requires forall i :: 0 <= i < |a| ==> a[i] != '"' && a[i] != '\\'
    requires forall i :: 0 <= i < |b| ==> b[i] != '"' && b[i] != '\\'
    ensures Split("\"" + a + "\"\"" + b + "\"") == [a + "\"" + b]
  {
    hide Parse;
    var (r2, r1) := ("\"", b + "\"");
    var r0 := "\"\"" + r1;
    assert "\"" + a + "\"\"" + b + "\"" == "\"" + (a + r0);
    SplitParses("\"" + (a + r0));
    ParseOpens(a + r0, [], false);
    ParseInQuote(a, r0, []);
    assert [] + a == a;
    ParseDoubled(r1, a);
    ParseInQuote(b, r2, a + "\"");
    ParseCloses(a + "\"" + b);
  }

  lemma ParseDoubled(rest: string, cur: string)
    ensures Parse("\"\"" + rest, cur, true, true) == Parse(rest, cur + "\"", true, true)
  {
    var s := "\"\"" + rest;
    assert s[1..][0] == '"' && s[2..] == rest;
  }

  lemma ParseCloses(cur: string)
    ensures Parse("\"", cur, true, true) == [cur]
  {
    assert "\""[1..] == "";
  }

  predicate Blank(sep: string) {
    forall i :: 0 <= i < |sep| ==> sep[i] == ' ' || sep[i] == '\t'
  }

  lemma {:induction false} ParseSkipsBlanks(sep: string, rest: string)
    requires Blank(sep)
    ensures Parse(sep + rest, [], false, false) == Parse(rest, [], false, false)
    decreases |sep|
  {
    if sep == [] {
      assert sep + rest == rest;
    } else {
      ParseSkipsBlanks(sep[1..], rest);
      assert (sep + rest)[1..] == sep[1..] + rest;
    }
  }

  /** Any number of blanks and tabs separates two arguments, and before the first they mean nothing. */
  lemma BlanksCollapse(before: string, arg: string, sep: string, rest: string)
    requires Blank(before) && Blank(sep) && sep != ""
    ensures Split(before + Quoted(arg) + sep + rest) == [arg] + Split(rest)
  {
    hide Parse, Quoted;
    var tail := sep + rest;
    var line := before + Quoted(arg) + sep + rest;
    assert line == before + (Quoted(arg) + tail);
    SplitParses(line);
    SplitParses(rest);
    ParseSkipsBlanks(before, Quoted(arg) + tail);
    ParseQuoted(arg, tail);
    ParseEndsArgument(sep, rest, arg);
    ParseSkipsBlanks(sep[1..], rest);
  }

  lemma ParseEndsArgument(sep: string, rest: string, cur: string)
    requires Blank(sep) && sep != ""
    ensures Parse(sep + rest, cur, false, true) == [cur] + Parse(sep[1..] + rest, [], false, false)
  {
    assert (sep + rest)[1..] == sep[1..] + rest;
  }
}
