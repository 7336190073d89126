/**
 Required scopes are stored in one column, joined by blanks, and compared with a
 credential after splitting that column at white space.
 */
module Scopes {

  /** White space as the Unicode standard defines it. */
  predicate Space(c: char) {
    || '\t' <= c <= '\r' || c == ' ' || c == '\U{85}' || c == '\U{A0}' || c == '\U{1680}'
    || '\U{2000}' <= c <= '\U{200A}' || c == '\U{2028}' || c == '\U{2029}' || c == '\U{202F}'
    || c == '\U{205F}' || c == '\U{3000}'
  }

  predicate NoSpace(s: string) {
    forall i :: 0 <= i < |s| ==> !Space(s[i])
  }

  function Join(ws: seq<string>): string {
    if ws == [] then "" else if |ws| == 1 then ws[0] else ws[0] + " " + Join(ws[1..])
  }

  /** The maximal runs without white space, `cur` being the beginning of one. */
  function Words(s: string, cur: string): seq<string> {
    var done := if cur == "" then [] else [cur];
    if s == "" then done
    else if Space(s[0]) then done + Words(s[1..], "")
    else Words(s[1..], cur + [s[0]])
  }

  /** The check made when an approval is resumed. */
  predicate Holds(required: seq<string>, held: set<string>) {
    var words := Words(Join(required), "");
    forall i :: 0 <= i < |words| ==> words[i] in held
  }

  lemma {:induction false} WordThen(w: string, rest: string, cur: string)
    requires NoSpace(w)
    ensures Words(w + rest, cur) == Words(rest, cur + w)
    decreases |w|
  {
    if w == "" {
      assert w + rest == rest && cur + w == cur;
    } else {
      WordThen(w[1..], rest, cur + [w[0]]);
      assert (w + rest)[1..] == w[1..] + rest;
      assert cur + [w[0]] + w[1..] == cur + w;
    }
  }

  /** Splitting undoes joining for every list of words. */
  lemma {:induction false} WordsOfJoin(ws: seq<string>)
    requires forall i :: 0 <= i < |ws| ==> ws[i] != "" && NoSpace(ws[i])
    ensures Words(Join(ws), "") == ws
  {
    if ws != [] {
      var (w, rest) := (ws[0], if |ws| == 1 then "" else " " + Join(ws[1..]));
      assert Join(ws) == w + rest;
      WordThen(w, rest, "");
      assert "" + w == w;
      if |ws| > 1 {
        WordsOfJoin(ws[1..]);
        assert rest[1..] == Join(ws[1..]);
      }
    }
  }

  /** For scopes that are words, the check passes exactly when every one of them is held. */
  lemma HoldsExactly(required: seq<string>, held: set<string>)
    requires forall i :: 0 <= i < |required| ==> required[i] != "" && NoSpace(required[i])
    ensures Holds(required, held) <==> forall i :: 0 <= i < |required| ==> required[i] in held
  {
    WordsOfJoin(required);
  }

  /** A scope with a blank in it would pass without being held. */
  lemma BlankScopePasses()
    ensures Holds(["read write"], {"read", "write"}) && "read write" !in {"read", "write"}
  {
    var parts := ["read", "write"];
    assert Join(parts) == "read" + " " + Join(parts[1..]) == "read write";
    WordsOfJoin(parts);
    assert Join(["read write"]) == "read write";
  }
}
