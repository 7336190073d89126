/**
 Discovery of projects under the trusted root: every direct child is a project, and
 up to three levels below it directories with project markers are nested projects
 whose parent is the nearest collected ancestor.
 */
module ProjectIndex {
  import opened Wrappers
  import opened Paths

  const NESTED_DEPTH: nat := 3

  /** A real directory; `skipped` if its name is ignored or hidden, `marked` if it holds project markers. */
  datatype Dir = Dir(name: string, skipped: bool, marked: bool, children: seq<Dir>)

  datatype Entry = Entry(path: Path, parent: Option<Path>)

  /** Lower-casing and the stored length of a name. */
  datatype Platform = Platform(fold: string -> string, bytes: string -> nat)

  // ------------------------------------------------------------ paths

  /** The length of the whole path: every component is preceded by a separator. */
  function Len(e: Platform, p: Path): nat {
    if p == [] then 0 else Len(e, p[..|p| - 1]) + 1 + e.bytes(p[|p| - 1])
  }

  lemma {:induction false} LenOfPrefix(e: Platform, p: Path, n: nat)
    requires n <= |p|
    ensures n < |p| ==> Len(e, p[..n]) < Len(e, p)
    decreases |p|
  {
    if n < |p| {
      LenOfPrefix(e, p[..|p| - 1], n);
      assert p[..|p| - 1][..n] == p[..n];
      assert n == |p| - 1 ==> p[..n] == p[..|p| - 1];
    }
  }

  lemma LenOrdersPrefixes(e: Platform, p: Path, a: Path, b: Path)
    requires a <= p && b <= p
    ensures Len(e, a) <= Len(e, b) <==> |a| <= |b|
    ensures |a| <= |b| ==> a <= b
  {
    if |a| <= |b| {
      LenOfPrefix(e, b, |a|);
      assert b[..|a|] == a;
      assert |a| == |b| ==> a == b;
    } else {
      LenOfPrefix(e, a, |b|);
      assert a[..|b|] == b;
    }
  }

  // ------------------------------------------------------------ the tree

  /** Sibling names differ in more than case, at every level. */
  ghost predicate Distinct(e: Platform, ds: seq<Dir>) {
    && (forall i, j :: 0 <= i < j < |ds| ==> e.fold(ds[i].name) != e.fold(ds[j].name))
    && (forall i :: 0 <= i < |ds| ==> Distinct(e, ds[i].children))
  }

  /** `d` is the directory at `p` under the directories `ds`. */
  ghost predicate At(ds: seq<Dir>, p: Path, d: Dir) {
    p != [] && exists i ::
      0 <= i < |ds| && ds[i].name == p[0] && (if |p| == 1 then ds[i] == d else At(ds[i].children, p[1..], d))
  }

  ghost predicate IsPath(ds: seq<Dir>, p: Path) {
    exists d :: At(ds, p, d)
  }

  lemma {:induction false} ChildIsAt(e: Platform, ds: seq<Dir>, p: Path, d: Dir, c: Dir)
    requires At(ds, p, d) && c in d.children && Distinct(e, ds)
    ensures At(ds, p + [c.name], c) && Distinct(e, d.children)
    decreases |p|
  {
    var i :| 0 <= i < |ds| && ds[i].name == p[0] && if |p| == 1 then ds[i] == d else At(ds[i].children, p[1..], d);
    var q := p + [c.name];
    if |p| == 1 {
      assert q[1..] == [c.name];
      var j :| 0 <= j < |d.children| && d.children[j] == c;
      assert At(ds[i].children, q[1..], c);
    } else {
      ChildIsAt(e, ds[i].children, p[1..], d, c);
      assert q[1..] == p[1..] + [c.name];
    }
  }

  /** Two tree paths, one a prefix of the other up to case, are prefixes outright. */
  lemma {:induction false} CaseDoesNotMatter(e: Platform, ds: seq<Dir>, p: Path, q: Path)
    requires Distinct(e, ds) && IsPath(ds, p) && IsPath(ds, q) && StartsWithCi(e.fold, p, q)
    ensures q <= p
    decreases |q|
  {
    var d :| At(ds, p, d);
    var c :| At(ds, q, c);
    var i :| 0 <= i < |ds| && ds[i].name == p[0] && if |p| == 1 then ds[i] == d else At(ds[i].children, p[1..], d);
    var j :| 0 <= j < |ds| && ds[j].name == q[0] && if |q| == 1 then ds[j] == c else At(ds[j].children, q[1..], c);
    assert Key(e.fold, p)[0] == Key(e.fold, q)[0];
    assert i == j;
    if |q| > 1 {
      assert StartsWithCi(e.fold, p[1..], q[1..]) by {
        assert Key(e.fold, p[1..]) == Key(e.fold, p)[1..] && Key(e.fold, q[1..]) == Key(e.fold, q)[1..];
      }
      CaseDoesNotMatter(e, ds[i].children, p[1..], q[1..]);
      assert p == [p[0]] + p[1..] && q == [q[0]] + q[1..];
    }
  }

  // ------------------------------------------------------------ the nearest entry

  /** The longest entry that contains `p`, the last one among equals. */
  function Longest(e: Platform, out: seq<Entry>, p: Path, strict: bool): Option<Entry> {
    if out == [] then None
    else
      var last := out[|out| - 1];
      var best := Longest(e, out[..|out| - 1], p, strict);
      if !Candidate(e, last, p, strict) then best
      else if best.Some? && Len(e, best.value.path) > Len(e, last.path) then best
      else Some(last)
  }

  predicate Candidate(e: Platform, x: Entry, p: Path, strict: bool) {
    StartsWithCi(e.fold, p, x.path) && !(strict && x.path == p)
  }

  lemma {:induction false} LongestIsLongest(e: Platform, out: seq<Entry>, p: Path, strict: bool)
    ensures var r := Longest(e, out, p, strict);
            && (r.None? <==> forall x :: x in out ==> !Candidate(e, x, p, strict))
            && (r.Some? ==>
                  && r.value in out && Candidate(e, r.value, p, strict)
                  && forall x :: x in out && Candidate(e, x, p, strict) ==> Len(e, x.path) <= Len(e, r.value.path))
  {
    hide Candidate, Len;
    if out != [] {
      var (front, last) := (out[..|out| - 1], out[|out| - 1]);
      LongestIsLongest(e, front, p, strict);
      assert out == front + [last];
      assert forall x :: x in out <==> x in front || x == last;
    }
  }

  // ------------------------------------------------------------ the scan

  function ParentOf(e: Platform, top: Path, p: Path, out: seq<Entry>): Path {
    var q := Longest(e, out, p, true);
    if q.Some? then q.value.path else top
  }

  function Nested(e: Platform, top: Path, path: Path, ds: seq<Dir>, depth: nat, out: seq<Entry>): seq<Entry>
    decreases NESTED_DEPTH + 1 - depth, |ds|
  {
    if depth > NESTED_DEPTH || ds == [] then out
    else if ds[0].skipped then Nested(e, top, path, ds[1..], depth, out)
    else
      var p := path + [ds[0].name];
      var here := if ds[0].marked then out + [Entry(p, Some(ParentOf(e, top, p, out)))] else out;
      Nested(e, top, path, ds[1..], depth, Nested(e, top, p, ds[0].children, depth + 1, here))
  }

  function Scan(e: Platform, ds: seq<Dir>, out: seq<Entry>): seq<Entry>
    decreases |ds|
  {
    if ds == [] then out
    else
      var p := [ds[0].name];
      Scan(e, ds[1..], Nested(e, p, p, ds[0].children, 1, out + [Entry(p, None)]))
  }

  // ------------------------------------------------------------ what the scan keeps

  /** The parent is a collected strict ancestor listed earlier, and no collected strict ancestor is deeper. */
  ghost predicate Placed(out: seq<Entry>, i: nat)
    requires i < |out|
  {
    var x := out[i];
    if x.parent.None? then |x.path| == 1
    else
      var q := x.parent.value;
      && |x.path| > 1 && q < x.path
      && (exists j :: 0 <= j < i && out[j].path == q)
      && (forall k :: 0 <= k < |out| && out[k].path < x.path ==> out[k].path <= q)
  }

  /** Every entry is a directory of the tree, well placed, and no entry follows one below it or is listed twice. */
  ghost predicate Good(root: seq<Dir>, out: seq<Entry>) {
    && (forall i :: 0 <= i < |out| ==> IsPath(root, out[i].path))
    && (forall i :: 0 <= i < |out| ==> Placed(out, i))
    && (forall i, j :: 0 <= i < j < |out| ==> !(out[j].path <= out[i].path))
  }

  ghost predicate Unvisited(out: seq<Entry>, path: Path, ds: seq<Dir>) {
    forall i, k :: 0 <= i < |out| && 0 <= k < |ds| ==> !(path + [ds[k].name] <= out[i].path)
  }

  /** What is added lies below `path`, through one of `ds`. */
  ghost predicate Below(before: seq<Entry>, after: seq<Entry>, path: Path, ds: seq<Dir>) {
    && before <= after
    && (forall i :: |before| <= i < |after| ==> Through(after[i].path, path, ds))
  }

  ghost predicate Through(p: Path, path: Path, ds: seq<Dir>) {
    exists k :: 0 <= k < |ds| && path + [ds[k].name] <= p
  }

  lemma AppendIsGood(root: seq<Dir>, out: seq<Entry>, x: Entry)
    requires Good(root, out) && IsPath(root, x.path)
    requires forall i :: 0 <= i < |out| ==> !(x.path <= out[i].path)
    requires Placed(out + [x], |out|)
    ensures Good(root, out + [x])
  {
    var r := out + [x];
    forall i | 0 <= i < |r|
      ensures Placed(r, i)
    {
      if i < |out| {
        assert r[i] == out[i] && Placed(out, i);
        if out[i].parent.Some? {
          var j :| 0 <= j < i && out[j].path == out[i].parent.value;
          assert r[j].path == out[i].parent.value;
          assert forall k :: 0 <= k < |out| ==> r[k] == out[k];
        }
      }
    }
  }

  /** The nearest ancestor exists, because the top directory has been collected. */
  lemma NestedIsPlaced(e: Platform, root: seq<Dir>, out: seq<Entry>, top: Path, p: Path)
    requires Distinct(e, root) && Good(root, out) && IsPath(root, p) && top < p && |p| > 1
    requires exists i :: 0 <= i < |out| && out[i].path == top
    ensures Placed(out + [Entry(p, Some(ParentOf(e, top, p, out)))], |out|)
  {
    hide Longest, Distinct, IsPath, At, Len, Placed;
    var i :| 0 <= i < |out| && out[i].path == top;
    LongestIsLongest(e, out, p, true);
    assert StartsWithCi(e.fold, p, top);
    assert out[i] in out && Candidate(e, out[i], p, true);
    var best := Longest(e, out, p, true).value;
    var q := best.path;
    assert IsPath(root, q);
    CaseDoesNotMatter(e, root, p, q);
    forall k | 0 <= k < |out| && out[k].path < p
      ensures out[k].path <= q
    {
      assert StartsWithCi(e.fold, p, out[k].path);
      assert out[k] in out && Candidate(e, out[k], p, true);
      LenOrdersPrefixes(e, p, out[k].path, q);
    }
    IsPlaced(out, p, q);
  }

  lemma IsPlaced(out: seq<Entry>, p: Path, q: Path)
    requires |p| > 1 && q < p && exists j :: 0 <= j < |out| && out[j].path == q
    requires forall k :: 0 <= k < |out| && out[k].path < p ==> out[k].path <= q
    ensures Placed(out + [Entry(p, Some(q))], |out|)
  {
    var r := out + [Entry(p, Some(q))];
    var j :| 0 <= j < |out| && out[j].path == q;
    assert r[j].path == q;
    assert forall k :: 0 <= k < |out| ==> r[k] == out[k];
  }

  lemma BelowIsUnvisited(before: seq<Entry>, after: seq<Entry>, path: Path, ds: seq<Dir>, d: Dir, p: Path)
    requires Unvisited(before, path, ds) && before <= after && p == path + [d.name]
    requires forall i :: |before| <= i < |after| ==> p <= after[i].path
    requires forall k :: 0 <= k < |ds| ==> ds[k].name != d.name
    ensures Unvisited(after, path, ds)
  {
    forall i, k | 0 <= i < |after| && 0 <= k < |ds|
      ensures !(path + [ds[k].name] <= after[i].path)
    {
      if i < |before| {
        assert after[i] == before[i];
      } else {
        assert after[i].path[|path|] == p[|path|] == d.name;
      }
    }
  }

  lemma PrefixShortens(p: Path, name: string, q: Path)
    ensures p + [name] <= q ==> p < q
  {
    assert p == (p + [name])[..|p|];
  }

  lemma DeeperIsUnvisited(out: seq<Entry>, p: Path, ds: seq<Dir>)
    requires forall i :: 0 <= i < |out| ==> p <= out[i].path ==> out[i].path == p
    ensures Unvisited(out, p, ds)
  {
    forall i, k | 0 <= i < |out| && 0 <= k < |ds|
      ensures !(p + [ds[k].name] <= out[i].path)
    {
      PrefixShortens(p, ds[k].name, out[i].path);
    }
  }

  lemma DistinctRest(e: Platform, ds: seq<Dir>)
    requires ds != [] && Distinct(e, ds)
    ensures Distinct(e, ds[1..]) && Distinct(e, ds[0].children)
    ensures forall k :: 0 <= k < |ds[1..]| ==> ds[1..][k].name != ds[0].name
  {
  }

  ghost predicate AllAt(root: seq<Dir>, path: Path, ds: seq<Dir>) {
    forall k :: 0 <= k < |ds| ==> At(root, path + [ds[k].name], ds[k])
  }

  lemma ChildrenAreAt(e: Platform, root: seq<Dir>, p: Path, d: Dir)
    requires Distinct(e, root) && At(root, p, d)
    ensures AllAt(root, p, d.children) && Distinct(e, d.children)
  {
    hide At, Distinct;
    forall k | 0 <= k < |d.children|
      ensures At(root, p + [d.children[k].name], d.children[k])
    {
      ChildIsAt(e, root, p, d, d.children[k]);
    }
    if d.children == [] {
      NoneAreDistinct(e, d.children);
    } else {
      ChildIsAt(e, root, p, d, d.children[0]);
    }
  }

  lemma NoneAreDistinct(e: Platform, ds: seq<Dir>)
    requires ds == []
    ensures Distinct(e, ds)
  {
  }

  /** The recursion keeps the list good and adds only below the directories it visits. */
  lemma {:induction false} NestedIsGood(e: Platform, root: seq<Dir>, top: Path, path: Path, ds: seq<Dir>, depth: nat,
      out: seq<Entry>)
    requires Distinct(e, root) && Distinct(e, ds) && Good(root, out) && AllAt(root, path, ds)
    requires Unvisited(out, path, ds)
    requires |top| == 1 && top <= path && exists i :: 0 <= i < |out| && out[i].path == top
    ensures var r := Nested(e, top, path, ds, depth, out);
            Good(root, r) && Below(out, r, path, ds)
    decreases NESTED_DEPTH + 1 - depth, |ds|
  {
    hide Distinct, Good, AllAt, Unvisited, Below, At, ParentOf;
    if depth > NESTED_DEPTH || ds == [] {
      NothingBelow(out, path, ds);
    } else if ds[0].skipped {
      RestOf(e, root, out, path, ds);
      NestedIsGood(e, root, top, path, ds[1..], depth, out);
      BelowRest(out, Nested(e, top, path, ds[1..], depth, out), path, ds);
    } else {
      var p := path + [ds[0].name];
      var here := if ds[0].marked then out + [Entry(p, Some(ParentOf(e, top, p, out)))] else out;
      RestOf(e, root, out, path, ds);
      HereIsGood(e, root, top, path, ds, out);
      NestedIsGood(e, root, top, p, ds[0].children, depth + 1, here);
      var mid := Nested(e, top, p, ds[0].children, depth + 1, here);
      AfterOne(out, here, mid, path, ds, ds[0].children);
      NestedIsGood(e, root, top, path, ds[1..], depth, mid);
      BelowBoth(out, mid, Nested(e, top, path, ds[1..], depth, mid), path, ds);
    }
  }

  lemma NothingBelow(out: seq<Entry>, path: Path, ds: seq<Dir>)
    ensures Below(out, out, path, ds)
  {
  }

  lemma RestOf(e: Platform, root: seq<Dir>, out: seq<Entry>, path: Path, ds: seq<Dir>)
    requires ds != [] && Distinct(e, ds) && AllAt(root, path, ds) && Unvisited(out, path, ds)
    ensures Distinct(e, ds[1..]) && AllAt(root, path, ds[1..]) && Unvisited(out, path, ds[1..])
    ensures forall k :: 0 <= k < |ds[1..]| ==> ds[1..][k].name != ds[0].name
  {
    hide At;
    DistinctRest(e, ds);
  }

  lemma BelowRest(before: seq<Entry>, after: seq<Entry>, path: Path, ds: seq<Dir>)
    requires ds != [] && Below(before, after, path, ds[1..])
    ensures Below(before, after, path, ds)
  {
    forall i | |before| <= i < |after|
      ensures Through(after[i].path, path, ds)
    {
      var k :| 0 <= k < |ds[1..]| && path + [ds[1..][k].name] <= after[i].path;
      assert ds[k + 1] == ds[1..][k];
    }
  }

  lemma BelowBoth(out: seq<Entry>, mid: seq<Entry>, r: seq<Entry>, path: Path, ds: seq<Dir>)
    requires ds != [] && out <= mid && Below(mid, r, path, ds[1..])
    requires forall i :: |out| <= i < |mid| ==> path + [ds[0].name] <= mid[i].path
    ensures Below(out, r, path, ds)
  {
    BelowRest(mid, r, path, ds);
    forall i | |out| <= i < |r|
      ensures Through(r[i].path, path, ds)
    {
      if i < |mid| {
        assert r[i] == mid[i];
      }
    }
  }

  /** After the first directory, its siblings are still unvisited. */
  lemma AfterOne(out: seq<Entry>, here: seq<Entry>, mid: seq<Entry>, path: Path, ds: seq<Dir>, children: seq<Dir>)
    requires ds != [] && Unvisited(out, path, ds[1..]) && out <= here && Below(here, mid, path + [ds[0].name], children)
    requires forall i :: |out| <= i < |here| ==> path + [ds[0].name] <= here[i].path
    requires forall k :: 0 <= k < |ds[1..]| ==> ds[1..][k].name != ds[0].name
    requires exists i :: 0 <= i < |out| && |out[i].path| == 1 && out[i].path <= path
    ensures out <= mid && forall i :: |out| <= i < |mid| ==> path + [ds[0].name] <= mid[i].path
    ensures Unvisited(mid, path, ds[1..])
    ensures forall i :: 0 <= i < |out| ==> mid[i] == out[i]
  {
    var p := path + [ds[0].name];
    forall i | |out| <= i < |mid|
      ensures p <= mid[i].path
    {
      if i < |here| {
        assert mid[i] == here[i];
      } else {
        assert Through(mid[i].path, p, children);
        var k :| 0 <= k < |children| && p + [children[k].name] <= mid[i].path;
        assert p == (p + [children[k].name])[..|p|];
      }
    }
    BelowIsUnvisited(out, mid, path, ds[1..], ds[0], p);
  }

  /** Collecting a marked directory, before its children are looked at. */
  lemma HereIsGood(e: Platform, root: seq<Dir>, top: Path, path: Path, ds: seq<Dir>, out: seq<Entry>)
    requires ds != [] && Distinct(e, root) && Good(root, out) && AllAt(root, path, ds) && Unvisited(out, path, ds)
    requires |top| == 1 && top <= path && exists i :: 0 <= i < |out| && out[i].path == top
    ensures var p := path + [ds[0].name];
            var here := if ds[0].marked then out + [Entry(p, Some(ParentOf(e, top, p, out)))] else out;
            && Good(root, here) && Unvisited(here, p, ds[0].children)
            && AllAt(root, p, ds[0].children) && Distinct(e, ds[0].children) && top <= p
            && out <= here && forall i :: |out| <= i < |here| ==> p <= here[i].path
  {
    hide Distinct, Good, AllAt, At, ParentOf, Placed;
    var p := path + [ds[0].name];
    assert At(root, p, ds[0]) by { FirstIsAt(root, path, ds); }
    ChildrenAreAt(e, root, p, ds[0]);
    assert forall i :: 0 <= i < |out| ==> !(p <= out[i].path);
    if ds[0].marked {
      NestedIsPlaced(e, root, out, top, p);
      AppendIsGood(root, out, Entry(p, Some(ParentOf(e, top, p, out))));
      DeeperIsUnvisited(out + [Entry(p, Some(ParentOf(e, top, p, out)))], p, ds[0].children);
    } else {
      DeeperIsUnvisited(out, p, ds[0].children);
    }
  }

  lemma FirstIsAt(root: seq<Dir>, path: Path, ds: seq<Dir>)
    requires ds != [] && AllAt(root, path, ds)
    ensures At(root, path + [ds[0].name], ds[0])
  {
  }

  lemma {:induction false} ScanIsGood(e: Platform, root: seq<Dir>, ds: seq<Dir>, out: seq<Entry>)
    requires Distinct(e, root) && Distinct(e, ds) && Good(root, out) && AllAt(root, [], ds) && Unvisited(out, [], ds)
    ensures Good(root, Scan(e, ds, out))
    decreases |ds|
  {
    hide Distinct, Good, AllAt, Unvisited, Below, At, Nested;
    if ds != [] {
      var p := [ds[0].name];
      assert [] + p == p;
      var here := out + [Entry(p, None)];
      RestOf(e, root, out, [], ds);
      TopIsGood(e, root, ds, out);
      assert here[|out|].path == p;
      NestedIsGood(e, root, p, p, ds[0].children, 1, here);
      var mid := Nested(e, p, p, ds[0].children, 1, here);
      AfterTop(out, here, mid, ds);
      ScanIsGood(e, root, ds[1..], mid);
    }
  }

  lemma TopIsGood(e: Platform, root: seq<Dir>, ds: seq<Dir>, out: seq<Entry>)
    requires ds != [] && Distinct(e, root) && Good(root, out) && AllAt(root, [], ds) && Unvisited(out, [], ds)
    ensures var p := [ds[0].name];
            var here := out + [Entry(p, None)];
            Good(root, here) && Unvisited(here, p, ds[0].children) && AllAt(root, p, ds[0].children)
                && Distinct(e, ds[0].children)
  {
    hide Distinct, Good, AllAt, At;
    var p := [ds[0].name];
    assert [] + p == p;
    FirstIsAt(root, [], ds);
    ChildrenAreAt(e, root, p, ds[0]);
    assert forall i :: 0 <= i < |out| ==> !(p <= out[i].path);
    AppendIsGood(root, out, Entry(p, None));
    DeeperIsUnvisited(out + [Entry(p, None)], p, ds[0].children);
  }

  lemma AfterTop(out: seq<Entry>, here: seq<Entry>, mid: seq<Entry>, ds: seq<Dir>)
    requires ds != [] && Unvisited(out, [], ds[1..]) && here == out + [Entry([ds[0].name], None)]
    requires Below(here, mid, [ds[0].name], ds[0].children)
    requires forall k :: 0 <= k < |ds[1..]| ==> ds[1..][k].name != ds[0].name
    ensures Unvisited(mid, [], ds[1..])
  {
    var p := [ds[0].name];
    assert [] + p == p;
    forall i | |out| <= i < |mid|
      ensures p <= mid[i].path
    {
      if i < |here| {
        assert mid[i] == here[i];
      } else {
        assert Through(mid[i].path, p, ds[0].children);
      }
    }
    BelowIsUnvisited(out, mid, [], ds[1..], ds[0], p);
  }

  /** The whole scan: parents come before children, and each nested project has its deepest collected strict
      ancestor as parent. */
  lemma FullScanIsGood(e: Platform, root: seq<Dir>)
    requires Distinct(e, root)
    ensures Good(root, Scan(e, root, []))
  {
    hide Distinct, Scan;
    forall k | 0 <= k < |root|
      ensures At(root, [] + [root[k].name], root[k])
    {
      assert [] + [root[k].name] == [root[k].name];
    }
    ScanIsGood(e, root, root, []);
  }

  // ------------------------------------------------------------ what the scan lists

  predicate Lists(out: seq<Entry>, p: Path) {
    exists i :: 0 <= i < |out| && out[i].path == p
  }

  /** `p` leads through directories that are not skipped to a marked one, within the depth limit. */
  predicate Leads(ds: seq<Dir>, p: Path, depth: nat)
    decreases |p|
  {
    p != [] && depth <= NESTED_DEPTH && exists i :: 0 <= i < |ds| && LeadsVia(ds[i], p, depth)
  }

  predicate LeadsVia(d: Dir, p: Path, depth: nat)
    decreases |p|, 0
  {
    p != [] && d.name == p[0] && !d.skipped && (if |p| == 1 then d.marked else Leads(d.children, p[1..], depth + 1))
  }

  lemma LeadsSplits(ds: seq<Dir>, p: Path, depth: nat)
    requires ds != [] && depth <= NESTED_DEPTH
    ensures Leads(ds, p, depth) <==> LeadsVia(ds[0], p, depth) || Leads(ds[1..], p, depth)
  {
    hide LeadsVia;
    if p != [] && Leads(ds, p, depth) && !LeadsVia(ds[0], p, depth) {
      var i :| 0 <= i < |ds| && LeadsVia(ds[i], p, depth);
      assert ds[1..][i - 1] == ds[i];
    }
    if Leads(ds[1..], p, depth) {
      var i :| 0 <= i < |ds[1..]| && LeadsVia(ds[1..][i], p, depth);
      assert ds[i + 1] == ds[1..][i];
    }
    assert LeadsVia(ds[0], p, depth) ==> p != [] by { ViaIsProper(ds[0], p, depth); }
  }

  lemma ViaIsProper(d: Dir, p: Path, depth: nat)
    ensures LeadsVia(d, p, depth) ==> p != []
  {
  }

  lemma ListsAppend(out: seq<Entry>, x: Entry, p: Path)
    ensures Lists(out + [x], p) <==> Lists(out, p) || x.path == p
  {
    var r := out + [x];
    assert r[|out|] == x;
    assert forall i :: 0 <= i < |out| ==> r[i] == out[i];
  }

  /** `s` is reached below `path` iff the rest of `s` leads there. */
  ghost predicate ListsBelow(path: Path, ds: seq<Dir>, depth: nat, s: Path) {
    path < s && Leads(ds, s[|path|..], depth)
  }

  lemma BelowSplits(path: Path, ds: seq<Dir>, depth: nat, s: Path)
    requires ds != [] && depth <= NESTED_DEPTH
    ensures var p := path + [ds[0].name];
            ListsBelow(path, ds, depth, s) <==>
            ListsBelow(path, ds[1..], depth, s)
                || (!ds[0].skipped && ((s == p && ds[0].marked) || ListsBelow(p, ds[0].children, depth + 1, s)))
  {
    hide Leads;
    var p := path + [ds[0].name];
    if path < s {
      var rest := s[|path|..];
      LeadsSplits(ds, rest, depth);
      assert s == path + rest;
      assert rest[0] == ds[0].name ==> s == p + rest[1..] && s[|p|..] == rest[1..];
      if p <= s {
        assert s[|path|] == p[|path|];
      }
      assert |rest| == 1 <==> |s| == |p|;
      assert p < s <==> (rest[0] == ds[0].name && |rest| > 1);
      assert s == p <==> (rest[0] == ds[0].name && |rest| == 1);
    } else {
      PrefixShortens(path, ds[0].name, s);
    }
  }

  lemma {:induction false} NestedLists(e: Platform, top: Path, path: Path, ds: seq<Dir>, depth: nat, out: seq<Entry>,
      s: Path)
    ensures Lists(Nested(e, top, path, ds, depth, out), s) <==> Lists(out, s) || ListsBelow(path, ds, depth, s)
    decreases NESTED_DEPTH + 1 - depth, |ds|
  {
    hide Lists, ParentOf;
    if depth <= NESTED_DEPTH && ds != [] {
      hide ListsBelow;
      BelowSplits(path, ds, depth, s);
      if ds[0].skipped {
        NestedLists(e, top, path, ds[1..], depth, out, s);
      } else {
        var p := path + [ds[0].name];
        var x := Entry(p, Some(ParentOf(e, top, p, out)));
        var here := if ds[0].marked then out + [x] else out;
        ListsAppend(out, x, s);
        NestedLists(e, top, p, ds[0].children, depth + 1, here, s);
        NestedLists(e, top, path, ds[1..], depth, Nested(e, top, p, ds[0].children, depth + 1, here), s);
      }
    }
  }

  /** A direct child of the root, or a marked directory within reach below one. */
  predicate IsProject(d: Dir, p: Path) {
    p != [] && d.name == p[0] && (|p| == 1 || Leads(d.children, p[1..], 1))
  }

  predicate AnyProject(ds: seq<Dir>, p: Path) {
    exists i :: 0 <= i < |ds| && IsProject(ds[i], p)
  }

  lemma {:induction false} ScanLists(e: Platform, ds: seq<Dir>, out: seq<Entry>, s: Path)
    ensures Lists(Scan(e, ds, out), s) <==> Lists(out, s) || AnyProject(ds, s)
    decreases |ds|
  {
    hide Lists, Nested, Leads;
    if ds != [] {
      var p := [ds[0].name];
      var here := out + [Entry(p, None)];
      ListsAppend(out, Entry(p, None), s);
      NestedLists(e, p, p, ds[0].children, 1, here, s);
      ScanLists(e, ds[1..], Nested(e, p, p, ds[0].children, 1, here), s);
      AnySplits(ds, s);
      if s != [] && s[0] == ds[0].name {
        assert s == p + s[1..];
      }
    }
  }

  lemma AnySplits(ds: seq<Dir>, s: Path)
    requires ds != []
    ensures AnyProject(ds, s) <==> IsProject(ds[0], s) || AnyProject(ds[1..], s)
  {
    hide IsProject;
    if AnyProject(ds, s) && !IsProject(ds[0], s) {
      var i :| 0 <= i < |ds| && IsProject(ds[i], s);
      assert ds[1..][i - 1] == ds[i];
    }
    if AnyProject(ds[1..], s) {
      var i :| 0 <= i < |ds[1..]| && IsProject(ds[1..][i], s);
      assert ds[i + 1] == ds[1..][i];
    }
  }

  /** `p` leads through directories that are not skipped to a marked one. */
  predicate Visible(ds: seq<Dir>, p: Path)
    decreases |p|
  {
    p != [] && exists i :: 0 <= i < |ds| && VisibleVia(ds[i], p)
  }

  predicate VisibleVia(d: Dir, p: Path)
    decreases |p|, 0
  {
    p != [] && d.name == p[0] && !d.skipped && (if |p| == 1 then d.marked else Visible(d.children, p[1..]))
  }

  lemma {:induction false} LeadsIsVisible(ds: seq<Dir>, p: Path, depth: nat)
    ensures Leads(ds, p, depth) <==> Visible(ds, p) && depth + |p| <= 4
    decreases |p|
  {
    if p != [] {
      forall i | 0 <= i < |ds|
        ensures depth <= 3 ==> (LeadsVia(ds[i], p, depth) <==> VisibleVia(ds[i], p) && depth + |p| <= 4)
      {
        if |p| > 1 {
          LeadsIsVisible(ds[i].children, p[1..], depth + 1);
        }
      }
    }
  }

  /** The scan lists every direct child of the root, and below one exactly the marked directories at most three levels
      down that are reached without a skipped one. */
  lemma ScanListsByDepth(e: Platform, root: seq<Dir>, p: Path)
    ensures Lists(Scan(e, root, []), p) <==>
            exists i :: 0 <= i < |root| && p != [] && root[i].name == p[0]
                        && (|p| == 1 || (|p| <= 4 && Visible(root[i].children, p[1..])))
  {
    hide Scan, Leads, Visible;
    ScanListsExactly(e, root, p);
    forall i | 0 <= i < |root| && p != []
      ensures IsProject(root[i], p) <==>
              root[i].name == p[0] && (|p| == 1 || (|p| <= 4 && Visible(root[i].children, p[1..])))
    {
      LeadsIsVisible(root[i].children, p[1..], 1);
    }
  }

  /** The scan lists exactly the projects of the tree. */
  lemma ScanListsExactly(e: Platform, root: seq<Dir>, p: Path)
    ensures Lists(Scan(e, root, []), p) <==> AnyProject(root, p)
  {
    hide AnyProject, Scan;
    ScanLists(e, root, [], p);
  }

  // ------------------------------------------------------------ the scanning loops

  method CollectNested(e: Platform, top: Path, dir: Path, ds: seq<Dir>, depth: nat, out: seq<Entry>)
      returns (r: seq<Entry>)
    ensures r == Nested(e, top, dir, ds, depth, out)
    decreases NESTED_DEPTH + 1 - depth
  {
    r := out;
    if depth > NESTED_DEPTH {
      return;
    }
    for i := 0 to |ds|
      invariant Nested(e, top, dir, ds, depth, out) == Nested(e, top, dir, ds[i..], depth, r)
    {
      assert ds[i..][0] == ds[i] && ds[i..][1..] == ds[i + 1..];
      if !ds[i].skipped {
        var p := dir + [ds[i].name];
        if ds[i].marked {
          r := r + [Entry(p, Some(ParentOf(e, top, p, r)))];
        }
        r := CollectNested(e, top, p, ds[i].children, depth + 1, r);
      }
    }
  }

  /** The listing of the whole root. */
  method CollectAll(e: Platform, root: seq<Dir>) returns (found: seq<Entry>)
    ensures found == Scan(e, root, [])
  {
    hide Nested;
    found := [];
    for i := 0 to |root|
      invariant Scan(e, root, []) == Scan(e, root[i..], found)
    {
      assert root[i..][0] == root[i] && root[i..][1..] == root[i + 1..];
      var p := [root[i].name];
      found := found + [Entry(p, None)];
      found := CollectNested(e, p, p, root[i].children, 1, found);
    }
  }

  lemma ParentIsEarlier(root: seq<Dir>, found: seq<Entry>, i: nat)
    requires Good(root, found) && i < |found|
    ensures found[i].parent.Some? ==> exists j :: 0 <= j < i && found[j].path == found[i].parent.value
  {
    assert Placed(found, i);
  }

  lemma KeysDiffer(e: Platform, root: seq<Dir>, found: seq<Entry>, i: nat, j: nat)
    requires Distinct(e, root) && Good(root, found) && i < j < |found|
    ensures Key(e.fold, found[i].path) != Key(e.fold, found[j].path)
  {
    hide Distinct, Placed, IsPath;
    if Key(e.fold, found[i].path) == Key(e.fold, found[j].path) {
      CaseDoesNotMatter(e, root, found[i].path, found[j].path);
      assert false;
    }
  }
}
