/**
 The table of projects and a scan that brings it up to date: rows of vanished paths
 go, a path that is still there keeps its row and identifier, and parents are
 resolved through a map from lower-cased paths to identifiers.

 The table compares paths without regard to ASCII case only, while the scan
 lower-cases all letters.
 */
module ProjectTable {
  import opened Wrappers
  import opened Paths
  import opened ProjectIndex

  datatype Project = Project(id: nat, path: Path, parent: Option<nat>)

  /** The rows, and every identifier handed out so far. */
  datatype State = State(rows: seq<Project>, used: set<nat>)

  /** The folding of the unique path column, and the generator of identifiers. */
  datatype Database = Database(nocase: string -> string, pick: set<nat> -> nat)

  ghost predicate Sound(e: Platform, d: Database) {
    && (forall a, b :: d.nocase(a) == d.nocase(b) ==> e.fold(a) == e.fold(b) && e.bytes(a) == e.bytes(b))
    && (forall used :: d.pick(used) !in used)
  }

  predicate SamePath(d: Database, p: Path, q: Path) {
    Key(d.nocase, p) == Key(d.nocase, q)
  }

  /** Identifiers and paths are unique. */
  ghost predicate TableOk(d: Database, rows: seq<Project>) {
    forall i, j :: 0 <= i < j < |rows| ==> rows[i].id != rows[j].id && !SamePath(d, rows[i].path, rows[j].path)
  }

  function Find(d: Database, rows: seq<Project>, p: Path): (r: Option<Project>)
    ensures r.Some? ==> r.value in rows && SamePath(d, r.value.path, p)
    ensures r.None? ==> forall i :: 0 <= i < |rows| ==> !SamePath(d, rows[i].path, p)
  {
    if rows == [] then None else if SamePath(d, rows[0].path, p) then Some(rows[0]) else Find(d, rows[1..], p)
  }

  function WithId(rows: seq<Project>, id: nat): (r: Option<Project>)
    ensures r.Some? ==> r.value in rows && r.value.id == id
    ensures r.None? ==> forall i :: 0 <= i < |rows| ==> rows[i].id != id
  {
    if rows == [] then None else if rows[0].id == id then Some(rows[0]) else WithId(rows[1..], id)
  }

  function Put(rows: seq<Project>, id: nat, parent: Option<nat>): (r: seq<Project>)
    ensures |r| == |rows|
    ensures forall i :: 0 <= i < |rows| ==> r[i] == if rows[i].id == id then rows[i].(parent := parent) else rows[i]
  {
    seq(|rows|, i requires 0 <= i < |rows| => if rows[i].id == id then rows[i].(parent := parent) else rows[i])
  }

  /** An existing row gets the new parent and keeps its path; otherwise a row is added. */
  function Upsert(d: Database, s: State, p: Path, parent: Option<nat>): (State, nat) {
    var r := Find(d, s.rows, p);
    if r.Some? then (s.(rows := Put(s.rows, r.value.id, parent)), r.value.id)
    else
      var id := d.pick(s.used);
      (State(s.rows + [Project(id, p, parent)], s.used + {id}), id)
  }

  /** The identifier of an entry's parent, looked up by its lower-cased path. */
  function LinkOf(e: Platform, x: Entry, ids: map<seq<string>, nat>): Option<nat> {
    if x.parent.Some? && Key(e.fold, x.parent.value) in ids then Some(ids[Key(e.fold, x.parent.value)]) else None
  }

  /** The listing is worked off in order. */
  function Absorb(e: Platform, d: Database, s: State, found: seq<Entry>, ids: map<seq<string>, nat>): State
    decreases |found|
  {
    if found == [] then s
    else
      var x := found[0];
      var (s', id) := Upsert(d, s, x.path, LinkOf(e, x, ids));
      Absorb(e, d, s', found[1..], ids[Key(e.fold, x.path) := id])
  }

  /** One whole scan of a tree. */
  function Rescan(e: Platform, d: Database, s: State, root: seq<Dir>): State {
    var found := Scan(e, root, []);
    Absorb(e, d, s.(rows := Prune(e, s.rows, Keys(e, found))), found, map[])
  }

  function Rescans(e: Platform, d: Database, s: State, trees: seq<seq<Dir>>): State {
    if trees == [] then s else Rescan(e, d, Rescans(e, d, s, trees[..|trees| - 1]), trees[|trees| - 1])
  }

  function Prune(e: Platform, rows: seq<Project>, seen: set<seq<string>>): seq<Project> {
    if rows == [] then []
    else
      var last := rows[|rows| - 1];
      Prune(e, rows[..|rows| - 1], seen) + if Key(e.fold, last.path) in seen then [last] else []
  }

  // ------------------------------------------------------------ single rows

  lemma SameIsSameCi(e: Platform, d: Database, p: Path, q: Path)
    requires Sound(e, d) && SamePath(d, p, q)
    ensures |p| == |q| && Key(e.fold, p) == Key(e.fold, q) && Len(e, p) == Len(e, q)
  {
    var (k, l) := (Key(d.nocase, p), Key(d.nocase, q));
    assert |p| == |k| == |l| == |q|;
    forall i | 0 <= i < |p|
      ensures d.nocase(p[i]) == d.nocase(q[i])
    {
      assert k[i] == l[i];
    }
    assert Key(e.fold, p) == Key(e.fold, q);
    SameLen(e, d, p, q);
  }

  lemma {:induction false} SameLen(e: Platform, d: Database, p: Path, q: Path)
    requires Sound(e, d) && |p| == |q| && forall i :: 0 <= i < |p| ==> d.nocase(p[i]) == d.nocase(q[i])
    ensures Len(e, p) == Len(e, q)
    decreases |p|
  {
    if p != [] {
      SameLen(e, d, p[..|p| - 1], q[..|q| - 1]);
      assert d.nocase(p[|p| - 1]) == d.nocase(q[|q| - 1]);
    }
  }

  lemma {:induction false} FindIs(d: Database, rows: seq<Project>, p: Path, i: nat)
    requires TableOk(d, rows) && i < |rows| && SamePath(d, rows[i].path, p)
    ensures Find(d, rows, p) == Some(rows[i])
  {
    if i > 0 {
      assert !SamePath(d, rows[0].path, rows[i].path);
      FindIs(d, rows[1..], p, i - 1);
    }
  }

  lemma {:induction false} WithIdIs(d: Database, rows: seq<Project>, i: nat)
    requires TableOk(d, rows) && i < |rows|
    ensures WithId(rows, rows[i].id) == Some(rows[i])
  {
    if i > 0 {
      assert rows[0].id != rows[i].id;
      WithIdIs(d, rows[1..], i - 1);
    }
  }

  /** An upsert touches one path: its row ends up with the parent, every other row stays. */
  ghost predicate Upserted(d: Database, rows: seq<Project>, p: Path, parent: Option<nat>, after: seq<Project>,
      id: nat) {
    && TableOk(d, after)
    && Find(d, after, p).Some? && Find(d, after, p).value.id == id && Find(d, after, p).value.parent == parent
    && (Find(d, rows, p).Some? ==> id == Find(d, rows, p).value.id)
    && (forall q :: !SamePath(d, q, p) ==> Find(d, after, q) == Find(d, rows, q))
    && (forall r: Project :: !SamePath(d, r.path, p) ==> (r in after <==> r in rows))
  }

  lemma PutDoes(d: Database, rows: seq<Project>, p: Path, parent: Option<nat>, i: nat)
    requires TableOk(d, rows) && i < |rows| && SamePath(d, rows[i].path, p)
    ensures Upserted(d, rows, p, parent, Put(rows, rows[i].id, parent), rows[i].id)
  {
    hide SamePath, Find;
    var after := Put(rows, rows[i].id, parent);
    PutIsOk(d, rows, parent, i);
    FindIs(d, rows, p, i);
    FindIs(d, after, p, i);
    assert forall j :: 0 <= j < |rows| && j != i ==> after[j] == rows[j];
    forall q | !SamePath(d, q, p)
      ensures Find(d, after, q) == Find(d, rows, q)
    {
      FindSame(d, rows, after, q, i, p);
    }
    forall r: Project | !SamePath(d, r.path, p)
      ensures r in after <==> r in rows
    {
      if r in rows {
        var j :| 0 <= j < |rows| && rows[j] == r;
        assert after[j] == r;
      }
      if r in after {
        var j :| 0 <= j < |after| && after[j] == r;
        assert rows[j] == r;
      }
    }
  }

  lemma PutIsOk(d: Database, rows: seq<Project>, parent: Option<nat>, i: nat)
    requires TableOk(d, rows) && i < |rows|
    ensures TableOk(d, Put(rows, rows[i].id, parent))
    ensures forall j :: 0 <= j < |rows| && j != i ==> rows[j].id != rows[i].id
  {
    hide SamePath;
    var after := Put(rows, rows[i].id, parent);
    forall j, k | 0 <= j < k < |after|
      ensures after[j].id != after[k].id && !SamePath(d, after[j].path, after[k].path)
    {
      assert after[j].path == rows[j].path && after[k].path == rows[k].path;
    }
  }

  lemma FindSame(d: Database, rows: seq<Project>, after: seq<Project>, q: Path, i: nat, p: Path)
    requires TableOk(d, rows) && TableOk(d, after) && i < |rows| == |after|
    requires forall j :: 0 <= j < |rows| && j != i ==> after[j] == rows[j]
    requires after[i].path == rows[i].path && SamePath(d, rows[i].path, p) && !SamePath(d, q, p)
    ensures Find(d, after, q) == Find(d, rows, q)
  {
    hide Find;
    if Find(d, rows, q).Some? {
      var j :| 0 <= j < |rows| && rows[j] == Find(d, rows, q).value;
      FindIs(d, after, q, j);
    }
  }

  lemma AddDoes(d: Database, rows: seq<Project>, p: Path, parent: Option<nat>, id: nat)
    requires TableOk(d, rows) && Find(d, rows, p).None? && forall i :: 0 <= i < |rows| ==> rows[i].id != id
    ensures Upserted(d, rows, p, parent, rows + [Project(id, p, parent)], id)
  {
    hide SamePath, Find;
    var x := Project(id, p, parent);
    var after := rows + [x];
    assert after[|rows|] == x && forall j :: 0 <= j < |rows| ==> after[j] == rows[j];
    IsSame(d, p);
    AddIsOk(d, rows, x);
    FindIs(d, after, p, |rows|);
    forall q | !SamePath(d, q, p)
      ensures Find(d, after, q) == Find(d, rows, q)
    {
      Swapped(d, p, q);
      if Find(d, rows, q).Some? {
        var j :| 0 <= j < |rows| && rows[j] == Find(d, rows, q).value;
        FindIs(d, after, q, j);
      }
    }
  }

  lemma AddIsOk(d: Database, rows: seq<Project>, x: Project)
    requires TableOk(d, rows)
    requires forall i :: 0 <= i < |rows| ==> rows[i].id != x.id && !SamePath(d, rows[i].path, x.path)
    ensures TableOk(d, rows + [x])
  {
    hide SamePath;
  }

  lemma IsSame(d: Database, p: Path)
    ensures SamePath(d, p, p)
  {
  }

  lemma Swapped(d: Database, p: Path, q: Path)
    ensures SamePath(d, p, q) == SamePath(d, q, p)
  {
  }

  lemma UpsertDoes(e: Platform, d: Database, s: State, p: Path, parent: Option<nat>)
    requires Sound(e, d) && TableOk(d, s.rows) && UsedOk(s)
    ensures var (s', id) := Upsert(d, s, p, parent);
            Upserted(d, s.rows, p, parent, s'.rows, id) && s.used <= s'.used && id in s'.used
  {
    hide TableOk, Upserted;
    var r := Find(d, s.rows, p);
    if r.Some? {
      var i :| 0 <= i < |s.rows| && s.rows[i] == r.value;
      PutDoes(d, s.rows, p, parent, i);
    } else {
      AddDoes(d, s.rows, p, parent, d.pick(s.used));
    }
  }

  // ------------------------------------------------------------ links lead upward

  /** Rows and links use only identifiers that were handed out. */
  ghost predicate UsedOk(s: State) {
    forall i :: 0 <= i < |s.rows| ==>
      s.rows[i].id in s.used && (s.rows[i].parent.Some? ==> s.rows[i].parent.value in s.used)
  }

  predicate Above(e: Platform, p: Path, q: Path) {
    |q| < |p| && StartsWithCi(e.fold, p, q)
  }

  /** A link between two rows leads from a path to one strictly above it. */
  ghost predicate LinksUp(e: Platform, rows: seq<Project>) {
    forall i, j :: 0 <= i < |rows| && 0 <= j < |rows| && rows[i].parent == Some(rows[j].id) ==>
      Above(e, rows[i].path, rows[j].path)
  }

  /** What every scan keeps, case twins or not. */
  ghost predicate Kept(e: Platform, d: Database, s: State) {
    TableOk(d, s.rows) && UsedOk(s) && LinksUp(e, s.rows)
  }

  /** An upsert whose parent is no row, or a row above the path, keeps links leading upward. */
  lemma UpsertLinksUp(e: Platform, d: Database, s: State, p: Path, parent: Option<nat>)
    requires Sound(e, d) && Kept(e, d, s) && (parent.Some? ==> parent.value in s.used)
    requires forall j :: 0 <= j < |s.rows| && parent == Some(s.rows[j].id) ==> Above(e, p, s.rows[j].path)
    ensures Kept(e, d, Upsert(d, s, p, parent).0)
  {
    hide Above, SamePath, Find;
    UpsertDoes(e, d, s, p, parent);
    var rows := s.rows;
    var (s', id) := Upsert(d, s, p, parent);
    var after := s'.rows;
    var r := Find(d, rows, p);
    if r.Some? {
      var m :| 0 <= m < |rows| && rows[m] == r.value;
      PutIsOk(d, rows, parent, m);
      SameAbove(e, d, r.value.path, p, rows);
    } else {
      assert forall j :: 0 <= j < |rows| ==> after[j] == rows[j];
      forall i, j | 0 <= i < |after| && 0 <= j < |after| && after[i].parent == Some(after[j].id)
        ensures Above(e, after[i].path, after[j].path)
      {
        assert j < |rows|;
      }
    }
  }

  lemma SameAbove(e: Platform, d: Database, p: Path, q: Path, rows: seq<Project>)
    requires Sound(e, d) && SamePath(d, p, q)
    ensures forall j :: 0 <= j < |rows| ==> (Above(e, q, rows[j].path) <==> Above(e, p, rows[j].path))
  {
    hide SamePath, Sound;
    SameIsSameCi(e, d, p, q);
  }

  // ------------------------------------------------------------ vanished paths

  lemma {:induction false} PruneIn(e: Platform, rows: seq<Project>, seen: set<seq<string>>, r: Project)
    ensures r in Prune(e, rows, seen) <==> r in rows && Key(e.fold, r.path) in seen
  {
    if rows != [] {
      PruneIn(e, rows[..|rows| - 1], seen, r);
      assert rows == rows[..|rows| - 1] + [rows[|rows| - 1]];
    }
  }

  lemma {:induction false} PruneIsOk(e: Platform, d: Database, rows: seq<Project>, seen: set<seq<string>>)
    requires TableOk(d, rows)
    ensures TableOk(d, Prune(e, rows, seen))
  {
    hide SamePath;
    if rows != [] {
      var (front, last) := (rows[..|rows| - 1], rows[|rows| - 1]);
      PruneIsOk(e, d, front, seen);
      var kept := Prune(e, front, seen);
      forall i | 0 <= i < |kept|
        ensures kept[i].id != last.id && !SamePath(d, kept[i].path, last.path)
      {
        PruneIn(e, front, seen, kept[i]);
        var j :| 0 <= j < |front| && front[j] == kept[i];
        assert rows[j] == kept[i];
      }
    }
  }

  /** A path that is still there keeps its row. */
  lemma PruneFinds(e: Platform, d: Database, rows: seq<Project>, seen: set<seq<string>>, p: Path)
    requires Sound(e, d) && TableOk(d, rows) && Key(e.fold, p) in seen
    ensures Find(d, Prune(e, rows, seen), p) == Find(d, rows, p)
  {
    hide Find, Prune, SamePath, Sound;
    var kept := Prune(e, rows, seen);
    PruneIsOk(e, d, rows, seen);
    if Find(d, rows, p).Some? {
      var r := Find(d, rows, p).value;
      SameIsSameCi(e, d, r.path, p);
      PruneIn(e, rows, seen, r);
      var j :| 0 <= j < |kept| && kept[j] == r;
      FindIs(d, kept, p, j);
    } else if Find(d, kept, p).Some? {
      PruneIn(e, rows, seen, Find(d, kept, p).value);
      assert false;
    }
  }

  // ------------------------------------------------------------ what a scan leaves

  predicate Listed(d: Database, found: seq<Entry>, p: Path) {
    exists k :: 0 <= k < |found| && SamePath(d, found[k].path, p)
  }

  function Keys(e: Platform, found: seq<Entry>): set<seq<string>> {
    set k | 0 <= k < |found| :: Key(e.fold, found[k].path)
  }

  ghost predicate LinkedTo(d: Database, x: Entry, rows: seq<Project>) {
    var r := Find(d, rows, x.path);
    && r.Some?
    && (x.parent.None? ==> r.value.parent == None)
    && (x.parent.Some? ==>
          var q := Find(d, rows, x.parent.value);
          q.Some? && r.value.parent == Some(q.value.id))
  }

  /** Every listed path has a row, linked to the row of its parent. */
  ghost predicate Linked(d: Database, found: seq<Entry>, rows: seq<Project>) {
    forall k :: 0 <= k < |found| ==> LinkedTo(d, found[k], rows)
  }

  ghost predicate AllListed(d: Database, found: seq<Entry>, rows: seq<Project>) {
    forall i :: 0 <= i < |rows| ==> Listed(d, found, rows[i].path)
  }

  /** A row whose path is listed up to letter case, but not up to ASCII case. */
  ghost predicate Twin(e: Platform, d: Database, found: seq<Entry>, r: Project) {
    Key(e.fold, r.path) in Keys(e, found) && !Listed(d, found, r.path)
  }

  lemma EntriesDiffer(e: Platform, d: Database, root: seq<Dir>, found: seq<Entry>, i: nat, j: nat)
    requires Sound(e, d) && Distinct(e, root) && Good(root, found) && i < |found| && j < |found| && i != j
    ensures !SamePath(d, found[i].path, found[j].path)
  {
    hide Distinct, Good, Sound;
    if i < j {
      KeysDiffer(e, root, found, i, j);
    } else {
      KeysDiffer(e, root, found, j, i);
    }
    if SamePath(d, found[i].path, found[j].path) {
      SameIsSameCi(e, d, found[i].path, found[j].path);
      assert false;
    }
  }

  /** Entries handled before keep their rows and links. */
  lemma LinksStay(
      e: Platform, d: Database, root: seq<Dir>, found: seq<Entry>, rows: seq<Project>, i: nat, parent: Option<nat>,
      after: seq<Project>, id: nat, k: nat)
    requires Sound(e, d) && Distinct(e, root) && Good(root, found) && k < i < |found|
    requires Upserted(d, rows, found[i].path, parent, after, id) && LinkedTo(d, found[k], rows)
    ensures LinkedTo(d, found[k], after) && Find(d, after, found[k].path) == Find(d, rows, found[k].path)
  {
    hide Distinct, Good, Sound, SamePath, Find, TableOk;
    EntriesDiffer(e, d, root, found, k, i);
    ParentIsEarlier(root, found, k);
    if found[k].parent.Some? {
      var j :| 0 <= j < k && found[j].path == found[k].parent.value;
      EntriesDiffer(e, d, root, found, j, i);
    }
  }

  // ------------------------------------------------------------ the loop's bookkeeping

  predicate HasId(e: Platform, d: Database, x: Entry, rows: seq<Project>, ids: map<seq<string>, nat>) {
    var k := Key(e.fold, x.path);
    k in ids && Find(d, rows, x.path).Some? && ids[k] == Find(d, rows, x.path).value.id
  }

  ghost predicate SameIds(d: Database, found: seq<Entry>, rows: seq<Project>, after: seq<Project>) {
    forall k :: 0 <= k < |found| && Find(d, rows, found[k].path).Some? ==>
      Find(d, after, found[k].path).Some?
      && Find(d, after, found[k].path).value.id == Find(d, rows, found[k].path).value.id
  }

  /** Rows that are not listed are those from before. */
  ghost predicate OthersStay(d: Database, found: seq<Entry>, rows: seq<Project>, after: seq<Project>) {
    forall r: Project :: !Listed(d, found, r.path) ==> (r in after <==> r in rows)
  }

  /** The first `i` entries have been worked off; `kept` are the rows before. */
  ghost predicate Progress(
      e: Platform, d: Database, found: seq<Entry>, kept: seq<Project>, s: State, i: nat, ids: map<seq<string>, nat>)
    requires i <= |found|
  {
    && Kept(e, d, s)
    && (forall k :: 0 <= k < i ==> LinkedTo(d, found[k], s.rows) && HasId(e, d, found[k], s.rows, ids))
    && SameIds(d, found[..i], kept, s.rows) && OthersStay(d, found[..i], kept, s.rows)
    && (forall k :: i <= k < |found| ==> Find(d, s.rows, found[k].path) == Find(d, kept, found[k].path))
  }

  lemma OneMore(
      e: Platform, d: Database, root: seq<Dir>, found: seq<Entry>, kept: seq<Project>, s: State, i: nat,
      ids: map<seq<string>, nat>)
    requires Sound(e, d) && Distinct(e, root) && Good(root, found)
    requires i < |found| && Progress(e, d, found, kept, s, i, ids)
    ensures var (s', id) := Upsert(d, s, found[i].path, LinkOf(e, found[i], ids));
            Progress(e, d, found, kept, s', i + 1, ids[Key(e.fold, found[i].path) := id])
  {
    hide Distinct, Good, Sound, SamePath, Find, TableOk, LinkedTo, OthersStay, SameIds, LinksUp, UsedOk, Upsert;
    var parent := LinkOf(e, found[i], ids);
    var (s', id) := Upsert(d, s, found[i].path, parent);
    var (rows, after) := (s.rows, s'.rows);
    ParentIsAbove(e, d, root, found, s, i, ids);
    UpsertDoes(e, d, s, found[i].path, parent);
    UpsertLinksUp(e, d, s, found[i].path, parent);
    LastIsLinked(e, d, root, found, rows, after, i, parent, id, ids);
    forall k | 0 <= k < i
      ensures LinkedTo(d, found[k], after) && Find(d, after, found[k].path) == Find(d, rows, found[k].path)
      ensures Key(e.fold, found[k].path) != Key(e.fold, found[i].path)
    {
      LinksStay(e, d, root, found, rows, i, parent, after, id, k);
      KeysDiffer(e, root, found, k, i);
    }
    forall k | i < k < |found|
      ensures Find(d, after, found[k].path) == Find(d, kept, found[k].path)
    {
      EntriesDiffer(e, d, root, found, k, i);
    }
    IdsStay(d, found, kept, rows, after, i);
    OthersStayOne(d, found, kept, rows, after, i, parent, id);
  }

  /** The link of an entry names the row of its parent, which is above it. */
  lemma ParentIsAbove(
      e: Platform, d: Database, root: seq<Dir>, found: seq<Entry>, s: State, i: nat, ids: map<seq<string>, nat>)
    requires Sound(e, d) && Good(root, found) && i < |found| && TableOk(d, s.rows) && UsedOk(s)
    requires forall k :: 0 <= k < i ==> HasId(e, d, found[k], s.rows, ids)
    ensures var parent := LinkOf(e, found[i], ids);
            && (parent.Some? ==> parent.value in s.used)
            && forall j :: 0 <= j < |s.rows| && parent == Some(s.rows[j].id) ==> Above(e, found[i].path, s.rows[j].path)
  {
    hide Sound, Find, SamePath, IsPath;
    assert Placed(found, i);
    if found[i].parent.Some? {
      var up := found[i].parent.value;
      var j :| 0 <= j < i && found[j].path == up;
      assert HasId(e, d, found[j], s.rows, ids);
      var q := Find(d, s.rows, up).value;
      SameIsSameCi(e, d, q.path, up);
      assert StartsWithCi(e.fold, found[i].path, up);
      assert forall k :: 0 <= k < |s.rows| && s.rows[k].id == q.id ==> s.rows[k] == q;
    }
  }

  lemma {:induction false} AbsorbFinishes(
      e: Platform, d: Database, root: seq<Dir>, found: seq<Entry>, kept: seq<Project>, s: State, i: nat,
      ids: map<seq<string>, nat>) returns (last: map<seq<string>, nat>)
    requires Sound(e, d) && Distinct(e, root) && Good(root, found)
    requires i <= |found| && Progress(e, d, found, kept, s, i, ids)
    ensures Progress(e, d, found, kept, Absorb(e, d, s, found[i..], ids), |found|, last)
    decreases |found| - i
  {
    hide Sound, Distinct, Good, Progress, Upsert, LinkOf;
    if i == |found| {
      last := ids;
    } else {
      var (s', id) := Upsert(d, s, found[i].path, LinkOf(e, found[i], ids));
      OneMore(e, d, root, found, kept, s, i, ids);
      assert found[i..][0] == found[i] && found[i..][1..] == found[i + 1..];
      last := AbsorbFinishes(e, d, root, found, kept, s', i + 1, ids[Key(e.fold, found[i].path) := id]);
    }
  }

  lemma NothingAbsorbed(e: Platform, d: Database, found: seq<Entry>, s: State)
    requires Kept(e, d, s)
    ensures Progress(e, d, found, s.rows, s, 0, map[])
  {
    assert found[..0] == [];
  }

  lemma PruneKeeps(e: Platform, d: Database, s: State, seen: set<seq<string>>)
    requires Kept(e, d, s)
    ensures Kept(e, d, s.(rows := Prune(e, s.rows, seen)))
  {
    hide TableOk, Prune, Above;
    var kept := Prune(e, s.rows, seen);
    PruneIsOk(e, d, s.rows, seen);
    forall i | 0 <= i < |kept|
      ensures kept[i] in s.rows
    {
      PruneIn(e, s.rows, seen, kept[i]);
    }
    forall i, j | 0 <= i < |kept| && 0 <= j < |kept| && kept[i].parent == Some(kept[j].id)
      ensures Above(e, kept[i].path, kept[j].path)
    {
      var k :| 0 <= k < |s.rows| && s.rows[k] == kept[i];
      var l :| 0 <= l < |s.rows| && s.rows[l] == kept[j];
    }
  }

  // ------------------------------------------------------------ what a scan does

  /** A scan brings the table up to date with the tree: every project has its row and its parent link, rows of paths
      seen before keep their identifiers, and what else remains are case twins of listed paths. */
  ghost predicate UpToDate(e: Platform, d: Database, found: seq<Entry>, before: State, after: State) {
    && Kept(e, d, after) && Linked(d, found, after.rows) && SameIds(d, found, before.rows, after.rows)
    && (AllListed(d, found, after.rows) <==>
        forall i :: 0 <= i < |before.rows| ==> !Twin(e, d, found, before.rows[i]))
  }

  lemma RescanDoes(e: Platform, d: Database, s: State, root: seq<Dir>)
    requires Sound(e, d) && Distinct(e, root) && Kept(e, d, s)
    ensures UpToDate(e, d, Scan(e, root, []), s, Rescan(e, d, s, root))
  {
    hide Sound, Distinct, Good, Scan, Prune, Absorb, TableOk, LinksUp, UsedOk, LinkedTo, HasId, SameIds, OthersStay;
    hide AllListed, Twin, Find;
    var found := Scan(e, root, []);
    FullScanIsGood(e, root);
    var kept := s.(rows := Prune(e, s.rows, Keys(e, found)));
    PruneKeeps(e, d, s, Keys(e, found));
    NothingAbsorbed(e, d, found, kept);
    assert found[0..] == found && found[..|found|] == found;
    var ids := AbsorbFinishes(e, d, root, found, kept.rows, kept, 0, map[]);
    var after := Rescan(e, d, s, root);
    StableIds(e, d, found, s.rows, kept.rows, after.rows);
    RemainingRows(e, d, found, s.rows, after.rows);
  }

  /** Over any sequence of scans of any trees, links between rows lead strictly upward. */
  lemma {:induction false} RescansKeep(e: Platform, d: Database, s: State, trees: seq<seq<Dir>>)
    requires Sound(e, d) && Kept(e, d, s) && forall i :: 0 <= i < |trees| ==> Distinct(e, trees[i])
    ensures Kept(e, d, Rescans(e, d, s, trees))
  {
    hide Sound, Kept, Distinct, Rescan;
    if trees != [] {
      RescansKeep(e, d, s, trees[..|trees| - 1]);
      RescanDoes(e, d, Rescans(e, d, s, trees[..|trees| - 1]), trees[|trees| - 1]);
    }
  }

  lemma LastIsLinked(
      e: Platform, d: Database, root: seq<Dir>, found: seq<Entry>, rows: seq<Project>, after: seq<Project>, i: nat,
      parent: Option<nat>, id: nat, ids: map<seq<string>, nat>)
    requires Sound(e, d) && Distinct(e, root) && Good(root, found) && i < |found|
    requires Upserted(d, rows, found[i].path, parent, after, id)
    requires forall k :: 0 <= k < i ==> HasId(e, d, found[k], rows, ids)
    requires parent == LinkOf(e, found[i], ids)
    ensures LinkedTo(d, found[i], after)
  {
    hide Distinct, Good, Sound, SamePath, Find, TableOk;
    ParentIsEarlier(root, found, i);
    if found[i].parent.Some? {
      var j :| 0 <= j < i && found[j].path == found[i].parent.value;
      assert HasId(e, d, found[j], rows, ids);
      EntriesDiffer(e, d, root, found, j, i);
    }
  }

  lemma IdsStay(
      d: Database, found: seq<Entry>, kept: seq<Project>, rows: seq<Project>, after: seq<Project>, i: nat)
    requires i < |found| && SameIds(d, found[..i], kept, rows)
    requires forall k :: 0 <= k < i ==> Find(d, after, found[k].path) == Find(d, rows, found[k].path)
    requires Find(d, rows, found[i].path) == Find(d, kept, found[i].path) && Find(d, after, found[i].path).Some?
    requires Find(d, rows, found[i].path).Some? ==>
               Find(d, after, found[i].path).value.id == Find(d, rows, found[i].path).value.id
    ensures SameIds(d, found[..i + 1], kept, after)
  {
    hide Find;
    assert forall k :: 0 <= k < i ==> found[..i][k] == found[k];
    assert forall k :: 0 <= k <= i ==> found[..i + 1][k] == found[k];
  }

  lemma OthersStayOne(
      d: Database, found: seq<Entry>, kept: seq<Project>, rows: seq<Project>, after: seq<Project>, i: nat,
      parent: Option<nat>, id: nat)
    requires i < |found| && Upserted(d, rows, found[i].path, parent, after, id) && OthersStay(d, found[..i], kept, rows)
    ensures OthersStay(d, found[..i + 1], kept, after)
  {
    hide SamePath, Find, TableOk;
    forall r: Project | !Listed(d, found[..i + 1], r.path)
      ensures r in after <==> r in kept
    {
      assert found[..i + 1][i] == found[i];
      Swapped(d, found[i].path, r.path);
      forall k | 0 <= k < i
        ensures !SamePath(d, found[..i][k].path, r.path)
      {
        assert found[..i + 1][k] == found[..i][k];
      }
    }
  }

  lemma StableIds(
      e: Platform, d: Database, found: seq<Entry>, before: seq<Project>, kept: seq<Project>, after: seq<Project>)
    requires Sound(e, d) && TableOk(d, before) && kept == Prune(e, before, Keys(e, found))
    requires SameIds(d, found, kept, after)
    ensures SameIds(d, found, before, after)
  {
    hide Sound, TableOk, Find, Prune;
    forall k | 0 <= k < |found|
      ensures Find(d, kept, found[k].path) == Find(d, before, found[k].path)
    {
      assert Key(e.fold, found[k].path) in Keys(e, found);
      PruneFinds(e, d, before, Keys(e, found), found[k].path);
    }
  }

  lemma RemainingRows(e: Platform, d: Database, found: seq<Entry>, before: seq<Project>, after: seq<Project>)
    requires OthersStay(d, found, Prune(e, before, Keys(e, found)), after)
    ensures AllListed(d, found, after) <==> forall i :: 0 <= i < |before| ==> !Twin(e, d, found, before[i])
  {
    hide Listed, Prune, Keys;
    forall r: Project
      ensures r in after && !Listed(d, found, r.path) <==> r in before && Twin(e, d, found, r)
    {
      PruneIn(e, before, Keys(e, found), r);
    }
    if AllListed(d, found, after) {
      forall i | 0 <= i < |before|
        ensures !Twin(e, d, found, before[i])
      {
        assert before[i] in before;
      }
    } else {
      var i :| 0 <= i < |after| && !Listed(d, found, after[i].path);
      assert after[i] in after;
      var j :| 0 <= j < |before| && before[j] == after[i];
    }
  }

  // ------------------------------------------------------------ the lookups

  lemma SameEntry(e: Platform, d: Database, found: seq<Entry>, p: Project) returns (k: nat)
    requires Sound(e, d) && Listed(d, found, p.path)
    ensures k < |found| && SamePath(d, found[k].path, p.path)
    ensures |found[k].path| == |p.path| && Key(e.fold, found[k].path) == Key(e.fold, p.path)
    ensures Len(e, found[k].path) == Len(e, p.path)
  {
    hide Sound, SamePath;
    k :| 0 <= k < |found| && SamePath(d, found[k].path, p.path);
    SameIsSameCi(e, d, found[k].path, p.path);
  }

  /** Two listed projects containing the same path are nested, the longer one inside. */
  lemma ChainedByLength(
      e: Platform, d: Database, root: seq<Dir>, found: seq<Entry>, path: Path, a: Project, b: Project)
    requires Sound(e, d) && Distinct(e, root) && Good(root, found)
    requires Listed(d, found, a.path) && Listed(d, found, b.path)
    requires StartsWithCi(e.fold, path, a.path) && StartsWithCi(e.fold, path, b.path)
    requires Len(e, a.path) <= Len(e, b.path)
    ensures StartsWithCi(e.fold, b.path, a.path)
  {
    hide Distinct, Placed, IsPath, Len, Sound, Listed;
    var i := SameEntry(e, d, found, a);
    var j := SameEntry(e, d, found, b);
    var (p, q) := (found[i].path, found[j].path);
    assert IsPath(root, p) && IsPath(root, q);
    if |p| <= |q| {
      assert StartsWithCi(e.fold, q, p);
    } else {
      assert StartsWithCi(e.fold, p, q);
      CaseDoesNotMatter(e, root, p, q);
      LenOrdersPrefixes(e, p, p, q);
    }
  }

  /** The parent of a listed row is a listed row strictly above, and only direct children of the root have none. */
  lemma ParentRow(
      e: Platform, d: Database, root: seq<Dir>, found: seq<Entry>, rows: seq<Project>, p: Project)
    requires Sound(e, d) && Good(root, found) && TableOk(d, rows) && Linked(d, found, rows)
    requires p in rows && Listed(d, found, p.path)
    ensures p.parent.None? ==> |p.path| == 1
    ensures p.parent.Some? ==>
              var q := WithId(rows, p.parent.value);
              q.Some? && Above(e, p.path, q.value.path) && Listed(d, found, q.value.path)
  {
    hide IsPath, Sound, SamePath, Find, TableOk, Len;
    var k := SameEntry(e, d, found, p);
    var i :| 0 <= i < |rows| && rows[i] == p;
    Swapped(d, p.path, found[k].path);
    FindIs(d, rows, found[k].path, i);
    assert LinkedTo(d, found[k], rows) && Placed(found, k);
    if p.parent.Some? {
      var up := found[k].parent.value;
      var m :| 0 <= m < k && found[m].path == up;
      var q := Find(d, rows, up).value;
      Swapped(d, q.path, up);
      assert SamePath(d, found[m].path, q.path);
      SameIsSameCi(e, d, q.path, up);
      var j :| 0 <= j < |rows| && rows[j] == q;
      WithIdIs(d, rows, j);
      assert StartsWithCi(e.fold, found[k].path, up);
    }
  }

  lemma CiTransitive(e: Platform, p: Path, q: Path, r: Path)
    requires StartsWithCi(e.fold, p, q) && StartsWithCi(e.fold, q, r)
    ensures StartsWithCi(e.fold, p, r)
  {
    var (a, b, c) := (Key(e.fold, p), Key(e.fold, q), Key(e.fold, r));
    assert c == b[..|c|] == a[..|c|];
  }

  /** The row a lookup starts from: a longest one containing the path. */
  ghost predicate LongestFor(e: Platform, rows: seq<Project>, path: Path, r: Project) {
    && r in rows && StartsWithCi(e.fold, path, r.path)
    && forall k :: 0 <= k < |rows| && StartsWithCi(e.fold, path, rows[k].path) ==>
         Len(e, rows[k].path) <= Len(e, r.path)
  }

  /** If all rows containing the path are listed, a longest one is inside all the others. */
  lemma LongestIsDeepest(
      e: Platform, d: Database, root: seq<Dir>, found: seq<Entry>, rows: seq<Project>, path: Path, r: Project, k: nat)
    requires Sound(e, d) && Distinct(e, root) && Good(root, found) && LongestFor(e, rows, path, r)
    requires Untwinned(e, d, found, rows, path) && k < |rows| && StartsWithCi(e.fold, path, rows[k].path)
    ensures StartsWithCi(e.fold, r.path, rows[k].path)
  {
    hide Sound, Distinct, Good, Len, Listed;
    var i :| 0 <= i < |rows| && rows[i] == r;
    ChainedByLength(e, d, root, found, path, rows[k], r);
  }

  /** The table as a scan of this listing leaves it. */
  ghost predicate Scanned(e: Platform, d: Database, root: seq<Dir>, found: seq<Entry>, rows: seq<Project>) {
    Sound(e, d) && Good(root, found) && Linked(d, found, rows)
  }

  /** No stale row contains the path. */
  ghost predicate Untwinned(e: Platform, d: Database, found: seq<Entry>, rows: seq<Project>, path: Path) {
    forall k :: 0 <= k < |rows| && StartsWithCi(e.fold, path, rows[k].path) ==> Listed(d, found, rows[k].path)
  }

  // ------------------------------------------------------------ the store

  class ProjectStore {
    var projects: seq<Project>
    var used: set<nat>
    const e: Platform
    const d: Database

    ghost function Value(): State
      reads this
    {
      State(projects, used)
    }

    constructor (e: Platform, d: Database)
      ensures Value() == State([], {}) && this.e == e && this.d == d && Kept(e, d, Value())
    {
      projects, used := [], {};
      this.e, this.d := e, d;
    }

    /** A scan of the tree, over whatever earlier scans left. */
    method FullScan(root: seq<Dir>) returns (found: seq<Entry>)
      requires Sound(e, d) && Distinct(e, root) && Kept(e, d, Value())
      modifies this`projects, this`used
      ensures found == Scan(e, root, []) && Value() == Rescan(e, d, old(Value()), root)
      ensures UpToDate(e, d, found, old(Value()), Value())
    {
      hide Distinct, Scan, Sound, Kept, Find, Prune, UpToDate, Upsert;
      RescanDoes(e, d, Value(), root);
      found := CollectAll(e, root);
      projects := Prune(e, projects, Keys(e, found));
      ghost var s := Value();
      var ids: map<seq<string>, nat> := map[];
      assert found[0..] == found;
      for i := 0 to |found|
        invariant Absorb(e, d, Value(), found[i..], ids) == Absorb(e, d, s, found, map[])
      {
        var x := found[i];
        assert found[i..][0] == x && found[i..][1..] == found[i + 1..];
        var parent := None;
        if x.parent.Some? && Key(e.fold, x.parent.value) in ids {
          parent := Some(ids[Key(e.fold, x.parent.value)]);
        }
        var (s', id) := Upsert(d, State(projects, used), x.path, parent);
        projects, used := s'.rows, s'.used;
        ids := ids[Key(e.fold, x.path) := id];
      }
      assert found[|found|..] == [];
    }

    /** A longest project containing `path`. */
    method ProjectForPath(path: Path) returns (r: Option<Project>)
      ensures r.None? <==> forall k :: 0 <= k < |projects| ==> !StartsWithCi(e.fold, path, projects[k].path)
      ensures r.Some? ==> LongestFor(e, projects, path, r.value)
    {
      hide StartsWithCi, Len;
      r := None;
      for i := 0 to |projects|
        invariant r.None? <==> forall k :: 0 <= k < i ==> !StartsWithCi(e.fold, path, projects[k].path)
        invariant r.Some? ==> r.value in projects && StartsWithCi(e.fold, path, r.value.path)
        invariant r.Some? ==> forall k :: 0 <= k < i && StartsWithCi(e.fold, path, projects[k].path) ==>
                    Len(e, projects[k].path) <= Len(e, r.value.path)
      {
        if StartsWithCi(e.fold, path, projects[i].path) {
          if r.None? || Len(e, r.value.path) <= Len(e, projects[i].path) {
            r := Some(projects[i]);
          }
        }
      }
    }

    /** The upward walk ends, at a project that contains `path`. If the last scan listed every row containing it, it
        ends at a direct child of the root. */
    method TopProjectForPath(ghost root: seq<Dir>, ghost found: seq<Entry>, path: Path) returns (r: Option<Project>)
      requires Kept(e, d, Value())
      ensures r.None? <==> forall k :: 0 <= k < |projects| ==> !StartsWithCi(e.fold, path, projects[k].path)
      ensures r.Some? ==> r.value in projects && StartsWithCi(e.fold, path, r.value.path)
      ensures r.Some? ==> r.value.parent.None? || WithId(projects, r.value.parent.value).None?
      ensures Scanned(e, d, root, found, projects) && Untwinned(e, d, found, projects, path) && r.Some? ==>
                |r.value.path| == 1 && r.value.parent.None?
    {
      hide Good, Sound, TableOk, UsedOk, Linked, Listed, Len;
      r := ProjectForPath(path);
      if r.None? {
        return;
      }
      var p := r.value;
      ghost var sure := Scanned(e, d, root, found, projects) && Untwinned(e, d, found, projects, path);
      ghost var k :| 0 <= k < |projects| && projects[k] == p;
      while p.parent.Some? && WithId(projects, p.parent.value).Some?
        invariant p in projects && StartsWithCi(e.fold, path, p.path)
        invariant sure ==> Listed(d, found, p.path)
        decreases |p.path|
      {
        if sure {
          ParentRow(e, d, root, found, projects, p);
        }
        var q := WithId(projects, p.parent.value).value;
        LinkLeadsUp(e, projects, p, q);
        CiTransitive(e, path, p.path, q.path);
        p := q;
      }
      if sure {
        ParentRow(e, d, root, found, projects, p);
      }
      r := Some(p);
    }
  }

  lemma LinkLeadsUp(e: Platform, rows: seq<Project>, p: Project, q: Project)
    requires LinksUp(e, rows) && p in rows && q in rows && p.parent == Some(q.id)
    ensures Above(e, p.path, q.path)
  {
    hide Above;
    var i :| 0 <= i < |rows| && rows[i] == p;
    var j :| 0 <= j < |rows| && rows[j] == q;
  }

  // ------------------------------------------------------------ a case twin

  const UPPER := "\U{C9}"
  const LOWER := "\U{E9}"

  /** Lower-casing knows the letter, the table does not. */
  function Accents(pick: set<nat> -> nat): (Platform, Database) {
    (Platform((s: string) => if s == UPPER then LOWER else s, (s: string) => |s|), Database((s: string) => s, pick))
  }

  /** A directory renamed from an upper-case to a lower-case accented letter: the scan adds a row for the new name and
      keeps the one of the old, although no such directory exists any more. */
  lemma RenamedLeavesATwin(pick: set<nat> -> nat)
    ensures
      var (e, d) := Accents(pick);
      var was := Project(7, [UPPER], None);
      Rescan(e, d, State([was], {7}), [Dir(LOWER, false, false, [])]).rows == [was, Project(pick({7}), [LOWER], None)]
  {
    var (e, d) := Accents(pick);
    var was := Project(7, [UPPER], None);
    var root := [Dir(LOWER, false, false, [])];
    ScanOfOne(e, LOWER);
    PruneKeepsTwin(e, was);
    AbsorbOne(e, d, State([was], {7}), LOWER);
    NotFound(d, was);
  }

  lemma ScanOfOne(e: Platform, name: string)
    ensures Scan(e, [Dir(name, false, false, [])], []) == [Entry([name], None)]
  {
    var root := [Dir(name, false, false, [])];
    assert root[1..] == [];
    assert [] + [Entry([name], None)] == [Entry([name], None)];
  }

  lemma PruneKeepsTwin(e: Platform, was: Project)
    requires was.path == [UPPER] && e.fold(UPPER) == e.fold(LOWER)
    ensures Prune(e, [was], Keys(e, [Entry([LOWER], None)])) == [was]
  {
    var found := [Entry([LOWER], None)];
    assert Key(e.fold, [UPPER]) == Key(e.fold, found[0].path);
    assert Key(e.fold, found[0].path) in Keys(e, found);
    assert [was][..0] == [];
  }

  lemma AbsorbOne(e: Platform, d: Database, s: State, name: string)
    ensures Absorb(e, d, s, [Entry([name], None)], map[]) == Upsert(d, s, [name], None).0
  {
    hide Upsert;
    var x := Entry([name], None);
    assert [x][1..] == [];
  }

  lemma NotFound(d: Database, was: Project)
    requires was.path == [UPPER] && d.nocase(UPPER) != d.nocase(LOWER)
    ensures Find(d, [was], [LOWER]) == None
  {
    assert Key(d.nocase, [UPPER])[0] != Key(d.nocase, [LOWER])[0];
    assert [was][1..] == [];
  }
}
