/**
 Retention of the Data Shared log: rows past their age go, and under size pressure
 batches of the oldest rows go, except the newest rows of every active session,
 which are reserved. If the reserved rows alone do not fit, admission is blocked.

 The table is kept in the order of its timestamp index; rows with equal timestamps
 are in an arbitrary fixed order.
 */
module Retention {
  import opened Wrappers

  type Id = nat
  type SessionId = nat

  const BATCH: nat := 200
  const DAY_MS: int := 24 * 60 * 60 * 1000

  datatype ShareRow = ShareRow(id: Id, timestamp: int, session: Option<SessionId>, bytes: nat)

  datatype Reason = Age | Size | ActiveSessionTruncated(session: SessionId)

  datatype Boundary = Boundary(removedBefore: int, removedCount: nat, reason: Reason)

  datatype Policy = Policy(retentionDays: nat, maxBytes: nat, reservedPerSession: Option<nat>)

  type Table = seq<ShareRow>

  /** Two's complement reading of an integer as a signed 64-bit one. */
  function AsI64(x: int): (r: int)
    ensures -0x8000_0000_0000_0000 <= r < 0x8000_0000_0000_0000
    ensures -0x8000_0000_0000_0000 <= x < 0x8000_0000_0000_0000 ==> r == x
  {
    (x + 0x8000_0000_0000_0000) % 0x1_0000_0000_0000_0000 - 0x8000_0000_0000_0000
  }

  /** The age limit in milliseconds, with wrap-around. */
  function Cutoff(p: Policy, now: int): int {
    AsI64(now - AsI64(AsI64(p.retentionDays) * DAY_MS))
  }

  ghost predicate Ordered(rows: Table) {
    && (forall i, j :: 0 <= i < j < |rows| ==> rows[i].timestamp <= rows[j].timestamp)
    && (forall i, j :: 0 <= i < j < |rows| ==> rows[i].id != rows[j].id)
  }

  function Total(rows: Table): nat {
    if rows == [] then 0 else rows[0].bytes + Total(rows[1..])
  }

  const TWO_63: nat := 0x8000_0000_0000_0000

  /** The total as the database reports it: a sum that overflows a signed 64-bit number is an error, and an error
      reads as zero. */
  function SharedBytes(rows: Table): nat {
    if Total(rows) < TWO_63 then Total(rows) else 0
  }

  function NotOlderThan(rows: Table, cutoff: int): Table {
    if rows == [] then []
    else if rows[0].timestamp < cutoff then NotOlderThan(rows[1..], cutoff)
    else [rows[0]] + NotOlderThan(rows[1..], cutoff)
  }

  function OfSession(rows: Table, s: SessionId): Table {
    if rows == [] then []
    else if rows[0].session == Some(s) then [rows[0]] + OfSession(rows[1..], s)
    else OfSession(rows[1..], s)
  }

  function Ids(rows: Table): set<Id> {
    set i | 0 <= i < |rows| :: rows[i].id
  }

  /** The last `n` rows; no limit means all of them. */
  function Last(rows: Table, n: Option<nat>): Table {
    if n.Some? && n.value < |rows| then rows[|rows| - n.value..] else rows
  }

  /** The newest rows of each active session. */
  function ReservedIds(rows: Table, active: seq<SessionId>, n: Option<nat>): set<Id> {
    if active == [] then {}
    else ReservedIds(rows, active[..|active| - 1], n) + Ids(Last(OfSession(rows, active[|active| - 1]), n))
  }

  function Reserved(rows: Table, keep: set<Id>): Table {
    if rows == [] then []
    else if rows[0].id in keep then [rows[0]] + Reserved(rows[1..], keep)
    else Reserved(rows[1..], keep)
  }

  function Unreserved(rows: Table, keep: set<Id>): Table {
    if rows == [] then []
    else if rows[0].id in keep then Unreserved(rows[1..], keep)
    else [rows[0]] + Unreserved(rows[1..], keep)
  }

  /** The table without its `k` oldest unreserved rows. */
  function Drop(rows: Table, keep: set<Id>, k: nat): Table {
    if rows == [] || k == 0 then rows
    else if rows[0].id in keep then [rows[0]] + Drop(rows[1..], keep, k)
    else Drop(rows[1..], keep, k - 1)
  }

  function RemoveId(rows: Table, id: Id): Table {
    if rows == [] then []
    else if rows[0].id == id then RemoveId(rows[1..], id)
    else [rows[0]] + RemoveId(rows[1..], id)
  }

  // ------------------------------------------------------------ what boundaries record

  /** The rows recorded as removed for size. */
  function SizeRemoved(bs: seq<Boundary>): nat {
    if bs == [] then 0
    else SizeRemoved(bs[..|bs| - 1]) + if bs[|bs| - 1].reason == Size then bs[|bs| - 1].removedCount else 0
  }

  /** The rows recorded as removed for their age. */
  function AgeRemoved(bs: seq<Boundary>): nat {
    if bs == [] then 0
    else AgeRemoved(bs[..|bs| - 1]) + if bs[|bs| - 1].reason == Age then bs[|bs| - 1].removedCount else 0
  }

  /** Boundaries carry the age limit, or the instant after the time of a row that went. */
  ghost predicate Dated(bs: seq<Boundary>, gone: Table, cutoff: int) {
    forall i :: 0 <= i < |bs| ==>
      if bs[i].reason == Age then bs[i].removedBefore == cutoff
      else exists j :: 0 <= j < |gone| && bs[i].removedBefore == gone[j].timestamp + 1
  }

  lemma DatedAppend(a: seq<Boundary>, b: seq<Boundary>, gone: Table, more: Table, cutoff: int)
    requires Dated(a, gone, cutoff) && Dated(b, more, cutoff)
    ensures Dated(a + b, gone + more, cutoff)
  {
    forall i | 0 <= i < |a + b| && (a + b)[i].reason != Age
      ensures exists j :: 0 <= j < |gone + more| && (a + b)[i].removedBefore == (gone + more)[j].timestamp + 1
    {
      if i < |a| {
        var j :| 0 <= j < |gone| && a[i].removedBefore == gone[j].timestamp + 1;
        assert (gone + more)[j] == gone[j];
      } else {
        var j :| 0 <= j < |more| && b[i - |a|].removedBefore == more[j].timestamp + 1;
        assert (gone + more)[|gone| + j] == more[j];
      }
    }
  }

  lemma NothingDated(gone: Table, cutoff: int)
    ensures Dated([], gone, cutoff)
  {
  }

  lemma BatchDated(bs: seq<Boundary>, gone: Table, cutoff: int)
    requires gone != []
    requires forall i :: 0 <= i < |bs| ==> bs[i].reason != Age && bs[i].removedBefore == gone[0].timestamp + 1
    ensures Dated(bs, gone, cutoff)
  {
  }

  /** The active sessions recorded as truncated. */
  function Truncated(bs: seq<Boundary>): set<SessionId> {
    set i | 0 <= i < |bs| && bs[i].reason.ActiveSessionTruncated? :: bs[i].reason.session
  }

  function Owners(rows: Table, active: seq<SessionId>): set<SessionId> {
    set i | 0 <= i < |rows| && rows[i].session.Some? && rows[i].session.value in active :: rows[i].session.value
  }

  /** The limit lies the configured number of days back, as long as that is a time at all. */
  lemma CutoffIsDaysBack(p: Policy, now: int)
    requires p.retentionDays * 86_400_000 < TWO_63 && now < TWO_63
    requires now - p.retentionDays * 86_400_000 + TWO_63 >= 0
    ensures Cutoff(p, now) == now - p.retentionDays * 86_400_000
  {
    var ms := p.retentionDays * 86_400_000;
    assert p.retentionDays <= ms && AsI64(p.retentionDays) == p.retentionDays && DAY_MS == 86_400_000;
  }

  // ------------------------------------------------------------ the reserved rows

  lemma {:induction false} OfSessionIn(rows: Table, s: SessionId, r: ShareRow)
    ensures r in OfSession(rows, s) <==> r in rows && r.session == Some(s)
  {
    if rows != [] {
      OfSessionIn(rows[1..], s, r);
    }
  }

  lemma {:induction false} ReservedIn(rows: Table, keep: set<Id>, r: ShareRow)
    ensures r in Reserved(rows, keep) <==> r in rows && r.id in keep
  {
    if rows != [] {
      ReservedIn(rows[1..], keep, r);
    }
  }

  lemma {:induction false} OfSessionOrdered(rows: Table, s: SessionId)
    requires Ordered(rows)
    ensures Ordered(OfSession(rows, s))
  {
    if rows != [] {
      var rest := OfSession(rows[1..], s);
      OfSessionOrdered(rows[1..], s);
      forall i | 0 <= i < |rest|
        ensures rows[0].timestamp <= rest[i].timestamp && rows[0].id != rest[i].id
      {
        OfSessionIn(rows[1..], s, rest[i]);
      }
    }
  }

  lemma {:induction false} SessionsCommute(rows: Table, keep: set<Id>, s: SessionId)
    ensures OfSession(Reserved(rows, keep), s) == Reserved(OfSession(rows, s), keep)
  {
    if rows != [] {
      SessionsCommute(rows[1..], keep, s);
      assert ([rows[0]] + Reserved(rows[1..], keep))[1..] == Reserved(rows[1..], keep);
      assert ([rows[0]] + OfSession(rows[1..], s))[1..] == OfSession(rows[1..], s);
    }
  }

  lemma {:induction false} ReservedSuffix(m: Table, keep: set<Id>, j: nat)
    requires j <= |m| && forall i :: 0 <= i < |m| ==> (m[i].id in keep <==> i >= j)
    ensures Reserved(m, keep) == m[j..]
  {
    if m != [] {
      ReservedSuffix(m[1..], keep, if j == 0 then 0 else j - 1);
      assert j > 0 ==> m[1..][j - 1..] == m[j..];
      assert j == 0 ==> m[0..] == [m[0]] + m[1..];
    }
  }

  lemma {:induction false} KeepOfSome(rows: Table, active: seq<SessionId>, n: Option<nat>, id: Id)
    ensures id in ReservedIds(rows, active, n) <==>
            exists k :: 0 <= k < |active| && id in Ids(Last(OfSession(rows, active[k]), n))
  {
    hide OfSession;
    if active != [] {
      var (front, last) := (active[..|active| - 1], active[|active| - 1]);
      KeepOfSome(rows, front, n, id);
      if id in ReservedIds(rows, front, n) {
        var k :| 0 <= k < |front| && id in Ids(Last(OfSession(rows, front[k]), n));
        assert active[k] == front[k];
      }
      assert active[|active| - 1] == last;
      assert forall k :: 0 <= k < |active| - 1 ==> active[k] == front[k];
    }
  }

  /** Where the reserved part of a session's rows begins. */
  function ReservedFrom(count: nat, n: Option<nat>): nat {
    if n.Some? && n.value < count then count - n.value else 0
  }

  /** A row of an active session is kept exactly if it is among the last of its session. */
  lemma OwnRowsKept(rows: Table, active: seq<SessionId>, n: Option<nat>, s: SessionId, i: nat)
    requires Ordered(rows) && s in active && i < |OfSession(rows, s)|
    ensures OfSession(rows, s)[i].id in ReservedIds(rows, active, n) <==> i >= ReservedFrom(|OfSession(rows, s)|, n)
  {
    hide OfSession, ReservedIds;
    var m := OfSession(rows, s);
    var (r, j) := (m[i], ReservedFrom(|m|, n));
    OfSessionOrdered(rows, s);
    KeepOfSome(rows, active, n, r.id);
    assert Last(m, n) == m[j..];
    if i >= j {
      assert m[j..][i - j] == r;
      var k :| 0 <= k < |active| && active[k] == s;
    }
    if k :| 0 <= k < |active| && r.id in Ids(Last(OfSession(rows, active[k]), n)) {
      var other := OfSession(rows, active[k]);
      var l := Last(other, n);
      var x :| 0 <= x < |l| && l[x].id == r.id;
      assert l[x] in other;
      OfSessionIn(rows, active[k], l[x]);
      OfSessionIn(rows, s, r);
      SameRow(rows, r, l[x]);
    }
  }

  lemma SameRow(rows: Table, a: ShareRow, b: ShareRow)
    requires Ordered(rows) && a in rows && b in rows && a.id == b.id
    ensures a == b
  {
    var i :| 0 <= i < |rows| && rows[i] == a;
    var j :| 0 <= j < |rows| && rows[j] == b;
  }

  /** Of two rows of one active session the first is kept and the second is not. */
  predicate Ousts(a: ShareRow, b: ShareRow, active: seq<SessionId>, keep: set<Id>) {
    a.session == b.session && a.session.Some? && a.session.value in active && a.id in keep && b.id !in keep
  }

  /** What is reserved: rows of active sessions only, of each as many as the limit allows, and the newest ones. */
  ghost predicate NewestKept(rows: Table, active: seq<SessionId>, n: Option<nat>, keep: set<Id>) {
    && (forall id :: id in keep ==> exists i ::
          0 <= i < |rows| && rows[i].id == id && rows[i].session.Some? && rows[i].session.value in active)
    && (forall s :: s in active ==>
          var all := |OfSession(rows, s)|;
          |OfSession(Reserved(rows, keep), s)| == if n.None? || n.value > all then all else n.value)
    && (forall i, j :: 0 <= i < |rows| && 0 <= j < |rows| && Ousts(rows[i], rows[j], active, keep) ==>
          rows[j].timestamp <= rows[i].timestamp)
  }

  lemma ReservedAreNewest(rows: Table, active: seq<SessionId>, n: Option<nat>)
    requires Ordered(rows)
    ensures NewestKept(rows, active, n, ReservedIds(rows, active, n))
  {
    hide OfSession, ReservedIds, Reserved;
    var keep := ReservedIds(rows, active, n);
    forall id | id in keep
      ensures exists i ::
        0 <= i < |rows| && rows[i].id == id && rows[i].session.Some? && rows[i].session.value in active
    {
      KeptRowOf(rows, active, n, id);
    }
    forall s | s in active
      ensures |OfSession(Reserved(rows, keep), s)| == |OfSession(rows, s)| - ReservedFrom(|OfSession(rows, s)|, n)
    {
      var m := OfSession(rows, s);
      forall i | 0 <= i < |m|
        ensures m[i].id in keep <==> i >= ReservedFrom(|m|, n)
      {
        OwnRowsKept(rows, active, n, s, i);
      }
      ReservedSuffix(m, keep, ReservedFrom(|m|, n));
      SessionsCommute(rows, keep, s);
    }
    forall i, j | 0 <= i < |rows| && 0 <= j < |rows| && Ousts(rows[i], rows[j], active, keep)
      ensures rows[j].timestamp <= rows[i].timestamp
    {
      KeptIsNewer(rows, active, n, rows[i], rows[j]);
    }
  }

  lemma KeptRowOf(rows: Table, active: seq<SessionId>, n: Option<nat>, id: Id)
    requires id in ReservedIds(rows, active, n)
    ensures exists i :: 0 <= i < |rows| && rows[i].id == id && rows[i].session.Some? && rows[i].session.value in active
  {
    hide OfSession, ReservedIds;
    KeepOfSome(rows, active, n, id);
    var k :| 0 <= k < |active| && id in Ids(Last(OfSession(rows, active[k]), n));
    var l := Last(OfSession(rows, active[k]), n);
    var x :| 0 <= x < |l| && l[x].id == id;
    assert l[x] in OfSession(rows, active[k]);
    OfSessionIn(rows, active[k], l[x]);
    var i :| 0 <= i < |rows| && rows[i] == l[x];
  }

  lemma KeptIsNewer(rows: Table, active: seq<SessionId>, n: Option<nat>, a: ShareRow, b: ShareRow)
    requires Ordered(rows) && a in rows && b in rows && a.session == b.session && a.session.Some?
    requires a.session.value in active
    requires a.id in ReservedIds(rows, active, n) && b.id !in ReservedIds(rows, active, n)
    ensures b.timestamp <= a.timestamp
  {
    hide OfSession, ReservedIds;
    var s := a.session.value;
    var m := OfSession(rows, s);
    OfSessionIn(rows, s, a);
    OfSessionIn(rows, s, b);
    var x :| 0 <= x < |m| && m[x] == a;
    var y :| 0 <= y < |m| && m[y] == b;
    OwnRowsKept(rows, active, n, s, x);
    OwnRowsKept(rows, active, n, s, y);
    OfSessionOrdered(rows, s);
  }

  // ------------------------------------------------------------ dropping

  lemma {:induction false} DropParts(rows: Table, keep: set<Id>, k: nat)
    requires k <= |Unreserved(rows, keep)|
    ensures Unreserved(Drop(rows, keep, k), keep) == Unreserved(rows, keep)[k..]
    ensures Reserved(Drop(rows, keep, k), keep) == Reserved(rows, keep)
    decreases |rows|
  {
    if rows != [] && k > 0 {
      var (r, t) := (rows[0], rows[1..]);
      if r.id in keep {
        DropParts(t, keep, k);
        assert ([r] + Drop(t, keep, k))[1..] == Drop(t, keep, k);
      } else {
        DropParts(t, keep, k - 1);
      }
    }
  }

  lemma {:induction false} DropMore(rows: Table, keep: set<Id>, k: nat, m: nat)
    ensures Drop(Drop(rows, keep, k), keep, m) == Drop(rows, keep, k + m)
    decreases |rows|
  {
    if rows != [] && k > 0 {
      var (r, t) := (rows[0], rows[1..]);
      if r.id in keep {
        DropMore(t, keep, k, m);
        assert ([r] + Drop(t, keep, k))[1..] == Drop(t, keep, k);
        if m == 0 {
          assert Drop(t, keep, k) == Drop(t, keep, k + m);
        }
      } else {
        DropMore(t, keep, k - 1, m);
      }
    }
  }

  lemma {:induction false} TotalSplits(rows: Table, keep: set<Id>)
    ensures Total(rows) == Total(Reserved(rows, keep)) + Total(Unreserved(rows, keep))
    decreases |rows|
  {
    if rows != [] {
      var t := rows[1..];
      TotalSplits(t, keep);
      assert ([rows[0]] + Reserved(t, keep))[1..] == Reserved(t, keep);
      assert ([rows[0]] + Unreserved(t, keep))[1..] == Unreserved(t, keep);
    }
  }

  lemma {:induction false} RemoveAbsent(rows: Table, id: Id)
    requires forall i :: 0 <= i < |rows| ==> rows[i].id != id
    ensures RemoveId(rows, id) == rows
  {
    if rows != [] {
      RemoveAbsent(rows[1..], id);
    }
  }

  lemma {:induction false} RemoveOldest(rows: Table, keep: set<Id>)
    requires Ordered(rows) && Unreserved(rows, keep) != []
    ensures RemoveId(rows, Unreserved(rows, keep)[0].id) == Drop(rows, keep, 1)
    decreases |rows|
  {
    if rows[0].id in keep {
      RemoveOldest(rows[1..], keep);
      UnreservedIsOut(rows[1..], keep, 0);
    } else {
      RemoveAbsent(rows[1..], rows[0].id);
    }
  }

  lemma {:induction false} UnreservedIsOut(rows: Table, keep: set<Id>, i: nat)
    requires i < |Unreserved(rows, keep)|
    ensures Unreserved(rows, keep)[i].id !in keep
    ensures exists j :: 0 <= j < |rows| && rows[j] == Unreserved(rows, keep)[i]
    decreases |rows|
  {
    if rows[0].id in keep {
      UnreservedIsOut(rows[1..], keep, i);
      var j :| 0 <= j < |rows[1..]| && rows[1..][j] == Unreserved(rows, keep)[i];
      assert rows[j + 1] == rows[1..][j];
    } else if i > 0 {
      UnreservedIsOut(rows[1..], keep, i - 1);
      var j :| 0 <= j < |rows[1..]| && rows[1..][j] == Unreserved(rows, keep)[i];
      assert rows[j + 1] == rows[1..][j];
    }
  }

  lemma {:induction false} DropSubset(rows: Table, keep: set<Id>, k: nat, i: nat)
    requires i < |Drop(rows, keep, k)|
    ensures exists j :: i <= j < |rows| && rows[j] == Drop(rows, keep, k)[i]
    decreases |rows|
  {
    var d := Drop(rows, keep, k);
    if k == 0 {
      assert rows[i] == d[i];
    } else if rows[0].id in keep && i == 0 {
      assert rows[0] == d[0];
    } else {
      var (p, m) := if rows[0].id in keep then (i - 1, k) else (i, k - 1);
      DropSubset(rows[1..], keep, m, p);
      var j :| p <= j < |rows[1..]| && rows[1..][j] == Drop(rows[1..], keep, m)[p];
      assert rows[j + 1] == d[i];
    }
  }

  lemma {:induction false} DropOrdered(rows: Table, keep: set<Id>, k: nat)
    requires Ordered(rows)
    ensures Ordered(Drop(rows, keep, k))
    decreases |rows|
  {
    if rows != [] && k > 0 {
      var (r, t) := (rows[0], rows[1..]);
      if r.id in keep {
        DropOrdered(t, keep, k);
        var d := Drop(t, keep, k);
        forall i | 0 <= i < |d|
          ensures r.timestamp <= d[i].timestamp && r.id != d[i].id
        {
          DropSubset(t, keep, k, i);
        }
      } else {
        DropOrdered(t, keep, k - 1);
      }
    }
  }

  lemma {:induction false} UnreservedOrdered(rows: Table, keep: set<Id>, i: nat, j: nat)
    requires Ordered(rows) && i < j < |Unreserved(rows, keep)|
    ensures Unreserved(rows, keep)[i].timestamp <= Unreserved(rows, keep)[j].timestamp
    decreases |rows|
  {
    if rows[0].id in keep {
      UnreservedOrdered(rows[1..], keep, i, j);
    } else if i > 0 {
      UnreservedOrdered(rows[1..], keep, i - 1, j - 1);
    } else {
      UnreservedIsOut(rows[1..], keep, j - 1);
    }
  }

  // ------------------------------------------------------------ the outcome of the size loop

  /** What the size loop must have done: `k` oldest unreserved rows are gone, in whole batches while they last, and
      no more batches than needed. */
  ghost predicate Evicted(before: Table, keep: set<Id>, limit: nat, after: Table, k: nat, blocked: bool) {
    && k <= |Unreserved(before, keep)|
    && after == Drop(before, keep, k)
    && (SharedBytes(after) <= limit || k == |Unreserved(before, keep)|)
    && (blocked <==> SharedBytes(after) > limit)
    && (k > 0 ==> SharedBytes(before) > limit)
    && (k % 200 == 0 || k == |Unreserved(before, keep)|)
    && (k > 0 ==> exists m: nat :: m < k <= m + BATCH && SharedBytes(Drop(before, keep, m)) > limit)
  }

  /** The loop never touches reserved rows and evicts oldest first. While the total can be counted it ends within
      the limit or with only reserved rows left, and blocks exactly when those alone do not fit; a total beyond
      the counter is left as it is, without blocking. */
  lemma EvictionOutcome(before: Table, keep: set<Id>, limit: nat, after: Table, k: nat, blocked: bool)
    requires Ordered(before) && Evicted(before, keep, limit, after, k, blocked)
    ensures Reserved(after, keep) == Reserved(before, keep)
    ensures Total(before) < TWO_63 ==> Total(after) <= limit || after == Reserved(before, keep)
    ensures Total(before) >= TWO_63 ==> after == before
    ensures blocked <==> Total(before) < TWO_63 && Total(Reserved(before, keep)) > limit
    ensures Unreserved(before, keep) == Unreserved(before, keep)[..k] + Unreserved(after, keep)
    ensures forall i, j :: 0 <= i < k && 0 <= j < |Unreserved(after, keep)| ==>
              Unreserved(before, keep)[i].timestamp <= Unreserved(after, keep)[j].timestamp
  {
    hide Ordered, Total, Reserved, Unreserved, Drop;
    DropParts(before, keep, k);
    TotalSplits(before, keep);
    TotalSplits(after, keep);
    TotalOfNone();
    UncountedStays(before, keep, limit, after, k, blocked);
    TotalOfSuffix(Unreserved(before, keep), k);
    if k == |Unreserved(before, keep)| {
      OnlyReservedLeft(after, keep);
    }
    var u := Unreserved(before, keep);
    forall i, j | 0 <= i < k && 0 <= j < |Unreserved(after, keep)|
      ensures u[i].timestamp <= Unreserved(after, keep)[j].timestamp
    {
      UnreservedOrdered(before, keep, i, k + j);
      assert Unreserved(after, keep)[j] == u[k + j];
    }
  }

  /** At most one batch goes too far: with two hundred rows fewer gone, the table would not fit yet. */
  lemma OneBatchTooFarAtMost(before: Table, keep: set<Id>, limit: nat, after: Table, k: nat, blocked: bool)
    requires Evicted(before, keep, limit, after, k, blocked) && k > 0
    ensures Total(Drop(before, keep, if k < 200 then 0 else k - 200)) > limit
  {
    hide Total, Reserved, Unreserved, Drop;
    var u := Unreserved(before, keep);
    var fewer := if k < 200 then 0 else k - 200;
    var m: nat :| m < k <= m + BATCH && SharedBytes(Drop(before, keep, m)) > limit;
    DropParts(before, keep, m);
    DropParts(before, keep, fewer);
    TotalSplits(Drop(before, keep, m), keep);
    TotalSplits(Drop(before, keep, fewer), keep);
    TotalOfSuffix(u[fewer..], m - fewer);
    assert u[fewer..][m - fewer..] == u[m..];
  }

  /** A total beyond the counter reads as zero, so the loop stops before its first batch. */
  lemma UncountedStays(before: Table, keep: set<Id>, limit: nat, after: Table, k: nat, blocked: bool)
    requires Evicted(before, keep, limit, after, k, blocked)
    ensures Total(before) >= TWO_63 ==> k == 0 && after == before && !blocked
  {
  }

  lemma {:induction false} TotalOfSuffix(rows: Table, k: nat)
    requires k <= |rows|
    ensures Total(rows[k..]) <= Total(rows)
  {
    if k > 0 {
      TotalOfSuffix(rows[1..], k - 1);
      assert rows[1..][k - 1..] == rows[k..];
    } else {
      assert rows[0..] == rows;
    }
  }

  lemma TotalOfNone()
    ensures Total([]) == 0
  {
  }

  lemma {:induction false} OnlyReservedLeft(rows: Table, keep: set<Id>)
    requires Unreserved(rows, keep) == []
    ensures Reserved(rows, keep) == rows
  {
    if rows != [] {
      OnlyReservedLeft(rows[1..], keep);
    }
  }

  // ------------------------------------------------------------ bookkeeping lemmas

  lemma {:induction false} BoundariesAppend(a: seq<Boundary>, b: seq<Boundary>)
    ensures SizeRemoved(a + b) == SizeRemoved(a) + SizeRemoved(b)
    ensures AgeRemoved(a + b) == AgeRemoved(a) + AgeRemoved(b)
    ensures Truncated(a + b) == Truncated(a) + Truncated(b)
    decreases |b|
  {
    if b == [] {
      assert a + b == a;
    } else {
      BoundariesAppend(a, b[..|b| - 1]);
      assert (a + b)[..|a + b| - 1] == a + b[..|b| - 1];
    }
    forall s | s in Truncated(a) + Truncated(b)
      ensures s in Truncated(a + b)
    {
      if s in Truncated(a) {
        var i :| 0 <= i < |a| && a[i].reason.ActiveSessionTruncated? && a[i].reason.session == s;
        assert (a + b)[i] == a[i];
      } else {
        var i :| 0 <= i < |b| && b[i].reason.ActiveSessionTruncated? && b[i].reason.session == s;
        assert (a + b)[|a| + i] == b[i];
      }
    }
  }

  lemma OwnersAppend(a: Table, b: Table, active: seq<SessionId>)
    ensures Owners(a + b, active) == Owners(a, active) + Owners(b, active)
  {
    forall s | s in Owners(a, active) + Owners(b, active)
      ensures s in Owners(a + b, active)
    {
      if s in Owners(a, active) {
        var i :| 0 <= i < |a| && a[i].session == Some(s) && s in active;
        assert (a + b)[i] == a[i];
      } else {
        var i :| 0 <= i < |b| && b[i].session == Some(s) && s in active;
        assert (a + b)[|a| + i] == b[i];
      }
    }
  }

  lemma {:induction false} AgedOrdered(rows: Table, cutoff: int)
    requires Ordered(rows)
    ensures Ordered(NotOlderThan(rows, cutoff))
    ensures |NotOlderThan(rows, cutoff)| <= |rows|
    ensures forall r :: r in NotOlderThan(rows, cutoff) <==> r in rows && r.timestamp >= cutoff
    decreases |rows|
  {
    if rows != [] {
      AgedOrdered(rows[1..], cutoff);
    }
  }

  // ------------------------------------------------------------ the store

  class AuditStore {
    var shared: Table
    var boundaries: seq<Boundary>
    var admissionBlocked: bool
    var fault: bool

    constructor ()
      ensures shared == [] && boundaries == [] && !admissionBlocked && !fault
    {
      shared, boundaries, admissionBlocked, fault := [], [], false, false;
    }

    /** Outbound data is recorded only while nothing is wrong with the store; a failed insert is a fault. */
    method RecordShare(row: ShareRow, written: bool) returns (ok: bool)
      modifies this`shared, this`fault
      ensures ok == (!old(fault) && !admissionBlocked && written)
      ensures fault == (old(fault) || (!admissionBlocked && !written))
      ensures shared == if ok then Insert(old(shared), row) else old(shared)
      ensures Ordered(old(shared)) && (forall i :: 0 <= i < |old(shared)| ==> old(shared)[i].id != row.id) ==>
          Ordered(shared)
    {
      if fault || admissionBlocked {
        return false;
      }
      if !written {
        fault := true;
        return false;
      }
      if Ordered(shared) && forall i :: 0 <= i < |shared| ==> shared[i].id != row.id {
        InsertKeepsOrder(shared, row);
      }
      shared := Insert(shared, row);
      ok := true;
    }

    /** The Data Shared half of a retention run; `k` rows are evicted for size and `added` is what is recorded. */
    method RunRetention(p: Policy, active: seq<SessionId>, now: int) returns (ghost k: nat, ghost added: seq<Boundary>)
      requires Ordered(shared)
      modifies this
      ensures
        var aged := NotOlderThan(old(shared), Cutoff(p, now));
        var keep := ReservedIds(aged, active, p.reservedPerSession);
        && Evicted(aged, keep, p.maxBytes, shared, k, admissionBlocked)
        && NewestKept(aged, active, p.reservedPerSession, keep)
        && boundaries == old(boundaries) + added && SizeRemoved(added) == k
        && AgeRemoved(added) == |old(shared)| - |aged|
        && Truncated(added) == Owners(Unreserved(aged, keep)[..k], active)
        && Dated(added, Unreserved(aged, keep)[..k], Cutoff(p, now))
      ensures Ordered(shared)
      ensures fault == (old(fault) || admissionBlocked)
    {
      hide Drop, Unreserved, SharedBytes, SizeRemoved, AgeRemoved, Truncated, Owners;
      hide NotOlderThan, ReservedIds, Ordered, NewestKept;
      var cutoff := Cutoff(p, now);
      AgedOrdered(shared, cutoff);
      var aged := NotOlderThan(shared, cutoff);
      var n := |shared| - |aged|;
      shared := aged;
      ghost var forAge: seq<Boundary> := if n > 0 then [Boundary(cutoff, n, Age)] else [];
      if n > 0 {
        boundaries := boundaries + [Boundary(cutoff, n, Age)];
      }
      var keep := Reserve(aged, active, p.reservedPerSession);
      var blocked;
      blocked, k, added := EvictToFit(keep, p.maxBytes, active, cutoff);
      AgeRecorded(forAge, added);
      ghost var gone := Unreserved(aged, keep)[..k];
      DatedAppend(forAge, added, [], gone, cutoff);
      assert [] + gone == gone;
      added := forAge + added;
      DropOrdered(aged, keep, k);
      admissionBlocked := blocked;
      if blocked {
        fault := true;
      }
    }

    /** The reservation loop over the active sessions. */
    method Reserve(rows: Table, active: seq<SessionId>, n: Option<nat>) returns (keep: set<Id>)
      ensures keep == ReservedIds(rows, active, n)
      ensures Ordered(rows) ==> NewestKept(rows, active, n, keep)
    {
      hide NewestKept, Ordered, OfSession;
      if Ordered(rows) {
        ReservedAreNewest(rows, active, n);
      }
      keep := {};
      for i := 0 to |active|
        invariant keep == ReservedIds(rows, active[..i], n)
      {
        keep := keep + Ids(Last(OfSession(rows, active[i]), n));
        assert active[..i + 1][..i] == active[..i];
      }
      assert active[..|active|] == active;
    }

    /** The size loop: batches of the oldest unreserved rows until the rest fits or nothing can go. */
    method EvictToFit(keep: set<Id>, limit: nat, active: seq<SessionId>, ghost cutoff: int)
      returns (blocked: bool, ghost k: nat, ghost added: seq<Boundary>)
      requires Ordered(shared)
      modifies this`shared, this`boundaries
      ensures Evicted(old(shared), keep, limit, shared, k, blocked)
      ensures boundaries == old(boundaries) + added && SizeRemoved(added) == k && AgeRemoved(added) == 0
      ensures Truncated(added) == Owners(Unreserved(old(shared), keep)[..k], active)
      ensures Dated(added, Unreserved(old(shared), keep)[..k], cutoff)
    {
      hide Drop, Ordered, Unreserved, SharedBytes, SizeRemoved, AgeRemoved, Truncated, Owners, Dated;
      ghost var before := shared;
      ghost var u := Unreserved(before, keep);
      ghost var m: nat := 0;
      k, added, blocked := 0, [], false;
      NothingYet(before, keep, active);
      NothingDated(u[..0], cutoff);
      while true
        invariant k <= |u| && shared == Drop(before, keep, k)
        invariant boundaries == old(boundaries) + added && SizeRemoved(added) == k && AgeRemoved(added) == 0 && !blocked
        invariant Truncated(added) == Owners(u[..k], active) && Dated(added, u[..k], cutoff)
        invariant k > 0 ==> SharedBytes(before) > limit
        invariant k % 200 == 0 || k == |u|
        invariant k > 0 ==> m < k <= m + BATCH && SharedBytes(Drop(before, keep, m)) > limit
        decreases |u| - k
      {
        if SharedBytes(shared) <= limit {
          break;
        }
        DropParts(before, keep, k);
        var candidates := Unreserved(shared, keep);
        if candidates == [] {
          blocked := true;
          break;
        }
        var ts := candidates[0].timestamp;
        var batch := if |candidates| < BATCH then candidates else candidates[..BATCH];
        DropOrdered(before, keep, k);
        var sessions := DeleteBatch(batch, keep, active);
        boundaries := boundaries + [Boundary(ts + 1, |batch|, Size)];
        ghost var more := RecordTruncated(sessions, ts);
        DropMore(before, keep, k, |batch|);
        BatchRecorded(added, Boundary(ts + 1, |batch|, Size), more);
        assert u[..k + |batch|] == u[..k] + batch;
        OwnersAppend(u[..k], batch, active);
        ghost var recorded := [Boundary(ts + 1, |batch|, Size)] + more;
        BatchDated(recorded, batch, cutoff);
        DatedAppend(added, recorded, u[..k], batch, cutoff);
        added := added + ([Boundary(ts + 1, |batch|, Size)] + more);
        m, k := k, k + |batch|;
      }
    }

    /** The delete loop over one batch; answers which active sessions lost rows. */
    method DeleteBatch(batch: Table, ghost keep: set<Id>, active: seq<SessionId>) returns (sessions: set<SessionId>)
      requires Ordered(shared) && batch <= Unreserved(shared, keep)
      modifies this`shared
      ensures shared == Drop(old(shared), keep, |batch|)
      ensures sessions == Owners(batch, active)
    {
      sessions := {};
      for i := 0 to |batch|
        invariant shared == Drop(old(shared), keep, i)
        invariant sessions == Owners(batch[..i], active)
      {
        DropParts(old(shared), keep, i);
        DropOrdered(old(shared), keep, i);
        assert Unreserved(shared, keep)[0] == batch[i];
        RemoveOldest(shared, keep);
        DropMore(old(shared), keep, i, 1);
        shared := RemoveId(shared, batch[i].id);
        assert batch[..i + 1] == batch[..i] + [batch[i]];
        OwnersAppend(batch[..i], [batch[i]], active);
        OwnerOfOne(batch[i], active);
        if batch[i].session.Some? && batch[i].session.value in active {
          sessions := sessions + {batch[i].session.value};
        }
      }
      assert batch[..|batch|] == batch;
    }

    /** One boundary per truncated session. */
    method RecordTruncated(sessions: set<SessionId>, ts: int) returns (ghost more: seq<Boundary>)
      modifies this`boundaries
      ensures boundaries == old(boundaries) + more && SizeRemoved(more) == AgeRemoved(more) == 0
      ensures Truncated(more) == sessions
      ensures forall i :: 0 <= i < |more| ==> more[i].reason != Age && more[i].removedBefore == ts + 1
    {
      more := [];
      var todo := sessions;
      while todo != {}
        invariant todo <= sessions && boundaries == old(boundaries) + more
        invariant SizeRemoved(more) == AgeRemoved(more) == 0 && Truncated(more) == sessions - todo
        invariant forall i :: 0 <= i < |more| ==> more[i].reason != Age && more[i].removedBefore == ts + 1
        decreases |todo|
      {
        var s :| s in todo;
        var b := Boundary(ts + 1, 0, ActiveSessionTruncated(s));
        boundaries := boundaries + [b];
        BoundariesAppend(more, [b]);
        OneTruncated(b);
        more := more + [b];
        todo := todo - {s};
      }
    }
  }

  lemma AgeRecorded(a: seq<Boundary>, added: seq<Boundary>)
    requires a == [] || (|a| == 1 && a[0].reason == Age)
    ensures SizeRemoved(a + added) == SizeRemoved(added)
    ensures AgeRemoved(a + added) == AgeRemoved(added) + if a == [] then 0 else a[0].removedCount
    ensures Truncated(a + added) == Truncated(added)
  {
    BoundariesAppend(a, added);
    assert |a| == 1 ==> a[..0] == [];
  }

  lemma NothingYet(rows: Table, keep: set<Id>, active: seq<SessionId>)
    ensures Drop(rows, keep, 0) == rows && SizeRemoved([]) == AgeRemoved([]) == 0
    ensures Truncated([]) == Owners(Unreserved(rows, keep)[..0], active) == {}
  {
  }

  lemma OwnerOfOne(r: ShareRow, active: seq<SessionId>)
    ensures Owners([r], active) == if r.session.Some? && r.session.value in active then {r.session.value} else {}
  {
    assert [r][0] == r;
  }

  lemma OneTruncated(b: Boundary)
    requires b.reason.ActiveSessionTruncated?
    ensures SizeRemoved([b]) == AgeRemoved([b]) == 0 && Truncated([b]) == {b.reason.session}
  {
    assert [b][0] == b && [b][..0] == [];
  }

  lemma BatchRecorded(added: seq<Boundary>, b: Boundary, more: seq<Boundary>)
    requires b.reason == Size && SizeRemoved(more) == AgeRemoved(more) == 0
    ensures SizeRemoved(added + ([b] + more)) == SizeRemoved(added) + b.removedCount
    ensures AgeRemoved(added + ([b] + more)) == AgeRemoved(added)
    ensures Truncated(added + ([b] + more)) == Truncated(added) + Truncated(more)
  {
    BoundariesAppend([b], more);
    BoundariesAppend(added, [b] + more);
    assert [b][..0] == [];
    assert Truncated([b]) == {};
  }

  /** Insertion in timestamp order. */
  function Insert(rows: Table, row: ShareRow): Table {
    if rows == [] || rows[|rows| - 1].timestamp <= row.timestamp then rows + [row]
    else Insert(rows[..|rows| - 1], row) + [rows[|rows| - 1]]
  }

  lemma {:induction false} InsertKeepsOrder(rows: Table, row: ShareRow)
    requires Ordered(rows) && forall i :: 0 <= i < |rows| ==> rows[i].id != row.id
    ensures Ordered(Insert(rows, row))
    ensures multiset(Insert(rows, row)) == multiset(rows) + multiset{row}
  {
    if rows != [] && rows[|rows| - 1].timestamp > row.timestamp {
      hide Ordered;
      var (front, last) := (rows[..|rows| - 1], rows[|rows| - 1]);
      assert rows == front + [last];
      FrontIsOrdered(rows);
      InsertKeepsOrder(front, row);
      var ins := Insert(front, row);
      forall i | 0 <= i < |ins|
        ensures ins[i].timestamp <= last.timestamp && ins[i].id != last.id
      {
        assert ins[i] in multiset(ins);
        assert ins[i] in front || ins[i] == row;
      }
      SnocIsOrdered(ins, last);
    } else {
      SnocIsOrdered(rows, row);
    }
  }

  lemma FrontIsOrdered(rows: Table)
    requires Ordered(rows) && rows != []
    ensures var (front, last) := (rows[..|rows| - 1], rows[|rows| - 1]);
            Ordered(front) && forall x :: x in front ==> x.timestamp <= last.timestamp && x.id != last.id
  {
  }

  lemma SnocIsOrdered(rows: Table, row: ShareRow)
    requires Ordered(rows) && forall i :: 0 <= i < |rows| ==> rows[i].timestamp <= row.timestamp && rows[i].id != row.id
    ensures Ordered(rows + [row])
  {
  }
}
