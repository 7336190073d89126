/**
 Project writer leases: per project a list of leases, each held by a client and
 possibly by one of its tasks. Every operation reads its own clock.
 */
module Leases {
  import opened Wrappers

  type ProjectId = nat
  type ClientId = nat
  type TaskId = nat

  datatype Lease = Lease(
    project: ProjectId,
    holder: ClientId,
    task: Option<TaskId>,
    acquiredAt: int,
    expiresAt: int)

  type Table = map<ProjectId, seq<Lease>>

  datatype Op =
    | Acquire(project: ProjectId, client: ClientId, task: Option<TaskId>, now: int, ttl: int, allowMultiple: bool)
    | Renew(taskId: TaskId, now: int, ttl: int)
    | ReleaseTask(taskId: TaskId)
    | ReleaseClient(client: ClientId)
    | List(now: int)
    | Clear

  // ------------------------------------------------------------ lists of leases

  function Filter(ls: seq<Lease>, keep: Lease -> bool): seq<Lease> {
    if ls == [] then []
    else Filter(ls[..|ls| - 1], keep) + if keep(ls[|ls| - 1]) then [ls[|ls| - 1]] else []
  }

  function Live(ls: seq<Lease>, now: int): seq<Lease> {
    Filter(ls, (l: Lease) => l.expiresAt > now)
  }

  predicate HeldBy(ls: seq<Lease>, client: ClientId) {
    forall i :: 0 <= i < |ls| ==> ls[i].holder == client
  }

  /** The first lease of `client` for `task`, or the length of the list. */
  function Find(ls: seq<Lease>, client: ClientId, task: Option<TaskId>): (k: nat)
    ensures k <= |ls|
    ensures k < |ls| ==> ls[k].holder == client && ls[k].task == task
  {
    if ls == [] || (ls[0].holder == client && ls[0].task == task) then 0 else 1 + Find(ls[1..], client, task)
  }

  function Extended(ls: seq<Lease>, a: Op): seq<Lease>
    requires a.Acquire?
  {
    var k := Find(ls, a.client, a.task);
    if k == |ls| then ls + [Lease(a.project, a.client, a.task, a.now, a.now + a.ttl)]
    else ls[k := ls[k].(expiresAt := if ls[k].expiresAt < a.now + a.ttl then a.now + a.ttl else ls[k].expiresAt)]
  }

  function RenewAll(ls: seq<Lease>, t: TaskId, until: int): (r: seq<Lease>)
    ensures |r| == |ls|
    ensures forall i :: 0 <= i < |ls| ==> r[i] == if ls[i].task == Some(t) then ls[i].(expiresAt := until) else ls[i]
  {
    seq(|ls|, i requires 0 <= i < |ls| => if ls[i].task == Some(t) then ls[i].(expiresAt := until) else ls[i])
  }

  function Of(m: Table, p: ProjectId): seq<Lease> {
    if p in m then m[p] else []
  }

  function Retain(m: Table, keep: Lease -> bool): Table {
    map p | p in m && Filter(m[p], keep) != [] :: Filter(m[p], keep)
  }

  function Granted(m: Table, a: Op): bool
    requires a.Acquire?
  {
    a.allowMultiple || HeldBy(Live(Of(m, a.project), a.now), a.client)
  }

  function Apply(m: Table, op: Op): Table {
    match op
    case Acquire(p, c, t, now, ttl, multi) =>
      m[p := if Granted(m, op) then Extended(Live(Of(m, p), now), op) else Live(Of(m, p), now)]
    case Renew(t, now, ttl) => map p | p in m :: RenewAll(m[p], t, now + ttl)
    case ReleaseTask(t) => Retain(m, (l: Lease) => l.task != Some(t))
    case ReleaseClient(c) => Retain(m, (l: Lease) => l.holder != c)
    case List(now) => Retain(m, (l: Lease) => l.expiresAt > now)
    case Clear => map[]
  }

  function Run(m: Table, ops: seq<Op>): Table
    decreases |ops|
  {
    if ops == [] then m else Run(Apply(m, ops[0]), ops[1..])
  }

  lemma {:induction false} FilterIn(ls: seq<Lease>, keep: Lease -> bool, l: Lease)
    ensures l in Filter(ls, keep) <==> l in ls && keep(l)
  {
    if ls != [] {
      FilterIn(ls[..|ls| - 1], keep, l);
      assert ls == ls[..|ls| - 1] + [ls[|ls| - 1]];
    }
  }

  lemma RetainIn(m: Table, keep: Lease -> bool, p: ProjectId, l: Lease)
    ensures l in Of(Retain(m, keep), p) <==> l in Of(m, p) && keep(l)
  {
    FilterIn(Of(m, p), keep, l);
  }

  // ------------------------------------------------------------ one writer per project

  /** All leases stored for a project, the expired ones included, have one holder. */
  predicate OneHolder(m: Table) {
    forall p :: p in m ==> AllSame(m[p])
  }

  predicate AllSame(ls: seq<Lease>) {
    forall i, j :: 0 <= i < |ls| && 0 <= j < |ls| ==> ls[i].holder == ls[j].holder
  }

  lemma SubsetIsSame(ls: seq<Lease>, keep: Lease -> bool)
    requires AllSame(ls)
    ensures AllSame(Filter(ls, keep))
  {
    hide Filter;
    var f := Filter(ls, keep);
    forall i, j | 0 <= i < |f| && 0 <= j < |f|
      ensures f[i].holder == f[j].holder
    {
      FilterIn(ls, keep, f[i]);
      FilterIn(ls, keep, f[j]);
    }
  }

  lemma ExtendedHolders(ls: seq<Lease>, a: Op)
    requires a.Acquire? && AllSame(ls)
    ensures AllSame(Extended(ls, a)) <==> HeldBy(ls, a.client)
  {
    var e := Extended(ls, a);
    var k := Find(ls, a.client, a.task);
    if k == |ls| {
      assert e[|ls|].holder == a.client;
      assert forall i :: 0 <= i < |ls| ==> e[i] == ls[i];
    } else {
      assert ls[k].holder == a.client;
      assert forall i :: 0 <= i < |ls| ==> e[i].holder == ls[i].holder;
    }
  }

  /** An operation keeps a project at one holder exactly unless it is an acquire with several writers allowed
      while another client's lease is live. */
  lemma StepKeepsOneHolder(m: Table, op: Op)
    requires OneHolder(m)
    ensures OneHolder(Apply(m, op)) <==>
            !(op.Acquire? && op.allowMultiple && !HeldBy(Live(Of(m, op.project), op.now), op.client))
  {
    hide Filter, Extended;
    var m' := Apply(m, op);
    match op
    case Acquire(p, c, t, now, ttl, multi) =>
      SubsetIsSame(Of(m, p), (l: Lease) => l.expiresAt > now);
      var live := Live(Of(m, p), now);
      ExtendedHolders(live, op);
      assert p in m';
    case Renew(t, now, ttl) =>
      assert forall p :: p in m' ==> AllSame(m[p]);
    case ReleaseTask(t) =>
      RetainKeepsOneHolder(m, (l: Lease) => l.task != Some(t));
    case ReleaseClient(c) =>
      RetainKeepsOneHolder(m, (l: Lease) => l.holder != c);
    case List(now) =>
      RetainKeepsOneHolder(m, (l: Lease) => l.expiresAt > now);
    case Clear =>
  }

  lemma RetainKeepsOneHolder(m: Table, keep: Lease -> bool)
    requires OneHolder(m)
    ensures OneHolder(Retain(m, keep))
  {
    hide Filter;
    forall p | p in Retain(m, keep)
      ensures AllSame(Retain(m, keep)[p])
    {
      SubsetIsSame(m[p], keep);
    }
  }

  predicate SingleWriter(ops: seq<Op>) {
    forall i :: 0 <= i < |ops| && ops[i].Acquire? ==> !ops[i].allowMultiple
  }

  /** Without several writers allowed, every reachable table has one holder per project, under any clock. */
  lemma {:induction false} EveryRunHasOneHolder(m: Table, ops: seq<Op>)
    requires OneHolder(m) && SingleWriter(ops)
    ensures OneHolder(Run(m, ops))
    decreases |ops|
  {
    if ops != [] {
      assert ops[0].Acquire? ==> !ops[0].allowMultiple;
      StepKeepsOneHolder(m, ops[0]);
      EveryRunHasOneHolder(Apply(m, ops[0]), ops[1..]);
    }
  }

  /** So a heartbeat never revives a lease that conflicts with a live one. */
  lemma RenewRevivesNoConflict(ops: seq<Op>, t: TaskId, now: int, ttl: int, p: ProjectId, a: Lease, b: Lease)
    requires SingleWriter(ops)
    requires a in Of(Apply(Run(map[], ops), Renew(t, now, ttl)), p)
    requires b in Of(Apply(Run(map[], ops), Renew(t, now, ttl)), p)
    ensures a.holder == b.holder
  {
    hide Filter, Run, SingleWriter;
    EveryRunHasOneHolder(map[], ops);
    StepKeepsOneHolder(Run(map[], ops), Renew(t, now, ttl));
  }

  /** With several writers allowed it can. */
  lemma RenewRevivesConflict()
    ensures
      var m := Run(map[], [Acquire(1, 7, Some(3), 0, 10, false), Acquire(1, 8, None, 5, 10, true)]);
      var r := Of(Apply(m, Renew(3, 12, 10)), 1);
      && Live(Of(m, 1), 12) == [Lease(1, 8, None, 5, 15)]
      && Live(r, 12) == [Lease(1, 7, Some(3), 0, 22), Lease(1, 8, None, 5, 15)]
  {
    hide Run, Filter, Granted, Extended;
    var a, b := Lease(1, 7, Some(3), 0, 10), Lease(1, 8, None, 5, 15);
    var m := TwoWriters();
    LiveTwo(a, b, 12);
    LiveTwo(a.(expiresAt := 22), b, 12);
    assert RenewAll([a, b], 3, 22) == [a.(expiresAt := 22), b];
  }

  lemma TwoWriters() returns (m: Table)
    ensures m == Run(map[], [Acquire(1, 7, Some(3), 0, 10, false), Acquire(1, 8, None, 5, 10, true)])
    ensures 1 in m && m[1] == [Lease(1, 7, Some(3), 0, 10), Lease(1, 8, None, 5, 15)]
  {
    hide Filter;
    var a := Lease(1, 7, Some(3), 0, 10);
    var o1, o2 := Acquire(1, 7, Some(3), 0, 10, false), Acquire(1, 8, None, 5, 10, true);
    LiveOne(a, 0);
    LiveOne(a, 5);
    var m1 := Apply(map[], o1);
    assert Of(map[], 1) == [] && Live([], 0) == [] && Granted(map[], o1);
    assert m1[1] == [a];
    assert Find([a], 8, None) == 1 by {
      assert [a][1..] == [];
    }
    m := Apply(m1, o2);
    assert [o1, o2][1..] == [o2] && [o2][1..] == [];
    assert Run(map[], [o1, o2]) == Run(m1, [o2]) == Run(m, []);
  }

  lemma LiveOne(a: Lease, now: int)
    ensures Live([], now) == []
    ensures Live([a], now) == if a.expiresAt > now then [a] else []
  {
    assert [a][..0] == [];
  }

  lemma LiveTwo(a: Lease, b: Lease, now: int)
    ensures Live([a, b], now) == Live([a], now) + Live([b], now)
    ensures Live([a], now) == if a.expiresAt > now then [a] else []
    ensures Live([b], now) == if b.expiresAt > now then [b] else []
  {
    LiveOne(a, now);
    LiveOne(b, now);
    assert [a, b][..1] == [a];
  }

  lemma ReleasesExactly(m: Table, t: TaskId, c: ClientId, now: int, p: ProjectId, l: Lease)
    ensures l in Of(Apply(m, ReleaseTask(t)), p) <==> l in Of(m, p) && l.task != Some(t)
    ensures l in Of(Apply(m, ReleaseClient(c)), p) <==> l in Of(m, p) && l.holder != c
    ensures l in Of(Apply(m, List(now)), p) <==> l in Of(m, p) && now < l.expiresAt
    ensures Of(Apply(m, Clear), p) == []
  {
    hide Filter, Retain;
    RetainIn(m, (l: Lease) => l.task != Some(t), p, l);
    RetainIn(m, (l: Lease) => l.holder != c, p, l);
    RetainIn(m, (l: Lease) => l.expiresAt > now, p, l);
  }

  // ------------------------------------------------------------ a lease keeps others out

  /** Up to `until`, nothing in `op` ends or shortens the lease of `client` and `task`. */
  predicate Respects(op: Op, client: ClientId, task: Option<TaskId>, until: int) {
    match op
    case Acquire(_, _, _, now, _, _) => now < until
    case Renew(t, now, ttl) => task == Some(t) ==> now + ttl >= until
    case ReleaseTask(t) => task != Some(t)
    case ReleaseClient(c) => c != client
    case List(now) => now < until
    case Clear => false
  }

  ghost predicate Holds(m: Table, p: ProjectId, client: ClientId, task: Option<TaskId>, until: int) {
    exists l :: l in Of(m, p) && l.holder == client && l.task == task && l.expiresAt >= until
  }

  lemma LiveKeeps(m: Table, op: Op, l: Lease)
    requires op.Acquire? && l in Of(m, op.project) && l.expiresAt > op.now
    ensures Holds(Apply(m, op), op.project, l.holder, l.task, l.expiresAt)
  {
    hide Filter, HeldBy;
    FilterIn(Of(m, op.project), (x: Lease) => x.expiresAt > op.now, l);
    var live := Live(Of(m, op.project), op.now);
    var i :| 0 <= i < |live| && live[i] == l;
    var r := Of(Apply(m, op), op.project);
    assert i < |r| && r[i].holder == l.holder && r[i].task == l.task && r[i].expiresAt >= l.expiresAt;
    assert r[i] in r;
  }

  lemma StepKeepsHold(m: Table, op: Op, p: ProjectId, client: ClientId, task: Option<TaskId>, until: int)
    requires Holds(m, p, client, task, until) && Respects(op, client, task, until)
    ensures Holds(Apply(m, op), p, client, task, until)
  {
    hide Filter, Extended, HeldBy, Retain;
    var l :| l in Of(m, p) && l.holder == client && l.task == task && l.expiresAt >= until;
    match op
    case Acquire(q, c, t, now, ttl, multi) =>
      if q == p {
        LiveKeeps(m, op, l);
      } else {
        assert l in Of(Apply(m, op), p);
      }
    case Renew(t, now, ttl) =>
      var i :| 0 <= i < |m[p]| && m[p][i] == l;
      var r := Apply(m, op)[p];
      assert r[i] in r && r[i].expiresAt >= until;
    case ReleaseTask(t) =>
      RetainIn(m, (l: Lease) => l.task != Some(t), p, l);
    case ReleaseClient(c) =>
      RetainIn(m, (l: Lease) => l.holder != c, p, l);
    case List(now) =>
      RetainIn(m, (l: Lease) => l.expiresAt > now, p, l);
  }

  lemma {:induction false} RunKeepsHold(m: Table, ops: seq<Op>, p: ProjectId, client: ClientId, task: Option<TaskId>,
      until: int)
    requires Holds(m, p, client, task, until)
    requires forall i :: 0 <= i < |ops| ==> Respects(ops[i], client, task, until)
    ensures Holds(Run(m, ops), p, client, task, until)
    decreases |ops|
  {
    if ops != [] {
      assert Respects(ops[0], client, task, until);
      StepKeepsHold(m, ops[0], p, client, task, until);
      RunKeepsHold(Apply(m, ops[0]), ops[1..], p, client, task, until);
    }
  }

  /** A granted acquire leaves a lease for the whole requested time. */
  lemma GrantedHolds(m: Table, a: Op)
    requires a.Acquire? && Granted(m, a)
    ensures Holds(Apply(m, a), a.project, a.client, a.task, a.now + a.ttl)
  {
    hide Filter, HeldBy;
    var live := Live(Of(m, a.project), a.now);
    var k := Find(live, a.client, a.task);
    var r := Apply(m, a)[a.project];
    assert r[k] in r && r[k].holder == a.client && r[k].task == a.task && r[k].expiresAt >= a.now + a.ttl;
  }

  /** Once granted, a lease refuses every exclusive acquire by another client until its time is up, whatever
      else happens that does not end it. */
  lemma GrantExcludesOthers(m: Table, a: Op, ops: seq<Op>, b: Op)
    requires a.Acquire? && Granted(m, a)
    requires forall i :: 0 <= i < |ops| ==> Respects(ops[i], a.client, a.task, a.now + a.ttl)
    requires b.Acquire? && b.project == a.project && b.client != a.client && !b.allowMultiple && b.now < a.now + a.ttl
    ensures !Granted(Run(Apply(m, a), ops), b)
  {
    hide Filter, Run, Apply, Respects;
    var m' := Run(Apply(m, a), ops);
    GrantedHolds(m, a);
    RunKeepsHold(Apply(m, a), ops, a.project, a.client, a.task, a.now + a.ttl);
    var l :| l in Of(m', a.project) && l.holder == a.client && l.task == a.task && l.expiresAt >= a.now + a.ttl;
    FilterIn(Of(m', a.project), (x: Lease) => x.expiresAt > b.now, l);
    var live := Live(Of(m', a.project), b.now);
    var i :| 0 <= i < |live| && live[i] == l;
  }

  /** And not a moment longer: on a project without leases, another client gets in exactly from then on. */
  lemma GrantLapses(m: Table, a: Op, b: Op)
    requires a.Acquire? && Of(m, a.project) == []
    requires b.Acquire? && b.project == a.project && b.client != a.client && !b.allowMultiple
    ensures Granted(m, a)
    ensures Of(Apply(m, a), a.project) == [Lease(a.project, a.client, a.task, a.now, a.now + a.ttl)]
    ensures Granted(Apply(m, a), b) <==> b.now >= a.now + a.ttl
  {
    hide Filter;
    var l := Lease(a.project, a.client, a.task, a.now, a.now + a.ttl);
    LiveOne(l, a.now);
    LiveOne(l, b.now);
    assert Find([], a.client, a.task) == 0;
    assert [l][0].holder != b.client;
  }

  /** A heartbeat moves exactly the leases of its task. */
  lemma RenewMovesExactly(m: Table, t: TaskId, now: int, ttl: int, p: ProjectId)
    requires p in m
    ensures
      var after := Apply(m, Renew(t, now, ttl));
      && after.Keys == m.Keys && |after[p]| == |m[p]|
      && forall i :: 0 <= i < |m[p]| ==>
           after[p][i] == if m[p][i].task == Some(t) then m[p][i].(expiresAt := now + ttl) else m[p][i]
  {
  }

  /** A second acquire by the holder for the same task never shortens the lease. */
  lemma ReacquireExtends(m: Table, a: Op, l: Lease)
    requires a.Acquire? && a.project in m && m[a.project] == [l]
    requires l.holder == a.client && l.task == a.task && a.now < l.expiresAt
    ensures Granted(m, a)
    ensures Apply(m, a)[a.project] ==
            [l.(expiresAt := if a.now + a.ttl > l.expiresAt then a.now + a.ttl else l.expiresAt)]
  {
    hide Filter;
    LiveOne(l, a.now);
    assert Find([l], a.client, a.task) == 0;
  }

  // ------------------------------------------------------------ the manager

  class LeaseManager {
    var leases: Table

    constructor ()
      ensures leases == map[] && OneHolder(leases)
    {
      leases := map[];
    }

    /** Answers the holder that stands in the way, if any. */
    method AcquireLease(p: ProjectId, client: ClientId, task: Option<TaskId>, now: int, ttl: int, allowMultiple: bool)
      returns (blocker: Option<ClientId>)
      modifies this
      ensures var a := Acquire(p, client, task, now, ttl, allowMultiple);
              && leases == Apply(old(leases), a)
              && (blocker.None? <==> Granted(old(leases), a))
              && (blocker.Some? ==> blocker.value != client)
      ensures blocker.Some? ==> exists l :: l in Of(old(leases), p) && l.holder == blocker.value && l.expiresAt > now
      ensures OneHolder(old(leases)) && !allowMultiple ==> OneHolder(leases)
    {
      hide Filter, Extended, OneHolder;
      ghost var a := Acquire(p, client, task, now, ttl, allowMultiple);
      if OneHolder(leases) {
        StepKeepsOneHolder(leases, a);
      }
      var all := if p in leases then leases[p] else [];
      var list := RetainIf(all, (l: Lease) => l.expiresAt > now);
      leases := leases[p := list];
      if !allowMultiple {
        var i := 0;
        while i < |list|
          invariant i <= |list| && HeldBy(list[..i], client)
          invariant leases == old(leases)[p := list]
        {
          if list[i].holder != client {
            FilterIn(all, (l: Lease) => l.expiresAt > now, list[i]);
            return Some(list[i].holder);
          }
          i := i + 1;
        }
      }
      list := Extend(list, p, client, task, now, ttl, a);
      leases := leases[p := list];
      blocker := None;
    }

    method Extend(list: seq<Lease>, p: ProjectId, client: ClientId, task: Option<TaskId>, now: int, ttl: int,
        ghost a: Op)
      returns (r: seq<Lease>)
      requires a.Acquire? && a == Acquire(p, client, task, now, ttl, a.allowMultiple)
      ensures r == Extended(list, a)
    {
      var i := 0;
      while i < |list| && !(list[i].holder == client && list[i].task == task)
        invariant i <= |list| && Find(list, client, task) == i + Find(list[i..], client, task)
      {
        assert list[i..][1..] == list[i + 1..];
        i := i + 1;
      }
      if i == |list| {
        r := list + [Lease(p, client, task, now, now + ttl)];
      } else {
        r := list[i := list[i].(expiresAt := if list[i].expiresAt < now + ttl then now + ttl else list[i].expiresAt)];
      }
    }

    method RenewTask(t: TaskId, now: int, ttl: int)
      modifies this
      ensures leases == Apply(old(leases), Renew(t, now, ttl))
      ensures OneHolder(old(leases)) ==> OneHolder(leases)
    {
      if OneHolder(leases) {
        StepKeepsOneHolder(leases, Renew(t, now, ttl));
      }
      leases := map p | p in leases :: RenewAll(leases[p], t, now + ttl);
    }

    /** A finished task gives up its leases, and nothing else goes. */
    method ReleaseTaskLeases(t: TaskId)
      modifies this
      ensures leases == Apply(old(leases), ReleaseTask(t))
      ensures forall p, l :: l in Of(leases, p) <==> l in Of(old(leases), p) && l.task != Some(t)
      ensures NoEmptyList(leases) && (OneHolder(old(leases)) ==> OneHolder(leases))
    {
      hide Filter, Retain, OneHolder, Of;
      ghost var m := leases;
      RetainLeases((l: Lease) => l.task != Some(t));
      assert leases == Apply(m, ReleaseTask(t));
      forall p, l ensures l in Of(leases, p) <==> l in Of(m, p) && l.task != Some(t) {
        ReleasesExactly(m, t, 0, 0, p, l);
      }
    }

    /** A client that lost access gives up its leases, so none of them blocks anyone. */
    method ReleaseClientLeases(c: ClientId)
      modifies this
      ensures leases == Apply(old(leases), ReleaseClient(c))
      ensures forall p, l :: l in Of(leases, p) <==> l in Of(old(leases), p) && l.holder != c
      ensures NoEmptyList(leases) && (OneHolder(old(leases)) ==> OneHolder(leases))
    {
      hide Filter, Retain, OneHolder, Of;
      ghost var m := leases;
      RetainLeases((l: Lease) => l.holder != c);
      assert leases == Apply(m, ReleaseClient(c));
      forall p, l ensures l in Of(leases, p) <==> l in Of(m, p) && l.holder != c {
        ReleasesExactly(m, 0, c, 0, p, l);
      }
    }

    /** Lists exactly the live leases, after dropping the others. */
    method ListLeases(now: int) returns (all: seq<Lease>)
      modifies this
      ensures leases == Apply(old(leases), List(now))
      ensures forall l :: l in all <==> Lives(old(leases), l, now)
    {
      hide Filter, Retain, OneHolder;
      ghost var m := leases;
      RetainLeases((l: Lease) => l.expiresAt > now);
      all := [];
      var todo := leases.Keys;
      while todo != {}
        invariant todo <= leases.Keys && leases == Apply(m, List(now))
        invariant forall l :: l in all <==> exists p :: p in leases && p !in todo && l in leases[p]
        decreases |todo|
      {
        var p :| p in todo;
        all := all + leases[p];
        todo := todo - {p};
      }
      forall l ensures (exists p :: p in leases && l in leases[p]) <==> Lives(m, l, now) {
        forall p ensures l in Of(leases, p) <==> l in Of(m, p) && l.expiresAt > now {
          RetainIn(m, (x: Lease) => x.expiresAt > now, p, l);
        }
        assert forall p :: p in leases && l in leases[p] ==> l in Of(leases, p) && l in Of(m, p);
        assert forall p :: p in m && l in m[p] ==> l in Of(m, p);
      }
    }

    /** Two passes: every list is filtered, then projects without a lease are dropped. */
    method RetainLeases(keep: Lease -> bool)
      modifies this
      ensures leases == Retain(old(leases), keep)
      ensures forall p, l :: l in Of(leases, p) <==> l in Of(old(leases), p) && keep(l)
      ensures NoEmptyList(leases) && (OneHolder(old(leases)) ==> OneHolder(leases))
    {
      hide Filter, OneHolder, Of;
      ghost var m := leases;
      var todo := leases.Keys;
      while todo != {}
        invariant todo <= m.Keys == leases.Keys
        invariant forall p :: p in m ==> leases[p] == if p in todo then m[p] else Filter(m[p], keep)
        decreases |todo|
      {
        var p :| p in todo;
        var list := RetainIf(leases[p], keep);
        leases := leases[p := list];
        todo := todo - {p};
      }
      leases := map p | p in leases && leases[p] != [] :: leases[p];
      assert leases == Retain(m, keep);
      RetainsExactly(m, keep, leases);
    }

    method RetainIf(all: seq<Lease>, keep: Lease -> bool) returns (list: seq<Lease>)
      ensures list == Filter(all, keep)
    {
      list := [];
      for i := 0 to |all|
        invariant list == Filter(all[..i], keep)
      {
        assert all[..i + 1][..i] == all[..i];
        if keep(all[i]) {
          list := list + [all[i]];
        }
      }
      assert all[..|all|] == all;
    }
  }

  ghost predicate Lives(m: Table, l: Lease, now: int) {
    l.expiresAt > now && exists p :: p in m && l in m[p]
  }

  predicate NoEmptyList(m: Table) {
    forall p :: p in m ==> m[p] != []
  }

  lemma RetainsExactly(m: Table, keep: Lease -> bool, r: Table)
    requires r == Retain(m, keep)
    ensures forall p, l {:trigger l in Of(r, p)} {:trigger l in Of(m, p)} ::
              l in Of(r, p) <==> l in Of(m, p) && keep(l)
    ensures NoEmptyList(r) && (OneHolder(m) ==> OneHolder(r))
  {
    hide Filter, OneHolder;
    forall p, l
      ensures l in Of(r, p) <==> l in Of(m, p) && keep(l)
    {
      RetainIn(m, keep, p, l);
    }
    if OneHolder(m) {
      RetainKeepsOneHolder(m, keep);
    }
  }
}
