/**
 Session grants across the server: sessions, the approval tables and the policy
 revision together. Every operation runs to completion and no write fails, except
 that saving settings may.
 */
module Grants {
  import opened Wrappers
  import A = Approvals
  import S = Sessions

  type Id = string

  /** The audit record of a local decision. */
  datatype Decision = Decision(approval: Id, session: Id, client: Id, decision: A.LocalDecision)

  datatype Server = Server(
    revision: nat,
    limits: S.Limits,
    sessions: S.Store,
    approvals: A.Store,
    audit: seq<Decision>)

  datatype Op =
    | Connect(key: S.Key, id: Id, now: int)
    | Activity(session: Id, now: int)
    | Heartbeat(client: Id, now: int)
    | Request(session: Id, approval: Id, operation: A.Operation, now: int, lifetime: nat)
    | Decide(approval: Id, decision: A.LocalDecision, now: int, lifetime: nat)
    | Resume(session: Id, approval: Id, scopes: set<string>, now: int, execution: Id)
    | UpdateSettings(saved: bool, relevant: bool, limits: S.Limits)
    | ResetSettings(saved: bool, limits: S.Limits)
    | EndSession(session: Id)
    | RemoveClient(client: Id)
    | EndCredential(credential: Id)
    | EndEverything
    | SweepSessions(now: int)
    | EndListed(session: Id)
    | SweepApprovals(now: int)
    | Restart(now: int, revision: nat, limits: S.Limits)

  // ------------------------------------------------------------ operations

  /** Open rows of the given sessions, or of every session. */
  function OpenRows(s: A.Store, sessions: Option<set<Id>>): set<Id> {
    set id | id in s.approvals && A.Open(s.approvals[id].status)
        && (sessions.Some? ==> s.approvals[id].session in sessions.value)
  }

  function OpenRowsOf(s: A.Store, client: Id): set<Id> {
    set id | id in s.approvals && A.Matches(s.approvals[id], Some(client), None)
  }

  function LapsedRows(s: A.Store, now: int): set<Id> {
    set id | id in s.approvals && A.SweepSelects(s.approvals[id], now)
  }

  function Invalidate(v: Server, ids: set<Id>, status: A.Status): Server {
    v.(approvals := A.CloseAll(v.approvals, ids, status))
  }

  function WithActive(v: Server, a: S.Active): Server {
    v.(sessions := v.sessions.(active := a))
  }

  function IdsOf(a: S.Active, client: Option<Id>, credential: Option<Id>): set<Id> {
    set k | k in a && (client.Some? ==> a[k].client == client.value)
        && (credential.Some? ==> a[k].credential == credential.value) :: a[k].id
  }

  /** A session found expired takes its open approvals with it before a new one is made. */
  function Dropped(v: Server, k: S.Key, now: int): Server {
    if k in v.sessions.active && S.Expired(v.sessions.active[k], now).Some?
    then
      var w := WithActive(v, v.sessions.active - {k});
      Invalidate(w, OpenRows(w.approvals, Some({v.sessions.active[k].id})), A.Invalidated)
    else v
  }

  function Connected(v: Server, k: S.Key, id: Id, now: int): Server {
    var w := Dropped(v, k, now);
    w.(sessions := S.Resolve(w.sessions, k, id, now, v.limits).0)
  }

  /** A call keeps its copy of the session it resolved, which may have ended meanwhile. */
  function Requested(v: Server, session: Id, id: Id, op: A.Operation, now: int, lifetime: nat): Server {
    if session !in v.sessions.known then v
    else
      var client := v.sessions.known[session].client;
      var (t, ok) := A.CreateRow(v.approvals, id, A.NewRow(client, session, op, v.revision, now, lifetime));
      if ok then v.(approvals := t.(ops := t.ops[id := op])) else v
  }

  function ScopeOf(s: A.Store, id: Id): string
    requires id in s.approvals
  {
    if id in s.ops then s.ops[id].sessionScope else s.approvals[id].sessionScope
  }

  function Recorded(v: Server, id: Id, d: A.LocalDecision, now: int, lifetime: nat): Server {
    var (t, error) := A.DecideRow(v.approvals, id, d, now, lifetime);
    if error.Some? then v.(approvals := t)
    else
      var row := t.approvals[id];
      v.(approvals := if d == A.Deny then A.DropOp(t, id) else t,
          audit := v.audit + [Decision(id, row.session, row.client, d)])
  }

  function Decided(v: Server, id: Id, d: A.LocalDecision, now: int, lifetime: nat): Server {
    var w := Recorded(v, id, d, now, lifetime);
    if d == A.AllowForSession && A.DecideRow(v.approvals, id, d, now, lifetime).1.None? then
      var row := w.approvals.approvals[id];
      WithActive(w, S.AddGrant(w.sessions.active, row.session, S.Grant(ScopeOf(w.approvals, id), id, now)))
    else w
  }

  function Resumed(v: Server, session: Id, id: Id, scopes: set<string>, now: int, exec: Id): Server {
    if session !in v.sessions.known then v
    else
      var caller := A.Caller(v.sessions.known[session].client, session, scopes, v.revision);
      v.(approvals := A.ResumeCall(v.approvals, id, caller, now, exec).0)
  }

  function Updated(v: Server, relevant: bool, l: S.Limits): Server {
    var w := WithActive(v, S.ApplyLimits(v.sessions.active, l)).(limits := l);
    if relevant
    then
      var x := WithActive(w, S.ClearGrants(w.sessions.active)).(revision := v.revision + 1);
      Invalidate(x, OpenRows(w.approvals, None), A.Invalidated)
    else w
  }

  /** Sessions end and their open approvals are closed. */
  function Ended(v: Server, ids: set<Id>, rows: set<Id>, status: A.Status): Server {
    Invalidate(WithActive(v, S.EndIds(v.sessions.active, ids)), rows, status)
  }

  function Apply(v: Server, op: Op): Server {
    match op
    case Connect(k, id, now) => Connected(v, k, id, now)
    case Activity(id, now) => WithActive(v, S.Touch(v.sessions.active, id, now))
    case Heartbeat(c, now) => WithActive(v, S.TouchClient(v.sessions.active, c, now))
    case Request(session, id, o, now, lifetime) => Requested(v, session, id, o, now, lifetime)
    case Decide(id, d, now, lifetime) => Decided(v, id, d, now, lifetime)
    case Resume(session, id, scopes, now, exec) => Resumed(v, session, id, scopes, now, exec)
    case UpdateSettings(saved, relevant, l) => if saved then Updated(v, relevant, l) else v
    case ResetSettings(saved, l) => if saved then v.(revision := v.revision + 1, limits := l) else v
    case EndSession(id) =>
      if id !in IdsOf(v.sessions.active, None, None) then v
      else Ended(v, {id}, OpenRows(v.approvals, Some({id})), A.Cancelled)
    case RemoveClient(c) => Ended(v, IdsOf(v.sessions.active, Some(c), None), OpenRowsOf(v.approvals, c), A.Cancelled)
    case EndCredential(c) => Ended(v, IdsOf(v.sessions.active, None, Some(c)), {}, A.Cancelled)
    case EndEverything => Ended(v, IdsOf(v.sessions.active, None, None), OpenRows(v.approvals, None), A.Cancelled)
    case SweepSessions(now) =>
      var ids := S.ExpiredIds(v.sessions.active, now);
      Ended(v, ids, OpenRows(v.approvals, Some(ids)), A.Invalidated)
    case EndListed(id) => Ended(v, {id}, OpenRows(v.approvals, Some({id})), A.Invalidated)
    case SweepApprovals(now) =>
      Invalidate(v, LapsedRows(v.approvals, now), A.Expired)
    case Restart(now, revision, l) =>
      v.(revision := revision, limits := l, sessions := v.sessions.(active := map[]),
          approvals := A.RestartStore(v.approvals, now))
  }

  function Run(v: Server, ops: seq<Op>): Server
    decreases |ops|
  {
    if ops == [] then v else Run(Apply(v, ops[0]), ops[1..])
  }

  // ------------------------------------------------------------ the invariant

  /** A grant comes from a recorded session-wide decision on an approval of that very session, created under
      the current revision, and has the scope that approval asked for. */
  ghost predicate Backed(v: Server, s: S.Session, g: S.Grant) {
    g.approval in v.approvals.approvals &&
    var row := v.approvals.approvals[g.approval];
    && row.session == s.id && row.client == s.client && row.revision == v.revision && row.sessionScope == g.scope
    && Decision(g.approval, s.id, s.client, A.AllowForSession) in v.audit
  }

  ghost predicate GrantsBacked(v: Server) {
    forall k, g :: k in v.sessions.active && g in v.sessions.active[k].grants ==> Backed(v, v.sessions.active[k], g)
  }

  predicate IsActive(st: S.Store, id: Id) {
    id in st.known && st.known[id] in st.active && st.active[st.known[id]].id == id
  }

  /** Rows belong to known sessions and clients; pending ones of an active session are of the current revision. */
  ghost predicate RowsSound(v: Server) {
    forall id :: id in v.approvals.approvals ==>
      var row := v.approvals.approvals[id];
      && row.session in v.sessions.known && v.sessions.known[row.session].client == row.client
      && (row.status == A.Pending && IsActive(v.sessions, row.session) ==> row.revision == v.revision)
  }

  ghost predicate OpsSound(v: Server) {
    forall id :: id in v.approvals.ops && id in v.approvals.approvals ==>
      v.approvals.ops[id].sessionScope == v.approvals.approvals[id].sessionScope
  }

  ghost predicate Inv(v: Server) {
    S.Valid(v.sessions) && GrantsBacked(v) && RowsSound(v) && OpsSound(v)
  }

  // ------------------------------------------------------------ steps that only take away

  predicate RowKept(r: A.Approval, r': A.Approval) {
    && r'.session == r.session && r'.client == r.client
    && r'.revision == r.revision && r'.sessionScope == r.sessionScope
    && (A.Open(r'.status) ==> A.Open(r.status)) && (r'.status == A.Pending ==> r.status == A.Pending)
  }

  ghost predicate TablesKept(s: A.Store, t: A.Store) {
    && t.approvals.Keys == s.approvals.Keys
    && (forall id :: id in s.approvals ==> RowKept(s.approvals[id], t.approvals[id]))
    && (forall id :: id in t.ops ==> id in s.ops && t.ops[id] == s.ops[id])
  }

  ghost predicate SessionsKept(a: S.Active, b: S.Active) {
    S.Kept(a, b) && forall k :: k in b ==> b[k].grants == a[k].grants
  }

  ghost predicate Taken(v: Server, w: Server) {
    && w.revision == v.revision && w.sessions.known == v.sessions.known && v.audit <= w.audit
    && TablesKept(v.approvals, w.approvals) && SessionsKept(v.sessions.active, w.sessions.active)
  }

  lemma TakenKeeps(v: Server, w: Server)
    requires Inv(v) && Taken(v, w)
    ensures Inv(w)
  {
    S.KeptIsValid(v.sessions, w.sessions.active);
    assert w.sessions == v.sessions.(active := w.sessions.active);
    assert GrantsBacked(w) by {
      forall k, g | k in w.sessions.active && g in w.sessions.active[k].grants
        ensures Backed(w, w.sessions.active[k], g)
      {
        assert Backed(v, v.sessions.active[k], g);
        assert RowKept(v.approvals.approvals[g.approval], w.approvals.approvals[g.approval]);
      }
    }
    forall id | id in w.approvals.approvals
      ensures RowKept(v.approvals.approvals[id], w.approvals.approvals[id])
    {
    }
    forall id | id in w.approvals.ops && id in w.approvals.approvals
      ensures w.approvals.ops[id].sessionScope == w.approvals.approvals[id].sessionScope
    {
      assert RowKept(v.approvals.approvals[id], w.approvals.approvals[id]);
    }
  }

  lemma CloseAllKeeps(s: A.Store, ids: set<Id>, status: A.Status)
    requires !A.Open(status)
    ensures TablesKept(s, A.CloseAll(s, ids, status))
  {
  }

  lemma ResumeKeeps(s: A.Store, id: Id, caller: A.Caller, now: int, exec: Id)
    ensures TablesKept(s, A.ResumeCall(s, id, caller, now, exec).0)
  {
  }

  lemma DecideKeeps(s: A.Store, id: Id, d: A.LocalDecision, now: int, lifetime: nat)
    ensures TablesKept(s, A.DecideRow(s, id, d, now, lifetime).0)
    ensures TablesKept(s, A.DropOp(A.DecideRow(s, id, d, now, lifetime).0, id))
    ensures A.DecideRow(s, id, d, now, lifetime).1.None? ==> id in s.approvals && s.approvals[id].status == A.Pending
  {
  }

  lemma EndedIsTaken(v: Server, ids: set<Id>, rows: set<Id>, status: A.Status)
    requires !A.Open(status)
    ensures Taken(v, Ended(v, ids, rows, status))
  {
    CloseAllKeeps(v.approvals, rows, status);
  }

  // ------------------------------------------------------------ steps that add

  lemma ConnectedKeeps(v: Server, k: S.Key, id: Id, now: int)
    requires Inv(v)
    ensures Inv(Connected(v, k, id, now))
  {
    var d := Dropped(v, k, now);
    if d != v {
      CloseAllKeeps(v.approvals, OpenRows(v.approvals, Some({v.sessions.active[k].id})), A.Invalidated);
      assert Taken(v, d);
      TakenKeeps(v, d);
    }
    ResolvedKeeps(d, k, id, now, v.limits);
  }

  lemma ResolvedKeeps(v: Server, k: S.Key, id: Id, now: int, l: S.Limits)
    requires Inv(v)
    ensures Inv(v.(sessions := S.Resolve(v.sessions, k, id, now, l).0))
  {
    var st := S.Resolve(v.sessions, k, id, now, l).0;
    var w := v.(sessions := st);
    if st == v.sessions {
    } else if id in v.sessions.known {
      assert Taken(v, w);
      TakenKeeps(v, w);
    } else {
      assert st.active[k].id == id && st.active[k].grants == [];
      assert forall j :: j in st.active && j != k ==> j in v.sessions.active && st.active[j] == v.sessions.active[j];
      NewSessionIsValid(v.sessions, st, k, id);
      assert GrantsBacked(w) by {
        forall j, g | j in w.sessions.active && g in w.sessions.active[j].grants
          ensures Backed(w, w.sessions.active[j], g)
        {
          assert Backed(v, v.sessions.active[j], g);
        }
      }
    }
  }

  lemma NewSessionIsValid(st: S.Store, st': S.Store, k: S.Key, id: Id)
    requires S.Valid(st) && id !in st.known && st'.known == st.known[id := k]
    requires k in st'.active && st'.active[k].id == id && S.Key(st'.active[k].client, st'.active[k].credential) == k
    requires forall j :: j in st'.active && j != k ==> j in st.active && st'.active[j] == st.active[j]
    ensures S.Valid(st')
  {
  }

  lemma RequestedKeeps(v: Server, session: Id, id: Id, op: A.Operation, now: int, lifetime: nat)
    requires Inv(v)
    ensures Inv(Requested(v, session, id, op, now, lifetime))
  {
    var w := Requested(v, session, id, op, now, lifetime);
    if w != v {
      var row := w.approvals.approvals[id];
      assert w.approvals.approvals == v.approvals.approvals[id := row];
      forall j, g | j in w.sessions.active && g in w.sessions.active[j].grants
        ensures Backed(w, w.sessions.active[j], g)
      {
        assert Backed(v, v.sessions.active[j], g);
      }
    }
  }

  lemma RecordedIsTaken(v: Server, id: Id, d: A.LocalDecision, now: int, lifetime: nat)
    ensures Taken(v, Recorded(v, id, d, now, lifetime))
  {
    hide A.DecideRow;
    DecideKeeps(v.approvals, id, d, now, lifetime);
  }

  lemma DecidedKeeps(v: Server, id: Id, d: A.LocalDecision, now: int, lifetime: nat)
    requires Inv(v)
    ensures Inv(Decided(v, id, d, now, lifetime))
  {
    hide A.DecideRow, Inv, S.Valid, RowsSound, OpsSound, GrantsBacked, IsActive;
    var w := Recorded(v, id, d, now, lifetime);
    RecordedIsTaken(v, id, d, now, lifetime);
    TakenKeeps(v, w);
    DecideKeeps(v.approvals, id, d, now, lifetime);
    if d == A.AllowForSession && A.DecideRow(v.approvals, id, d, now, lifetime).1.None? {
      var row := w.approvals.approvals[id];
      assert w.audit[|v.audit|] == Decision(id, row.session, row.client, d);
      assert RowKept(v.approvals.approvals[id], row);
      PendingIsCurrent(v, id);
      GrantKeeps(w, id, now);
    }
  }

  lemma PendingIsCurrent(v: Server, id: Id)
    requires Inv(v) && id in v.approvals.approvals && v.approvals.approvals[id].status == A.Pending
    ensures IsActive(v.sessions, v.approvals.approvals[id].session) ==> v.approvals.approvals[id].revision == v.revision
  {
  }

  lemma GrantKeeps(w: Server, id: Id, now: int)
    requires Inv(w) && id in w.approvals.approvals
    requires var row := w.approvals.approvals[id];
             && (IsActive(w.sessions, row.session) ==> row.revision == w.revision)
             && Decision(id, row.session, row.client, A.AllowForSession) in w.audit
    ensures var row := w.approvals.approvals[id];
            Inv(WithActive(w, S.AddGrant(w.sessions.active, row.session, S.Grant(ScopeOf(w.approvals, id), id, now))))
  {
    var row := w.approvals.approvals[id];
    var g := S.Grant(ScopeOf(w.approvals, id), id, now);
    var a := S.AddGrant(w.sessions.active, row.session, g);
    var x := WithActive(w, a);
    S.KeptIsValid(w.sessions, a);
    forall k, h | k in a && h in a[k].grants
      ensures Backed(x, a[k], h)
    {
      if h in w.sessions.active[k].grants {
        assert Backed(w, w.sessions.active[k], h);
      } else {
        assert h == g && a[k].id == row.session && w.sessions.known[row.session] == k;
      }
    }
    assert forall i :: IsActive(x.sessions, i) <==> IsActive(w.sessions, i);
  }

  // ------------------------------------------------------------ steps that start afresh

  /** No grant is held and no approval is open. */
  ghost predicate Clean(v: Server) {
    && (forall k :: k in v.sessions.active ==> v.sessions.active[k].grants == [])
    && (forall id :: id in v.approvals.approvals ==> !A.Open(v.approvals.approvals[id].status))
  }

  lemma CleanKeeps(v: Server, w: Server)
    requires Inv(v) && Clean(w) && w.sessions.known == v.sessions.known && S.Kept(v.sessions.active, w.sessions.active)
    requires TablesKept(v.approvals, w.approvals)
    ensures Inv(w)
  {
    S.KeptIsValid(v.sessions, w.sessions.active);
    assert w.sessions == v.sessions.(active := w.sessions.active);
    forall id | id in w.approvals.approvals
      ensures RowKept(v.approvals.approvals[id], w.approvals.approvals[id])
    {
    }
  }

  /** A security-relevant change of settings leaves no grant and no open approval. */
  lemma RevisionBumpCleans(v: Server, l: S.Limits)
    requires Inv(v)
    ensures Updated(v, true, l).revision == v.revision + 1
    ensures Clean(Updated(v, true, l)) && Inv(Updated(v, true, l))
    ensures Updated(v, true, l).sessions.active.Keys == v.sessions.active.Keys
  {
    var w := Updated(v, true, l);
    CloseAllKeeps(v.approvals, OpenRows(v.approvals, None), A.Invalidated);
    CleanKeeps(v, w);
  }

  lemma RestartCleans(v: Server, now: int, revision: nat, l: S.Limits)
    requires Inv(v)
    ensures var w := Apply(v, Restart(now, revision, l));
            Clean(w) && Inv(w)
  {
    CleanKeeps(v, Apply(v, Restart(now, revision, l)));
  }

  // ------------------------------------------------------------ resetting the settings

  ghost predicate NoGrants(v: Server) {
    forall k :: k in v.sessions.active ==> v.sessions.active[k].grants == []
  }

  /** No grant is held, and no approval is pending for an active session. */
  ghost predicate Quiet(v: Server) {
    NoGrants(v) && forall id :: id in v.approvals.approvals ==>
      var row := v.approvals.approvals[id];
      !(row.status == A.Pending && IsActive(v.sessions, row.session))
  }

  function ResetBy(v: Server, l: S.Limits): Server {
    v.(revision := v.revision + 1, limits := l)
  }

  /** Right after a saved reset all grants are backed exactly when there are none. */
  lemma ResetBacksExactly(v: Server, l: S.Limits)
    requires Inv(v)
    ensures GrantsBacked(ResetBy(v, l)) <==> NoGrants(v)
  {
    var w := ResetBy(v, l);
    if GrantsBacked(w) {
      forall k | k in v.sessions.active
        ensures v.sessions.active[k].grants == []
      {
        var gs := v.sessions.active[k].grants;
        assert gs != [] ==> gs[0] in gs && Backed(v, v.sessions.active[k], gs[0]);
      }
    }
  }

  /** And the whole invariant survives it exactly when, besides, nothing is pending for an active session. */
  lemma ResetKeepsExactly(v: Server, saved: bool, l: S.Limits)
    requires Inv(v)
    ensures Inv(Apply(v, ResetSettings(saved, l))) <==> !saved || Quiet(v)
  {
    if saved {
      ResetBacksExactly(v, l);
    }
  }

  /** All grants stay backed in every later run without another reset, exactly when no grant was held and no approval
      pending for an active session: what was allowed already, or belongs to an ended session, never grants again. */
  lemma ResetIsHarmlessExactly(v: Server, l: S.Limits)
    requires Inv(v)
    ensures (forall ops :: NoReset(ops) ==> GrantsBacked(Run(ResetBy(v, l), ops))) <==> Quiet(v)
  {
    hide Inv, NoGrants, Run, GrantsBacked, NoReset, IsActive;
    var w := ResetBy(v, l);
    ResetBacksExactly(v, l);
    ResetKeepsExactly(v, true, l);
    if Quiet(v) {
      forall ops | NoReset(ops)
        ensures GrantsBacked(Run(w, ops))
      {
        EveryGrantIsBacked(w, ops);
        InvBacks(Run(w, ops));
      }
    } else {
      NoSteps(w);
      if NoGrants(v) {
        var id :| id in v.approvals.approvals && v.approvals.approvals[id].status == A.Pending
                  && IsActive(v.sessions, v.approvals.approvals[id].session);
        LateDecision(v, l, id);
      }
    }
  }

  lemma InvBacks(v: Server)
    requires Inv(v)
    ensures GrantsBacked(v)
  {
  }

  lemma NoSteps(v: Server)
    ensures NoReset([]) && Run(v, []) == v
  {
  }

  /** A pending approval of an active session, allowed after the reset, grants under an older revision. */
  lemma LateDecision(v: Server, l: S.Limits, id: Id)
    requires Inv(v) && id in v.approvals.approvals && v.approvals.approvals[id].status == A.Pending
    requires IsActive(v.sessions, v.approvals.approvals[id].session)
    ensures var ops := [Decide(id, A.AllowForSession, v.approvals.approvals[id].expiresAt, 0)];
            NoReset(ops) && !GrantsBacked(Run(ResetBy(v, l), ops))
  {
    var (w, row) := (ResetBy(v, l), v.approvals.approvals[id]);
    var decide := Decide(id, A.AllowForSession, row.expiresAt, 0);
    var x := Apply(w, decide);
    assert [decide][1..] == [] && Run(w, [decide]) == x;
    var k := v.sessions.known[row.session];
    var g := S.Grant(ScopeOf(x.approvals, id), id, row.expiresAt);
    assert x.sessions.active[k].grants == v.sessions.active[k].grants + [g];
    assert g in x.sessions.active[k].grants && !Backed(x, x.sessions.active[k], g);
  }

  // ------------------------------------------------------------ every run

  /** Every operation keeps the invariant, except a saved reset of the settings while a grant is held or an approval is
      pending for an active session. */
  lemma StepKeepsExactly(v: Server, op: Op)
    requires Inv(v)
    ensures Inv(Apply(v, op)) <==> !(op.ResetSettings? && op.saved && !Quiet(v))
  {
    hide Inv, Quiet, Connected, Requested, Decided, Updated, A.ResumeCall, A.CloseAll, A.RestartStore, TablesKept;
    var w := Apply(v, op);
    match op
    case Connect(k, id, now) => ConnectedKeeps(v, k, id, now);
    case Activity(id, now) =>
      SameTables(v.approvals);
      TakenKeeps(v, w);
    case Heartbeat(c, now) =>
      SameTables(v.approvals);
      TakenKeeps(v, w);
    case Request(session, id, o, now, lifetime) => RequestedKeeps(v, session, id, o, now, lifetime);
    case Decide(id, d, now, lifetime) => DecidedKeeps(v, id, d, now, lifetime);
    case Resume(session, id, scopes, now, exec) =>
      if session in v.sessions.known {
        var caller := A.Caller(v.sessions.known[session].client, session, scopes, v.revision);
        ResumeKeeps(v.approvals, id, caller, now, exec);
        TakenKeeps(v, w);
      }
    case UpdateSettings(saved, relevant, l) =>
      if saved {
        UpdatedKeeps(v, relevant, l);
      }
    case ResetSettings(saved, l) => ResetKeepsExactly(v, saved, l);
    case EndSession(id) =>
      EndedIsTaken(v, {id}, OpenRows(v.approvals, Some({id})), A.Cancelled);
      TakenKeeps(v, Ended(v, {id}, OpenRows(v.approvals, Some({id})), A.Cancelled));
    case RemoveClient(c) =>
      EndedIsTaken(v, IdsOf(v.sessions.active, Some(c), None), OpenRowsOf(v.approvals, c), A.Cancelled);
      TakenKeeps(v, w);
    case EndCredential(c) =>
      EndedIsTaken(v, IdsOf(v.sessions.active, None, Some(c)), {}, A.Cancelled);
      TakenKeeps(v, w);
    case EndEverything =>
      EndedIsTaken(v, IdsOf(v.sessions.active, None, None), OpenRows(v.approvals, None), A.Cancelled);
      TakenKeeps(v, w);
    case SweepSessions(now) =>
      var ids := S.ExpiredIds(v.sessions.active, now);
      EndedIsTaken(v, ids, OpenRows(v.approvals, Some(ids)), A.Invalidated);
      TakenKeeps(v, w);
    case EndListed(id) =>
      EndedIsTaken(v, {id}, OpenRows(v.approvals, Some({id})), A.Invalidated);
      TakenKeeps(v, w);
    case SweepApprovals(now) =>
      CloseAllKeeps(v.approvals, LapsedRows(v.approvals, now), A.Expired);
      TakenKeeps(v, w);
    case Restart(now, revision, l) => RestartCleans(v, now, revision, l);
  }

  lemma SameTables(s: A.Store)
    ensures TablesKept(s, s)
  {
  }

  lemma UpdatedKeeps(v: Server, relevant: bool, l: S.Limits)
    requires Inv(v)
    ensures Inv(Updated(v, relevant, l))
  {
    if relevant {
      RevisionBumpCleans(v, l);
    } else {
      assert Taken(v, Updated(v, false, l));
      TakenKeeps(v, Updated(v, false, l));
    }
  }

  predicate NoReset(ops: seq<Op>) {
    forall i :: 0 <= i < |ops| ==> !ops[i].ResetSettings?
  }

  /** In every run without a reset, whatever ends, expires, is updated or restarted in between, each held grant
      is backed. */
  lemma {:induction false} EveryGrantIsBacked(v: Server, ops: seq<Op>)
    requires Inv(v) && NoReset(ops)
    ensures Inv(Run(v, ops))
    decreases |ops|
  {
    hide Inv, Apply;
    if ops != [] {
      assert !ops[0].ResetSettings?;
      StepKeepsExactly(v, ops[0]);
      EveryGrantIsBacked(Apply(v, ops[0]), ops[1..]);
    }
  }

  // ------------------------------------------------------------ open approvals

  ghost predicate OpenCurrent(v: Server) {
    forall id :: id in v.approvals.approvals && A.Open(v.approvals.approvals[id].status) ==>
      v.approvals.approvals[id].revision == v.revision
  }

  /** Rows are kept, made under the current revision, or all closed. */
  ghost predicate RowsFollow(v: Server, w: Server) {
    || (forall id :: id in w.approvals.approvals ==> !A.Open(w.approvals.approvals[id].status))
    || (w.revision == v.revision && forall id :: id in w.approvals.approvals ==>
          || w.approvals.approvals[id].revision == w.revision
          || (id in v.approvals.approvals && RowKept(v.approvals.approvals[id], w.approvals.approvals[id])))
  }

  lemma KeptFollow(v: Server, w: Server)
    requires w.revision == v.revision && TablesKept(v.approvals, w.approvals)
    ensures RowsFollow(v, w)
  {
  }

  lemma CleanFollow(v: Server, w: Server)
    requires Clean(w)
    ensures RowsFollow(v, w)
  {
  }

  lemma StepFollows(v: Server, op: Op)
    requires Inv(v) && !op.ResetSettings?
    ensures RowsFollow(v, Apply(v, op))
  {
    hide Inv, Clean, A.ResumeCall, A.CloseAll, A.RestartStore, A.DecideRow, TablesKept, RowsFollow;
    var w := Apply(v, op);
    SameTables(v.approvals);
    match op
    case Connect(k, id, now) =>
      if k in v.sessions.active {
        CloseAllKeeps(v.approvals, OpenRows(v.approvals, Some({v.sessions.active[k].id})), A.Invalidated);
      }
      KeptFollow(v, w);
    case Request(session, id, o, now, lifetime) => RequestFollows(v, session, id, o, now, lifetime);
    case Decide(id, d, now, lifetime) =>
      DecideKeeps(v.approvals, id, d, now, lifetime);
      KeptFollow(v, w);
    case Resume(session, id, scopes, now, exec) =>
      if session in v.sessions.known {
        var caller := A.Caller(v.sessions.known[session].client, session, scopes, v.revision);
        ResumeKeeps(v.approvals, id, caller, now, exec);
      }
      KeptFollow(v, w);
    case UpdateSettings(saved, relevant, l) =>
      if saved && relevant {
        RevisionBumpCleans(v, l);
        CleanFollow(v, w);
      } else {
        KeptFollow(v, w);
      }
    case EndSession(id) =>
      CloseAllKeeps(v.approvals, OpenRows(v.approvals, Some({id})), A.Cancelled);
      KeptFollow(v, w);
    case RemoveClient(c) =>
      CloseAllKeeps(v.approvals, OpenRowsOf(v.approvals, c), A.Cancelled);
      KeptFollow(v, w);
    case EndCredential(c) =>
      CloseAllKeeps(v.approvals, {}, A.Cancelled);
      KeptFollow(v, w);
    case EndEverything =>
      CloseAllKeeps(v.approvals, OpenRows(v.approvals, None), A.Cancelled);
      KeptFollow(v, w);
    case SweepSessions(now) =>
      CloseAllKeeps(v.approvals, OpenRows(v.approvals, Some(S.ExpiredIds(v.sessions.active, now))), A.Invalidated);
      KeptFollow(v, w);
    case EndListed(id) =>
      CloseAllKeeps(v.approvals, OpenRows(v.approvals, Some({id})), A.Invalidated);
      KeptFollow(v, w);
    case SweepApprovals(now) =>
      CloseAllKeeps(v.approvals, LapsedRows(v.approvals, now), A.Expired);
      KeptFollow(v, w);
    case Restart(now, revision, l) =>
      RestartCleans(v, now, revision, l);
      CleanFollow(v, w);
    case _ =>
      KeptFollow(v, w);
  }

  lemma RequestFollows(v: Server, session: Id, id: Id, op: A.Operation, now: int, lifetime: nat)
    ensures RowsFollow(v, Requested(v, session, id, op, now, lifetime))
  {
  }

  /** In every run without a reset, open approvals are of the current revision. */
  lemma {:induction false} OpenApprovalsAreCurrent(v: Server, ops: seq<Op>)
    requires Inv(v) && OpenCurrent(v) && NoReset(ops)
    ensures OpenCurrent(Run(v, ops))
    decreases |ops|
  {
    hide Inv, Apply;
    if ops != [] {
      assert !ops[0].ResetSettings?;
      StepKeepsExactly(v, ops[0]);
      StepFollows(v, ops[0]);
      OpenApprovalsAreCurrent(Apply(v, ops[0]), ops[1..]);
    }
  }

  // ------------------------------------------------------------ what ends with what

  predicate OpenOf(v: Server, id: Id) {
    id in v.approvals.approvals && A.Open(v.approvals.approvals[id].status)
  }

  /** Ending a session takes it and its open approvals, as cancelled, and leaves everything else. */
  lemma EndSessionDoes(v: Server, session: Id)
    requires Inv(v) && IsActive(v.sessions, session)
    ensures
      var w := Apply(v, EndSession(session));
      && !IsActive(w.sessions, session)
      && (forall k :: k in v.sessions.active && v.sessions.active[k].id != session ==>
            k in w.sessions.active && w.sessions.active[k] == v.sessions.active[k])
      && w.approvals.approvals.Keys == v.approvals.approvals.Keys
      && (forall id :: id in v.approvals.approvals ==>
            var row := v.approvals.approvals[id];
            w.approvals.approvals[id] ==
              if A.Open(row.status) && row.session == session then row.(status := A.Cancelled) else row)
  {
    var k := v.sessions.known[session];
    assert v.sessions.active[k].id == session;
  }

  /** Removing a client's access takes all its sessions and open approvals, and nobody else's. */
  lemma RemoveClientDoes(v: Server, client: Id)
    requires Inv(v)
    ensures
      var w := Apply(v, RemoveClient(client));
      && (forall k :: k in w.sessions.active <==> k in v.sessions.active && k.client != client)
      && (forall k :: k in w.sessions.active ==> w.sessions.active[k] == v.sessions.active[k])
      && (forall id :: id in v.approvals.approvals ==>
            var row := v.approvals.approvals[id];
            && id in w.approvals.approvals
            && w.approvals.approvals[id] ==
                 if A.Open(row.status) && row.client == client then row.(status := A.Cancelled) else row)
  {
    var (a, ids) := (v.sessions.active, IdsOf(v.sessions.active, Some(client), None));
    forall k | k in a
      ensures a[k].id in ids <==> k.client == client
    {
      if a[k].id in ids {
        var j :| j in a && a[j].client == client && a[j].id == a[k].id;
        assert v.sessions.known[a[k].id] == j == k;
      }
    }
  }

  /** Ending a credential takes exactly its sessions. */
  lemma EndCredentialDoes(v: Server, credential: Id)
    requires Inv(v)
    ensures
      var w := Apply(v, EndCredential(credential));
      && (forall k :: k in w.sessions.active <==> k in v.sessions.active && k.credential != credential)
      && (forall k :: k in w.sessions.active ==> w.sessions.active[k] == v.sessions.active[k])
      && w.approvals.approvals == v.approvals.approvals
  {
    var (a, ids) := (v.sessions.active, IdsOf(v.sessions.active, None, Some(credential)));
    forall k | k in a
      ensures a[k].id in ids <==> k.credential == credential
    {
      if a[k].id in ids {
        var j :| j in a && a[j].credential == credential && a[j].id == a[k].id;
        assert v.sessions.known[a[k].id] == j == k;
      }
    }
  }

  /** A stop, a pause or a restart of the listener ends every session and closes every open approval. */
  lemma EndEverythingDoes(v: Server)
    ensures var w := Apply(v, EndEverything);
            w.sessions.active == map[] && forall id :: !OpenOf(w, id)
  {
    var w := Apply(v, EndEverything);
    assert forall k :: k in v.sessions.active ==> v.sessions.active[k].id in IdsOf(v.sessions.active, None, None);
    assert w.sessions.active.Keys == {};
  }

  /** A sweep ends exactly the expired sessions, with their open approvals. */
  lemma SweepDoes(v: Server, now: int)
    requires Inv(v)
    ensures
      var w := Apply(v, SweepSessions(now));
      && (forall k :: k in w.sessions.active <==>
            k in v.sessions.active && S.Expired(v.sessions.active[k], now) == None)
      && (forall id :: OpenOf(w, id) ==> v.approvals.approvals[id].session !in S.ExpiredIds(v.sessions.active, now))
  {
    S.EndsTheExpired(v.sessions, now);
  }

  /** A session found expired on a call is replaced, and its open approvals go with it. */
  lemma ReconnectCloses(v: Server, k: S.Key, id: Id, now: int)
    requires Inv(v) && k in v.sessions.active && S.Expired(v.sessions.active[k], now).Some?
    ensures
      var (w, was) := (Apply(v, Connect(k, id, now)), v.sessions.active[k].id);
      && !IsActive(w.sessions, was)
      && forall i :: OpenOf(w, i) ==> v.approvals.approvals[i].session != was
  {
  }

  // ------------------------------------------------------------ a grant that outlives a reset

  const START := Server(0, S.Limits(10, 100), S.Store(map[], map[]), A.Store(map[], map[], map[]), [])
  const CALLER := S.Key("client", "credential")
  const OPERATION := A.Operation("tool", "arguments", "descriptor", [], "scope")

  /** A decision in time is recorded once, and only an allowance for the session grants anything: the scope that was
      asked for, to that session alone. A denial drops the snapshot. */
  lemma DecideDoes(v: Server, id: Id, d: A.LocalDecision, now: int, lifetime: nat, k: S.Key)
    requires Inv(v) && id in v.approvals.approvals && k in v.sessions.active
    requires v.approvals.approvals[id].status == A.Pending && now <= v.approvals.approvals[id].expiresAt
    ensures
      var (w, row, s) := (Apply(v, Decide(id, d, now, lifetime)), v.approvals.approvals[id], v.sessions.active[k]);
      && w.audit == v.audit + [Decision(id, row.session, row.client, d)]
      && w.sessions.active.Keys == v.sessions.active.Keys
      && w.sessions.active[k] == (if d == A.AllowForSession && s.id == row.session
                                  then s.(grants := s.grants + [S.Grant(row.sessionScope, id, now)]) else s)
      && w.approvals.ops == (if d == A.Deny then v.approvals.ops - {id} else v.approvals.ops)
  {
  }

  /** A decision that comes too late, or on nothing pending, is not recorded and grants nothing. */
  lemma VainDecisionGrantsNothing(v: Server, id: Id, d: A.LocalDecision, now: int, lifetime: nat)
    requires id !in v.approvals.approvals || v.approvals.approvals[id].status != A.Pending
             || v.approvals.approvals[id].expiresAt < now
    ensures var w := Apply(v, Decide(id, d, now, lifetime));
            w.audit == v.audit && w.sessions == v.sessions && w.approvals.ops == v.approvals.ops
  {
  }

  /** A heartbeat keeps the live sessions of its client alive for another idle time, and nobody else's. */
  lemma HeartbeatDoes(v: Server, client: Id, at: int, k: S.Key, now: int)
    requires k in v.sessions.active
    ensures
      var (w, s) := (Apply(v, Heartbeat(client, at)), v.sessions.active[k]);
      && w.sessions.active.Keys == v.sessions.active.Keys
      && (s.client != client || S.Expired(s, at).Some? ==> w.sessions.active[k] == s)
      && (s.client == client && S.Expired(s, at) == None ==>
            (S.Expired(w.sessions.active[k], now) == None <==> now < s.absoluteExpiry && now < at + s.idleTimeout))
  {
  }

  /** Saved limits hold for later sessions too; an irrelevant change touches neither revision, grants nor approvals. */
  lemma ChangeDoes(v: Server, relevant: bool, l: S.Limits, k: S.Key, id: Id, at: int, now: int)
    requires k !in v.sessions.active && id !in v.sessions.known
    ensures Apply(v, UpdateSettings(false, relevant, l)) == v
    ensures
      var w := Apply(v, UpdateSettings(true, relevant, l));
      && w.revision == v.revision + (if relevant then 1 else 0) && w.audit == v.audit
      && (!relevant ==>
            && w.approvals == v.approvals
            && forall j :: j in v.sessions.active ==>
                 j in w.sessions.active && w.sessions.active[j].grants == v.sessions.active[j].grants)
      && var x := Apply(w, Connect(k, id, at)).sessions.active;
         k in x && (S.Expired(x[k], now) == None <==> now < at + l.absoluteMs && now < at + l.idleMs)
  {
  }

  /** Connect, request, allow for the session, reset: the session still holds the grant of an approval that was
      created under an older revision. */
  lemma ResetKeepsAnOldGrant()
    ensures
      var v := Run(START, [
        Connect(CALLER, "session", 0),
        Request("session", "approval", OPERATION, 1, 10),
        Decide("approval", A.AllowForSession, 2, 10),
        ResetSettings(true, S.Limits(10, 100))]);
      && CALLER in v.sessions.active && v.sessions.active[CALLER].grants == [S.Grant("scope", "approval", 2)]
      && "approval" in v.approvals.approvals && v.approvals.approvals["approval"].revision < v.revision
      && !GrantsBacked(v)
  {
    var ops := [
      Connect(CALLER, "session", 0),
      Request("session", "approval", OPERATION, 1, 10),
      Decide("approval", A.AllowForSession, 2, 10),
      ResetSettings(true, S.Limits(10, 100))];
    RunOfFour(START, ops);
    var v1 := Apply(START, ops[0]);
    assert v1.sessions.active[CALLER] == S.Fresh(CALLER, "session", 0, START.limits);
    var v2 := Apply(v1, ops[1]);
    assert v2.approvals.approvals["approval"] == A.NewRow("client", "session", OPERATION, 0, 1, 10);
    var v3 := Apply(v2, ops[2]);
    assert v3.sessions.active[CALLER].grants == [S.Grant("scope", "approval", 2)];
    assert v3.sessions.active[CALLER].grants[0] in v3.sessions.active[CALLER].grants;
  }

  lemma RunOfFour(v: Server, ops: seq<Op>)
    requires |ops| == 4
    ensures Run(v, ops) == Apply(Apply(Apply(Apply(v, ops[0]), ops[1]), ops[2]), ops[3])
  {
    hide Apply;
    var (t1, t2, t3) := (ops[1..], ops[1..][1..], ops[1..][1..][1..]);
    var v1 := Apply(v, ops[0]);
    var v2 := Apply(v1, t1[0]);
    var v3 := Apply(v2, t2[0]);
    assert t3[1..] == [] && Run(v3, t3) == Apply(v3, t3[0]);
    assert Run(v, ops) == Run(v1, t1) == Run(v2, t2) == Run(v3, t3);
  }

  // ------------------------------------------------------------ the two operations that touch grants

  class Core {
    var revision: nat
    var limits: S.Limits
    var sessions: S.Store
    var approvals: A.Store
    var audit: seq<Decision>

    ghost function Value(): Server
      reads this
    {
      Server(revision, limits, sessions, approvals, audit)
    }

    constructor (revision: nat, l: S.Limits)
      ensures Value() == Server(revision, l, S.Store(map[], map[]), A.Store(map[], map[], map[]), []) && Inv(Value())
    {
      this.revision, limits, sessions, approvals, audit :=
          revision, l, S.Store(map[], map[]), A.Store(map[], map[], map[]), [];
    }

    /** A local decision; allowing for the session also grants the approval's scope to its session, if it still is
        active. */
    method DecideApproval(id: Id, d: A.LocalDecision, now: int, lifetime: nat) returns (error: Option<A.ErrorCode>)
      requires Inv(Value())
      modifies this
      ensures Value() == Apply(old(Value()), Decide(id, d, now, lifetime)) && Inv(Value())
      ensures error == A.DecideRow(old(approvals), id, d, now, lifetime).1
    {
      hide Inv, A.DecideRow;
      DecidedKeeps(Value(), id, d, now, lifetime);
      DecideKeeps(approvals, id, d, now, lifetime);
      var r := A.DecideRow(approvals, id, d, now, lifetime);
      approvals, error := r.0, r.1;
      if error.Some? {
        return;
      }
      var row := approvals.approvals[id];
      if d == A.Deny {
        approvals := A.DropOp(approvals, id);
      }
      if d == A.AllowForSession {
        var scope := if id in approvals.ops then approvals.ops[id].sessionScope else row.sessionScope;
        sessions := sessions.(active := S.AddGrant(sessions.active, row.session, S.Grant(scope, id, now)));
      }
      audit := audit + [Decision(id, row.session, row.client, d)];
    }

    /** New settings; a relevant change bumps the revision, revokes every grant and closes every open approval. */
    method ChangeSettings(saved: bool, relevant: bool, l: S.Limits) returns (ok: bool)
      requires Inv(Value())
      modifies this
      ensures ok == saved && Value() == Apply(old(Value()), UpdateSettings(saved, relevant, l)) && Inv(Value())
      ensures ok && relevant ==> Clean(Value()) && revision == old(revision) + 1
    {
      ghost var v := Value();
      if !saved {
        return false;
      }
      UpdatedKeeps(v, relevant, l);
      limits := l;
      sessions := sessions.(active := S.ApplyLimits(sessions.active, l));
      if relevant {
        RevisionBumpCleans(v, l);
        revision := revision + 1;
        sessions := sessions.(active := S.ClearGrants(sessions.active));
        approvals := A.CloseAll(approvals, OpenRows(approvals, None), A.Invalidated);
      }
      assert Value() == Updated(v, relevant, l);
      ok := true;
    }
  }
}
