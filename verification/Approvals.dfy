/**
 The approval engine: an at-most-once dispatch protocol over two database tables
 and one in-memory map of operation snapshots.

 `Store` holds the tables and the map. Each database transaction is one function
 on `Store`. A call of the service consists of several atomic pieces (a map read,
 a transaction, a map update); `Step` lists those pieces, so a sequence of steps
 is one interleaving of any number of concurrent calls, sweeps and restarts.
 The class `ApprovalService` runs the pieces of one call back to back.
 */
module Approvals {
  import opened Wrappers
  import Scopes

  type Id = string

  /** The immutable snapshot of the requested operation, kept in memory only. */
  datatype Operation = Operation(
    tool: string, arguments: string, descriptor: string,
    requiredScopes: seq<string>, sessionScope: string)

  /** The stored digest; the hash is collision free, so it is the tuple it covers. */
  datatype Digest = Digest(
    tool: string, arguments: string, descriptor: string,
    revision: nat, client: Id, session: Id)

  datatype Status =
    | Pending | AllowedOnce | AllowedSession
    | Denied | Expired | Consumed | Invalidated | Cancelled

  datatype Approval = Approval(
    client: Id, session: Id, status: Status, createdAt: int, expiresAt: int,
    decidedAt: Option<int>, execution: Option<Id>, revision: nat,
    digest: Digest, requiredScopes: seq<string>, sessionScope: string)

  datatype ExecutionStatus = Dispatched | Completed | Failed | OutcomeUnknown | Reconciled

  datatype Execution = Execution(
    approval: Id, client: Id, tool: string, status: ExecutionStatus,
    result: Option<string>, task: Option<Id>, createdAt: int, completedAt: Option<int>)

  datatype LocalDecision = AllowOnce | AllowForSession | Deny

  datatype ErrorCode =
    | NotFound | InvalidRequest | ApprovalPending | ApprovalDenied | ApprovalExpired
    | ApprovalInvalidated | InsufficientScope | InternalError

  /** Who resumes, and under which policy revision. */
  datatype Caller = Caller(client: Id, session: Id, scopes: set<string>, revision: nat)

  datatype Store = Store(
    approvals: map<Id, Approval>, executions: map<Id, Execution>, ops: map<Id, Operation>)

  datatype ResumeOutcome =
    | Dispatch(op: Operation, execution: Id)
    | Existing(execution: Id, view: Execution)
    | Refused(error: ErrorCode)

  predicate Open(status: Status) {
    status in {Pending, AllowedOnce, AllowedSession}
  }

  predicate Allowed(status: Status) {
    status in {AllowedOnce, AllowedSession}
  }

  // ------------------------------------------------------------ transactions

  /** The snapshot a row was created from, read back from its columns. */
  function Snapshot(row: Approval): Operation {
    Operation(row.digest.tool, row.digest.arguments, row.digest.descriptor,
              row.requiredScopes, row.sessionScope)
  }

  function NewRow(client: Id, session: Id, op: Operation, revision: nat, now: int, lifetime: nat): Approval {
    Approval(client, session, Pending, now, now + lifetime, None, None, revision,
             Digest(op.tool, op.arguments, op.descriptor, revision, client, session),
             op.requiredScopes, op.sessionScope)
  }

  function WithStatus(s: Store, id: Id, status: Status): Store
    requires id in s.approvals
  {
    s.(approvals := s.approvals[id := s.approvals[id].(status := status)])
  }

  /** Rows are never removed, and nothing but status, decision time and expiry was rewritten. */
  predicate OnlyDecided(s: Store, s': Store) {
    && s'.executions == s.executions && s'.ops == s.ops && s'.approvals.Keys == s.approvals.Keys
    && forall id :: id in s.approvals ==>
         var (r, r') := (s.approvals[id], s'.approvals[id]);
         r' == r.(status := r'.status, decidedAt := r'.decidedAt, expiresAt := r'.expiresAt)
  }

  /** The insert fails on a primary-key clash and then changes nothing. */
  function CreateRow(s: Store, id: Id, row: Approval): (Store, bool) {
    if id in s.approvals then (s, false) else (s.(approvals := s.approvals[id := row]), true)
  }

  function DecidedStatus(decision: LocalDecision): Status {
    match decision
    case AllowOnce => AllowedOnce
    case AllowForSession => AllowedSession
    case Deny => Denied
  }

  function DecideRow(s: Store, id: Id, decision: LocalDecision, now: int, lifetime: nat)
      : (r: (Store, Option<ErrorCode>))
    ensures OnlyDecided(s, r.0)
  {
    if id !in s.approvals then (s, Some(NotFound))
    else
      var row := s.approvals[id];
      if row.status != Pending then (s, Some(InvalidRequest))
      else if row.expiresAt < now then (WithStatus(s, id, Expired), Some(ApprovalExpired))
      else
        var expiry := if decision == Deny then row.expiresAt else now + lifetime;
        var decided := row.(status := DecidedStatus(decision), decidedAt := Some(now), expiresAt := expiry);
        (s.(approvals := s.approvals[id := decided]), None)
  }

  /** Everything a resume needs in order to be the one that dispatches. */
  predicate Resumable(s: Store, id: Id, caller: Caller, now: int) {
    id in s.approvals &&
    var row := s.approvals[id];
    && row.client == caller.client
    && row.session == caller.session
    && row.revision == caller.revision
    && row.execution == None
    && Allowed(row.status)
    && now <= row.expiresAt
    && Scopes.Holds(row.requiredScopes, caller.scopes)
  }

  function StatusError(status: Status): ErrorCode {
    match status
    case Pending => ApprovalPending
    case Denied => ApprovalDenied
    case Expired => ApprovalExpired
    case _ => ApprovalInvalidated
  }

  /** The resume transaction; `snapshot` was read from `ops` earlier, `exec` is the generated id. */
  function ResumeRow(s: Store, id: Id, caller: Caller, now: int, snapshot: Option<Operation>, exec: Id)
      : (r: (Store, ResumeOutcome))
    ensures r.1.Dispatch? <==> Resumable(s, id, caller, now) && snapshot.Some? && exec !in s.executions
    ensures r.1.Dispatch? ==> r.1.op == snapshot.value && r.1.execution == exec
    ensures r.0.ops == s.ops
  {
    if id !in s.approvals then (s, Refused(NotFound))
    else
      var row := s.approvals[id];
      if row.client != caller.client then (s, Refused(NotFound))
      else if row.execution.Some? then
        (s, if row.execution.value in s.executions
            then Existing(row.execution.value, s.executions[row.execution.value])
            else Refused(InternalError))
      else if !Allowed(row.status) then (s, Refused(StatusError(row.status)))
      else if row.expiresAt < now then (WithStatus(s, id, Expired), Refused(ApprovalExpired))
      else if row.session != caller.session || row.revision != caller.revision then
        (WithStatus(s, id, Invalidated), Refused(ApprovalInvalidated))
      else if !Scopes.Holds(row.requiredScopes, caller.scopes) then (s, Refused(InsufficientScope))
      else if snapshot == None then (WithStatus(s, id, Invalidated), Refused(ApprovalInvalidated))
      else if exec in s.executions then (s, Refused(InternalError))
      else
        var status := if row.status == AllowedOnce then Consumed else AllowedSession;
        (s.(approvals := s.approvals[id := row.(execution := Some(exec), status := status)],
            executions := s.executions[exec := NewExecution(id, row, now)]),
         Dispatch(snapshot.value, exec))
  }

  function NewExecution(id: Id, row: Approval, now: int): Execution {
    Execution(id, row.client, row.digest.tool, Dispatched, None, None, now, None)
  }

  /** A task id once recorded is only replaced by another. */
  function CompleteRow(
      s: Store, exec: Id, status: ExecutionStatus, result: Option<string>, task: Option<Id>, now: int): Store {
    if exec !in s.executions then s
    else
      var e := s.executions[exec];
      s.(executions := s.executions[exec := e.(
        status := status, result := result, task := if task.Some? then task else e.task, completedAt := Some(now))])
  }

  function ReconcileRow(s: Store, exec: Id, note: string): Store {
    if exec !in s.executions || s.executions[exec].status != OutcomeUnknown then s
    else
      var e := s.executions[exec];
      s.(executions :=
          s.executions[exec := e.(status := Reconciled, result := if e.result.Some? then e.result else Some(note))])
  }

  /** One update of `invalidate`: only open rows are selected. */
  function CloseRow(s: Store, id: Id, closed: Status): (r: Store)
    ensures OnlyDecided(s, r)
  {
    if id in s.approvals && Open(s.approvals[id].status) then WithStatus(s, id, closed) else s
  }

  /** The sweep selects pending and once-allowed rows, never session-allowed ones. */
  predicate SweepSelects(row: Approval, now: int) {
    row.status in {Pending, AllowedOnce} && row.expiresAt < now
  }

  function ExpireRow(s: Store, id: Id, now: int): (r: Store)
    ensures OnlyDecided(s, r)
  {
    if id in s.approvals && SweepSelects(s.approvals[id], now) then WithStatus(s, id, Expired) else s
  }

  function DropOp(s: Store, id: Id): Store {
    s.(ops := s.ops - {id})
  }

  /** A new process: the snapshots are gone and recovery has rewritten both tables. */
  function RestartStore(s: Store, now: int): Store {
    Store(
      map id | id in s.approvals ::
        if Open(s.approvals[id].status) then s.approvals[id].(status := Invalidated) else s.approvals[id],
      map x | x in s.executions ::
        if s.executions[x].status == Dispatched
        then s.executions[x].(status := OutcomeUnknown, completedAt := Some(now)) else s.executions[x],
      map[])
  }

  // ------------------------------------------------------------ interleavings

  type ThreadId = nat

  /** A resume between its read of `ops` and its transaction. */
  datatype Resume = Resume(id: Id, caller: Caller, now: int, snapshot: Option<Operation>)

  /** The store plus the local variables of calls in flight. */
  datatype System = System(store: Store, creating: map<Id, Operation>, resuming: map<ThreadId, Resume>)

  datatype Step =
    | CreateStep(id: Id, client: Id, session: Id, op: Operation, revision: nat, now: int, lifetime: nat)
    | PublishStep(id: Id)                        // `ops.insert` of a finished create
    | DecideStep(id: Id, decision: LocalDecision, now: int, lifetime: nat)
    | DropStep(id: Id)                           // any `ops.remove`, at any moment
    | ReadStep(thread: ThreadId, id: Id, caller: Caller, now: int)
    | ResumeStep(thread: ThreadId, exec: Id)
    | CompleteStep(exec: Id, ok: bool, result: Option<string>, task: Option<Id>, now: int)
    | ReconcileStep(exec: Id, note: string)
    | CloseStep(id: Id, cancelled: bool)
    | ExpireStep(id: Id, now: int)
    | RestartStep(now: int)

  datatype Event =
    | CreatedEvent(id: Id, client: Id, session: Id, revision: nat, op: Operation, deadline: int)
    | AllowedEvent(id: Id, at: int, deadline: int, until: int)
    | ClosedEvent(id: Id)
    | DispatchedEvent(id: Id, execution: Id, caller: Caller, op: Operation, now: int, allowedAt: int, until: int)
    | ObservedEvent(id: Id, execution: Id)
    | RestartedEvent

  /** A row leaves the open states. */
  function ClosedBy(before: Store, after: Store, id: Id): seq<Event> {
    if id in before.approvals && id in after.approvals
       && Open(before.approvals[id].status) && !Open(after.approvals[id].status)
    then [ClosedEvent(id)] else []
  }

  function ApplyResume(y: System, thread: ThreadId, exec: Id): (System, seq<Event>) {
    if thread !in y.resuming then (y, [])
    else
      var t := y.resuming[thread];
      var (store, outcome) := ResumeRow(y.store, t.id, t.caller, t.now, t.snapshot, exec);
      var y' := y.(store := store, resuming := y.resuming - {thread});
      match outcome
      case Dispatch(op, x) =>
        var row := y.store.approvals[t.id];
        var allowedAt := if row.decidedAt.Some? then row.decidedAt.value else 0;
        (y', [DispatchedEvent(t.id, x, t.caller, op, t.now, allowedAt, row.expiresAt)])
      case Existing(x, _) => (y', [ObservedEvent(t.id, x)])
      case Refused(_) => (y', ClosedBy(y.store, store, t.id))
  }

  function ApplyDecide(y: System, id: Id, decision: LocalDecision, now: int, lifetime: nat): (System, seq<Event>) {
    var (store, error) := DecideRow(y.store, id, decision, now, lifetime);
    (y.(store := store),
     if error == None && decision != Deny
     then [AllowedEvent(id, now, y.store.approvals[id].expiresAt, now + lifetime)]
     else ClosedBy(y.store, store, id))
  }

  function ApplyCreate(y: System, id: Id, op: Operation, row: Approval): (System, seq<Event>) {
    var (store, ok) := CreateRow(y.store, id, row);
    if ok then (y.(store := store, creating := y.creating[id := op]),
                [CreatedEvent(id, row.client, row.session, row.revision, op, row.expiresAt)])
    else (y, [])
  }

  function ApplyClose(y: System, store: Store, id: Id): (System, seq<Event>) {
    (y.(store := store), ClosedBy(y.store, store, id))
  }

  /** Pieces that touch neither the approvals table nor the history. */
  function ApplyQuiet(y: System, step: Step): System {
    match step
    case PublishStep(id) =>
      if id in y.creating
      then y.(store := y.store.(ops := y.store.ops[id := y.creating[id]]), creating := y.creating - {id})
      else y
    case DropStep(id) => y.(store := DropOp(y.store, id))
    case ReadStep(thread, id, caller, now) =>
      var snapshot := if id in y.store.ops then Some(y.store.ops[id]) else None;
      y.(resuming := y.resuming[thread := Resume(id, caller, now, snapshot)])
    case CompleteStep(exec, ok, result, task, now) =>
      y.(store := CompleteRow(y.store, exec, if ok then Completed else Failed, result, task, now))
    case ReconcileStep(exec, note) => y.(store := ReconcileRow(y.store, exec, note))
    case _ => y
  }

  function Apply(y: System, step: Step): (System, seq<Event>) {
    match step
    case CreateStep(id, client, session, op, revision, now, lifetime) =>
      ApplyCreate(y, id, op, NewRow(client, session, op, revision, now, lifetime))
    case DecideStep(id, decision, now, lifetime) => ApplyDecide(y, id, decision, now, lifetime)
    case ResumeStep(thread, exec) => ApplyResume(y, thread, exec)
    case CloseStep(id, cancelled) =>
      ApplyClose(y, CloseRow(y.store, id, if cancelled then Cancelled else Invalidated), id)
    case ExpireStep(id, now) => ApplyClose(y, ExpireRow(y.store, id, now), id)
    case RestartStep(now) => (System(RestartStore(y.store, now), map[], map[]), [RestartedEvent])
    case _ => (ApplyQuiet(y, step), [])
  }

  const EMPTY := System(Store(map[], map[], map[]), map[], map[])

  /** The state reached from `y` by a sequence of steps, and the events recorded on the way. */
  function Run(y: System, steps: seq<Step>): (System, seq<Event>)
    decreases |steps|
  {
    if steps == [] then (y, [])
    else
      var (y1, e) := Apply(y, steps[0]);
      var (y2, h) := Run(y1, steps[1..]);
      (y2, e + h)
  }

  // ------------------------------------------------------------ what a history must satisfy

  /** The events of the current process. */
  function SinceRestart(h: seq<Event>): seq<Event> {
    if h == [] then []
    else if h[|h| - 1].RestartedEvent? then []
    else SinceRestart(h[..|h| - 1]) + [h[|h| - 1]]
  }

  ghost predicate Dispatches(h: seq<Event>, id: Id, exec: Id) {
    exists k :: 0 <= k < |h| && h[k].DispatchedEvent? && h[k].id == id && h[k].execution == exec
  }

  ghost predicate Settled(h: seq<Event>, id: Id) {
    exists k :: 0 <= k < |h| && (h[k].ClosedEvent? || h[k].DispatchedEvent? || h[k].AllowedEvent?) && h[k].id == id
  }

  /** A local allow answers a request of this process that was still waiting and not yet late. */
  ghost predicate AllowJustified(h: seq<Event>, e: Event)
    requires e.AllowedEvent?
  {
    && e.at <= e.deadline
    && !Settled(h, e.id)
    && exists client, session, revision, op ::
         CreatedEvent(e.id, client, session, revision, op, e.deadline) in SinceRestart(h)
  }

  /** The request was created with exactly these attributes and then allowed, in this process. */
  ghost predicate AllowedHistory(h: seq<Event>, id: Id, client: Id, session: Id, revision: nat, op: Operation, at: int,
      until: int) {
    exists deadline ::
      && CreatedEvent(id, client, session, revision, op, deadline) in SinceRestart(h)
      && AllowedEvent(id, at, deadline, until) in SinceRestart(h)
  }

  ghost predicate DispatchJustified(h: seq<Event>, e: Event)
    requires e.DispatchedEvent?
  {
    && AllowedHistory(h, e.id, e.caller.client, e.caller.session, e.caller.revision, e.op, e.allowedAt, e.until)
    && e.now <= e.until
    && Scopes.Holds(e.op.requiredScopes, e.caller.scopes)
    && ClosedEvent(e.id) !in h
    && (forall k :: 0 <= k < |h| && h[k].DispatchedEvent? ==> h[k].id != e.id && h[k].execution != e.execution)
  }

  ghost predicate EventJustified(h: seq<Event>, e: Event) {
    match e
    case AllowedEvent(_, _, _, _) => AllowJustified(h, e)
    case DispatchedEvent(_, _, _, _, _, _, _) => DispatchJustified(h, e)
    case ObservedEvent(id, exec) => Dispatches(h, id, exec)
    case _ => true
  }

  ghost predicate HistoryJustified(h: seq<Event>) {
    forall k :: 0 <= k < |h| ==> EventJustified(h[..k], h[k])
  }

  // ------------------------------------------------------------ the invariant

  /** Approvals that carry an execution id and execution rows are in bijection. */
  predicate Bijection(s: Store) {
    && (forall id :: id in s.approvals && s.approvals[id].execution.Some? ==>
          var x := s.approvals[id].execution.value;
          x in s.executions && s.executions[x].approval == id)
    && (forall x :: x in s.executions ==>
          var id := s.executions[x].approval;
          id in s.approvals && s.approvals[id].execution == Some(x) && s.executions[x].client == s.approvals[id].client)
  }

  /** Every copy of a snapshot, wherever it is held, is the one its row was created from. */
  ghost predicate SnapshotsFaithful(y: System) {
    && (forall id :: id in y.store.ops ==>
          id in y.store.approvals && y.store.ops[id] == Snapshot(y.store.approvals[id]))
    && (forall id :: id in y.creating ==> id in y.store.approvals && y.creating[id] == Snapshot(y.store.approvals[id]))
    && (forall t :: t in y.resuming && y.resuming[t].snapshot.Some? ==>
          var r := y.resuming[t];
          r.id in y.store.approvals && r.snapshot.value == Snapshot(y.store.approvals[r.id]))
  }

  ghost predicate RowExplained(h: seq<Event>, id: Id, row: Approval) {
    && (row.status == Pending ==>
          && row.execution == None
          && CreatedEvent(id, row.client, row.session, row.revision, Snapshot(row), row.expiresAt) in SinceRestart(h)
          && !Settled(h, id))
    && (Allowed(row.status) && row.execution == None ==>
          && row.decidedAt.Some?
          && AllowedHistory(h, id, row.client, row.session, row.revision, Snapshot(row), row.decidedAt.value,
              row.expiresAt)
          && ClosedEvent(id) !in h)
  }

  ghost predicate RowsExplained(rows: map<Id, Approval>, h: seq<Event>) {
    && (forall id :: id in rows ==> RowExplained(h, id, rows[id]))
    && (forall k :: 0 <= k < |h| && !h[k].RestartedEvent? ==> h[k].id in rows)
    && (forall k :: 0 <= k < |h| && h[k].DispatchedEvent? ==>
          h[k].id in rows && rows[h[k].id].execution == Some(h[k].execution))
    && (forall id :: id in rows && rows[id].execution.Some? ==>
          Dispatches(h, id, rows[id].execution.value))
  }

  /** What the tables, the snapshots and the calls in flight owe each other. */
  ghost predicate TablesInv(y: System) {
    Bijection(y.store) && SnapshotsFaithful(y)
  }

  ghost predicate Inv(y: System, h: seq<Event>) {
    && TablesInv(y)
    && RowsExplained(y.store.approvals, h)
    && HistoryJustified(h)
  }

  lemma ResumeBijection(s: Store, id: Id, caller: Caller, now: int, snapshot: Option<Operation>, exec: Id)
    requires Bijection(s)
    ensures Bijection(ResumeRow(s, id, caller, now, snapshot, exec).0)
  {
    hide Bijection, Resumable, Scopes.Holds;
    if id in s.approvals {
      StatusKeepsBijection(s, id, Expired);
      StatusKeepsBijection(s, id, Invalidated);
      var s' := ResumeRow(s, id, caller, now, snapshot, exec).0;
      if exec !in s.executions && s.approvals[id].execution.None? && exec in s'.executions {
        LinkKeepsBijection(s, id, s'.approvals[id], exec, s'.executions[exec]);
      }
    }
  }

  lemma StatusKeepsBijection(s: Store, id: Id, status: Status)
    requires Bijection(s) && id in s.approvals
    ensures Bijection(WithStatus(s, id, status))
  {
  }

  lemma LinkKeepsBijection(s: Store, id: Id, row: Approval, exec: Id, x: Execution)
    requires Bijection(s) && id in s.approvals && s.approvals[id].execution.None? && exec !in s.executions
    requires row.execution == Some(exec) && row.client == s.approvals[id].client && x.approval == id
    requires x.client == row.client
    ensures Bijection(s.(approvals := s.approvals[id := row], executions := s.executions[exec := x]))
  {
  }

  lemma ExecutionKeepsBijection(s: Store, exec: Id, x: Execution)
    requires Bijection(s) && exec in s.executions
    requires x.approval == s.executions[exec].approval && x.client == s.executions[exec].client
    ensures Bijection(s.(executions := s.executions[exec := x]))
  {
  }

  lemma BijectionIgnoresOps(s: Store, ops: map<Id, Operation>)
    requires Bijection(s)
    ensures Bijection(s.(ops := ops))
  {
  }

  lemma ResumeKeepsSnapshots(s: Store, id: Id, caller: Caller, now: int, snapshot: Option<Operation>, exec: Id, i: Id)
    requires i in s.approvals
    ensures var s' := ResumeRow(s, id, caller, now, snapshot, exec).0;
            i in s'.approvals && Snapshot(s'.approvals[i]) == Snapshot(s.approvals[i])
  {
  }

  lemma ResumeTablesKept(y: System, thread: ThreadId, exec: Id)
    requires TablesInv(y)
    ensures TablesInv(ApplyResume(y, thread, exec).0)
  {
    hide Bijection, ResumeRow, Snapshot, Resumable;
    if thread in y.resuming {
      var t := y.resuming[thread];
      ResumeBijection(y.store, t.id, t.caller, t.now, t.snapshot, exec);
      var s' := ResumeRow(y.store, t.id, t.caller, t.now, t.snapshot, exec).0;
      forall i | i in y.store.approvals
        ensures i in s'.approvals && Snapshot(s'.approvals[i]) == Snapshot(y.store.approvals[i])
      {
        ResumeKeepsSnapshots(y.store, t.id, t.caller, t.now, t.snapshot, exec, i);
      }
    }
  }

  lemma DecidedTablesKept(y: System, s': Store)
    requires TablesInv(y) && OnlyDecided(y.store, s')
    ensures TablesInv(y.(store := s'))
  {
  }

  lemma QuietTablesKept(y: System, step: Step)
    requires TablesInv(y)
    ensures TablesInv(ApplyQuiet(y, step))
    ensures ApplyQuiet(y, step).store.approvals == y.store.approvals
  {
    hide Bijection, Snapshot;
    var z := ApplyQuiet(y, step);
    BijectionIgnoresOps(y.store, z.store.ops);
    match step
    case CompleteStep(exec, _, _, _, _) =>
      if exec in y.store.executions {
        ExecutionKeepsBijection(y.store, exec, z.store.executions[exec]);
      }
    case ReconcileStep(exec, _) =>
      if exec in y.store.executions {
        ExecutionKeepsBijection(y.store, exec, z.store.executions[exec]);
      }
    case _ =>
  }

  lemma CreateTablesKept(y: System, id: Id, client: Id, session: Id, op: Operation, revision: nat, now: int,
      lifetime: nat)
    requires TablesInv(y)
    ensures TablesInv(ApplyCreate(y, id, op, NewRow(client, session, op, revision, now, lifetime)).0)
  {
  }

  lemma RestartTablesKept(s: Store, now: int)
    requires Bijection(s)
    ensures TablesInv(System(RestartStore(s, now), map[], map[]))
  {
  }

  lemma TablesKept(y: System, step: Step)
    requires TablesInv(y)
    ensures TablesInv(Apply(y, step).0)
  {
    assert Bijection(y.store);
    hide TablesInv, Bijection;
    match step
    case CreateStep(id, client, session, op, revision, now, lifetime) =>
      CreateTablesKept(y, id, client, session, op, revision, now, lifetime);
    case RestartStep(now) => RestartTablesKept(y.store, now);
    case ResumeStep(thread, exec) => ResumeTablesKept(y, thread, exec);
    case DecideStep(id, decision, now, lifetime) =>
      DecidedTablesKept(y, DecideRow(y.store, id, decision, now, lifetime).0);
    case CloseStep(id, cancelled) =>
      DecidedTablesKept(y, CloseRow(y.store, id, if cancelled then Cancelled else Invalidated));
    case ExpireStep(id, now) =>
      DecidedTablesKept(y, ExpireRow(y.store, id, now));
    case _ => QuietTablesKept(y, step);
  }

  // ------------------------------------------------------------ growing a history

  lemma SinceExtend(h: seq<Event>, e: Event)
    ensures SinceRestart(h + [e]) == if e.RestartedEvent? then [] else SinceRestart(h) + [e]
  {
    assert (h + [e])[..|h|] == h;
  }

  lemma SettledExtend(h: seq<Event>, e: Event, id: Id)
    ensures Settled(h + [e], id) <==>
        Settled(h, id) || ((e.ClosedEvent? || e.DispatchedEvent? || e.AllowedEvent?) && e.id == id)
  {
    var g := h + [e];
    assert g[|h|] == e;
    if k :| 0 <= k < |h| && (h[k].ClosedEvent? || h[k].DispatchedEvent? || h[k].AllowedEvent?) && h[k].id == id {
      assert g[k] == h[k];
    }
  }

  lemma DispatchesExtend(h: seq<Event>, e: Event, id: Id, exec: Id)
    requires Dispatches(h, id, exec)
    ensures Dispatches(h + [e], id, exec)
  {
    var k :| 0 <= k < |h| && h[k].DispatchedEvent? && h[k].id == id && h[k].execution == exec;
    assert (h + [e])[k] == h[k];
  }

  lemma JustifiedExtend(h: seq<Event>, e: Event)
    requires HistoryJustified(h) && EventJustified(h, e)
    ensures HistoryJustified(h + [e])
  {
    var g := h + [e];
    forall k | 0 <= k < |g|
      ensures EventJustified(g[..k], g[k])
    {
      assert g[..k] == if k < |h| then h[..k] else h;
    }
  }

  /** An explained row stays explained when an event that does not concern it is recorded. */
  lemma ExplanationPersists(h: seq<Event>, e: Event, id: Id, row: Approval)
    requires RowExplained(h, id, row)
    requires !e.RestartedEvent? && (e.id != id || e.CreatedEvent? || e.ObservedEvent?)
    ensures RowExplained(h + [e], id, row)
  {
    SinceExtend(h, e);
    SettledExtend(h, e, id);
    if Allowed(row.status) && row.execution == None {
      var d :| CreatedEvent(id, row.client, row.session, row.revision, Snapshot(row), d) in SinceRestart(h)
            && AllowedEvent(id, row.decidedAt.value, d, row.expiresAt) in SinceRestart(h);
      assert CreatedEvent(id, row.client, row.session, row.revision, Snapshot(row), d) in SinceRestart(h + [e])
          && AllowedEvent(id, row.decidedAt.value, d, row.expiresAt) in SinceRestart(h + [e]);
    }
  }

  /** A transaction that rewrites one row and records one event about it. */
  lemma RecordEvent(s: Store, s': Store, h: seq<Event>, e: Event)
    requires RowsExplained(s.approvals, h)
    requires !e.RestartedEvent? && e.id in s'.approvals
    requires s'.approvals.Keys == s.approvals.Keys + {e.id}
    requires forall id :: id in s.approvals && id != e.id ==> s'.approvals[id] == s.approvals[id]
    requires RowExplained(h + [e], e.id, s'.approvals[e.id])
    requires e.id in s.approvals && s.approvals[e.id].execution.Some? ==>
        s'.approvals[e.id].execution == s.approvals[e.id].execution
    requires e.DispatchedEvent? ==> s'.approvals[e.id].execution == Some(e.execution)
    requires s'.approvals[e.id].execution.Some? ==>
               (e.id in s.approvals && s.approvals[e.id].execution.Some?)
                   || (e.DispatchedEvent? && e.execution == s'.approvals[e.id].execution.value)
    ensures RowsExplained(s'.approvals, h + [e])
  {
    var g := h + [e];
    assert g[|h|] == e;
    forall id | id in s'.approvals
      ensures RowExplained(g, id, s'.approvals[id])
      ensures s'.approvals[id].execution.Some? ==> Dispatches(g, id, s'.approvals[id].execution.value)
    {
      if id != e.id {
        ExplanationPersists(h, e, id, s.approvals[id]);
      }
      if id in s.approvals && s.approvals[id].execution.Some? {
        DispatchesExtend(h, e, id, s.approvals[id].execution.value);
      }
    }
  }

  // ------------------------------------------------------------ every step keeps the history explained

  ghost predicate HistoryInv(rows: map<Id, Approval>, h: seq<Event>) {
    RowsExplained(rows, h) && HistoryJustified(h)
  }

  lemma ClosingKeeps(s: Store, h: seq<Event>, id: Id, status: Status)
    requires HistoryInv(s.approvals, h) && id in s.approvals && !Open(status)
    ensures HistoryInv(WithStatus(s, id, status).approvals, h + ClosedBy(s, WithStatus(s, id, status), id))
  {
    var s' := WithStatus(s, id, status);
    if Open(s.approvals[id].status) {
      RecordEvent(s, s', h, ClosedEvent(id));
      JustifiedExtend(h, ClosedEvent(id));
    } else {
      assert h + ClosedBy(s, s', id) == h;
    }
  }

  lemma CreateKeeps(s: Store, h: seq<Event>, id: Id, client: Id, session: Id, op: Operation, revision: nat, now: int,
      lifetime: nat)
    requires HistoryInv(s.approvals, h) && id !in s.approvals
    ensures HistoryInv(CreateRow(s, id, NewRow(client, session, op, revision, now, lifetime)).0.approvals,
                       h + [CreatedEvent(id, client, session, revision, op, now + lifetime)])
  {
    var row := NewRow(client, session, op, revision, now, lifetime);
    var e := CreatedEvent(id, client, session, revision, op, now + lifetime);
    SinceExtend(h, e);
    SettledExtend(h, e, id);
    RecordEvent(s, CreateRow(s, id, row).0, h, e);
    JustifiedExtend(h, e);
  }

  lemma ClosedIsSettled(h: seq<Event>, id: Id)
    ensures ClosedEvent(id) in h ==> Settled(h, id)
  {
  }

  lemma AllowKeeps(s: Store, h: seq<Event>, id: Id, decision: LocalDecision, now: int, lifetime: nat)
    requires HistoryInv(s.approvals, h) && DecideRow(s, id, decision, now, lifetime).1 == None && decision != Deny
    ensures HistoryInv(DecideRow(s, id, decision, now, lifetime).0.approvals,
                       h + [AllowedEvent(id, now, s.approvals[id].expiresAt, now + lifetime)])
  {
    var row := s.approvals[id];
    var row' := DecideRow(s, id, decision, now, lifetime).0.approvals[id];
    var e := AllowedEvent(id, now, row.expiresAt, now + lifetime);
    var c := CreatedEvent(id, row.client, row.session, row.revision, Snapshot(row), row.expiresAt);
    assert RowExplained(h, id, row);
    SinceExtend(h, e);
    assert c in SinceRestart(h + [e]) && e in SinceRestart(h + [e]);
    ClosedIsSettled(h, id);
    RecordEvent(s, DecideRow(s, id, decision, now, lifetime).0, h, e);
    JustifiedExtend(h, e);
  }

  lemma DecideKeeps(y: System, h: seq<Event>, id: Id, decision: LocalDecision, now: int, lifetime: nat)
    requires HistoryInv(y.store.approvals, h)
    ensures HistoryInv(ApplyDecide(y, id, decision, now, lifetime).0.store.approvals,
        h + ApplyDecide(y, id, decision, now, lifetime).1)
  {
    var (s', error) := DecideRow(y.store, id, decision, now, lifetime);
    match error
    case None =>
      if decision == Deny {
        DenyKeeps(y.store, h, id, now, lifetime);
      } else {
        hide HistoryInv;
        AllowKeeps(y.store, h, id, decision, now, lifetime);
      }
    case Some(code) =>
      hide HistoryInv;
      if code == ApprovalExpired {
        ClosingKeeps(y.store, h, id, Expired);
      } else {
        assert h + ClosedBy(y.store, s', id) == h;
      }
  }

  lemma DenyKeeps(s: Store, h: seq<Event>, id: Id, now: int, lifetime: nat)
    requires HistoryInv(s.approvals, h) && DecideRow(s, id, Deny, now, lifetime).1 == None
    ensures HistoryInv(DecideRow(s, id, Deny, now, lifetime).0.approvals, h + [ClosedEvent(id)])
  {
    RecordEvent(s, DecideRow(s, id, Deny, now, lifetime).0, h, ClosedEvent(id));
    JustifiedExtend(h, ClosedEvent(id));
  }

  lemma DispatchKeeps(y: System, h: seq<Event>, thread: ThreadId, exec: Id)
    requires TablesInv(y) && HistoryInv(y.store.approvals, h) && thread in y.resuming
    requires var t := y.resuming[thread]; ResumeRow(y.store, t.id, t.caller, t.now, t.snapshot, exec).1.Dispatch?
    ensures HistoryInv(ApplyResume(y, thread, exec).0.store.approvals, h + ApplyResume(y, thread, exec).1)
  {
    var t := y.resuming[thread];
    var e := ApplyResume(y, thread, exec).1[0];
    assert RowExplained(h, t.id, y.store.approvals[t.id]);
    assert DispatchJustified(h, e) by {
      forall k | 0 <= k < |h| && h[k].DispatchedEvent?
        ensures h[k].id != t.id && h[k].execution != exec
      {
        assert y.store.approvals[h[k].id].execution == Some(h[k].execution);
      }
    }
    RecordEvent(y.store, ApplyResume(y, thread, exec).0.store, h, e);
    JustifiedExtend(h, e);
  }

  lemma ResumeKeeps(y: System, h: seq<Event>, thread: ThreadId, exec: Id)
    requires TablesInv(y) && HistoryInv(y.store.approvals, h)
    ensures HistoryInv(ApplyResume(y, thread, exec).0.store.approvals, h + ApplyResume(y, thread, exec).1)
  {
    if thread !in y.resuming {
      assert h + [] == h;
    } else {
      hide HistoryInv, TablesInv, ClosedBy;
      var t := y.resuming[thread];
      var (s', outcome) := ResumeRow(y.store, t.id, t.caller, t.now, t.snapshot, exec);
      match outcome
      case Dispatch(_, _) => DispatchKeeps(y, h, thread, exec);
      case Existing(x, _) => ObservedKeeps(y.store, h, t.id, x);
      case Refused(_) => RefusedKeeps(y.store, s', h, t.id);
    }
  }

  lemma ObservedKeeps(s: Store, h: seq<Event>, id: Id, x: Id)
    requires HistoryInv(s.approvals, h) && id in s.approvals && s.approvals[id].execution == Some(x)
    ensures HistoryInv(s.approvals, h + [ObservedEvent(id, x)])
  {
    var e := ObservedEvent(id, x);
    ExplanationPersists(h, e, id, s.approvals[id]);
    hide RowExplained;
    RecordEvent(s, s, h, e);
    JustifiedExtend(h, e);
  }

  lemma RefusedKeeps(s: Store, s': Store, h: seq<Event>, id: Id)
    requires HistoryInv(s.approvals, h)
    requires s' == s || (id in s.approvals && exists st :: !Open(st) && s' == WithStatus(s, id, st))
    ensures HistoryInv(s'.approvals, h + ClosedBy(s, s', id))
  {
    hide HistoryInv;
    if s' == s {
      assert h + ClosedBy(s, s', id) == h;
    } else {
      ClosingKeeps(s, h, id, s'.approvals[id].status);
    }
  }

  lemma RestartKeeps(s: Store, h: seq<Event>, now: int)
    requires HistoryInv(s.approvals, h)
    ensures HistoryInv(RestartStore(s, now).approvals, h + [RestartedEvent])
  {
    JustifiedExtend(h, RestartedEvent);
    var s' := RestartStore(s, now);
    forall id | id in s'.approvals
      ensures s'.approvals[id].execution.Some? ==>
          Dispatches(h + [RestartedEvent], id, s'.approvals[id].execution.value)
    {
      if s.approvals[id].execution.Some? {
        DispatchesExtend(h, RestartedEvent, id, s.approvals[id].execution.value);
      }
    }
  }

  lemma CloseKeeps(y: System, h: seq<Event>, store: Store, id: Id)
    requires HistoryInv(y.store.approvals, h)
    requires store == y.store
        || (id in y.store.approvals && exists st :: !Open(st) && store == WithStatus(y.store, id, st))
    ensures HistoryInv(ApplyClose(y, store, id).0.store.approvals, h + ApplyClose(y, store, id).1)
  {
    RefusedKeeps(y.store, store, h, id);
  }

  /** Whatever atomic piece runs next, the history stays explained. */
  lemma HistoryKept(y: System, h: seq<Event>, step: Step)
    requires TablesInv(y) && HistoryInv(y.store.approvals, h)
    ensures HistoryInv(Apply(y, step).0.store.approvals, h + Apply(y, step).1)
  {
    hide HistoryInv, TablesInv;
    match step
    case CreateStep(id, client, session, op, revision, now, lifetime) =>
      if id in y.store.approvals {
        assert h + [] == h;
      } else {
        CreateKeeps(y.store, h, id, client, session, op, revision, now, lifetime);
      }
    case DecideStep(id, decision, now, lifetime) => DecideKeeps(y, h, id, decision, now, lifetime);
    case ResumeStep(thread, exec) => ResumeKeeps(y, h, thread, exec);
    case RestartStep(now) => RestartKeeps(y.store, h, now);
    case CloseStep(id, cancelled) => CloseKeeps(y, h,
        CloseRow(y.store, id, if cancelled then Cancelled else Invalidated), id);
    case ExpireStep(id, now) => CloseKeeps(y, h, ExpireRow(y.store, id, now), id);
    case _ =>
      QuietTablesKept(y, step);
      assert h + [] == h;
  }

  lemma {:induction false} RunKeeps(y: System, h: seq<Event>, steps: seq<Step>)
    requires Inv(y, h)
    ensures Inv(Run(y, steps).0, h + Run(y, steps).1)
    decreases |steps|
  {
    hide TablesInv, RowsExplained, HistoryJustified, Apply;
    if steps == [] {
      assert h + [] == h;
    } else {
      var (y1, e) := Apply(y, steps[0]);
      TablesKept(y, steps[0]);
      HistoryKept(y, h, steps[0]);
      RunKeeps(y1, h + e, steps[1..]);
      assert h + e + Run(y1, steps[1..]).1 == h + Run(y, steps).1;
    }
  }

  // ------------------------------------------------------------ main results

  /** Every event of every interleaving is justified by the events before it. */
  lemma EveryRunIsJustified(steps: seq<Step>)
    ensures Inv(Run(EMPTY, steps).0, Run(EMPTY, steps).1)
    ensures HistoryJustified(Run(EMPTY, steps).1)
    ensures Bijection(Run(EMPTY, steps).0.store)
  {
    RunKeeps(EMPTY, [], steps);
    assert [] + Run(EMPTY, steps).1 == Run(EMPTY, steps).1;
  }

  /** No approval is dispatched twice, and no execution id is handed out twice. */
  lemma AtMostOneDispatch(steps: seq<Step>, i: nat, j: nat)
    requires i < j < |Run(EMPTY, steps).1|
    requires Run(EMPTY, steps).1[i].DispatchedEvent? && Run(EMPTY, steps).1[j].DispatchedEvent?
    ensures Run(EMPTY, steps).1[i].id != Run(EMPTY, steps).1[j].id
    ensures Run(EMPTY, steps).1[i].execution != Run(EMPTY, steps).1[j].execution
  {
    var h := Run(EMPTY, steps).1;
    EveryRunIsJustified(steps);
    assert EventJustified(h[..j], h[j]);
    assert h[..j][i] == h[i];
  }

  /** Whoever gets a dispatch holds every scope of the operation, scopes being words. */
  lemma DispatcherHoldsScopes(steps: seq<Step>, k: nat, i: nat)
    requires k < |Run(EMPTY, steps).1| && Run(EMPTY, steps).1[k].DispatchedEvent?
    requires var required := Run(EMPTY, steps).1[k].op.requiredScopes;
             i < |required| && forall j :: 0 <= j < |required| ==> required[j] != "" && Scopes.NoSpace(required[j])
    ensures Run(EMPTY, steps).1[k].op.requiredScopes[i] in Run(EMPTY, steps).1[k].caller.scopes
  {
    hide Run, Scopes.Holds;
    var h := Run(EMPTY, steps).1;
    EveryRunIsJustified(steps);
    assert EventJustified(h[..k], h[k]);
    Scopes.HoldsExactly(h[k].op.requiredScopes, h[k].caller.scopes);
  }

  /** Once dispatched, every resume by the owner answers with that same execution and changes nothing. */
  lemma LaterResumesObserve(steps: seq<Step>, k: nat, caller: Caller, now: int, snapshot: Option<Operation>, exec: Id)
    requires k < |Run(EMPTY, steps).1| && Run(EMPTY, steps).1[k].DispatchedEvent?
    requires caller.client == Run(EMPTY, steps).1[k].caller.client
    ensures
      var (y, h) := Run(EMPTY, steps);
      var x := h[k].execution;
      && x in y.store.executions && y.store.executions[x].approval == h[k].id
      && ResumeRow(y.store, h[k].id, caller, now, snapshot, exec) == (y.store, Existing(x, y.store.executions[x]))
  {
    var (y, h) := Run(EMPTY, steps);
    EveryRunIsJustified(steps);
    OwnerNeverChanges(EMPTY, steps, k);
    assert y.store.approvals[h[k].id].execution == Some(h[k].execution);
  }

  /** A resume transaction keeps every execution row, and of the approvals rewrites only one open row. */
  lemma ResumeRowKeeps(s: Store, id: Id, caller: Caller, now: int, snapshot: Option<Operation>, exec: Id)
    ensures var s' := ResumeRow(s, id, caller, now, snapshot, exec).0;
            && s'.approvals.Keys == s.approvals.Keys
            && (forall x :: x in s.executions ==> x in s'.executions && s'.executions[x] == s.executions[x])
            && (forall i :: i in s.approvals ==>
                  && s'.approvals[i].client == s.approvals[i].client
                  && (!Open(s.approvals[i].status) ==> s'.approvals[i] == s.approvals[i]))
  {
  }

  lemma OwnerStep(y: System, step: Step, id: Id)
    requires id in y.store.approvals
    ensures id in Apply(y, step).0.store.approvals
    ensures Apply(y, step).0.store.approvals[id].client == y.store.approvals[id].client
  {
    hide ResumeRow, Open;
    match step
    case ResumeStep(thread, exec) =>
      if thread in y.resuming {
        var t := y.resuming[thread];
        ResumeRowKeeps(y.store, t.id, t.caller, t.now, t.snapshot, exec);
      }
    case _ =>
  }

  lemma {:induction false} RowOwnerKept(y: System, steps: seq<Step>, id: Id)
    requires id in y.store.approvals
    ensures id in Run(y, steps).0.store.approvals
    ensures Run(y, steps).0.store.approvals[id].client == y.store.approvals[id].client
    decreases |steps|
  {
    if steps != [] {
      hide Apply;
      OwnerStep(y, steps[0], id);
      RowOwnerKept(Apply(y, steps[0]).0, steps[1..], id);
    }
  }

  lemma {:induction false} OwnerNeverChanges(y: System, steps: seq<Step>, k: nat)
    requires k < |Run(y, steps).1| && Run(y, steps).1[k].DispatchedEvent?
    ensures var e := Run(y, steps).1[k];
            e.id in Run(y, steps).0.store.approvals && Run(y, steps).0.store.approvals[e.id].client == e.caller.client
    decreases |steps|
  {
    var (y1, e) := Apply(y, steps[0]);
    if k < |e| {
      assert e[k].id in y1.store.approvals && y1.store.approvals[e[k].id].client == e[k].caller.client;
      RowOwnerKept(y1, steps[1..], e[k].id);
    } else {
      OwnerNeverChanges(y1, steps[1..], k - |e|);
    }
  }

  /** No event of `h` allows or dispatches `id`. */
  ghost predicate NeverServed(h: seq<Event>, id: Id) {
    forall k :: 0 <= k < |h| && (h[k].DispatchedEvent? || h[k].AllowedEvent?) ==> h[k].id != id
  }

  lemma ClosedStep(y: System, step: Step, id: Id)
    requires id in y.store.approvals && !Open(y.store.approvals[id].status)
    ensures id in Apply(y, step).0.store.approvals && !Open(Apply(y, step).0.store.approvals[id].status)
    ensures NeverServed(Apply(y, step).1, id)
  {
    hide ApplyResume, ApplyDecide;
    match step
    case ResumeStep(thread, exec) => ClosedResume(y, thread, exec, id);
    case DecideStep(i, decision, now, lifetime) => ClosedDecide(y, i, decision, now, lifetime, id);
    case _ =>
  }

  lemma ClosedDecide(y: System, i: Id, decision: LocalDecision, now: int, lifetime: nat, id: Id)
    requires id in y.store.approvals && !Open(y.store.approvals[id].status)
    ensures var (z, e) := ApplyDecide(y, i, decision, now, lifetime);
            && id in z.store.approvals && !Open(z.store.approvals[id].status)
            && NeverServed(e, id)
  {
  }

  lemma ClosedResume(y: System, thread: ThreadId, exec: Id, id: Id)
    requires id in y.store.approvals && !Open(y.store.approvals[id].status)
    ensures var (z, e) := ApplyResume(y, thread, exec);
            && id in z.store.approvals && !Open(z.store.approvals[id].status)
            && NeverServed(e, id)
  {
    hide ResumeRow, Scopes.Holds;
    if thread in y.resuming {
      var t := y.resuming[thread];
      ResumeRowKeeps(y.store, t.id, t.caller, t.now, t.snapshot, exec);
    }
  }

  /** Denied, expired, consumed, cancelled and invalidated are final: from any state at all,
      no interleaving allows or dispatches the approval again. */
  lemma {:induction false} ClosedIsFinal(y: System, steps: seq<Step>, id: Id)
    requires id in y.store.approvals && !Open(y.store.approvals[id].status)
    ensures id in Run(y, steps).0.store.approvals && !Open(Run(y, steps).0.store.approvals[id].status)
    ensures NeverServed(Run(y, steps).1, id)
    decreases |steps|
  {
    if steps != [] {
      hide Apply, Open;
      ClosedStep(y, steps[0], id);
      ClosedIsFinal(Apply(y, steps[0]).0, steps[1..], id);
    }
  }

  /** An execution row that is no longer marked dispatched never becomes so again, and keeps its approval. */
  lemma {:induction false} NeverRedispatched(y: System, steps: seq<Step>, exec: Id)
    requires exec in y.store.executions && y.store.executions[exec].status != Dispatched
    ensures exec in Run(y, steps).0.store.executions
    ensures Run(y, steps).0.store.executions[exec].status != Dispatched
    ensures Run(y, steps).0.store.executions[exec].approval == y.store.executions[exec].approval
    decreases |steps|
  {
    hide Apply;
    if steps != [] {
      ExecutionStep(y, steps[0], exec);
      NeverRedispatched(Apply(y, steps[0]).0, steps[1..], exec);
    }
  }

  lemma ExecutionStep(y: System, step: Step, exec: Id)
    requires exec in y.store.executions && y.store.executions[exec].status != Dispatched
    ensures var z := Apply(y, step).0.store.executions;
            exec in z && z[exec].status != Dispatched && z[exec].approval == y.store.executions[exec].approval
  {
    hide ResumeRow, Open;
    match step
    case ResumeStep(thread, x) =>
      if thread in y.resuming {
        var t := y.resuming[thread];
        ResumeRowKeeps(y.store, t.id, t.caller, t.now, t.snapshot, x);
      }
    case _ =>
  }

  /** A restart at any point: no row is left dispatched, the interrupted ones read `outcome_unknown`,
      and nothing requested before the restart can be dispatched after it. */
  lemma RestartCutsOff(y: System, now: int, later: seq<Step>)
    ensures
      var z := Apply(y, RestartStep(now)).0;
      && (forall x :: x in y.store.executions ==>
            && x in z.store.executions
            && z.store.executions[x].status ==
               (if y.store.executions[x].status == Dispatched then OutcomeUnknown else y.store.executions[x].status))
      && (forall k :: 0 <= k < |Run(z, later).1| && Run(z, later).1[k].DispatchedEvent? ==>
            Run(z, later).1[k].id !in y.store.approvals)
      && (forall x :: x in y.store.executions ==>
            && x in Run(z, later).0.store.executions
            && Run(z, later).0.store.executions[x].status != Dispatched)
  {
    var z := Apply(y, RestartStep(now)).0;
    forall id | id in y.store.approvals
      ensures forall k :: 0 <= k < |Run(z, later).1| && Run(z, later).1[k].DispatchedEvent? ==>
          Run(z, later).1[k].id != id
    {
      ClosedIsFinal(z, later, id);
    }
    forall x | x in y.store.executions
      ensures x in Run(z, later).0.store.executions && Run(z, later).0.store.executions[x].status != Dispatched
    {
      NeverRedispatched(z, later, x);
    }
  }

  // ------------------------------------------------------------ the service

  datatype CreateResult = Created(id: Id) | CreateFailed
  datatype DecideResult = Decided(row: Approval) | DecideFailed(error: ErrorCode)

  /** The pieces of one `begin_resume` run back to back: read the snapshot, commit, drop a consumed snapshot. */
  function ResumeCall(s: Store, id: Id, caller: Caller, now: int, exec: Id): (Store, ResumeOutcome) {
    var snapshot := if id in s.ops then Some(s.ops[id]) else None;
    var (s', outcome) := ResumeRow(s, id, caller, now, snapshot, exec);
    if outcome.Dispatch? && s'.approvals[id].status == Consumed then (DropOp(s', id), outcome) else (s', outcome)
  }

  predicate Matches(row: Approval, client: Option<Id>, session: Option<Id>) {
    && Open(row.status)
    && (client.Some? ==> row.client == client.value)
    && (session.Some? ==> row.session == session.value)
  }

  /** The rows named in `ids` get the given status; their snapshots go. */
  function CloseAll(s: Store, ids: set<Id>, status: Status): Store {
    Store(
      map id | id in s.approvals :: if id in ids then s.approvals[id].(status := status) else s.approvals[id],
      s.executions,
      s.ops - ids)
  }

  class ApprovalService {
    var approvals: map<Id, Approval>
    var executions: map<Id, Execution>
    var ops: map<Id, Operation>

    function View(): Store
      reads this
    {
      Store(approvals, executions, ops)
    }

    /** A new process over whatever the database holds, after recovery. */
    constructor (rows: map<Id, Approval>, runs: map<Id, Execution>, now: int)
      ensures View() == RestartStore(Store(rows, runs, map[]), now)
    {
      approvals, executions, ops := rows, runs, map[];
      new;
      StartupRecovery(now);
    }

    method StartupRecovery(now: int)
      modifies this
      ensures approvals == RestartStore(old(View()), now).approvals
      ensures executions == RestartStore(old(View()), now).executions
      ensures ops == old(ops)
    {
      approvals := map id | id in approvals ::
        if approvals[id].status in {Pending, AllowedOnce, AllowedSession}
        then approvals[id].(status := Invalidated) else approvals[id];
      executions := map x | x in executions ::
        if executions[x].status == Dispatched
        then executions[x].(status := OutcomeUnknown, completedAt := Some(now)) else executions[x];
    }

    method Create(id: Id, client: Id, session: Id, op: Operation, revision: nat, now: int, lifetime: nat)
        returns (r: CreateResult)
      modifies this
      ensures r == if id in old(approvals) then CreateFailed else Created(id)
      ensures id in old(approvals) ==> View() == old(View())
      ensures id !in old(approvals) ==>
        && approvals == old(approvals)[id := NewRow(client, session, op, revision, now, lifetime)]
        && Snapshot(approvals[id]) == op && ops == old(ops)[id := op] && executions == old(executions)
    {
      if id in approvals {
        return CreateFailed;
      }
      var expires := now + lifetime;
      var digest := Digest(op.tool, op.arguments, op.descriptor, revision, client, session);
      approvals := approvals[id := Approval(client, session, Pending, now, expires, None, None, revision, digest,
                                            op.requiredScopes, op.sessionScope)];
      ops := ops[id := op];
      r := Created(id);
    }

    method Decide(id: Id, decision: LocalDecision, now: int, lifetime: nat) returns (r: DecideResult)
      modifies this
      ensures
        var (s, error) := DecideRow(old(View()), id, decision, now, lifetime);
        match error
        case Some(code) => r == DecideFailed(code) && View() == s
        case None => View() == (if decision == Deny then DropOp(s, id) else s) && r == Decided(s.approvals[id])
    {
      var status :=
          match decision case AllowOnce => AllowedOnce case AllowForSession => AllowedSession case Deny => Denied;
      var newExpiry := now + lifetime;
      if id !in approvals {
        return DecideFailed(NotFound);
      }
      var row := approvals[id];
      if row.status != Pending {
        return DecideFailed(InvalidRequest);
      }
      if row.expiresAt < now {
        approvals := approvals[id := row.(status := Expired)];
        return DecideFailed(ApprovalExpired);
      }
      approvals := approvals[id := row.(status := status, decidedAt := Some(now),
                                        expiresAt := if status == Denied then row.expiresAt else newExpiry)];
      if decision == Deny {
        ops := ops - {id};
      }
      r := Decided(approvals[id]);
    }

    method BeginResume(id: Id, caller: Caller, now: int, exec: Id) returns (r: ResumeOutcome)
      modifies this
      ensures (View(), r) == ResumeCall(old(View()), id, caller, now, exec)
    {
      var op := if id in ops then Some(ops[id]) else None;
      if id !in approvals {
        return Refused(NotFound);
      }
      var row := approvals[id];
      if row.client != caller.client {
        return Refused(NotFound);
      }
      if row.execution.Some? {
        var x := row.execution.value;
        if x in executions {
          return Existing(x, executions[x]);
        }
        return Refused(InternalError);
      }
      match row.status {
        case Pending => return Refused(ApprovalPending);
        case Denied => return Refused(ApprovalDenied);
        case Expired => return Refused(ApprovalExpired);
        case AllowedOnce =>
        case AllowedSession =>
        case _ => return Refused(ApprovalInvalidated);
      }
      if row.expiresAt < now {
        approvals := approvals[id := row.(status := Expired)];
        return Refused(ApprovalExpired);
      }
      if row.session != caller.session {
        approvals := approvals[id := row.(status := Invalidated)];
        return Refused(ApprovalInvalidated);
      }
      if row.revision != caller.revision {
        approvals := approvals[id := row.(status := Invalidated)];
        return Refused(ApprovalInvalidated);
      }
      var words := Scopes.Words(Scopes.Join(row.requiredScopes), "");
      if exists i :: 0 <= i < |words| && words[i] !in caller.scopes {
        return Refused(InsufficientScope);
      }
      if op == None {
        approvals := approvals[id := row.(status := Invalidated)];
        return Refused(ApprovalInvalidated);
      }
      if exec in executions {
        return Refused(InternalError);
      }
      var consumed := if row.status == AllowedOnce then Consumed else AllowedSession;
      approvals := approvals[id := row.(execution := Some(exec), status := consumed)];
      executions :=
          executions[exec := Execution(id, caller.client, row.digest.tool, Dispatched, None, None, now, None)];
      if approvals[id].status == Consumed {
        ops := ops - {id};
      }
      r := Dispatch(op.value, exec);
    }

    method CompleteExecution(exec: Id, status: ExecutionStatus, result: Option<string>, task: Option<Id>, now: int)
      modifies this
      ensures View() == CompleteRow(old(View()), exec, status, result, task, now)
    {
      if exec in executions {
        var e := executions[exec];
        if task.Some? {
          e := e.(task := task);
        }
        executions := executions[exec := e.(status := status, result := result, completedAt := Some(now))];
      }
    }

    /** Close the open approvals of a client and session; answers which ones. */
    method Invalidate(client: Option<Id>, session: Option<Id>, status: Status) returns (ids: set<Id>)
      modifies this
      ensures ids == set id | id in old(approvals) && Matches(old(approvals)[id], client, session)
      ensures View() == CloseAll(old(View()), ids, status)
      ensures approvals.Keys == old(approvals).Keys
      ensures forall id :: id in approvals ==>
        var row := old(approvals)[id];
        approvals[id] ==
          if row.status in {Pending, AllowedOnce, AllowedSession}
             && (client == None || client == Some(row.client)) && (session == None || session == Some(row.session))
          then row.(status := status) else row
    {
      ids := set id | id in approvals && Matches(approvals[id], client, session);
      UpdateStatus(ids, status);
      ops := ops - ids;
    }

    method ExpireSweep(now: int) returns (ids: set<Id>)
      modifies this
      ensures ids == set id | id in old(approvals) && SweepSelects(old(approvals)[id], now)
      ensures View() == CloseAll(old(View()), ids, Expired)
      ensures approvals.Keys == old(approvals).Keys
      ensures forall id :: id in approvals ==>
        var row := old(approvals)[id];
        approvals[id] ==
          if row.status in {Pending, AllowedOnce} && row.expiresAt < now then row.(status := Expired) else row
    {
      ids := set id | id in approvals && approvals[id].status in {Pending, AllowedOnce}
          && approvals[id].expiresAt < now;
      UpdateStatus(ids, Expired);
      ops := ops - ids;
    }

    /** The row-by-row update loop shared by `invalidate` and `expire_sweep`. */
    method UpdateStatus(ids: set<Id>, status: Status)
      requires ids <= approvals.Keys
      modifies this`approvals
      ensures approvals == CloseAll(old(View()), ids, status).approvals
    {
      hide CloseAll;
      ghost var s := View();
      var todo := ids;
      CloseNone(s, status);
      assert ids - todo == {};
      while todo != {}
        invariant todo <= ids && approvals == CloseAll(s, ids - todo, status).approvals
        decreases |todo|
      {
        var id :| id in todo;
        CloseOneMore(s, ids - todo, id, status);
        approvals := approvals[id := approvals[id].(status := status)];
        assert ids - todo + {id} == ids - (todo - {id});
        todo := todo - {id};
      }
      assert ids - todo == ids;
    }
  }

  // ------------------------------------------------------------ calls are runs of steps

  /** One whole `begin_resume` is the read, the transaction and possibly a drop, in the step system. */
  lemma ResumeCallIsARun(y: System, thread: ThreadId, id: Id, caller: Caller, now: int, exec: Id)
    ensures
      var (s, outcome) := ResumeCall(y.store, id, caller, now, exec);
      var drop := if outcome.Dispatch? && s.ops != y.store.ops then [DropStep(id)] else [];
      Run(y, [ReadStep(thread, id, caller, now), ResumeStep(thread, exec)] + drop).0.store == s
  {
    var (s, outcome) := ResumeCall(y.store, id, caller, now, exec);
    var drop := if outcome.Dispatch? && s.ops != y.store.ops then [DropStep(id)] else [];
    var read, resume := ReadStep(thread, id, caller, now), ResumeStep(thread, exec);
    var steps := [read, resume] + drop;
    var y1 := Apply(y, read).0;
    var y2 := Apply(y1, resume).0;
    assert steps[1..] == [resume] + drop && steps[1..][1..] == drop;
    assert Run(y, steps).0 == Run(y1, [resume] + drop).0;
    assert Run(y1, [resume] + drop).0 == Run(y2, drop).0;
    if drop != [] {
      assert Run(y2, drop).0 == Apply(y2, drop[0]).0;
    } else {
      assert s.ops == y.store.ops;
    }
  }

  lemma CloseOneMore(s: Store, ids: set<Id>, id: Id, status: Status)
    requires id in s.approvals && id !in ids
    ensures var rows := CloseAll(s, ids, status).approvals;
            id in rows && CloseAll(s, ids + {id}, status).approvals == rows[id := rows[id].(status := status)]
  {
  }

  lemma CloseAllPeel(s: Store, ids: set<Id>, id: Id, status: Status)
    requires id in ids && id in s.approvals && Open(s.approvals[id].status)
    ensures CloseAll(DropOp(CloseRow(s, id, status), id), ids - {id}, status) == CloseAll(s, ids, status)
  {
    var (p, q) := (CloseAll(DropOp(CloseRow(s, id, status), id), ids - {id}, status), CloseAll(s, ids, status));
    assert p.approvals == q.approvals;
    assert p.ops == q.ops;
  }

  /** Closing a set of rows and dropping their snapshots is a run of single-row steps. */
  lemma {:induction false} CloseAllIsARun(y: System, ids: set<Id>, cancelled: bool) returns (steps: seq<Step>)
    requires forall id :: id in ids ==> id in y.store.approvals && Open(y.store.approvals[id].status)
    ensures Run(y, steps).0.store == CloseAll(y.store, ids, if cancelled then Cancelled else Invalidated)
    decreases |ids|
  {
    hide CloseAll;
    if ids == {} {
      steps := [];
      CloseNone(y.store, if cancelled then Cancelled else Invalidated);
    } else {
      var id :| id in ids;
      var close, drop := CloseStep(id, cancelled), DropStep(id);
      var y1 := Apply(y, close).0;
      var y2 := Apply(y1, drop).0;
      CloseAllPeel(y.store, ids, id, if cancelled then Cancelled else Invalidated);
      var rest := CloseAllIsARun(y2, ids - {id}, cancelled);
      hide Apply;
      steps := [close] + ([drop] + rest);
      assert steps[1..] == [drop] + rest && ([drop] + rest)[1..] == rest;
    }
  }

  /** The expiry sweep likewise. */
  lemma {:induction false} ExpireAllIsARun(y: System, ids: set<Id>, now: int) returns (steps: seq<Step>)
    requires forall id :: id in ids ==> id in y.store.approvals && SweepSelects(y.store.approvals[id], now)
    ensures Run(y, steps).0.store == CloseAll(y.store, ids, Expired)
    decreases |ids|
  {
    hide CloseAll;
    if ids == {} {
      steps := [];
      CloseNone(y.store, Expired);
    } else {
      var id :| id in ids;
      var expire, drop := ExpireStep(id, now), DropStep(id);
      var y1 := Apply(y, expire).0;
      var y2 := Apply(y1, drop).0;
      CloseAllPeel(y.store, ids, id, Expired);
      var rest := ExpireAllIsARun(y2, ids - {id}, now);
      hide Apply;
      steps := [expire] + ([drop] + rest);
      assert steps[1..] == [drop] + rest && ([drop] + rest)[1..] == rest;
    }
  }

  lemma CloseNone(s: Store, status: Status)
    ensures CloseAll(s, {}, status) == s
  {
    assert CloseAll(s, {}, status).approvals == s.approvals;
  }
}
