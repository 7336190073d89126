/**
 What callers of the approval engine hear: which refusal a resume answers with, how
 long a request and an allowance last, and what a later resume shows of an outcome.
 */
module ApprovalAnswers {
  import opened Wrappers
  import Scopes
  import opened Approvals

  // ------------------------------------------------------------ one resume

  /** Only the owner learns that an approval exists. */
  lemma StrangersHearNotFound(s: Store, id: Id, caller: Caller, now: int, snapshot: Option<Operation>, exec: Id)
    ensures ResumeRow(s, id, caller, now, snapshot, exec).1 == Refused(NotFound) <==>
            id !in s.approvals || s.approvals[id].client != caller.client
  {
  }

  predicate IsAllowed(row: Approval) {
    row.status == AllowedOnce || row.status == AllowedSession
  }

  /** An allowance used in time, from the session and under the revision it was given for. */
  predicate Usable(row: Approval, caller: Caller, now: int) {
    IsAllowed(row) && now <= row.expiresAt && row.session == caller.session && row.revision == caller.revision
  }

  ghost predicate LacksAWord(row: Approval, caller: Caller) {
    var words := Scopes.Words(Scopes.Join(row.requiredScopes), "");
    exists i :: 0 <= i < |words| && words[i] !in caller.scopes
  }

  /** An approval of the caller that has not been dispatched. */
  predicate Undispatched(s: Store, id: Id, caller: Caller) {
    id in s.approvals && s.approvals[id].client == caller.client && s.approvals[id].execution == None
  }

  /** Each refusal has exactly one cause. */
  lemma RefusalSaysWhy(s: Store, id: Id, caller: Caller, now: int, snapshot: Option<Operation>, exec: Id)
    requires Undispatched(s, id, caller)
    ensures
      var row := s.approvals[id];
      var answer := ResumeRow(s, id, caller, now, snapshot, exec).1;
      && (answer == Refused(ApprovalPending) <==> row.status == Pending)
      && (answer == Refused(ApprovalDenied) <==> row.status == Denied)
      && (answer == Refused(ApprovalExpired) <==> row.status == Expired || (IsAllowed(row) && row.expiresAt < now))
      && (answer == Refused(InsufficientScope) <==> Usable(row, caller, now) && LacksAWord(row, caller))
      && (answer == Refused(ApprovalInvalidated) <==>
          || row.status in {Consumed, Invalidated, Cancelled}
          || (IsAllowed(row) && now <= row.expiresAt && !Usable(row, caller, now))
          || (Usable(row, caller, now) && !LacksAWord(row, caller) && snapshot == None))
      && (answer == Refused(InternalError) <==>
          Usable(row, caller, now) && !LacksAWord(row, caller) && snapshot.Some? && exec in s.executions)
      && (answer.Dispatch? <==>
          Usable(row, caller, now) && !LacksAWord(row, caller) && snapshot.Some? && exec !in s.executions)
      && !answer.Existing?
  {
  }

  /** A late, misplaced or orphaned allowance is closed by the resume that finds it so; any other refusal changes
      nothing, and a dispatch uses up a single allowance. */
  lemma ResumeSettles(s: Store, id: Id, caller: Caller, now: int, snapshot: Option<Operation>, exec: Id)
    requires Undispatched(s, id, caller)
    ensures
      var row := s.approvals[id];
      var (s', answer) := ResumeRow(s, id, caller, now, snapshot, exec);
      && id in s'.approvals
      && (forall i :: i in s.approvals && i != id ==> i in s'.approvals && s'.approvals[i] == s.approvals[i])
      && (answer.Dispatch? ==>
            && s'.approvals[id].status == (if row.status == AllowedOnce then Consumed else AllowedSession)
            && s'.approvals[id].execution == Some(exec) && exec in s'.executions
            && s'.executions[exec].status == Dispatched && s'.executions[exec].approval == id
            && s'.executions[exec].client == row.client && s'.executions[exec].tool == row.digest.tool
            && s'.executions[exec].result == None && s'.executions[exec].createdAt == now)
      && (IsAllowed(row) && row.expiresAt < now ==> s'.approvals[id] == row.(status := Expired))
      && (IsAllowed(row) && now <= row.expiresAt && answer == Refused(ApprovalInvalidated) ==>
            s'.approvals[id] == row.(status := Invalidated))
      && (answer.Refused? && (!IsAllowed(row) || answer.error in {InsufficientScope, InternalError}) ==> s' == s)
  {
  }

  // ------------------------------------------------------------ decisions and windows

  /** A decision succeeds exactly on a pending row in time; then the status is the one decided, an allowance opens a
      new window and a denial keeps the old one. */
  lemma DecisionDoes(s: Store, id: Id, decision: LocalDecision, now: int, lifetime: nat)
    ensures
      var (s', error) := DecideRow(s, id, decision, now, lifetime);
      && (error == Some(NotFound) <==> id !in s.approvals)
      && (error == Some(InvalidRequest) <==> id in s.approvals && s.approvals[id].status != Pending)
      && (error == Some(ApprovalExpired) <==>
          id in s.approvals && s.approvals[id].status == Pending && s.approvals[id].expiresAt < now)
      && (error == None <==>
          id in s.approvals && s.approvals[id].status == Pending && now <= s.approvals[id].expiresAt)
      && (error == Some(ApprovalExpired) ==> s'.approvals[id] == s.approvals[id].(status := Expired))
      && (error in {Some(NotFound), Some(InvalidRequest)} ==> s' == s)
      && (error == None ==>
            var (row, row') := (s.approvals[id], s'.approvals[id]);
            && row'.decidedAt == Some(now)
            && (row'.status == AllowedOnce <==> decision == AllowOnce)
            && (row'.status == AllowedSession <==> decision == AllowForSession)
            && (row'.status == Denied <==> decision == Deny)
            && row'.expiresAt == (if decision == Deny then row.expiresAt else now + lifetime))
  {
  }

  /** A request can be decided up to its lifetime after it was made, and no longer. */
  lemma RequestWindow(
      s: Store, id: Id, client: Id, session: Id, op: Operation, revision: nat, at: int, lifetime: nat,
      decision: LocalDecision, now: int, next: nat)
    requires id !in s.approvals
    ensures
      var s1 := CreateRow(s, id, NewRow(client, session, op, revision, at, lifetime)).0;
      DecideRow(s1, id, decision, now, next).1 == if now <= at + lifetime then None else Some(ApprovalExpired)
  {
  }

  /** From request to dispatch: an allowance given in time lets the requesting client, session and revision through
      up to its own lifetime, once if it was given once. */
  lemma AllowanceWindow(
      s: Store, id: Id, caller: Caller, op: Operation, at: int, lifetime: nat, decision: LocalDecision, now: int,
      next: nat, later: int, exec: Id)
    requires id !in s.approvals && exec !in s.executions && decision != Deny && now <= at + lifetime
    requires Scopes.Holds(op.requiredScopes, caller.scopes)
    ensures
      var s1 := CreateRow(s, id, NewRow(caller.client, caller.session, op, caller.revision, at, lifetime)).0;
      var s2 := DecideRow(s1, id, decision, now, next).0;
      var (s3, answer) := ResumeRow(s2, id, caller, later, Some(op), exec);
      && (answer == (if later <= now + next then Dispatch(op, exec) else Refused(ApprovalExpired)))
      && (later <= now + next ==>
            s3.approvals[id].status == if decision == AllowOnce then Consumed else AllowedSession)
  {
    hide Scopes.Holds;
  }

  // ------------------------------------------------------------ what is closed stays as it is

  lemma ClosedRowStep(y: System, step: Step, id: Id)
    requires id in y.store.approvals && !Open(y.store.approvals[id].status)
    ensures id in Apply(y, step).0.store.approvals && Apply(y, step).0.store.approvals[id] == y.store.approvals[id]
  {
    hide ResumeRow;
    match step
    case ResumeStep(thread, exec) =>
      if thread in y.resuming {
        var t := y.resuming[thread];
        ResumeRowKeeps(y.store, t.id, t.caller, t.now, t.snapshot, exec);
      }
    case _ =>
  }

  /** A closed row is never rewritten, by whatever interleaving. */
  lemma {:induction false} ClosedRowStays(y: System, steps: seq<Step>, id: Id)
    requires id in y.store.approvals && !Open(y.store.approvals[id].status)
    ensures id in Run(y, steps).0.store.approvals && Run(y, steps).0.store.approvals[id] == y.store.approvals[id]
    decreases |steps|
  {
    hide Apply;
    if steps != [] {
      ClosedRowStep(y, steps[0], id);
      ClosedRowStays(Apply(y, steps[0]).0, steps[1..], id);
    }
  }

  /** So its owner hears the same answer for ever. */
  lemma ClosedAnswers(
      y: System, steps: seq<Step>, id: Id, caller: Caller, now: int, snapshot: Option<Operation>, exec: Id)
    requires Undispatched(y.store, id, caller) && !Open(y.store.approvals[id].status)
    ensures
      var status := y.store.approvals[id].status;
      var answer := ResumeRow(Run(y, steps).0.store, id, caller, now, snapshot, exec).1;
      && (status == Denied ==> answer == Refused(ApprovalDenied))
      && (status == Expired ==> answer == Refused(ApprovalExpired))
      && (status in {Invalidated, Cancelled, Consumed} ==> answer == Refused(ApprovalInvalidated))
  {
    hide Run, ResumeRow;
    ClosedRowStays(y, steps, id);
    RefusalSaysWhy(Run(y, steps).0.store, id, caller, now, snapshot, exec);
  }

  /** After a denial in time, whatever happens next, the requesting client hears that it was denied. */
  lemma DenialIsHeard(
      y: System, id: Id, at: int, lifetime: nat, later: seq<Step>, caller: Caller, now: int,
      snapshot: Option<Operation>, exec: Id)
    requires Undispatched(y.store, id, caller) && y.store.approvals[id].status == Pending
    requires at <= y.store.approvals[id].expiresAt
    ensures
      var z := Apply(y, DecideStep(id, Deny, at, lifetime)).0;
      ResumeRow(Run(z, later).0.store, id, caller, now, snapshot, exec).1 == Refused(ApprovalDenied)
  {
    hide Run, ResumeRow;
    ClosedAnswers(Apply(y, DecideStep(id, Deny, at, lifetime)).0, later, id, caller, now, snapshot, exec);
  }

  /** After an invalidation or a restart it hears that the approval is no longer valid. */
  lemma InvalidationIsHeard(
      y: System, id: Id, step: Step, later: seq<Step>, caller: Caller, now: int, snapshot: Option<Operation>, exec: Id)
    requires Undispatched(y.store, id, caller) && Open(y.store.approvals[id].status)
    requires step.RestartStep? || (step.CloseStep? && step.id == id)
    ensures
      var z := Apply(y, step).0;
      ResumeRow(Run(z, later).0.store, id, caller, now, snapshot, exec).1 == Refused(ApprovalInvalidated)
  {
    hide Run, ResumeRow;
    ClosedAnswers(Apply(y, step).0, later, id, caller, now, snapshot, exec);
  }

  /** The sweep expires a late pending or once-allowed row, and leaves every other row alone. */
  lemma SweepIsHeard(
      y: System, id: Id, at: int, later: seq<Step>, caller: Caller, now: int, snapshot: Option<Operation>, exec: Id)
    requires Undispatched(y.store, id, caller)
    ensures
      var row := y.store.approvals[id];
      var z := Apply(y, ExpireStep(id, at)).0;
      && ((row.status == Pending || row.status == AllowedOnce) && row.expiresAt < at ==>
            ResumeRow(Run(z, later).0.store, id, caller, now, snapshot, exec).1 == Refused(ApprovalExpired))
      && (!((row.status == Pending || row.status == AllowedOnce) && row.expiresAt < at) ==> z == y)
  {
    hide Run, ResumeRow;
    var z := Apply(y, ExpireStep(id, at)).0;
    if !Open(z.store.approvals[id].status) {
      ClosedAnswers(z, later, id, caller, now, snapshot, exec);
    }
  }

  // ------------------------------------------------------------ outcomes

  predicate Rewrites(step: Step, exec: Id) {
    step.CompleteStep? && step.exec == exec
  }

  lemma OutcomeStep(y: System, step: Step, exec: Id)
    requires exec in y.store.executions && y.store.executions[exec].status in {Completed, Failed}
    requires !Rewrites(step, exec)
    ensures exec in Apply(y, step).0.store.executions
    ensures Apply(y, step).0.store.executions[exec] == y.store.executions[exec]
  {
    hide ResumeRow, Open;
    match step
    case ResumeStep(thread, x) =>
      if thread in y.resuming {
        var t := y.resuming[thread];
        ResumeRowKeeps(y.store, t.id, t.caller, t.now, t.snapshot, x);
      }
    case _ =>
  }

  lemma {:induction false} OutcomeStays(y: System, steps: seq<Step>, exec: Id)
    requires exec in y.store.executions && y.store.executions[exec].status in {Completed, Failed}
    requires forall i :: 0 <= i < |steps| ==> !Rewrites(steps[i], exec)
    ensures exec in Run(y, steps).0.store.executions
    ensures Run(y, steps).0.store.executions[exec] == y.store.executions[exec]
    decreases |steps|
  {
    hide Apply;
    if steps != [] {
      assert !Rewrites(steps[0], exec);
      OutcomeStep(y, steps[0], exec);
      OutcomeStays(Apply(y, steps[0]).0, steps[1..], exec);
    }
  }

  /** Once an outcome is recorded, every later resume by the owner shows it, restarts included. */
  lemma OutcomeIsShown(
      y: System, h: seq<Event>, exec: Id, ok: bool, result: Option<string>, task: Option<Id>, at: int,
      later: seq<Step>, caller: Caller, now: int, snapshot: Option<Operation>, other: Id)
    requires Inv(y, h) && exec in y.store.executions && caller.client == y.store.executions[exec].client
    requires forall i :: 0 <= i < |later| ==> !Rewrites(later[i], exec)
    ensures
      var z := Apply(y, CompleteStep(exec, ok, result, task, at)).0;
      var answer := ResumeRow(Run(z, later).0.store, y.store.executions[exec].approval, caller, now, snapshot, other).1;
      && answer.Existing? && answer.execution == exec
      && answer.view.status == (if ok then Completed else Failed) && answer.view.result == result
      && answer.view.completedAt == Some(at) && (task.Some? ==> answer.view.task == task)
  {
    hide Run, TablesInv, RowsExplained, HistoryJustified, HistoryInv;
    var step := CompleteStep(exec, ok, result, task, at);
    var (z, e) := Apply(y, step);
    var approval := y.store.executions[exec].approval;
    assert z.store.executions[exec].status == (if ok then Completed else Failed);
    OutcomeStays(z, later, exec);
    RunOfOne(y, step);
    RunKeeps(y, h, [step]);
    RunKeeps(z, h + e, later);
    LinkedRow(Run(z, later).0, h + e + Run(z, later).1, exec);
  }

  lemma RunOfOne(y: System, step: Step)
    ensures Run(y, [step]) == Apply(y, step)
  {
    var (y1, e) := Apply(y, step);
    assert [step][1..] == [] && Run(y1, []) == (y1, []);
    assert e + [] == e;
  }

  lemma LinkedRow(y: System, h: seq<Event>, exec: Id)
    requires Inv(y, h) && exec in y.store.executions
    ensures var a := y.store.executions[exec].approval;
            && a in y.store.approvals && y.store.approvals[a].execution == Some(exec)
            && y.store.approvals[a].client == y.store.executions[exec].client
  {
  }

  /** A restart turns a dispatched execution into one of unknown outcome, and reconciling it records the note unless a
      result is there; nothing else is reconciled. */
  lemma UnknownThenReconciled(y: System, exec: Id, now: int, note: string)
    requires exec in y.store.executions
    ensures
      var e := y.store.executions[exec];
      var z := Apply(y, RestartStep(now)).0;
      var w := Apply(z, ReconcileStep(exec, note)).0;
      && exec in z.store.executions && exec in w.store.executions
      && (e.status == Dispatched ==>
            && z.store.executions[exec] == e.(status := OutcomeUnknown, completedAt := Some(now))
            && w.store.executions[exec].status == Reconciled
            && w.store.executions[exec].result == (if e.result == None then Some(note) else e.result))
      && (e.status !in {Dispatched, OutcomeUnknown} ==> w.store.executions[exec] == e)
  {
  }
}
