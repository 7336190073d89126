/**
 Idempotency keys: a mutating call names a key, and for a day after the call that
 was told to proceed, every repetition of the key is answered from its row.

 The clock is read twice in one begin: once for the cut-off of old rows and once
 for the new row. A run is any sequence of begins, finishes and restarts.
 */
module Idempotency {
  import opened Wrappers

  const DAY_MS: int := 24 * 60 * 60 * 1000
  const MAX_KEY_BYTES: nat := 200

  datatype Status = InProgressRow | DoneRow | UnknownRow

  datatype Row = Row(tool: string, digest: string, status: Status, result: Option<string>, createdAt: int)

  /** A client and one of its keys; the key is its UTF-8 bytes. */
  datatype KeyRef = KeyRef(client: string, key: seq<nat>)

  type Table = map<KeyRef, Row>

  datatype Outcome = Proceed | Replay(result: string) | InProgress | Conflict | BadKey | Silent

  datatype Step =
    | BeginStep(key: KeyRef, tool: string, digest: string, cutoffRead: int, insertRead: int)
    | FinishStep(key: KeyRef, result: string)
    | RestartStep

  predicate KeyAccepted(k: KeyRef) {
    1 <= |k.key| <= MAX_KEY_BYTES
  }

  function DropOld(t: Table, now: int): Table {
    map k | k in t && !(t[k].createdAt < now - DAY_MS) :: t[k]
  }

  function Begin(t: Table, k: KeyRef, tool: string, digest: string, cutoffRead: int, insertRead: int)
      : (Table, Outcome) {
    if !KeyAccepted(k) then (t, BadKey)
    else
      var t1 := DropOld(t, cutoffRead);
      if k !in t1 then (t1[k := Row(tool, digest, InProgressRow, None, insertRead)], Proceed)
      else
        var row := t1[k];
        (t1,
         if row.tool != tool || row.digest != digest then Conflict
         else if row.status == DoneRow then Replay(if row.result.Some? then row.result.value else "null")
         else InProgress)
  }

  function Finish(t: Table, k: KeyRef, result: string): Table {
    if k in t then t[k := t[k].(status := DoneRow, result := Some(result))] else t
  }

  function Recover(t: Table): Table {
    map k | k in t :: if t[k].status == InProgressRow then t[k].(status := UnknownRow) else t[k]
  }

  function Apply(t: Table, step: Step): (Table, Outcome) {
    match step
    case BeginStep(k, tool, digest, cutoffRead, insertRead) => Begin(t, k, tool, digest, cutoffRead, insertRead)
    case FinishStep(k, result) => (Finish(t, k, result), Silent)
    case RestartStep => (Recover(t), Silent)
  }

  function Run(t: Table, steps: seq<Step>): (Table, seq<Outcome>)
    ensures |Run(t, steps).1| == |steps|
    decreases |steps|
  {
    if steps == [] then (t, [])
    else
      var (t1, o) := Apply(t, steps[0]);
      var (t2, os) := Run(t1, steps[1..]);
      (t2, [o] + os)
  }

  /** The clock never goes back, within a begin or from one begin to a later one. */
  predicate ClockMonotone(steps: seq<Step>) {
    && (forall i :: 0 <= i < |steps| && steps[i].BeginStep? ==> steps[i].cutoffRead <= steps[i].insertRead)
    && (forall i, j :: 0 <= i < j < |steps| && steps[i].BeginStep? && steps[j].BeginStep? ==>
          steps[i].insertRead <= steps[j].cutoffRead)
  }

  /** The result most recently stored for a key by the given steps. */
  function LastFinish(steps: seq<Step>, k: KeyRef): Option<string> {
    if steps == [] then None
    else
      var last := steps[|steps| - 1];
      if last.FinishStep? && last.key == k then Some(last.result) else LastFinish(steps[..|steps| - 1], k)
  }

  /** What a repeated begin must hear: the stored result, or that the call is still open. */
  function Expected(row: Row, tool: string, digest: string, stored: Option<string>): Outcome {
    if row.tool != tool || row.digest != digest then Conflict
    else match stored
      case None => InProgress
      case Some(r) => Replay(r)
  }

  lemma {:induction false} RunSplits(t: Table, steps: seq<Step>, i: nat)
    requires i <= |steps|
    ensures Run(t, steps).1[i..] == Run(Run(t, steps[..i]).0, steps[i..]).1
    decreases |steps|
  {
    if i == 0 {
      assert steps[0..] == steps && steps[..0] == [];
    } else {
      RunSplits(Apply(t, steps[0]).0, steps[1..], i - 1);
      assert steps[..i][1..] == steps[1..][..i - 1] && steps[1..][i - 1..] == steps[i..];
    }
  }

  lemma {:induction false} LastFinishPrepend(first: Step, steps: seq<Step>, k: KeyRef)
    ensures LastFinish([first] + steps, k) ==
            if LastFinish(steps, k).Some? then LastFinish(steps, k)
            else if first.FinishStep? && first.key == k then Some(first.result) else None
  {
    if steps == [] {
      assert [first] + steps == [first] && [first][..0] == [];
    } else {
      LastFinishPrepend(first, steps[..|steps| - 1], k);
      assert ([first] + steps)[..|steps|] == [first] + steps[..|steps| - 1];
    }
  }

  /** What has been stored for a row, counting what it already held. */
  function Stored(row: Row, steps: seq<Step>, k: KeyRef): Option<string> {
    var later := LastFinish(steps, k);
    if later.Some? then later else if row.status == DoneRow then row.result else None
  }

  lemma RunHead(t: Table, steps: seq<Step>)
    requires steps != []
    ensures Run(t, steps).1 == [Apply(t, steps[0]).1] + Run(Apply(t, steps[0]).0, steps[1..]).1
  {
  }

  /** A step on the table leaves a young row in place, and only a finish changes what it holds. */
  lemma RowKept(t: Table, k: KeyRef, step: Step)
    requires k in t && (step.BeginStep? ==> step.cutoffRead <= t[k].createdAt + DAY_MS)
    ensures var t1 := Apply(t, step).0;
            && k in t1 && t1[k].tool == t[k].tool && t1[k].digest == t[k].digest && t1[k].createdAt == t[k].createdAt
            && (if step.FinishStep? && step.key == k then t1[k].status == DoneRow && t1[k].result == Some(step.result)
                else t1[k].result == t[k].result && (t1[k].status == DoneRow <==> t[k].status == DoneRow))
  {
  }

  lemma ProceedInserts(t: Table, step: Step)
    requires step.BeginStep? && Apply(t, step).1 == Proceed
    ensures KeyAccepted(step.key) && step.key in Apply(t, step).0
    ensures Apply(t, step).0[step.key] == Row(step.tool, step.digest, InProgressRow, None, step.insertRead)
  {
  }

  /** While a row is younger than a day every begin on its key is answered from it. */
  lemma {:induction false} RowAnswers(t: Table, k: KeyRef, steps: seq<Step>, j: nat)
    requires k in t && KeyAccepted(k) && (t[k].status == DoneRow ==> t[k].result.Some?)
    requires j < |steps| && steps[j].BeginStep? && steps[j].key == k
    requires forall m :: 0 <= m <= j && steps[m].BeginStep? ==> steps[m].cutoffRead <= t[k].createdAt + DAY_MS
    ensures Run(t, steps).1[j] == Expected(t[k], steps[j].tool, steps[j].digest, Stored(t[k], steps[..j], k))
    decreases j
  {
    RunHead(t, steps);
    if j > 0 {
      hide Run, Apply, LastFinish;
      var t1 := Apply(t, steps[0]).0;
      RowKept(t, k, steps[0]);
      RowAnswers(t1, k, steps[1..], j - 1);
      LastFinishPrepend(steps[0], steps[1..][..j - 1], k);
      assert steps[..j] == [steps[0]] + steps[1..][..j - 1];
    }
  }

  // ------------------------------------------------------------ main results

  /** For a day after a begin that proceeded, the same key gets the stored result or `InProgress`
      for the same tool and arguments, and `Conflict` for anything else, even across restarts. */
  lemma KeyHeldForADay(t: Table, steps: seq<Step>, i: nat, j: nat)
    requires i < j < |steps| && ClockMonotone(steps)
    requires steps[i].BeginStep? && steps[j].BeginStep? && steps[i].key == steps[j].key
    requires Run(t, steps).1[i] == Proceed
    requires steps[j].cutoffRead <= steps[i].insertRead + DAY_MS
    ensures Run(t, steps).1[j] ==
            (if steps[i].tool != steps[j].tool || steps[i].digest != steps[j].digest then Conflict
             else match LastFinish(steps[i + 1..j], steps[i].key)
               case None => InProgress
               case Some(r) => Replay(r))
  {
    hide Run, Apply, LastFinish;
    var before := Run(t, steps[..i]).0;
    var rest := steps[i..];
    RunSplits(t, steps, i);
    RunHead(before, rest);
    var t1 := Apply(before, rest[0]).0;
    ProceedInserts(before, rest[0]);
    assert Run(t, steps).1[j] == Run(t, steps).1[i..][j - i] == Run(t1, rest[1..]).1[j - i - 1];
    RowAnswers(t1, steps[i].key, rest[1..], j - i - 1);
    assert rest[1..][..j - i - 1] == steps[i + 1..j];
  }

  /** Two begins of one key that were both told to proceed are more than a day apart. */
  lemma ProceedsAreADayApart(t: Table, steps: seq<Step>, i: nat, j: nat)
    requires i < j < |steps| && ClockMonotone(steps)
    requires steps[i].BeginStep? && steps[j].BeginStep? && steps[i].key == steps[j].key
    requires Run(t, steps).1[i] == Proceed && Run(t, steps).1[j] == Proceed
    ensures steps[j].cutoffRead > steps[i].insertRead + DAY_MS
  {
    if steps[j].cutoffRead <= steps[i].insertRead + DAY_MS {
      KeyHeldForADay(t, steps, i, j);
      assert false;
    }
  }

  /** A key whose row is older than a day, or absent, is free again. */
  lemma ExpiredKeyProceeds(t: Table, k: KeyRef, tool: string, digest: string, cutoffRead: int, insertRead: int)
    requires KeyAccepted(k)
    ensures Begin(t, k, tool, digest, cutoffRead, insertRead).1 == Proceed <==>
            k !in t || t[k].createdAt + DAY_MS < cutoffRead
  {
  }

  // ------------------------------------------------------------ the service

  /** After a restart no call is in progress: what was has an unknown outcome, and finished calls keep their result. */
  lemma RestartSettles(t: Table)
    ensures
      var t' := Apply(t, RestartStep).0;
      && t'.Keys == t.Keys
      && forall k :: k in t ==>
           && t'[k].status == (if t[k].status == DoneRow then DoneRow else UnknownRow)
           && t'[k].tool == t[k].tool && t'[k].digest == t[k].digest && t'[k].result == t[k].result
           && t'[k].createdAt == t[k].createdAt
  {
  }

  /** Only an empty or over-long key is rejected, and then nothing changes. */
  lemma BadKeyExactly(t: Table, k: KeyRef, tool: string, digest: string, cutoffRead: int, insertRead: int)
    ensures var (t', o) := Begin(t, k, tool, digest, cutoffRead, insertRead);
            && (o == BadKey <==> |k.key| == 0 || |k.key| > 200)
            && (o == BadKey ==> t' == t)
            && (o != BadKey ==>
                  forall x :: x in t' <==> x == k || (x in t && cutoffRead - 86_400_000 <= t[x].createdAt))
  {
  }

  class IdempotencyKeys {
    var rows: map<KeyRef, Row>

    constructor (persisted: map<KeyRef, Row>)
      ensures rows == Recover(persisted)
    {
      rows := map k | k in persisted ::
        if persisted[k].status == InProgressRow then persisted[k].(status := UnknownRow) else persisted[k];
    }

    method IdemBegin(k: KeyRef, tool: string, digest: string, cutoffRead: int, insertRead: int) returns (out: Outcome)
      modifies this
      ensures (rows, out) == Begin(old(rows), k, tool, digest, cutoffRead, insertRead)
    {
      if |k.key| == 0 || |k.key| > MAX_KEY_BYTES {
        return BadKey;
      }
      rows := map x | x in rows && cutoffRead - DAY_MS <= rows[x].createdAt :: rows[x];
      assert rows == DropOld(old(rows), cutoffRead);
      if k in rows {
        var row := rows[k];
        if row.tool != tool || row.digest != digest {
          out := Conflict;
        } else if row.status == DoneRow {
          out := Replay(if row.result.Some? then row.result.value else "null");
        } else {
          out := InProgress;
        }
      } else {
        rows := rows[k := Row(tool, digest, InProgressRow, None, insertRead)];
        out := Proceed;
      }
    }

    method IdemFinish(k: KeyRef, result: string)
      modifies this
      ensures rows == Finish(old(rows), k, result)
    {
      if k in rows {
        rows := rows[k := rows[k].(status := DoneRow, result := Some(result))];
      }
    }
  }
}
