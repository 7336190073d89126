/**
 The reservation budget checked by the settings validation, and what it guarantees
 about Data Shared retention. All settings are unsigned 64-bit numbers; a release
 build multiplies them modulo 2^64.
 */
module Budget {
  import opened Wrappers
  import opened Retention

  const TWO_64: nat := 0x1_0000_0000_0000_0000

  newtype U64 = x: int | 0 <= x < 0x1_0000_0000_0000_0000

  datatype Settings = Settings(
    idleTimeoutMinutes: U64,
    absoluteLifetimeHours: U64,
    pendingApprovalMinutes: U64,
    sharedMaxSizeMb: U64,
    auditMaxSizeMb: U64,
    sharedRetentionDays: U64,
    auditRetentionDays: U64,
    reservedEventsPerSession: U64,
    maxReservedPayloadBytes: U64,
    maxSimultaneousClients: U64,
    maxTasksPerClient: U64,
    maxReadBytes: U64)

  datatype Fault =
    | IdleTimeout | AbsoluteLifetime | PendingApproval | SharedSize | AuditSize
    | RetentionDays | Reservations | Concurrency | ReadBytes

  function Wrap(x: nat): nat {
    x % TWO_64
  }

  function LimitBytes(s: Settings): nat {
    Wrap(Wrap(s.sharedMaxSizeMb as nat * 1024) * 1024)
  }

  function CheckedReservation(s: Settings): nat {
    Wrap(Wrap(s.reservedEventsPerSession as nat * s.maxReservedPayloadBytes as nat) * s.maxSimultaneousClients as nat)
  }

  /** The first numeric check that fails. */
  function Validate(s: Settings): Option<Fault> {
    if s.idleTimeoutMinutes == 0 || s.idleTimeoutMinutes > 7 * 24 * 60 then Some(IdleTimeout)
    else if s.absoluteLifetimeHours == 0 || s.absoluteLifetimeHours > 24 * 30 then Some(AbsoluteLifetime)
    else if s.pendingApprovalMinutes == 0 || s.pendingApprovalMinutes > 24 * 60 then Some(PendingApproval)
    else if s.sharedMaxSizeMb < 16 then Some(SharedSize)
    else if s.auditMaxSizeMb < 16 then Some(AuditSize)
    else if s.sharedRetentionDays == 0 || s.auditRetentionDays == 0 then Some(RetentionDays)
    else if CheckedReservation(s) > LimitBytes(s) / 2 then Some(Reservations)
    else if s.maxSimultaneousClients == 0 || s.maxTasksPerClient == 0 then Some(Concurrency)
    else if s.maxReadBytes == 0 || s.maxReadBytes > 64 * 1024 * 1024 then Some(ReadBytes)
    else None
  }

  /** Settings pass exactly when every limit is in range and the wrapped product fits in half of the budget. */
  lemma AcceptedExactly(s: Settings)
    ensures Validate(s).None? <==>
      && 1 <= s.idleTimeoutMinutes <= 10080 && 1 <= s.absoluteLifetimeHours <= 720
      && 1 <= s.pendingApprovalMinutes <= 1440
      && s.sharedMaxSizeMb >= 16 && s.auditMaxSizeMb >= 16
      && s.sharedRetentionDays >= 1 && s.auditRetentionDays >= 1
      && s.maxSimultaneousClients >= 1 && s.maxTasksPerClient >= 1
      && 1 <= s.maxReadBytes <= 67108864
      && (s.reservedEventsPerSession as nat * s.maxReservedPayloadBytes as nat % TWO_64 *
          s.maxSimultaneousClients as nat) % TWO_64 <= LimitBytes(s) / 2
  {
  }

  /** What the slow maintenance loop hands to retention; a negative SQL limit means no limit. */
  function RetentionPolicy(s: Settings): Policy {
    Policy(
      s.sharedRetentionDays as nat,
      LimitBytes(s),
      if AsI64(s.reservedEventsPerSession as int) < 0 then None else Some(s.reservedEventsPerSession as nat))
  }

  /** Retention works with the Data Shared settings: so many days, so many megabytes as long as those are bytes at
      all, and so many rows per session unless the number is negative to the database. */
  lemma PolicyIsOfDataShared(s: Settings)
    ensures
      var p := RetentionPolicy(s);
      && p.retentionDays == s.sharedRetentionDays as nat
      && (s.sharedMaxSizeMb < 0x1000_0000_0000 ==> p.maxBytes == s.sharedMaxSizeMb as nat * 1048576)
      && (p.reservedPerSession == None <==> s.reservedEventsPerSession as nat >= TWO_63)
      && (p.reservedPerSession.Some? ==> p.reservedPerSession.value == s.reservedEventsPerSession as nat)
  {
  }

  /** The true product behind the check. */
  function Reservation(s: Settings): nat {
    s.reservedEventsPerSession as nat * s.maxReservedPayloadBytes as nat * s.maxSimultaneousClients as nat
  }

  function Keep(s: Settings, rows: Table, active: seq<SessionId>): set<Id> {
    ReservedIds(rows, active, RetentionPolicy(s).reservedPerSession)
  }

  function Kept(s: Settings, rows: Table, active: seq<SessionId>): Table {
    Reserved(rows, Keep(s, rows, active))
  }

  /** The size loop over these rows ends by blocking admission. */
  ghost predicate Blocks(s: Settings, rows: Table, active: seq<SessionId>) {
    exists after: Table, k: nat :: Evicted(rows, Keep(s, rows, active), RetentionPolicy(s).maxBytes, after, k, true)
  }

  /** No more sessions than clients, no reserved payload above the declared maximum. */
  ghost predicate WithinDeclared(s: Settings, rows: Table, active: seq<SessionId>) {
    && Ordered(rows)
    && |active| <= s.maxSimultaneousClients as nat
    && AllAtMost(Kept(s, rows, active), s.maxReservedPayloadBytes as nat)
  }

  ghost predicate AllAtMost(rows: Table, bytes: nat) {
    forall i :: 0 <= i < |rows| ==> rows[i].bytes <= bytes
  }

  // ------------------------------------------------------------ counting the reserved rows

  lemma {:induction false} IdsAreFew(rows: Table)
    ensures |Ids(rows)| <= |rows|
  {
    if rows != [] {
      var front := rows[..|rows| - 1];
      IdsAreFew(front);
      assert Ids(rows) == Ids(front) + {rows[|rows| - 1].id};
    }
  }

  lemma {:induction false} ReservedIdsAreFew(rows: Table, active: seq<SessionId>, n: nat)
    ensures |ReservedIds(rows, active, Some(n))| <= n * |active|
  {
    if active != [] {
      var last := Last(OfSession(rows, active[|active| - 1]), Some(n));
      ReservedIdsAreFew(rows, active[..|active| - 1], n);
      IdsAreFew(last);
      assert |last| <= n;
      assert n * |active| == n * (|active| - 1) + n;
    }
  }

  lemma {:induction false} ReservedAvoids(rows: Table, keep: set<Id>, id: Id)
    requires forall i :: 0 <= i < |rows| ==> rows[i].id != id
    ensures Reserved(rows, keep) == Reserved(rows, keep - {id})
  {
    if rows != [] {
      ReservedAvoids(rows[1..], keep, id);
    }
  }

  lemma {:induction false} ReservedAreFew(rows: Table, keep: set<Id>)
    requires Ordered(rows)
    ensures |Reserved(rows, keep)| <= |keep|
    decreases |rows|
  {
    if rows != [] {
      var id := rows[0].id;
      if id in keep {
        ReservedAvoids(rows[1..], keep, id);
        ReservedAreFew(rows[1..], keep - {id});
      } else {
        ReservedAreFew(rows[1..], keep);
      }
    }
  }

  lemma {:induction false} TotalAtMost(rows: Table, bytes: nat)
    requires AllAtMost(rows, bytes)
    ensures Total(rows) <= |rows| * bytes
  {
    if rows != [] {
      TotalAtMost(rows[1..], bytes);
      assert |rows| * bytes == (|rows| - 1) * bytes + bytes;
    }
  }

  lemma MulMonotone(a: nat, b: nat, c: nat)
    requires a <= b
    ensures a * c <= b * c
  {
  }

  // ------------------------------------------------------------ the check without wrap-around

  lemma CheckIsExactBelowWrap(s: Settings)
    requires Validate(s).None? && Reservation(s) < TWO_64
    ensures CheckedReservation(s) == Reservation(s) <= LimitBytes(s) / 2
  {
    hide Wrap;
    NoWrap(s.reservedEventsPerSession as nat * s.maxReservedPayloadBytes as nat, s.maxSimultaneousClients as nat);
  }

  lemma NoWrap(n: nat, c: nat)
    requires c >= 1 && n * c < TWO_64
    ensures Wrap(Wrap(n) * c) == n * c
  {
    hide Wrap;
    MulMonotone(1, c, n);
    WrapOfSmall(n);
    WrapOfSmall(n * c);
  }

  lemma WrapOfSmall(x: nat)
    requires x < TWO_64
    ensures Wrap(x) == x
  {
  }

  /** Below the wrap-around, an unlimited reservation can only be accepted for empty payloads. */
  lemma UnlimitedMeansEmpty(s: Settings)
    requires Validate(s).None? && Reservation(s) < TWO_64
    requires s.reservedEventsPerSession as nat >= TWO_64 / 2
    ensures s.maxReservedPayloadBytes == 0
  {
    CheckIsExactBelowWrap(s);
    var (e, p, c) :=
        (s.reservedEventsPerSession as nat, s.maxReservedPayloadBytes as nat, s.maxSimultaneousClients as nat);
    AtLeastFactor(e, p, c);
    assert LimitBytes(s) < TWO_64 && Reservation(s) == e * p * c;
  }

  lemma AtLeastFactor(e: nat, p: nat, c: nat)
    ensures p > 0 && c > 0 ==> e <= e * p * c
  {
    if p > 0 && c > 0 {
      MulMonotone(1, p, e);
      MulMonotone(1, c, e * p);
    }
  }

  lemma KeptFits(s: Settings, rows: Table, active: seq<SessionId>)
    requires Validate(s).None? && Reservation(s) < TWO_64 && WithinDeclared(s, rows, active)
    ensures Total(Kept(s, rows, active)) <= LimitBytes(s) / 2
  {
    hide Validate, Wrap, Total, Reserved, ReservedIds, Ordered, LimitBytes;
    var (e, p, c) :=
        (s.reservedEventsPerSession as nat, s.maxReservedPayloadBytes as nat, s.maxSimultaneousClients as nat);
    var kept := Kept(s, rows, active);
    TotalAtMost(kept, p);
    CheckIsExactBelowWrap(s);
    if e >= TWO_64 / 2 {
      UnlimitedMeansEmpty(s);
      assert |kept| * p == 0;
    } else {
      var keep := ReservedIds(rows, active, Some(e));
      assert kept == Reserved(rows, keep);
      ReservedAreFew(rows, keep);
      ReservedIdsAreFew(rows, active, e);
      Product(|kept|, e, |active|, p, c);
    }
  }

  lemma Product(n: nat, e: nat, a: nat, p: nat, c: nat)
    requires n <= e * a && a <= c
    ensures n * p <= e * p * c
  {
    MulMonotone(n, e * a, p);
    MulMonotone(a, c, e * p);
    assert e * a * p == a * (e * p);
    assert c * (e * p) == e * p * c;
  }

  // ------------------------------------------------------------ the table that does not fit

  /** `n` rows of one session, numbered from `base`. */
  function Block(session: SessionId, base: nat, n: nat, bytes: nat): (rows: Table)
    ensures |rows| == n
    ensures forall i :: 0 <= i < n ==> rows[i] == ShareRow(base + i, 0, Some(session), bytes)
  {
    seq(n, i requires 0 <= i < n => ShareRow(base + i, 0, Some(session), bytes))
  }

  /** `c` sessions with `n` rows each. */
  function Full(c: nat, n: nat, bytes: nat): Table {
    if c == 0 then [] else Full(c - 1, n, bytes) + Block(c - 1, |Full(c - 1, n, bytes)|, n, bytes)
  }

  function FirstSessions(c: nat): (r: seq<SessionId>)
    ensures |r| == c && forall i :: 0 <= i < c ==> r[i] == i
  {
    seq(c, i requires 0 <= i < c => i)
  }

  lemma {:induction false} FullShape(c: nat, n: nat, bytes: nat)
    ensures |Full(c, n, bytes)| == c * n
    ensures forall i :: 0 <= i < c * n ==>
              var r := Full(c, n, bytes)[i];
              r.id == i && r.timestamp == 0 && r.bytes == bytes && r.session.Some? && r.session.value < c
  {
    if c > 0 {
      FullShape(c - 1, n, bytes);
      assert c * n == (c - 1) * n + n;
    }
  }

  lemma {:induction false} OfSessionAppend(a: Table, b: Table, s: SessionId)
    ensures OfSession(a + b, s) == OfSession(a, s) + OfSession(b, s)
    decreases |a|
  {
    if a == [] {
      assert a + b == b;
    } else {
      OfSessionAppend(a[1..], b, s);
      assert (a + b)[1..] == a[1..] + b;
    }
  }

  lemma {:induction false} OfOneSession(rows: Table, s: SessionId)
    requires forall i :: 0 <= i < |rows| ==> rows[i].session == Some(s)
    ensures OfSession(rows, s) == rows
  {
    if rows != [] {
      OfOneSession(rows[1..], s);
    }
  }

  lemma {:induction false} OfOtherSession(rows: Table, s: SessionId)
    requires forall i :: 0 <= i < |rows| ==> rows[i].session != Some(s)
    ensures OfSession(rows, s) == []
  {
    if rows != [] {
      OfOtherSession(rows[1..], s);
    }
  }

  lemma {:induction false} OfSessionInFull(c: nat, n: nat, bytes: nat, s: SessionId)
    requires s < c
    ensures |OfSession(Full(c, n, bytes), s)| == n
  {
    var f := Full(c - 1, n, bytes);
    var b := Block(c - 1, |f|, n, bytes);
    OfSessionAppend(f, b, s);
    FullShape(c - 1, n, bytes);
    if s == c - 1 {
      OfOneSession(b, s);
      OfOtherSession(f, s);
    } else {
      OfOtherSession(b, s);
      OfSessionInFull(c - 1, n, bytes, s);
    }
  }

  /** The oldest rows, the last one cut down, that add up to `t` bytes. */
  function Trim(rows: Table, t: nat): Table {
    if rows == [] || t == 0 then []
    else
      var b := if rows[0].bytes < t then rows[0].bytes else t;
      [rows[0].(bytes := b)] + Trim(rows[1..], t - b)
  }

  lemma {:induction false} TrimShape(rows: Table, t: nat)
    ensures |Trim(rows, t)| <= |rows|
    ensures forall i :: 0 <= i < |Trim(rows, t)| ==>
              var r := Trim(rows, t)[i]; r == rows[i].(bytes := r.bytes) && r.bytes <= rows[i].bytes
    ensures Total(Trim(rows, t)) == if t <= Total(rows) then t else Total(rows)
  {
    if rows != [] && t > 0 {
      var b := if rows[0].bytes < t then rows[0].bytes else t;
      TrimShape(rows[1..], t - b);
      assert Trim(rows, t)[1..] == Trim(rows[1..], t - b);
    }
  }

  lemma {:induction false} TrimOfSession(rows: Table, t: nat, s: SessionId)
    ensures |OfSession(Trim(rows, t), s)| <= |OfSession(rows, s)|
  {
    if rows != [] && t > 0 {
      var b := if rows[0].bytes < t then rows[0].bytes else t;
      TrimOfSession(rows[1..], t - b, s);
      assert Trim(rows, t)[1..] == Trim(rows[1..], t - b);
    }
  }

  lemma {:induction false} InItsSession(rows: Table, i: nat, s: SessionId)
    requires i < |rows| && rows[i].session == Some(s)
    ensures rows[i] in OfSession(rows, s)
  {
    if i > 0 {
      InItsSession(rows[1..], i - 1, s);
    }
  }

  lemma {:induction false} ReservedContains(rows: Table, active: seq<SessionId>, n: Option<nat>, k: nat, id: Id)
    requires k < |active| && id in Ids(Last(OfSession(rows, active[k]), n))
    ensures id in ReservedIds(rows, active, n)
    decreases |active|
  {
    if k < |active| - 1 {
      ReservedContains(rows, active[..|active| - 1], n, k, id);
    }
  }

  lemma {:induction false} AllReserved(rows: Table, keep: set<Id>)
    requires forall i :: 0 <= i < |rows| ==> rows[i].id in keep
    ensures Reserved(rows, keep) == rows
  {
    if rows != [] {
      AllReserved(rows[1..], keep);
    }
  }

  lemma {:induction false} TotalOfEqual(rows: Table, bytes: nat)
    requires forall i :: 0 <= i < |rows| ==> rows[i].bytes == bytes
    ensures Total(rows) == |rows| * bytes
  {
    if rows != [] {
      TotalOfEqual(rows[1..], bytes);
      assert |rows| * bytes == (|rows| - 1) * bytes + bytes;
    }
  }

  lemma {:induction false} NoneUnreserved(rows: Table, keep: set<Id>)
    requires forall i :: 0 <= i < |rows| ==> rows[i].id in keep
    ensures Unreserved(rows, keep) == []
  {
    if rows != [] {
      NoneUnreserved(rows[1..], keep);
    }
  }

  /** If no session has more rows than are reserved for it, every row is reserved. */
  lemma FewAreReserved(rows: Table, c: nat, limit: Option<nat>)
    requires forall i :: 0 <= i < |rows| ==> rows[i].session.Some? && rows[i].session.value < c
    requires limit.Some? ==> forall s :: 0 <= s < c ==> |OfSession(rows, s)| <= limit.value
    ensures forall i :: 0 <= i < |rows| ==> rows[i].id in ReservedIds(rows, FirstSessions(c), limit)
  {
    hide OfSession, ReservedIds;
    var active := FirstSessions(c);
    forall i | 0 <= i < |rows|
      ensures rows[i].id in ReservedIds(rows, active, limit)
    {
      var s := rows[i].session.value;
      InItsSession(rows, i, s);
      var of := OfSession(rows, s);
      var j :| 0 <= j < |of| && of[j] == rows[i];
      assert Last(of, limit) == of && active[s] == s;
      ReservedContains(rows, active, limit, s, rows[i].id);
    }
  }

  /** A table whose every row is reserved blocks exactly when its total can be counted and exceeds the limit. */
  lemma AllReservedBlocks(s: Settings, rows: Table, active: seq<SessionId>)
    requires forall i :: 0 <= i < |rows| ==> rows[i].id in Keep(s, rows, active)
    requires LimitBytes(s) < Total(rows) < TWO_63
    ensures Blocks(s, rows, active)
  {
    hide Total, Unreserved, LimitBytes;
    var keep := Keep(s, rows, active);
    NoneUnreserved(rows, keep);
    assert Drop(rows, keep, 0) == rows;
    assert Evicted(rows, keep, RetentionPolicy(s).maxBytes, rows, 0, true);
  }

  /** A table of one byte more than the limit, within the declared sizes, once the product has wrapped around. */
  lemma OverfullTable(s: Settings) returns (rows: Table, active: seq<SessionId>)
    requires Reservation(s) >= TWO_64 && LimitBytes(s) < TWO_63
    ensures WithinDeclared(s, rows, active)
    ensures Total(rows) == LimitBytes(s) + 1 < TWO_63
    ensures forall i :: 0 <= i < |rows| ==> rows[i].id in Keep(s, rows, active)
  {
    hide Full, Reserved, ReservedIds, Total, OfSession, LimitBytes;
    var (e, p) := (s.reservedEventsPerSession as nat, s.maxReservedPayloadBytes as nat);
    var c := s.maxSimultaneousClients as nat;
    var full := Full(c, e, p);
    FullShape(c, e, p);
    TotalOfEqual(full, p);
    assert c * e * p == e * p * c;
    LimitIsEven(s);
    rows, active := Trim(full, LimitBytes(s) + 1), FirstSessions(c);
    TrimShape(full, LimitBytes(s) + 1);
    forall k | 0 <= k < c
      ensures |OfSession(rows, k)| <= e
    {
      OfSessionInFull(c, e, p, k);
      TrimOfSession(full, LimitBytes(s) + 1, k);
    }
    FewAreReserved(rows, c, RetentionPolicy(s).reservedPerSession);
    AllReserved(rows, Keep(s, rows, active));
  }

  lemma LimitIsEven(s: Settings)
    ensures LimitBytes(s) % 2 == 0
  {
    hide Wrap;
    WrapOfEven(Wrap(s.sharedMaxSizeMb as nat * 1024) * 512);
  }

  lemma WrapOfEven(x: nat)
    ensures Wrap(2 * x) % 2 == 0
  {
    var q := 2 * x / TWO_64;
    assert Wrap(2 * x) == 2 * x - q * TWO_64;
    TwiceIsEven(x - q * TWO_63);
  }

  lemma TwiceIsEven(y: int)
    ensures 2 * y % 2 == 0
  {
  }

  // ------------------------------------------------------------ main results

  /** Under accepted settings no table within the declared sizes blocks admission, exactly when the product that
      validation checks does not wrap around or the limit is beyond what the byte counter can reach. */
  lemma NeverBlocksExactlyWhen(s: Settings)
    requires Validate(s).None?
    ensures (forall rows, active :: WithinDeclared(s, rows, active) ==> !Blocks(s, rows, active))
            <==> (Reservation(s) < TWO_64 || LimitBytes(s) >= TWO_63)
  {
    hide Validate, WithinDeclared, Total, Blocks, LimitBytes, Reservation, Keep;
    if Reservation(s) < TWO_64 || LimitBytes(s) >= TWO_63 {
      forall rows, active | WithinDeclared(s, rows, active)
        ensures !Blocks(s, rows, active)
      {
        NotBlocked(s, rows, active);
      }
    } else {
      var rows, active := OverfullTable(s);
      AllReservedBlocks(s, rows, active);
    }
  }

  lemma NotBlocked(s: Settings, rows: Table, active: seq<SessionId>)
    requires Validate(s).None? && (Reservation(s) < TWO_64 || LimitBytes(s) >= TWO_63)
    requires WithinDeclared(s, rows, active)
    ensures !Blocks(s, rows, active)
  {
    hide Validate, Reservation, LimitBytes, Total, Evicted, Keep, Ordered;
    forall after: Table, k: nat
      ensures !Evicted(rows, Keep(s, rows, active), RetentionPolicy(s).maxBytes, after, k, true)
    {
      if Evicted(rows, Keep(s, rows, active), RetentionPolicy(s).maxBytes, after, k, true) {
        AcceptedNeverBlocks(s, rows, active, after, k, true);
      }
    }
  }

  /** A retention run under such settings never blocks, and it ends within the limit exactly when the counter
      could hold the total it started from, or that total was within the limit anyway. */
  lemma AcceptedNeverBlocks(s: Settings, aged: Table, active: seq<SessionId>, after: Table, k: nat, blocked: bool)
    requires Validate(s).None? && (Reservation(s) < TWO_64 || LimitBytes(s) >= TWO_63)
    requires WithinDeclared(s, aged, active)
    requires Evicted(aged, Keep(s, aged, active), RetentionPolicy(s).maxBytes, after, k, blocked)
    ensures !blocked
    ensures Total(after) <= LimitBytes(s) <==> (Total(aged) < TWO_63 || Total(aged) <= LimitBytes(s))
  {
    hide Validate, Reservation, LimitBytes, Total, Evicted, Keep, Reserved, Unreserved;
    EvictionOutcome(aged, Keep(s, aged, active), RetentionPolicy(s).maxBytes, after, k, blocked);
    TotalSplits(aged, Keep(s, aged, active));
    if Reservation(s) < TWO_64 {
      KeptFits(s, aged, active);
    }
  }

  /** Validation accepts settings whose product wraps around to zero. */
  lemma WrappedProductIsAccepted() returns (s: Settings)
    ensures Validate(s).None? && Reservation(s) >= TWO_64 && CheckedReservation(s) == 0
    ensures LimitBytes(s) == 250 * 1024 * 1024 && s.maxSimultaneousClients == 8
    ensures s.reservedEventsPerSession == s.maxReservedPayloadBytes == 0x1_0000_0000
  {
    s := Settings(30, 8, 10, 250, 512, 30, 30, 0x1_0000_0000, 0x1_0000_0000, 8, 8, 1048576);
  }

  /** Under those settings five rows of 64 MiB of one active session end in a block. */
  lemma FiveRowsBlock() returns (s: Settings, rows: Table)
    ensures Validate(s).None? && Reservation(s) >= TWO_64 && LimitBytes(s) == 262144000
    ensures |rows| == 5 && forall i :: 0 <= i < 5 ==> rows[i].bytes == 67108864 && rows[i].session == Some(0)
    ensures WithinDeclared(s, rows, [0]) && Blocks(s, rows, [0])
  {
    hide ReservedIds, Reserved, Total, OfSession;
    s := WrappedProductIsAccepted();
    rows := Block(0, 0, 5, 67108864);
    OfOneSession(rows, 0);
    TotalOfEqual(rows, 67108864);
    assert FirstSessions(1) == [0];
    FewAreReserved(rows, 1, RetentionPolicy(s).reservedPerSession);
    AllReserved(rows, Keep(s, rows, [0]));
    AllReservedBlocks(s, rows, [0]);
  }
}
