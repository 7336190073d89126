/**
 Application sessions: at most one active session per client and credential, with an
 idle and an absolute expiry and the scopes granted to it. `known` are the rows of
 the sessions table, which outlive the sessions.
 */
module Sessions {
  import opened Wrappers

  type Id = string

  datatype Key = Key(client: Id, credential: Id)

  datatype Grant = Grant(scope: string, approval: Id, createdAt: int)

  datatype Session = Session(
    id: Id, client: Id, credential: Id, createdAt: int, lastActivity: int,
    absoluteExpiry: int, idleTimeout: int, grants: seq<Grant>)

  datatype Limits = Limits(idleMs: int, absoluteMs: int)

  datatype Expiry = AbsoluteExpiry | IdleExpiry

  type Active = map<Key, Session>

  datatype Store = Store(active: Active, known: map<Id, Key>)

  function Expired(s: Session, now: int): Option<Expiry> {
    if now >= s.absoluteExpiry then Some(AbsoluteExpiry)
    else if now >= s.lastActivity + s.idleTimeout then Some(IdleExpiry)
    else None
  }

  /** Sessions sit under their own key and in the table; so their identifiers are distinct. */
  ghost predicate Valid(st: Store) {
    forall k :: k in st.active ==>
      var s := st.active[k];
      Key(s.client, s.credential) == k && s.id in st.known && st.known[s.id] == k
  }

  function Fresh(k: Key, id: Id, now: int, l: Limits): Session {
    Session(id, k.client, k.credential, now, now, now + l.absoluteMs, l.idleMs, [])
  }

  /** The current session of `k`; an expired one is removed first, and the insert of a new one fails on a clash. */
  function Resolve(st: Store, k: Key, id: Id, now: int, l: Limits): (Store, Option<Session>) {
    if k in st.active && Expired(st.active[k], now).None? then (st, Some(st.active[k]))
    else if id in st.known then (st.(active := st.active - {k}), None)
    else (Store(st.active[k := Fresh(k, id, now, l)], st.known[id := k]), Some(Fresh(k, id, now, l)))
  }

  function EndIds(a: Active, ids: set<Id>): Active {
    map k | k in a && a[k].id !in ids :: a[k]
  }

  function ExpiredIds(a: Active, now: int): set<Id> {
    set k | k in a && Expired(a[k], now).Some? :: a[k].id
  }

  function Touch(a: Active, id: Id, now: int): Active {
    map k | k in a :: if a[k].id == id && Expired(a[k], now).None? then a[k].(lastActivity := now) else a[k]
  }

  function TouchClient(a: Active, client: Id, now: int): Active {
    map k | k in a :: if a[k].client == client && Expired(a[k], now).None? then a[k].(lastActivity := now) else a[k]
  }

  function AddGrant(a: Active, id: Id, g: Grant): Active {
    map k | k in a :: if a[k].id == id then a[k].(grants := a[k].grants + [g]) else a[k]
  }

  function ClearGrants(a: Active): Active {
    map k | k in a :: a[k].(grants := [])
  }

  function Min(a: int, b: int): int {
    if a < b then a else b
  }

  function ApplyLimits(a: Active, l: Limits): Active {
    map k | k in a ::
      a[k].(idleTimeout := l.idleMs,
            absoluteExpiry := Min(a[k].absoluteExpiry, a[k].createdAt + l.absoluteMs))
  }

  /** What every operation on sessions keeps: the same sessions or fewer, each with its identity. */
  ghost predicate Kept(a: Active, b: Active) {
    b.Keys <= a.Keys &&
    forall k :: k in b ==> b[k].id == a[k].id && b[k].client == a[k].client && b[k].credential == a[k].credential
  }

  lemma KeptIsValid(st: Store, b: Active)
    requires Valid(st) && Kept(st.active, b)
    ensures Valid(st.(active := b))
  {
  }

  /** A resolved session is live, belongs to the caller, and keeps no grant across an expiry. */
  lemma ResolveIsLive(st: Store, k: Key, id: Id, now: int, l: Limits)
    requires Valid(st) && l.idleMs > 0 && l.absoluteMs > 0
    ensures var (st', s) := Resolve(st, k, id, now, l);
            && Valid(st')
            && (s.Some? ==>
                  && k in st'.active && st'.active[k] == s.value && Expired(s.value, now).None?
                  && Key(s.value.client, s.value.credential) == k
                  && (s.value.grants == [] || (k in st.active && s.value == st.active[k])))
            && (forall j :: j in st.active && j != k ==> j in st'.active && st'.active[j] == st.active[j])
            && (k in st.active && Expired(st.active[k], now).Some? && s.Some? ==> s.value.id != st.active[k].id)
  {
    var (st', s) := Resolve(st, k, id, now, l);
    if st'.active.Keys <= st.active.Keys && id in st.known {
      KeptIsValid(st, st'.active);
    }
  }

  /** New limits never move an absolute expiry later; they bring an expired session back to life exactly when
      only its idle time had run out and the new idle time has not. */
  lemma LimitsReviveExactly(a: Active, l: Limits, k: Key, now: int)
    requires k in a
    ensures ApplyLimits(a, l)[k].absoluteExpiry <= a[k].absoluteExpiry
    ensures Expired(a[k], now).Some? && Expired(ApplyLimits(a, l)[k], now).None? <==>
            && Expired(a[k], now) == Some(IdleExpiry)
            && now < a[k].createdAt + l.absoluteMs && now < a[k].lastActivity + l.idleMs
  {
  }

  /** A session made at 0 with an idle time of 10 has expired at 20, and lives again under an idle time of 50. */
  lemma LimitsReviveAnIdleSession()
    ensures
      var k := Key("client", "credential");
      var a := Resolve(Store(map[], map[]), k, "session", 0, Limits(10, 100)).0.active;
      && k in a && Expired(a[k], 20) == Some(IdleExpiry)
      && Expired(ApplyLimits(a, Limits(50, 100))[k], 20) == None
  {
    var k := Key("client", "credential");
    var a := Resolve(Store(map[], map[]), k, "session", 0, Limits(10, 100)).0.active;
    assert a[k] == Fresh(k, "session", 0, Limits(10, 100));
  }

  // ------------------------------------------------------------ how long a session lives

  /** A session left alone lives for the shorter of its two limits; the absolute one is named first. */
  lemma FreshLifetime(st: Store, k: Key, id: Id, at: int, l: Limits, now: int)
    requires k !in st.active && id !in st.known
    ensures
      var s := Resolve(st, k, id, at, l).1;
      && s.Some? && s.value.id == id && s.value.grants == []
      && (Expired(s.value, now) == Some(AbsoluteExpiry) <==> now >= at + l.absoluteMs)
      && (Expired(s.value, now) == Some(IdleExpiry) <==> now < at + l.absoluteMs && now >= at + l.idleMs)
      && (Expired(s.value, now) == None <==> now < at + l.absoluteMs && now < at + l.idleMs)
  {
  }

  /** A clash of identifiers makes no session, and an expired one is gone all the same. */
  lemma ClashMakesNoSession(st: Store, k: Key, id: Id, now: int, l: Limits)
    requires id in st.known && (k in st.active ==> Expired(st.active[k], now).Some?)
    ensures var (st', s) := Resolve(st, k, id, now, l);
            s == None && k !in st'.active && st'.known == st.known
  {
  }

  /** Activity restarts the idle time of a live session and nothing else. */
  lemma ActivityDoes(a: Active, k: Key, at: int, now: int, id: Id, client: Id)
    requires k in a
    ensures
      var (s, touched, beaten) := (a[k], Touch(a, id, at)[k], TouchClient(a, client, at)[k]);
      && touched == (if s.id == id && Expired(s, at) == None then s.(lastActivity := at) else s)
      && beaten == (if s.client == client && Expired(s, at) == None then s.(lastActivity := at) else s)
      && (s.id == id && Expired(s, at) == None ==>
            (Expired(touched, now) == None <==> now < s.absoluteExpiry && now < at + s.idleTimeout))
    ensures Touch(a, id, at).Keys == TouchClient(a, client, at).Keys == a.Keys
  {
  }

  /** Activities and heartbeats, each at its own time. */
  function Touches(a: Active, ids: seq<Id>, times: seq<int>): Active
    requires |ids| == |times|
  {
    if ids == [] then a
    else
      var before := Touches(a, ids[..|ids| - 1], times[..|times| - 1]);
      Touch(TouchClient(before, ids[|ids| - 1], times[|times| - 1]), ids[|ids| - 1], times[|times| - 1])
  }

  /** Once a session has expired, no amount of later activity brings it back. */
  lemma {:induction false} ActivityNeverRevives(a: Active, k: Key, ids: seq<Id>, times: seq<int>, since: int)
    requires |ids| == |times| && k in a && Expired(a[k], since).Some?
    requires forall i :: 0 <= i < |times| ==> times[i] >= since
    ensures k in Touches(a, ids, times) && Touches(a, ids, times)[k] == a[k]
    decreases |ids|
  {
    if ids != [] {
      ActivityNeverRevives(a, k, ids[..|ids| - 1], times[..|times| - 1], since);
    }
  }

  /** New limits apply to a session from its own beginning and its own last activity. */
  lemma LimitsDo(a: Active, l: Limits, k: Key, now: int)
    requires k in a
    ensures
      var (s, s') := (a[k], ApplyLimits(a, l)[k]);
      && (Expired(s', now) == Some(AbsoluteExpiry) <==> now >= s.absoluteExpiry || now >= s.createdAt + l.absoluteMs)
      && (Expired(s', now) == None <==>
          now < s.absoluteExpiry && now < s.createdAt + l.absoluteMs && now < s.lastActivity + l.idleMs)
      && s'.grants == s.grants && s'.id == s.id
  {
  }

  // ------------------------------------------------------------ the service

  class SessionService {
    var active: Active
    var known: map<Id, Key>

    ghost function View(): Store
      reads this
    {
      Store(active, known)
    }

    constructor ()
      ensures View() == Store(map[], map[]) && Valid(View())
    {
      active, known := map[], map[];
    }

    method ResolveSession(k: Key, id: Id, now: int, l: Limits) returns (s: Option<Session>, ended: Option<Session>)
      modifies this
      ensures (View(), s) == Resolve(old(View()), k, id, now, l)
      ensures ended.Some? <==> k in old(active) && Expired(old(active)[k], now).Some?
      ensures ended.Some? ==> ended.value == old(active)[k]
    {
      ended := None;
      if k in active {
        var cur := active[k];
        if now < cur.absoluteExpiry && now < cur.lastActivity + cur.idleTimeout {
          return Some(cur), None;
        }
        active := active - {k};
        ended := Some(cur);
      }
      if id in known {
        assert active == old(active) - {k};
        return None, ended;
      }
      var made := Session(id, k.client, k.credential, now, now, now + l.absoluteMs, l.idleMs, []);
      known := known[id := k];
      active := active[k := made];
      s := Some(made);
      assert (old(active) - {k})[k := made] == old(active)[k := made];
      assert k !in old(active) ==> old(active) - {k} == old(active);
    }

    /** The grant goes to the session with that identifier; there is at most one. */
    method GrantTo(id: Id, g: Grant) returns (ok: bool)
      requires Valid(View())
      modifies this`active
      ensures ok <==> exists k :: k in old(active) && old(active)[k].id == id
      ensures active == AddGrant(old(active), id, g)
      ensures Valid(View())
    {
      KeptIsValid(View(), AddGrant(active, id, g));
      if k :| k in active && active[k].id == id {
        active := active[k := active[k].(grants := active[k].grants + [g])];
        assert active == AddGrant(old(active), id, g);
        ok := true;
      } else {
        assert active == AddGrant(active, id, g);
        ok := false;
      }
    }

    /** The expired sessions are listed first and then ended one by one by identifier. */
    method Sweep(now: int) returns (ended: set<Id>)
      requires Valid(View())
      modifies this`active
      ensures ended == ExpiredIds(old(active), now) && active == EndIds(old(active), ended)
      ensures forall k :: k in active <==> k in old(active) && Expired(old(active)[k], now).None?
      ensures Valid(View())
    {
      hide Valid;
      ghost var a := active;
      ended := ExpiredIds(active, now);
      var todo := ended;
      while todo != {}
        invariant todo <= ended && active == EndIds(a, ended - todo)
        decreases |todo|
      {
        var id :| id in todo;
        End(id, a);
        todo := todo - {id};
        assert active == EndIds(a, ended - todo);
      }
      KeptIsValid(Store(a, known), active);
      EndsTheExpired(Store(a, known), now);
    }

    method End(id: Id, ghost whole: Active)
      requires Valid(Store(whole, known)) && Kept(whole, active)
      modifies this`active
      ensures active == EndIds(old(active), {id})
    {
      if k :| k in active && active[k].id == id {
        forall j | j in active && active[j].id == id
          ensures j == k
        {
          assert whole[j].id == whole[k].id;
        }
        active := active - {k};
        assert active == EndIds(old(active), {id});
      } else {
        assert active == EndIds(active, {id});
      }
    }
  }

  /** Ending by identifier ends exactly the expired sessions. */
  lemma EndsTheExpired(st: Store, now: int)
    requires Valid(st)
    ensures forall k :: k in EndIds(st.active, ExpiredIds(st.active, now)) <==>
        k in st.active && Expired(st.active[k], now).None?
  {
    forall k | k in st.active
      ensures st.active[k].id in ExpiredIds(st.active, now) <==> Expired(st.active[k], now).Some?
    {
      if st.active[k].id in ExpiredIds(st.active, now) {
        var j :| j in st.active && Expired(st.active[j], now).Some? && st.active[j].id == st.active[k].id;
        assert j == k;
      }
    }
  }
}
