/**
 The per-principal token bucket, in exact arithmetic: `perMinute` tokens of capacity,
 refilled continuously, one token per admitted request. Times are in seconds.
 */
module RateLimit {
  import opened Wrappers

  datatype Bucket = Bucket(tokens: real, last: real)

  type Buckets = map<string, Bucket>

  datatype Request = Request(key: string, now: real, perMinute: nat)

  datatype Limit = Allowed | RateLimited(retryAfterSecs: nat) | TooManyConcurrent

  function Capacity(perMinute: nat): (c: real)
    ensures c >= 1.0 && c >= perMinute as real
  {
    if perMinute < 1 then 1.0 else perMinute as real
  }

  function Min(a: real, b: real): real {
    if a <= b then a else b
  }

  function Ceil(x: real): int {
    -(-x).Floor
  }

  function Refill(dt: real, c: real): real {
    dt * c / 60.0
  }

  /** The tokens at hand when a request arrives; an unknown key starts full and a clock never runs back. */
  function Available(b: Option<Bucket>, now: real, c: real): real {
    match b
    case None => c
    case Some(k) => Min(k.tokens + Refill(if now < k.last then 0.0 else now - k.last, c), c)
  }

  function Find(m: Buckets, key: string): Option<Bucket> {
    if key in m then Some(m[key]) else None
  }

  function Admits(m: Buckets, r: Request): bool {
    Available(Find(m, r.key), r.now, Capacity(r.perMinute)) >= 1.0
  }

  function Serve(m: Buckets, r: Request): Buckets {
    var a := Available(Find(m, r.key), r.now, Capacity(r.perMinute));
    m[r.key := Bucket(if a >= 1.0 then a - 1.0 else a, r.now)]
  }

  function RunBuckets(m: Buckets, rs: seq<Request>): Buckets
    decreases |rs|
  {
    if rs == [] then m else RunBuckets(Serve(m, rs[0]), rs[1..])
  }

  /** The requests of `key` admitted while serving `rs`. */
  function Admitted(m: Buckets, rs: seq<Request>, key: string): nat
    decreases |rs|
  {
    if rs == [] then 0
    else (if rs[0].key == key && Admits(m, rs[0]) then 1 else 0) + Admitted(Serve(m, rs[0]), rs[1..], key)
  }

  function Wait(tokens: real, c: real): nat
    requires c > 0.0
  {
    var w := Ceil((1.0 - tokens) * 60.0 / c);
    if w < 1 then 1 else w
  }

  // ------------------------------------------------------------ the bound over a window

  predicate Sorted(rs: seq<Request>, from: real, to: real)
    decreases |rs|
  {
    rs == [] || (from <= rs[0].now <= to && Sorted(rs[1..], rs[0].now, to))
  }

  predicate LimitsWithin(rs: seq<Request>, key: string, c: real) {
    forall i :: 0 <= i < |rs| && rs[i].key == key ==> Capacity(rs[i].perMinute) <= c
  }

  lemma LimitsOfRest(rs: seq<Request>, key: string, c: real)
    requires rs != [] && LimitsWithin(rs, key, c)
    ensures LimitsWithin(rs[1..], key, c)
    ensures rs[0].key == key ==> Capacity(rs[0].perMinute) <= c
  {
  }

  lemma RefillIsMonotone(dt: real, c: real, d: real)
    requires dt >= 0.0 && 0.0 <= c <= d
    ensures 0.0 <= Refill(dt, c) <= Refill(dt, d)
  {
    assert dt * c >= 0.0;
    assert dt * (d - c) >= 0.0;
  }

  lemma RefillAdds(a: real, b: real, c: real)
    ensures Refill(a, c) + Refill(b, c) == Refill(a + b, c)
  {
    assert a * c + b * c == (a + b) * c;
  }

  predicate Sound(m: Buckets) {
    forall k :: k in m ==> m[k].tokens >= 0.0
  }

  /** One request: the tokens left and the one spent came from the bucket and its refill, and fitted in it. */
  lemma ServeSpends(m: Buckets, r: Request, c: real)
    requires Sound(m) && Capacity(r.perMinute) <= c
    ensures Sound(Serve(m, r)) && Serve(m, r)[r.key].last == r.now
    ensures var spent := if Admits(m, r) then 1.0 else 0.0;
            && Serve(m, r)[r.key].tokens + spent <= c
            && (r.key in m && m[r.key].last <= r.now ==>
                  Serve(m, r)[r.key].tokens + spent <= m[r.key].tokens + Refill(r.now - m[r.key].last, c))
  {
    hide Refill;
    var cap := Capacity(r.perMinute);
    if r.key in m {
      RefillIsMonotone(if r.now < m[r.key].last then 0.0 else r.now - m[r.key].last, cap, c);
    }
  }

  /** From a known bucket: never more than its tokens and what flows in. */
  lemma {:induction false} AdmittedFrom(m: Buckets, rs: seq<Request>, key: string, c: real, now: real, to: real)
    requires Sound(m) && key in m && m[key].last <= now <= to
    requires Sorted(rs, now, to) && LimitsWithin(rs, key, c) && c >= 0.0
    ensures Admitted(m, rs, key) as real <= m[key].tokens + Refill(to - m[key].last, c)
    decreases |rs|
  {
    hide Refill, LimitsWithin, Available, Capacity;
    var last := m[key].last;
    if rs == [] {
      RefillIsMonotone(to - last, 0.0, c);
    } else {
      var r := rs[0];
      LimitsOfRest(rs, key, c);
      ServeSpends(m, r, if r.key == key then c else Capacity(r.perMinute));
      RefillAdds(r.now - last, to - r.now, c);
      AdmittedFrom(Serve(m, r), rs[1..], key, c, r.now, to);
    }
  }

  /** After any history, a window of `t` seconds admits at most a full bucket and its refill, `c` being
      the highest limit in force. */
  lemma {:induction false} WindowIsBounded(m: Buckets, window: seq<Request>, key: string, c: real, from: real, t: real)
    requires Sound(m) && Sorted(window, from, from + t) && LimitsWithin(window, key, c) && c >= 0.0 && t >= 0.0
    ensures Admitted(m, window, key) as real <= c + Refill(t, c)
    decreases |window|
  {
    hide Refill, LimitsWithin, Available, Sound, Capacity;
    RefillIsMonotone(t, 0.0, c);
    if window != [] {
      var r := window[0];
      var dt := from + t - r.now;
      LimitsOfRest(window, key, c);
      RefillAdds(dt, t - dt, c);
      RefillIsMonotone(t - dt, 0.0, c);
      ServeSpends(m, r, if r.key == key then c else Capacity(r.perMinute));
      if r.key == key {
        AdmittedFrom(Serve(m, r), window[1..], key, c, r.now, from + t);
      } else {
        WindowIsBounded(Serve(m, r), window[1..], key, c, r.now, dt);
      }
    }
  }

  // ------------------------------------------------------------ the bound is met, and so is the retry promise

  /** Simultaneous requests on a full bucket: exactly as many as it holds whole tokens get through. */
  lemma {:induction false} BurstIsServed(m: Buckets, r: Request, n: nat, k: nat)
    requires r.perMinute >= 1 && k <= r.perMinute
    requires Available(Find(m, r.key), r.now, r.perMinute as real) == k as real
    ensures Admitted(m, seq(n, i => r), r.key) == if n <= k then n else k
    decreases n
  {
    if n > 0 {
      var rs := seq(n, i => r);
      assert rs[0] == r && rs[1..] == seq(n - 1, i => r);
      var j := if k > 0 then k - 1 else 0;
      var m' := Serve(m, r);
      assert m'[r.key] == Bucket(j as real, r.now);
      BurstIsServed(m', r, n - 1, j);
    }
  }

  /** A new key gets its whole limit at once. */
  lemma FreshKeyBurst(m: Buckets, r: Request, n: nat)
    requires r.key !in m && r.perMinute >= 1
    ensures Admitted(m, seq(n, i => r), r.key) == if n <= r.perMinute then n else r.perMinute
  {
    BurstIsServed(m, r, n, r.perMinute);
  }

  /** A limit of nought counts as one, and other keys are not touched. */
  lemma LimitOfNought(m: Buckets, r: Request)
    requires r.perMinute == 0
    ensures Admits(m, r) == Admits(m, r.(perMinute := 1)) && Serve(m, r) == Serve(m, r.(perMinute := 1))
    ensures forall k :: k in m && k != r.key ==> k in Serve(m, r) && Serve(m, r)[k] == m[k]
  {
  }

  lemma DivAtMost(x: real, c: real, k: int)
    requires c > 0.0
    ensures x / c <= k as real <==> x <= k as real * c
  {
    assert x / c * c == x;
    if x / c <= k as real {
      assert (k as real - x / c) * c >= 0.0;
    } else {
      assert (x / c - k as real) * c > 0.0;
    }
  }

  lemma CeilAtMost(x: real, k: int)
    ensures Ceil(x) <= k <==> x <= k as real
  {
  }

  /** A refused key with no other request is admitted after a whole number of seconds exactly when that is
      no less than the advertised wait. */
  lemma WaitIsExact(m: Buckets, r: Request, k: nat)
    requires Sound(m) && !Admits(m, r) && k >= 1
    ensures var c := Capacity(r.perMinute);
            Admits(Serve(m, r), r.(now := r.now + k as real))
            <==> k >= Wait(Available(Find(m, r.key), r.now, c), c)
  {
    var c := Capacity(r.perMinute);
    var x := Available(Find(m, r.key), r.now, c);
    assert Serve(m, r)[r.key] == Bucket(x, r.now);
    DivAtMost((1.0 - x) * 60.0, c, k);
    CeilAtMost((1.0 - x) * 60.0 / c, k);
    assert Available(Find(Serve(m, r), r.key), r.now + k as real, c) == Min(x + k as real * c / 60.0, c);
  }

  lemma WaitIsPositive(tokens: real, c: real)
    requires c > 0.0
    ensures Wait(tokens, c) >= 1
  {
  }

  lemma WaitSuffices(m: Buckets, r: Request, later: real)
    requires Sound(m) && !Admits(m, r)
    requires later >= r.now + Wait(Available(Find(m, r.key), r.now, Capacity(r.perMinute)),
        Capacity(r.perMinute)) as real
    ensures Admits(Serve(m, r), r.(now := later))
  {
    var c := Capacity(r.perMinute);
    var x := Available(Find(m, r.key), r.now, c);
    hide Refill, Wait, Sound;
    WaitIsPositive(x, c);
    var w := Wait(x, c);
    WaitIsExact(m, r, w);
    assert Serve(m, r)[r.key] == Bucket(x, r.now);
    RefillAdds(w as real, later - r.now - w as real, c);
    RefillIsMonotone(later - r.now - w as real, 0.0, c);
  }

  // ------------------------------------------------------------ the limiter

  class RateLimiter {
    var buckets: Buckets

    constructor ()
      ensures buckets == map[] && Sound(buckets)
    {
      buckets := map[];
    }

    /** `permit`: the concurrency semaphore of the key has room. A token is spent whether it has or not. */
    method Check(key: string, perMinute: nat, now: real, permit: bool) returns (limit: Limit)
      modifies this
      ensures var r := Request(key, now, perMinute);
              && buckets == Serve(old(buckets), r)
              && (limit.RateLimited? <==> !Admits(old(buckets), r))
              && (limit.RateLimited? ==>
                    limit.retryAfterSecs ==
                      Wait(Available(Find(old(buckets), key), now, Capacity(perMinute)), Capacity(perMinute)))
              && (limit == Allowed <==> Admits(old(buckets), r) && permit)
      ensures Sound(old(buckets)) ==> Sound(buckets)
    {
      if Sound(buckets) {
        ServeSpends(buckets, Request(key, now, perMinute), Capacity(perMinute));
      }
      hide Refill, Wait, Sound;
      var c := if perMinute < 1 then 1.0 else perMinute as real;
      var tokens := c;
      if key in buckets {
        var last := buckets[key].last;
        tokens := Min(buckets[key].tokens + Refill(if now < last then 0.0 else now - last, c), c);
      }
      if tokens < 1.0 {
        buckets := buckets[key := Bucket(tokens, now)];
        return RateLimited(Wait(tokens, c));
      }
      buckets := buckets[key := Bucket(tokens - 1.0, now)];
      limit := if permit then Allowed else TooManyConcurrent;
    }

    method CheckAnonymous(key: string, perMinute: nat, now: real) returns (ok: bool)
      modifies this
      ensures var r := Request("anon:" + key, now, perMinute);
              ok == Admits(old(buckets), r) && buckets == Serve(old(buckets), r)
      ensures Sound(old(buckets)) ==> Sound(buckets)
    {
      var limit := Check("anon:" + key, perMinute, now, true);
      ok := limit.Allowed?;
    }
  }
}
