/**
 The in-memory fixed-window rate limiter, with its cleanup and the eviction at capacity,
 over whole runs with a clock that does not go back.
 */
module RateLimiter {
  import opened Prelude
  import FiniteSets
  import opened OrderedMap

  type Key = string

  datatype Record = Record(count: int, resetAt: int)

  type Counts = OrderedMap<Key, Record>

  datatype Config = Config(maxRequests: int, windowMs: int)

  datatype State = State(counts: Counts, lastCleanupAt: int)

  const MAX_RATE_LIMIT_ENTRIES := 10_000
  const EVICTED_AT_CAPACITY := 1_000

  // ---------------------------------------------------------------- pruneRateLimitMap

  predicate Expired(r: Record, now: int) {
    now >= r.resetAt
  }

  /** The first loop over the given keys: expired records go. */
  function Expire(m: Counts, ks: seq<Key>, now: int): (r: Counts)
    requires m.Valid()
    ensures r.Valid() && |r.keys| <= |m.keys|
    decreases |ks|
  {
    if ks == [] then m
    else
      Expire(if ks[0] in m.vals && Expired(m.vals[ks[0]], now) then m.Delete(ks[0]) else m, ks[1..], now)
  }

  /** The second loop: the oldest n keys go. */
  function DropFirst(m: Counts, n: nat): (r: Counts)
    requires m.Valid()
    ensures r.Valid() && |r.keys| == if n <= |m.keys| then |m.keys| - n else 0
    ensures forall k :: k in r.vals ==> k in m.vals && r.vals[k] == m.vals[k]
    decreases n
  {
    if n == 0 || m.keys == [] then m else DropFirst(m.Delete(m.keys[0]), n - 1)
  }

  function Prune(m: Counts, now: int): (r: Counts)
    requires m.Valid()
    ensures r.Valid()
  {
    var live := Expire(m, m.keys, now);
    if |live.keys| >= MAX_RATE_LIMIT_ENTRIES then DropFirst(live, EVICTED_AT_CAPACITY) else live
  }

  // ---------------------------------------------------------------- one request

  function Swept(c: Config, s: State, now: int): (r: State)
    requires s.counts.Valid()
    ensures r.counts.Valid()
  {
    if now - s.lastCleanupAt >= c.windowMs || |s.counts.keys| >= MAX_RATE_LIMIT_ENTRIES then
      State(Prune(s.counts, now), now)
    else s
  }

  function CeilDiv(a: int, b: int): int
    requires b > 0
  {
    -((-a) / b)
  }

  datatype Verdict = Admitted | Rejected(retryAfterSeconds: int)

  /** The in-memory path of the middleware. */
  function Handle(c: Config, s: State, key: Key, now: int): (r: (State, Verdict))
    requires s.counts.Valid()
    ensures r.0.counts.Valid()
  {
    var t := Swept(c, s, now);
    if key !in t.counts.vals || Expired(t.counts.vals[key], now) then
      (t.(counts := t.counts.Set(key, Record(1, now + c.windowMs))), Admitted)
    else
      var seen := t.counts.vals[key];
      var record := seen.(count := seen.count + 1);
      (t.(counts := t.counts.Set(key, record)),
       if record.count > c.maxRequests then Rejected(Max(1, CeilDiv(record.resetAt - now, 1000))) else Admitted)
  }

  // ---------------------------------------------------------------- the middleware in place

  class Limiter {
    const config: Config
    var requestCounts: Counts
    var lastCleanupAt: int

    constructor (config: Config)
      ensures this.config == config && requestCounts == Empty() && lastCleanupAt == 0
    {
      this.config, requestCounts, lastCleanupAt := config, Empty(), 0;
    }

    ghost function Contents(): State
      reads this
    {
      State(requestCounts, lastCleanupAt)
    }

    /** The first loop of pruneRateLimitMap. */
    method DeleteExpired(now: int)
      requires requestCounts.Valid()
      modifies this`requestCounts
      ensures requestCounts == Expire(old(requestCounts), old(requestCounts.keys), now)
    {
      var keys := requestCounts.keys;
      for i := 0 to |keys|
        invariant requestCounts.Valid()
        invariant Expire(requestCounts, keys[i..], now) == Expire(old(requestCounts), keys, now)
      {
        assert keys[i..][0] == keys[i] && keys[i..][1..] == keys[i + 1..];
        if keys[i] in requestCounts.vals && now >= requestCounts.vals[keys[i]].resetAt {
          requestCounts := requestCounts.Delete(keys[i]);
        }
      }
    }

    /** The second loop of pruneRateLimitMap. */
    method DeleteOldest(toDelete: nat)
      requires requestCounts.Valid()
      modifies this`requestCounts
      ensures requestCounts == DropFirst(old(requestCounts), toDelete)
    {
      var count := 0;
      while count < toDelete && requestCounts.keys != []
        invariant requestCounts.Valid() && 0 <= count <= toDelete
        invariant DropFirst(requestCounts, toDelete - count) == DropFirst(old(requestCounts), toDelete)
      {
        requestCounts := requestCounts.Delete(requestCounts.keys[0]);
        count := count + 1;
      }
    }

    method PruneRateLimitMap(now: int)
      requires requestCounts.Valid()
      modifies this`requestCounts
      ensures requestCounts == Prune(old(requestCounts), now)
    {
      DeleteExpired(now);
      if |requestCounts.keys| >= MAX_RATE_LIMIT_ENTRIES {
        DeleteOldest(EVICTED_AT_CAPACITY);
      }
    }

    method RateLimit(key: Key, now: int) returns (verdict: Verdict)
      requires requestCounts.Valid()
      modifies this
      ensures (Contents(), verdict) == Handle(config, old(Contents()), key, now)
      ensures requestCounts.Valid()
    {
      hide Prune, CeilDiv;
      if now - lastCleanupAt >= config.windowMs || |requestCounts.keys| >= MAX_RATE_LIMIT_ENTRIES {
        PruneRateLimitMap(now);
        lastCleanupAt := now;
      }
      if key !in requestCounts.vals || now >= requestCounts.vals[key].resetAt {
        requestCounts := requestCounts.Set(key, Record(1, now + config.windowMs));
        return Admitted;
      }
      var record := requestCounts.vals[key];
      record := record.(count := record.count + 1);
      requestCounts := requestCounts.Set(key, record);
      if record.count > config.maxRequests {
        return Rejected(Max(1, CeilDiv(record.resetAt - now, 1000)));
      }
      return Admitted;
    }
  }

  // ---------------------------------------------------------------- what cleaning does to one key

  lemma {:induction false} ExpireKeeps(m: Counts, ks: seq<Key>, now: int, k: Key)
    requires m.Valid()
    ensures var r := Expire(m, ks, now);
      && (k in r.vals ==> k in m.vals && r.vals[k] == m.vals[k])
      && (k in m.vals && k !in r.vals ==> Expired(m.vals[k], now))
    decreases |ks|
  {
    if ks != [] {
      ExpireKeeps(if ks[0] in m.vals && Expired(m.vals[ks[0]], now) then m.Delete(ks[0]) else m, ks[1..], now, k);
    }
  }

  /** A live record of key k is thrown out by the capacity branch in this request. */
  predicate Evicted(c: Config, s: State, now: int, k: Key)
    requires s.counts.Valid()
  {
    k in s.counts.vals && !Expired(s.counts.vals[k], now) && k !in Swept(c, s, now).counts.vals
  }

  /**
     Only an eviction at capacity takes a live record away, and it happens only when the map is full of live
     records.
   */
  lemma SweptKeeps(c: Config, s: State, now: int, k: Key)
    requires s.counts.Valid()
    ensures var t := Swept(c, s, now);
      && (k in t.counts.vals ==> k in s.counts.vals && t.counts.vals[k] == s.counts.vals[k])
      && (k in s.counts.vals && !Expired(s.counts.vals[k], now) && !Evicted(c, s, now, k) ==> k in t.counts.vals)
    ensures Evicted(c, s, now, k) ==> |Expire(s.counts, s.counts.keys, now).keys| >= MAX_RATE_LIMIT_ENTRIES
  {
    ExpireKeeps(s.counts, s.counts.keys, now, k);
  }

  // ---------------------------------------------------------------- what a clean-up leaves

  lemma {:induction false} ExpireOrder(m: Counts, ks: seq<Key>, now: int, time: Key -> int)
    requires m.Valid() && InOrder(m.keys, time)
    ensures InOrder(Expire(m, ks, now).keys, time)
    decreases |ks|
  {
    if ks != [] {
      RemoveInOrder(m.keys, ks[0], time);
      ExpireOrder(if ks[0] in m.vals && Expired(m.vals[ks[0]], now) then m.Delete(ks[0]) else m, ks[1..], now, time);
    }
  }

  lemma {:induction false} ExpireTakes(m: Counts, ks: seq<Key>, now: int, k: Key)
    requires m.Valid() && k in ks && k in m.vals && Expired(m.vals[k], now)
    ensures k !in Expire(m, ks, now).vals
    decreases |ks|
  {
    var rest := if ks[0] in m.vals && Expired(m.vals[ks[0]], now) then m.Delete(ks[0]) else m;
    if k in rest.vals {
      ExpireTakes(rest, ks[1..], now, k);
    } else {
      ExpireKeeps(rest, ks[1..], now, k);
    }
  }

  lemma {:induction false} DropFirstIs(m: Counts, n: nat)
    requires m.Valid()
    ensures DropFirst(m, n).keys == if n <= |m.keys| then m.keys[n..] else []
    decreases n
  {
    if n > 0 && m.keys != [] {
      DropFirstIs(m.Delete(m.keys[0]), n - 1);
      assert m.Delete(m.keys[0]).keys == m.keys[1..];
    }
  }

  /** The live keys, in the order of the map. */
  ghost predicate AreLive(m: Counts, now: int, live: seq<Key>) {
    && (forall k :: k in live <==> k in m.vals && !Expired(m.vals[k], now))
    && FiniteSets.NoRepeats(live)
    && forall time: Key -> int :: InOrder(m.keys, time) ==> InOrder(live, time)
  }

  /**
   A clean-up is due when a window has passed since the last one or the map is full. It takes away every
   expired record, and, if the live ones alone fill the map, the thousand whose keys came first.
   */
  lemma SweptIs(c: Config, s: State, now: int) returns (live: seq<Key>)
    requires s.counts.Valid()
    ensures AreLive(s.counts, now, live)
    ensures var t := Swept(c, s, now);
      if now - s.lastCleanupAt >= c.windowMs || |s.counts.keys| >= 10_000 then
        && t.lastCleanupAt == now
        && t.counts.keys == (if |live| >= 10_000 then live[1_000..] else live)
        && forall k :: k in t.counts.keys ==> k in s.counts.vals && t.counts.vals[k] == s.counts.vals[k]
      else t == s
  {
    var m := s.counts;
    live := Expire(m, m.keys, now).keys;
    forall k ensures k in live <==> k in m.vals && !Expired(m.vals[k], now) {
      ExpireKeeps(m, m.keys, now, k);
      if k in m.vals && Expired(m.vals[k], now) {
        ExpireTakes(m, m.keys, now, k);
      }
    }
    forall time: Key -> int | InOrder(m.keys, time) ensures InOrder(live, time) {
      ExpireOrder(m, m.keys, now, time);
    }
    DropFirstIs(Expire(m, m.keys, now), EVICTED_AT_CAPACITY);
    forall k | k in Swept(c, s, now).counts.keys
      ensures k in m.vals && Swept(c, s, now).counts.vals[k] == m.vals[k]
    {
      SweptKeeps(c, s, now, k);
    }
  }

  /** A refused client is told the least number of whole seconds, but at least one, that reach the end of the window. */
  lemma RetryIsLeast(c: Config, s: State, key: Key, now: int)
    requires s.counts.Valid()
    ensures var (t, verdict) := Handle(c, s, key, now);
      verdict.Rejected? ==>
        var left := t.counts.vals[key].resetAt - now;
        var n := verdict.retryAfterSeconds;
        1000 * n >= left && (n == 1 || (n > 1 && 1000 * (n - 1) < left))
  {
    hide Swept;
  }

  // ---------------------------------------------------------------- runs

  datatype Request = Request(key: Key, now: int)

  /** Request times do not go back, from the given time on. */
  predicate Ordered(requests: seq<Request>, from: int) {
    requests == [] || (from <= requests[0].now && Ordered(requests[1..], requests[0].now))
  }

  function After(c: Config, s: State, requests: seq<Request>): (r: State)
    requires s.counts.Valid()
    ensures r.counts.Valid()
    decreases |requests|
  {
    if requests == [] then s else After(c, Handle(c, s, requests[0].key, requests[0].now).0, requests[1..])
  }

  /** The map never holds more than the capacity. */
  lemma {:induction false} NeverOverCapacity(c: Config, s: State, requests: seq<Request>)
    requires s.counts.Valid() && |s.counts.keys| <= MAX_RATE_LIMIT_ENTRIES
    ensures |After(c, s, requests).counts.keys| <= MAX_RATE_LIMIT_ENTRIES
    decreases |requests|
  {
    if requests != [] {
      NeverOverCapacity(c, Handle(c, s, requests[0].key, requests[0].now).0, requests[1..]);
    }
  }

  /** How many requests of key k are admitted at times from lo up to but not including hi. */
  function Admissions(c: Config, s: State, requests: seq<Request>, k: Key, lo: int, hi: int): nat
    requires s.counts.Valid()
    decreases |requests|
  {
    if requests == [] then 0
    else
      var q := requests[0];
      var (s', verdict) := Handle(c, s, q.key, q.now);
      (if q.key == k && lo <= q.now < hi && verdict.Admitted? then 1 else 0)
      + Admissions(c, s', requests[1..], k, lo, hi)
  }

  /** How many times the capacity branch throws out a live record of key k. */
  function Evictions(c: Config, s: State, requests: seq<Request>, k: Key): nat
    requires s.counts.Valid()
    decreases |requests|
  {
    if requests == [] then 0
    else
      (if Evicted(c, s, requests[0].now, k) then 1 else 0)
      + Evictions(c, Handle(c, s, requests[0].key, requests[0].now).0, requests[1..], k)
  }

  /** At most this many requests of one key pass in a window. The first request of a window always passes. */
  function Quota(c: Config): (q: int)
    ensures q >= 1
  {
    Max(1, c.maxRequests)
  }

  predicate Active(s: State, k: Key, clock: int) {
    k in s.counts.vals && !Expired(s.counts.vals[k], clock)
  }

  /**
   How many more requests of key k can be admitted in the interval [t, t + windowMs) when the clock
   shows the given time: what is left of the running window, and one quota for every window
   that can still open and reach into the interval.
   */
  function Room(c: Config, s: State, k: Key, clock: int, t: int): int {
    var quota := Quota(c);
    if clock >= t + c.windowMs then 0
    else if !Active(s, k, clock) then (if clock >= t then quota else 2 * quota)
    else
      var r := s.counts.vals[k];
      var left := Max(0, quota - r.count);
      if r.resetAt <= t then 2 * quota
      else if r.resetAt < t + c.windowMs then left + quota
      else left
  }

  /** A window ends at most one window length after the clock, and has counted a request. */
  predicate Sane(c: Config, s: State, k: Key, clock: int) {
    k in s.counts.vals ==> s.counts.vals[k].resetAt <= clock + c.windowMs && s.counts.vals[k].count >= 1
  }

  lemma RoomShrinks(c: Config, s: State, k: Key, clock: int, now: int, t: int)
    requires c.windowMs > 0 && clock <= now && Sane(c, s, k, clock)
    ensures 0 <= Room(c, s, k, now, t) <= Room(c, s, k, clock, t)
  {
  }

  /** What one request does to the room of key k. */
  lemma RoomAfterRequest(c: Config, s: State, q: Request, k: Key, t: int)
    requires s.counts.Valid() && c.windowMs > 0 && Sane(c, s, k, q.now)
    ensures var (s', verdict) := Handle(c, s, q.key, q.now);
      && Sane(c, s', k, q.now)
      && (if q.key == k && t <= q.now < t + c.windowMs && verdict.Admitted? then 1 else 0) + Room(c, s', k, q.now, t)
         <= Room(c, s, k, q.now, t) + (if Evicted(c, s, q.now, k) then Quota(c) else 0)
  {
    hide Swept;
    SweptKeeps(c, s, q.now, k);
  }

  lemma {:induction false} AdmissionsFit(c: Config, s: State, requests: seq<Request>, k: Key, clock: int, t: int)
    requires s.counts.Valid() && c.windowMs > 0 && Sane(c, s, k, clock) && Ordered(requests, clock)
    ensures Admissions(c, s, requests, k, t, t + c.windowMs)
         <= Room(c, s, k, clock, t) + Quota(c) * Evictions(c, s, requests, k)
    decreases |requests|
  {
    hide Handle, Room, Evicted, Quota, Sane;
    if requests == [] {
      RoomShrinks(c, s, k, clock, clock, t);
    } else {
      var q := requests[0];
      var s' := Handle(c, s, q.key, q.now).0;
      SaneLater(c, s, k, clock, q.now);
      RoomShrinks(c, s, k, clock, q.now, t);
      RoomAfterRequest(c, s, q, k, t);
      AdmissionsFit(c, s', requests[1..], k, q.now, t);
    }
  }

  lemma SaneLater(c: Config, s: State, k: Key, clock: int, now: int)
    requires Sane(c, s, k, clock) && clock <= now
    ensures Sane(c, s, k, now)
  {
  }

  lemma {:induction false} EmptyIntervalAdmitsNone(c: Config, s: State, requests: seq<Request>, k: Key,
                                                   lo: int, hi: int)
    requires s.counts.Valid() && hi <= lo
    ensures Admissions(c, s, requests, k, lo, hi) == 0
    decreases |requests|
  {
    if requests != [] {
      EmptyIntervalAdmitsNone(c, Handle(c, s, requests[0].key, requests[0].now).0, requests[1..], k, lo, hi);
    }
  }

  /**
   In any interval of one window length, a key is admitted at most twice its quota, and at most one
   quota more for every time the capacity branch threw out its live record.
   */
  lemma AtMostTwoQuotas(c: Config, s: State, requests: seq<Request>, k: Key, clock: int, t: int)
    requires s.counts.Valid() && s.counts.vals == map[] && Ordered(requests, clock)
    ensures Admissions(c, s, requests, k, t, t + c.windowMs)
         <= Quota(c) * (2 + Evictions(c, s, requests, k))
  {
    hide Admissions, Evictions;
    var e := Evictions(c, s, requests, k);
    if c.windowMs > 0 {
      AdmissionsFit(c, s, requests, k, clock, t);
    } else {
      EmptyIntervalAdmitsNone(c, s, requests, k, t, t + c.windowMs);
    }
  }

  /** From the request that opens a window on, a key is admitted at most its quota until the window ends. */
  lemma AtMostOneQuotaPerWindow(c: Config, s: State, requests: seq<Request>, k: Key, t: int)
    requires s.counts.Valid() && c.windowMs > 0 && Ordered(requests, t)
    requires !Active(s, k, t) && Sane(c, s, k, t)
    ensures Admissions(c, s, requests, k, t, t + c.windowMs) <= Quota(c) * (1 + Evictions(c, s, requests, k))
  {
    hide Admissions, Evictions, Quota;
    AdmissionsFit(c, s, requests, k, t, t);
  }

  /** How many of the requests are for key k. */
  function RequestsOf(requests: seq<Request>, k: Key): nat {
    if requests == [] then 0 else (if requests[0].key == k then 1 else 0) + RequestsOf(requests[1..], k)
  }

  predicate AllBefore(requests: seq<Request>, end: int) {
    forall i :: 0 <= i < |requests| ==> requests[i].now < end
  }

  /** One request inside the window of key k: the record stays, and counts the requests of k. */
  lemma CountedInWindow(c: Config, s: State, q: Request, k: Key, end: int)
    requires s.counts.Valid() && k in s.counts.vals && s.counts.vals[k].resetAt == end && s.counts.vals[k].count >= 1
    requires q.now < end && !Evicted(c, s, q.now, k)
    ensures var (s', verdict) := Handle(c, s, q.key, q.now);
      && k in s'.counts.vals && s'.counts.vals[k].resetAt == end
      && s'.counts.vals[k].count == s.counts.vals[k].count + (if q.key == k then 1 else 0)
      && (q.key == k ==> (verdict.Admitted? <==> s.counts.vals[k].count < Quota(c)))
  {
    hide Swept, CeilDiv;
    SweptKeeps(c, s, q.now, k);
  }

  lemma {:induction false} AdmittedInWindow(c: Config, s: State, requests: seq<Request>, k: Key, lo: int, end: int)
    requires s.counts.Valid() && k in s.counts.vals && s.counts.vals[k].resetAt == end && s.counts.vals[k].count >= 1
    requires Ordered(requests, lo) && AllBefore(requests, end) && Evictions(c, s, requests, k) == 0
    ensures Admissions(c, s, requests, k, lo, end)
         == Min(RequestsOf(requests, k), Max(0, Quota(c) - s.counts.vals[k].count))
    decreases |requests|
  {
    if requests != [] {
      hide Handle, Quota, Evicted;
      var q := requests[0];
      var s' := Handle(c, s, q.key, q.now).0;
      CountedInWindow(c, s, q, k, end);
      AdmittedInWindow(c, s', requests[1..], k, q.now, end);
      LowerBoundPassed(c, s', requests[1..], k, lo, q.now, end);
    }
  }

  lemma {:induction false} LowerBoundPassed(
    c: Config, s: State, requests: seq<Request>, k: Key, lo: int, from: int, end: int)
    requires s.counts.Valid() && lo <= from && Ordered(requests, from)
    ensures Admissions(c, s, requests, k, lo, end) == Admissions(c, s, requests, k, from, end)
    decreases |requests|
  {
    if requests != [] {
      hide Handle;
      var s' := Handle(c, s, requests[0].key, requests[0].now).0;
      LowerBoundPassed(c, s', requests[1..], k, lo, requests[0].now, end);
      LowerBoundPassed(c, s', requests[1..], k, from, requests[0].now, end);
    }
  }

  /** The verdict on request i of a run. */
  function VerdictAt(c: Config, s: State, requests: seq<Request>, i: nat): Verdict
    requires s.counts.Valid() && i < |requests|
    decreases i
  {
    var (s', verdict) := Handle(c, s, requests[0].key, requests[0].now);
    if i == 0 then verdict else VerdictAt(c, s', requests[1..], i - 1)
  }

  /** Within a window that has counted some requests, a request passes exactly when those before it leave room. */
  lemma {:induction false} PassesWithRoom(c: Config, s: State, requests: seq<Request>, k: Key, end: int, i: nat)
    requires s.counts.Valid() && k in s.counts.vals && s.counts.vals[k].resetAt == end && s.counts.vals[k].count >= 1
    requires AllBefore(requests, end) && Evictions(c, s, requests, k) == 0 && i < |requests| && requests[i].key == k
    ensures VerdictAt(c, s, requests, i).Admitted? <==>
      s.counts.vals[k].count + RequestsOf(requests[..i], k) < Quota(c)
    decreases i
  {
    hide Handle, Quota, Evicted;
    var q := requests[0];
    CountedInWindow(c, s, q, k, end);
    if i > 0 {
      var s' := Handle(c, s, q.key, q.now).0;
      PassesWithRoom(c, s', requests[1..], k, end, i - 1);
      assert requests[..i][1..] == requests[1..][..i - 1];
    }
  }

  /**
   The limit is exact: of the requests that a key makes in a window that it opens, without evictions,
   those pass that come before the quota is used up, and no others.
   */
  lemma ExactlyQuotaInWindow(c: Config, s: State, requests: seq<Request>, k: Key)
    requires s.counts.Valid() && requests != [] && requests[0].key == k && Ordered(requests, requests[0].now)
    requires !Active(s, k, requests[0].now) && AllBefore(requests, requests[0].now + c.windowMs)
    requires Evictions(c, s, requests, k) == 0
    ensures forall i: nat :: i < |requests| && requests[i].key == k ==>
      (VerdictAt(c, s, requests, i).Admitted? <==> RequestsOf(requests[..i], k) < Quota(c))
    ensures var t := requests[0].now;
      Admissions(c, s, requests, k, t, t + c.windowMs) == Min(RequestsOf(requests, k), Quota(c))
  {
    hide Handle, Evicted, Active, Quota;
    var q := requests[0];
    var s' := Handle(c, s, q.key, q.now).0;
    OpensWindow(c, s, q);
    forall i: nat | i < |requests| && requests[i].key == k
      ensures VerdictAt(c, s, requests, i).Admitted? <==> RequestsOf(requests[..i], k) < Quota(c)
    {
      if i > 0 {
        PassesWithRoom(c, s', requests[1..], k, q.now + c.windowMs, i - 1);
        assert requests[..i][1..] == requests[1..][..i - 1];
      } else {
        assert requests[..0] == [];
      }
    }
    AdmittedInWindow(c, s', requests[1..], k, q.now, q.now + c.windowMs);
  }

  lemma OpensWindow(c: Config, s: State, q: Request)
    requires s.counts.Valid() && !Active(s, q.key, q.now)
    ensures var (s', verdict) := Handle(c, s, q.key, q.now);
      q.key in s'.counts.vals && s'.counts.vals[q.key] == Record(1, q.now + c.windowMs) && verdict == Admitted
  {
    hide Swept;
    SweptKeeps(c, s, q.now, q.key);
  }

  // ---------------------------------------------------------------- trying again

  /** The window of key k, if one is recorded, ends by the given time. */
  predicate EndsBy(s: State, k: Key, end: int) {
    k in s.counts.vals ==> s.counts.vals[k].resetAt <= end
  }

  lemma RejectedEndsBy(c: Config, s: State, k: Key, now: int)
    requires s.counts.Valid() && Handle(c, s, k, now).1.Rejected?
    ensures EndsBy(Handle(c, s, k, now).0, k, now + 1000 * Handle(c, s, k, now).1.retryAfterSeconds)
    ensures Handle(c, s, k, now).1.retryAfterSeconds >= 1
  {
    hide Swept;
  }

  lemma OthersKeepEnd(c: Config, s: State, q: Request, k: Key, end: int)
    requires s.counts.Valid() && EndsBy(s, k, end) && q.key != k
    ensures EndsBy(Handle(c, s, q.key, q.now).0, k, end)
  {
    hide Swept;
    SweptKeeps(c, s, q.now, k);
  }

  lemma {:induction false} OthersLeaveEnd(c: Config, s: State, requests: seq<Request>, k: Key, end: int)
    requires s.counts.Valid() && EndsBy(s, k, end) && RequestsOf(requests, k) == 0
    ensures EndsBy(After(c, s, requests), k, end)
    decreases |requests|
  {
    hide Handle, EndsBy;
    if requests != [] {
      OthersKeepEnd(c, s, requests[0], k, end);
      OthersLeaveEnd(c, Handle(c, s, requests[0].key, requests[0].now).0, requests[1..], k, end);
    }
  }

  /** A client that waits as long as it is told is admitted, whatever requests of others come in between. */
  lemma WaitingIsEnough(c: Config, s: State, k: Key, now: int, requests: seq<Request>, later: int)
    requires s.counts.Valid() && Handle(c, s, k, now).1.Rejected? && RequestsOf(requests, k) == 0
    requires later >= now + 1000 * Handle(c, s, k, now).1.retryAfterSeconds
    ensures Handle(c, After(c, Handle(c, s, k, now).0, requests), k, later).1.Admitted?
  {
    RejectedEndsBy(c, s, k, now);
    var s1, end := Handle(c, s, k, now).0, now + 1000 * Handle(c, s, k, now).1.retryAfterSeconds;
    OthersLeaveEnd(c, s1, requests, k, end);
    var t := After(c, s1, requests);
    SweptKeeps(c, t, later, k);
    hide Swept, After;
  }
}
