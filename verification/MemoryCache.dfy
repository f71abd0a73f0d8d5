/**
 The in-memory cache with expiry and first-in-first-out eviction, compared over whole runs with a plain
 map that forgets nothing before its time. Pattern deletion is not part of this model.
 */
module MemoryCache {
  import opened Prelude
  import opened Digits
  import opened FiniteSets
  import opened OrderedMap

  type Key = string
  type Value = string

  datatype Entry = Entry(value: Value, expiresAt: Option<int>)

  type Store = OrderedMap<Key, Entry>

  const MAX_MEMORY_KEYS := 1000

  predicate Stale(e: Entry, now: int) {
    e.expiresAt.Some? && now > e.expiresAt.value
  }

  /** The entry that set stores; a missing, zero or negative time to live means no expiry. */
  function NewEntry(value: Value, ttlSeconds: Option<int>, now: int): Entry {
    Entry(value, if ttlSeconds.Some? && ttlSeconds.value > 0 then Some(now + ttlSeconds.value * 1000) else None)
  }

  // ---------------------------------------------------------------- operations on the store

  function GetFrom(s: Store, key: Key, now: int): (Store, Option<Value>)
    requires s.Valid()
  {
    if key !in s.vals then (s, None)
    else if Stale(s.vals[key], now) then (s.Delete(key), None)
    else (s, Some(s.vals[key].value))
  }

  /** At capacity the first key goes, even if the key to set is already there. */
  function MakeRoom(s: Store): (r: Store)
    requires s.Valid()
    ensures r.Valid()
  {
    if |s.keys| >= MAX_MEMORY_KEYS then s.Delete(s.keys[0]) else s
  }

  function SetIn(s: Store, key: Key, value: Value, ttlSeconds: Option<int>, now: int): (r: Store)
    requires s.Valid()
    ensures r.Valid()
  {
    MakeRoom(s).Set(key, NewEntry(value, ttlSeconds, now))
  }

  function PruneKeys(s: Store, ks: seq<Key>, now: int): (r: Store)
    requires s.Valid()
    ensures r.Valid() && |r.keys| <= |s.keys|
    decreases |ks|
  {
    if ks == [] then s
    else PruneKeys(if ks[0] in s.vals && Stale(s.vals[ks[0]], now) then s.Delete(ks[0]) else s, ks[1..], now)
  }

  /** What is set can be read until its seconds are over, or for ever if it was given none. */
  lemma ReadableUntil(s: Store, key: Key, value: Value, ttlSeconds: Option<int>, now: int, later: int)
    requires s.Valid()
    ensures GetFrom(SetIn(s, key, value, ttlSeconds, now), key, later).1 ==
      if ttlSeconds.Some? && ttlSeconds.value > 0 && later - now > 1000 * ttlSeconds.value then None else Some(value)
  {
  }

  /** Reading takes an expired entry away, and nothing else. */
  lemma GetTakesExpired(s: Store, key: Key, now: int, k: Key)
    requires s.Valid()
    ensures var after := GetFrom(s, key, now).0;
      && (k in after.vals <==>
            && k in s.vals
            && !(k == key && s.vals[k].expiresAt.Some? && s.vals[k].expiresAt.value < now))
      && (k in after.vals ==> after.vals[k] == s.vals[k])
  {
  }

  class CacheService {
    var memoryCache: Store

    constructor ()
      ensures memoryCache == Empty()
    {
      memoryCache := Empty();
    }

    method Get(key: Key, now: int) returns (r: Option<Value>)
      requires memoryCache.Valid()
      modifies this
      ensures (memoryCache, r) == GetFrom(old(memoryCache), key, now)
    {
      if key !in memoryCache.vals {
        return None;
      }
      var entry := memoryCache.vals[key];
      if entry.expiresAt.Some? && now > entry.expiresAt.value {
        memoryCache := memoryCache.Delete(key);
        return None;
      }
      return Some(entry.value);
    }

    method Set(key: Key, value: Value, ttlSeconds: Option<int>, now: int)
      requires memoryCache.Valid()
      modifies this
      ensures memoryCache == SetIn(old(memoryCache), key, value, ttlSeconds, now)
    {
      hide Remove;
      if |memoryCache.keys| >= MAX_MEMORY_KEYS {
        var firstKey := memoryCache.keys[0];
        memoryCache := memoryCache.Delete(firstKey);
      }
      var expiresAt := if ttlSeconds.Some? && ttlSeconds.value > 0 then Some(now + ttlSeconds.value * 1000) else None;
      memoryCache := memoryCache.Set(key, Entry(value, expiresAt));
    }

    method Del(key: Key)
      requires memoryCache.Valid()
      modifies this
      ensures memoryCache == old(memoryCache).Delete(key)
    {
      memoryCache := memoryCache.Delete(key);
    }

    method PruneMemoryCache(now: int)
      requires memoryCache.Valid()
      modifies this
      ensures memoryCache == PruneKeys(old(memoryCache), old(memoryCache.keys), now)
    {
      var keys := memoryCache.keys;
      for i := 0 to |keys|
        invariant memoryCache.Valid()
        invariant PruneKeys(memoryCache, keys[i..], now) == PruneKeys(old(memoryCache), keys, now)
      {
        assert keys[i..][0] == keys[i] && keys[i..][1..] == keys[i + 1..];
        if keys[i] in memoryCache.vals {
          var entry := memoryCache.vals[keys[i]];
          if entry.expiresAt.Some? && now > entry.expiresAt.value {
            memoryCache := memoryCache.Delete(keys[i]);
          }
        }
      }
    }
  }

  // ---------------------------------------------------------------- the reference

  datatype Operation =
    | Get(key: Key, now: int)
    | Set(key: Key, value: Value, ttlSeconds: Option<int>, now: int)
    | Del(key: Key, now: int)
    | Prune(now: int)

  /** The plain map: what was set last and not deleted since. */
  function Recall(ref: map<Key, Entry>, op: Operation): map<Key, Entry> {
    match op
    case Set(key, value, ttlSeconds, now) => ref[key := NewEntry(value, ttlSeconds, now)]
    case Del(key, _) => ref - {key}
    case _ => ref
  }

  /** What the plain map answers: the last value set, until it is deleted or has expired. */
  function RefGet(ref: map<Key, Entry>, key: Key, now: int): Option<Value> {
    if key in ref && !Stale(ref[key], now) then Some(ref[key].value) else None
  }

  /** The cache, the plain map, and the keys that capacity has evicted since they were last set. */
  datatype Tracked = Tracked(cache: Store, ref: map<Key, Entry>, evicted: set<Key>)

  function Step(t: Tracked, op: Operation): (r: Tracked)
    requires t.cache.Valid()
    ensures r.cache.Valid()
  {
    match op
    case Get(key, now) => t.(cache := GetFrom(t.cache, key, now).0)
    case Set(key, value, ttlSeconds, now) =>
      Tracked(SetIn(t.cache, key, value, ttlSeconds, now), Recall(t.ref, op),
              t.evicted + (if |t.cache.keys| >= MAX_MEMORY_KEYS then {t.cache.keys[0]} else {}) - {key})
    case Del(key, _) => Tracked(t.cache.Delete(key), Recall(t.ref, op), t.evicted - {key})
    case Prune(now) => t.(cache := PruneKeys(t.cache, t.cache.keys, now))
  }

  function Run(t: Tracked, ops: seq<Operation>): (r: Tracked)
    requires t.cache.Valid()
    ensures r.cache.Valid()
  {
    if ops == [] then t else Step(Run(t, ops[..|ops| - 1]), ops[|ops| - 1])
  }

  const START: Tracked := Tracked(Empty(), map[], {})

  predicate Ordered(ops: seq<Operation>) {
    forall i, j :: 0 <= i < j < |ops| ==> ops[i].now <= ops[j].now
  }

  /** The cache holds what the plain map holds, except for evicted and expired keys. */
  ghost predicate Agrees(t: Tracked, now: int) {
    && t.cache.Valid() && |t.cache.keys| <= MAX_MEMORY_KEYS
    && (forall k :: k in t.cache.vals ==> k in t.ref && t.ref[k] == t.cache.vals[k] && k !in t.evicted)
    && (forall k :: k in t.ref && k !in t.evicted && !Stale(t.ref[k], now) ==> k in t.cache.vals)
  }

  lemma {:induction false} PruneKeeps(s: Store, ks: seq<Key>, now: int, k: Key)
    requires s.Valid()
    ensures var r := PruneKeys(s, ks, now);
      && (k in r.vals ==> k in s.vals && r.vals[k] == s.vals[k])
      && (k in s.vals && !Stale(s.vals[k], now) ==> k in r.vals)
    decreases |ks|
  {
    if ks != [] {
      PruneKeeps(if ks[0] in s.vals && Stale(s.vals[ks[0]], now) then s.Delete(ks[0]) else s, ks[1..], now, k);
    }
  }

  lemma StepAgrees(t: Tracked, op: Operation)
    requires Agrees(t, op.now)
    ensures Agrees(Step(t, op), op.now)
  {
    if op.Prune? {
      forall k ensures var r := PruneKeys(t.cache, t.cache.keys, op.now);
        (k in r.vals ==> k in t.cache.vals && r.vals[k] == t.cache.vals[k])
        && (k in t.cache.vals && !Stale(t.cache.vals[k], op.now) ==> k in r.vals)
      {
        PruneKeeps(t.cache, t.cache.keys, op.now, k);
      }
    } else if op.Set? {
      var t' := Step(t, op);
      var room := MakeRoom(t.cache);
      assert |room.keys| < MAX_MEMORY_KEYS;
      assert t'.cache.vals == room.vals[op.key := NewEntry(op.value, op.ttlSeconds, op.now)];
      if |t.cache.keys| >= MAX_MEMORY_KEYS {
        assert t.cache.keys[0] in t.cache.vals;
      }
    }
  }

  lemma StartAgrees(now: int)
    ensures Agrees(START, now)
  {
  }

  lemma AgreesLater(t: Tracked, before: int, now: int)
    requires Agrees(t, before) && before <= now
    ensures Agrees(t, now)
  {
  }

  lemma {:induction false} RunAgrees(ops: seq<Operation>, now: int)
    requires Ordered(ops) && (ops != [] ==> ops[|ops| - 1].now <= now)
    ensures Agrees(Run(START, ops), now)
    decreases |ops|
  {
    if ops != [] {
      var n := |ops| - 1;
      var t := Run(START, ops[..n]);
      assert Ordered(ops[..n]);
      RunAgrees(ops[..n], ops[n].now);
      hide Step, Agrees;
      StepAgrees(t, ops[n]);
      AgreesLater(Step(t, ops[n]), ops[n].now, now);
    } else {
      StartAgrees(now);
    }
  }

  /**
   After every run, the cache answers what the plain map answers, except that a key evicted at
   capacity since it was last set is missing; and it never holds more than its capacity.
   */
  lemma GetIsRefGetUnlessEvicted(ops: seq<Operation>, key: Key, now: int)
    requires Ordered(ops) && (ops != [] ==> ops[|ops| - 1].now <= now)
    ensures var t := Run(START, ops);
      && GetFrom(t.cache, key, now).1 == (if key in t.evicted then None else RefGet(t.ref, key, now))
      && |t.cache.keys| <= MAX_MEMORY_KEYS
  {
    hide Run;
    RunAgrees(ops, now);
  }

  lemma RunThen(ops: seq<Operation>, op: Operation)
    ensures Run(START, ops + [op]) == Step(Run(START, ops), op)
  {
    hide Step;
    assert (ops + [op])[..|ops|] == ops;
  }

  lemma OrderedThen(ops: seq<Operation>, op: Operation)
    requires Ordered(ops) && (ops != [] ==> ops[|ops| - 1].now <= op.now)
    ensures Ordered(ops + [op])
  {
    var longer := ops + [op];
    forall i, j | 0 <= i < j < |longer| ensures longer[i].now <= longer[j].now {
      if j == |ops| {
        assert ops[i].now <= ops[|ops| - 1].now;
      }
    }
  }

  lemma PruneKeepsTracks(t: Tracked, now: int)
    requires t.cache.Valid()
    ensures Step(t, Prune(now)).ref == t.ref && Step(t, Prune(now)).evicted == t.evicted
  {
    hide PruneKeys;
  }

  /** Pruning at any moment changes no later answer. */
  lemma PruneChangesNoAnswer(ops: seq<Operation>, pruneAt: int, key: Key, now: int)
    requires Ordered(ops) && (ops != [] ==> ops[|ops| - 1].now <= pruneAt) && pruneAt <= now
    ensures GetFrom(Run(START, ops + [Prune(pruneAt)]).cache, key, now).1 == GetFrom(Run(START, ops).cache, key, now).1
  {
    hide Run, GetFrom, RefGet, PruneKeys, Step, Ordered;
    RunThen(ops, Prune(pruneAt));
    OrderedThen(ops, Prune(pruneAt));
    PruneKeepsTracks(Run(START, ops), pruneAt);
    GetIsRefGetUnlessEvicted(ops, key, now);
    GetIsRefGetUnlessEvicted(ops + [Prune(pruneAt)], key, now);
  }

  // ---------------------------------------------------------------- runs without evictions

  /** Every set of the run finds room in the cache. */
  ghost predicate NeverFull(ops: seq<Operation>) {
    forall i :: 0 <= i < |ops| && ops[i].Set? ==> |Run(START, ops[..i]).cache.keys| < MAX_MEMORY_KEYS
  }

  lemma {:induction false} NeverFullNeverEvicts(ops: seq<Operation>)
    requires NeverFull(ops)
    ensures Run(START, ops).evicted == {}
    decreases |ops|
  {
    if ops != [] {
      hide Step;
      var n := |ops| - 1;
      var before := ops[..n];
      forall i | 0 <= i < n && before[i].Set? ensures |Run(START, before[..i]).cache.keys| < MAX_MEMORY_KEYS {
        assert before[..i] == ops[..i];
      }
      NeverFullNeverEvicts(before);
      StepWithRoom(Run(START, before), ops[n]);
    }
  }

  lemma StepWithRoom(t: Tracked, op: Operation)
    requires t.cache.Valid() && t.evicted == {} && (op.Set? ==> |t.cache.keys| < MAX_MEMORY_KEYS)
    ensures Step(t, op).evicted == {}
  {
    hide SetIn, GetFrom, PruneKeys;
  }

  /** A run whose sets never meet a full cache sees no difference from the plain map. */
  lemma NeverFullExact(ops: seq<Operation>, key: Key, now: int)
    requires Ordered(ops) && (ops != [] ==> ops[|ops| - 1].now <= now) && NeverFull(ops)
    ensures GetFrom(Run(START, ops).cache, key, now).1 == RefGet(Run(START, ops).ref, key, now)
  {
    hide Run, NeverFull;
    NeverFullNeverEvicts(ops);
    GetIsRefGetUnlessEvicted(ops, key, now);
  }

  /** The keys that a run sets. */
  function KeysSet(ops: seq<Operation>): set<Key> {
    set i | 0 <= i < |ops| && ops[i].Set? :: ops[i].key
  }

  /** The cache holds only keys that were set. */
  lemma {:induction false} RecalledWereSet(ops: seq<Operation>)
    ensures Run(START, ops).ref.Keys <= KeysSet(ops)
    decreases |ops|
  {
    if ops != [] {
      hide SetIn, GetFrom, PruneKeys;
      var n := |ops| - 1;
      var before := ops[..n];
      RecalledWereSet(before);
      assert forall i :: 0 <= i < n ==> before[i] == ops[i];
      assert ops[n].Set? ==> ops[n].key in KeysSet(ops);
    }
  }

  lemma FewKeysNeverFull(ops: seq<Operation>)
    requires Ordered(ops) && |KeysSet(ops)| < MAX_MEMORY_KEYS
    ensures NeverFull(ops)
  {
    hide Run;
    forall i | 0 <= i < |ops| && ops[i].Set? ensures |Run(START, ops[..i]).cache.keys| < MAX_MEMORY_KEYS {
      var before := ops[..i];
      var keys := Run(START, before).cache.keys;
      assert Ordered(before);
      RunAgrees(before, ops[i].now);
      RecalledWereSet(before);
      assert KeysSet(before) <= KeysSet(ops) by {
        assert forall j :: 0 <= j < i ==> before[j] == ops[j];
      }
      assert forall j :: 0 <= j < |keys| ==> keys[j] in Run(START, before).cache.vals;
      Pigeonhole(KeysSet(ops), keys);
    }
  }

  /** In particular a run that sets fewer keys than the capacity. */
  lemma FewKeysExact(ops: seq<Operation>, key: Key, now: int)
    requires Ordered(ops) && (ops != [] ==> ops[|ops| - 1].now <= now) && |KeysSet(ops)| < MAX_MEMORY_KEYS
    ensures GetFrom(Run(START, ops).cache, key, now).1 == RefGet(Run(START, ops).ref, key, now)
  {
    hide Run, NeverFull, GetFrom, RefGet;
    FewKeysNeverFull(ops);
    NeverFullExact(ops, key, now);
  }

  // ---------------------------------------------------------------- what is evicted

  /** Setting a key loses another one exactly when the cache is full and begins with another key: the first one goes. */
  lemma SetLosesFirstIff(s: Store, key: Key, value: Value, ttlSeconds: Option<int>, now: int, k: Key)
    requires s.Valid() && k != key
    ensures k in s.vals && k !in SetIn(s, key, value, ttlSeconds, now).vals
       <==> |s.keys| >= 1000 && k == s.keys[0]
    ensures k in SetIn(s, key, value, ttlSeconds, now).vals ==>
      k in s.vals && SetIn(s, key, value, ttlSeconds, now).vals[k] == s.vals[k]
  {
  }

  /** Op begins a stay of key k: it sets the key when, after making room, the key is not there. */
  predicate Begins(t: Tracked, op: Operation, k: Key)
    requires t.cache.Valid()
  {
    op.Set? && op.key == k && k !in MakeRoom(t.cache).vals
  }

  /** The number of the operation that began the last stay of key k, counted from 1. */
  function Since(ops: seq<Operation>, k: Key): nat {
    if ops == [] then 0
    else if Begins(Run(START, ops[..|ops| - 1]), ops[|ops| - 1], k) then |ops|
    else Since(ops[..|ops| - 1], k)
  }

  lemma {:induction false} SinceBound(ops: seq<Operation>, k: Key)
    ensures Since(ops, k) <= |ops|
    decreases |ops|
  {
    if ops != [] {
      SinceBound(ops[..|ops| - 1], k);
    }
  }

  lemma {:induction false} PruneInOrder(s: Store, ks: seq<Key>, now: int, time: Key -> int)
    requires s.Valid() && InOrder(s.keys, time)
    ensures InOrder(PruneKeys(s, ks, now).keys, time)
    decreases |ks|
  {
    if ks != [] {
      RemoveInOrder(s.keys, ks[0], time);
      PruneInOrder(if ks[0] in s.vals && Stale(s.vals[ks[0]], now) then s.Delete(ks[0]) else s, ks[1..], now, time);
    }
  }

  /** One operation keeps the order of stays: what it leaves keeps its place, what it adds goes to the end. */
  lemma StepInOrder(t: Tracked, op: Operation, before: Key -> int, after: Key -> int, n: int)
    requires t.cache.Valid() && InOrder(t.cache.keys, before)
    requires forall k :: before(k) < n && after(k) == (if Begins(t, op, k) then n else before(k))
    ensures InOrder(Step(t, op).cache.keys, after)
  {
    hide Remove;
    if op.Prune? {
      PruneInOrder(t.cache, t.cache.keys, op.now, before);
    } else {
      if op.Get? || op.Del? {
        RemoveInOrder(t.cache.keys, op.key, before);
      } else if |t.cache.keys| >= MAX_MEMORY_KEYS {
        RemoveInOrder(t.cache.keys, t.cache.keys[0], before);
      }
    }
  }

  /**
   The keys of the cache are in the order in which their stays began, so that the key evicted at
   capacity is the one that has stayed longest; setting a key again does not renew its stay.
   */
  lemma {:induction false} OldestGoesFirst(ops: seq<Operation>)
    ensures InOrder(Run(START, ops).cache.keys, k => Since(ops, k))
    decreases |ops|
  {
    if ops != [] {
      var n := |ops| - 1;
      var before := ops[..n];
      OldestGoesFirst(before);
      forall k ensures Since(before, k) < |ops| {
        SinceBound(before, k);
      }
      hide Step, Begins;
      StepInOrder(Run(START, before), ops[n], k => Since(before, k), k => Since(ops, k), |ops|);
    }
  }

  // ---------------------------------------------------------------- a full cache

  /** The run that sets n different keys. */
  function Fill(n: nat): seq<Operation> {
    seq(n, i requires 0 <= i < n => Set(Decimal(i), "", None, 0))
  }

  lemma {:induction false} FillFills(n: nat)
    requires n <= MAX_MEMORY_KEYS
    ensures Run(START, Fill(n)).cache.keys == seq(n, i requires 0 <= i < n => Decimal(i))
    decreases n
  {
    hide Decimal, Run, Step;
    if n > 0 {
      FillFills(n - 1);
      var op := Set(Decimal(n - 1), "", None, 0);
      RunThen(Fill(n - 1), op);
      assert Fill(n) == Fill(n - 1) + [op];
      OneMore(Run(START, Fill(n - 1)), n - 1);
    } else {
      assert Run(START, Fill(0)) == START by {
        NothingRun();
      }
    }
  }

  lemma NothingRun()
    ensures Run(START, Fill(0)) == START
  {
  }

  lemma OneMore(t: Tracked, n: nat)
    requires t.cache.Valid() && t.cache.keys == seq(n, i requires 0 <= i < n => Decimal(i)) && n < MAX_MEMORY_KEYS
    ensures Step(t, Set(Decimal(n), "", None, 0)).cache.keys == seq(n + 1, i requires 0 <= i < n + 1 => Decimal(i))
  {
    forall i | 0 <= i < n ensures t.cache.keys[i] != Decimal(n) {
      if Decimal(i) == Decimal(n) {
        DecimalInjective(i, n);
      }
    }
    hide Decimal;
    assert Decimal(n) !in t.cache.keys;
  }

  /** When the cache is full, setting a key that it holds loses its first key, and leaves it below capacity. */
  lemma OverwritingEvicts()
    ensures var t := Run(START, Fill(MAX_MEMORY_KEYS));
      var s := SetIn(t.cache, "1", "new", None, 0);
      && "1" in t.cache.vals && "0" in t.cache.vals && t.evicted == {}
      && "0" !in s.vals && |s.keys| == MAX_MEMORY_KEYS - 1
  {
    FillFills(MAX_MEMORY_KEYS);
    FillEvictsNothing(MAX_MEMORY_KEYS);
    var s := Run(START, Fill(MAX_MEMORY_KEYS)).cache;
    assert s.keys[0] == Decimal(0) == "0" && s.keys[1] == Decimal(1) == "1";
    hide Run, Fill;
    SetLosesFirstIff(s, "1", "new", None, 0, "0");
  }

  lemma FillEvictsNothing(n: nat)
    requires n <= MAX_MEMORY_KEYS
    ensures Run(START, Fill(n)).evicted == {}
  {
    forall i | 0 <= i < n ensures |Run(START, Fill(n)[..i]).cache.keys| < MAX_MEMORY_KEYS {
      assert Fill(n)[..i] == Fill(i);
      FillFills(i);
    }
    hide Run;
    NeverFullNeverEvicts(Fill(n));
  }
}
