/**
 The in-memory token lock with expiry. Holders are told apart by the call that acquired the lock;
 release can be called by anybody, for any key and with any token.
 */
module LockService {
  import opened Prelude

  type Key = string

  datatype Lock = Lock(token: string, expiresAt: int)

  type Locks = map<Key, Lock>

  // ---------------------------------------------------------------- the two operations

  function AcquireIn(locks: Locks, key: Key, ttlMs: int, token: string, now: int): (Locks, Option<string>) {
    if key in locks && now < locks[key].expiresAt then (locks, None)
    else (locks[key := Lock(token, now + ttlMs)], Some(token))
  }

  /** An absent or empty token releases whatever lock there is. */
  function ReleaseIn(locks: Locks, key: Key, token: Option<string>): (Locks, bool) {
    if key !in locks then (locks, false)
    else if token.Some? && token.value != "" && locks[key].token != token.value then (locks, false)
    else (locks - {key}, true)
  }

  class Service {
    var localLocks: Locks

    constructor ()
      ensures localLocks == map[]
    {
      localLocks := map[];
    }

    /** The generated token stands for the random UUID. */
    method Acquire(key: Key, ttlMs: int, customToken: Option<string>, generated: string, now: int)
      returns (r: Option<string>)
      modifies this
      ensures var token := if customToken.Some? && customToken.value != "" then customToken.value else generated;
        (localLocks, r) == AcquireIn(old(localLocks), key, ttlMs, token, now)
    {
      var token := if customToken.Some? && customToken.value != "" then customToken.value else generated;
      if key in localLocks && now < localLocks[key].expiresAt {
        return None;
      }
      localLocks := localLocks[key := Lock(token, now + ttlMs)];
      return Some(token);
    }

    method Release(key: Key, lockToken: Option<string>) returns (released: bool)
      modifies this
      ensures (localLocks, released) == ReleaseIn(old(localLocks), key, lockToken)
    {
      if key !in localLocks {
        return false;
      }
      if lockToken.Some? && lockToken.value != "" && localLocks[key].token != lockToken.value {
        return false;
      }
      localLocks := localLocks - {key};
      return true;
    }
  }

  /** Whoever is answered with a token has the lock until it expires, and gets it removed by that token alone. */
  lemma AnswerOpens(locks: Locks, key: Key, ttlMs: int, token: string, now: int, other: string)
    requires token != "" && other != "" && other != token
    ensures var (held, r) := AcquireIn(locks, key, ttlMs, token, now);
      && (r.None? <==> key in locks && now < locks[key].expiresAt)
      && (r.None? ==> held == locks)
      && (r.Some? ==>
            && r.value == token && held - {key} == locks - {key}
            && key in held && held[key].expiresAt == now + ttlMs
            && ReleaseIn(held, key, r) == (locks - {key}, true)
            && ReleaseIn(held, key, Some(other)) == (held, false))
  {
    var (held, r) := AcquireIn(locks, key, ttlMs, token, now);
    if r.Some? {
      assert held - {key} == locks - {key};
    }
  }

  /** A release is answered with whether it took the lock of the key away; it touches no other. */
  lemma ReleaseAnswers(locks: Locks, key: Key, token: Option<string>)
    ensures var (after, released) := ReleaseIn(locks, key, token);
      && (released <==> key in locks && key !in after)
      && (key in locks && (token == None || token == Some("") || token == Some(locks[key].token)) <==> released)
      && forall k :: k != key || !released ==> (k in after <==> k in locks) && (k in locks ==> after[k] == locks[k])
  {
  }

  // ---------------------------------------------------------------- runs

  /** One successful acquisition, and whether its holder has called release. */
  datatype Grant = Grant(key: Key, token: string, expiresAt: int, released: bool)

  datatype History = History(locks: Locks, grants: seq<Grant>)

  const START := History(map[], [])

  /** Anybody can call release, with any token or none; the caller may be the holder of a grant. */
  datatype Event =
    | Acquire(key: Key, ttlMs: int, token: string, now: int)
    | Release(key: Key, given: Option<string>, holder: Option<nat>, now: int)

  /** The token given to release is taken for the token of the lock. */
  predicate Opens(given: Option<string>, token: string) {
    given.None? || given.value == "" || given.value == token
  }

  /** The caller of the release is the holder of grant i, and gives it up. */
  predicate GivesUp(h: History, e: Event, i: nat)
    requires e.Release? && i < |h.grants|
  {
    e.holder == Some(i) && h.grants[i].key == e.key && Opens(e.given, h.grants[i].token)
  }

  function Step(h: History, e: Event): History {
    match e
    case Acquire(key, ttlMs, token, now) =>
      var (locks, r) := AcquireIn(h.locks, key, ttlMs, token, now);
      History(locks, if r.Some? then h.grants + [Grant(key, r.value, now + ttlMs, false)] else h.grants)
    case Release(key, given, holder, _) =>
      History(ReleaseIn(h.locks, key, given).0,
              if holder.Some? && holder.value < |h.grants| && GivesUp(h, e, holder.value)
              then h.grants[holder.value := h.grants[holder.value].(released := true)] else h.grants)
  }

  function Run(events: seq<Event>): History {
    if events == [] then START else Step(Run(events[..|events| - 1]), events[|events| - 1])
  }

  predicate Live(g: Grant, now: int) {
    !g.released && now < g.expiresAt
  }

  /** The clock does not go back. */
  predicate Ordered(events: seq<Event>) {
    forall i, j :: 0 <= i < j < |events| ==> events[i].now <= events[j].now
  }

  predicate Past(events: seq<Event>, now: int) {
    events != [] ==> events[|events| - 1].now <= now
  }

  predicate HasLock(h: History, i: nat)
    requires i < |h.grants|
  {
    var g := h.grants[i];
    g.key in h.locks && h.locks[g.key] == Lock(g.token, g.expiresAt)
  }

  /** The table holds exactly the locks of the live grants, and a key has at most one of them. */
  ghost predicate Safe(h: History, now: int) {
    && (forall i :: 0 <= i < |h.grants| && Live(h.grants[i], now) ==> HasLock(h, i))
    && (forall k :: k in h.locks && now < h.locks[k].expiresAt ==>
          exists i :: 0 <= i < |h.grants| && h.grants[i].key == k && Live(h.grants[i], now))
    && (forall i, j :: 0 <= i < j < |h.grants| && Live(h.grants[i], now) && Live(h.grants[j], now) ==>
          h.grants[i].key != h.grants[j].key)
  }

  /** The release is taken for that of live holder i, who does not call it. */
  predicate TakenFor(h: History, e: Event, i: nat)
    requires e.Release? && i < |h.grants|
  {
    && Live(h.grants[i], e.now) && h.grants[i].key == e.key && Opens(e.given, h.grants[i].token)
    && !GivesUp(h, e, i)
  }

  /** The event takes the lock of a live holder away from it. */
  predicate Hits(h: History, e: Event) {
    e.Release? && exists i :: 0 <= i < |h.grants| && TakenFor(h, e, i)
  }

  lemma SafeLater(h: History, before: int, now: int)
    requires Safe(h, before) && before <= now
    ensures Safe(h, now)
  {
    forall k | k in h.locks && now < h.locks[k].expiresAt
      ensures exists i :: 0 <= i < |h.grants| && h.grants[i].key == k && Live(h.grants[i], now)
    {
      var i :| 0 <= i < |h.grants| && h.grants[i].key == k && Live(h.grants[i], before);
      assert HasLock(h, i);
    }
  }

  lemma AcquireIsSafe(h: History, e: Event)
    requires e.Acquire? && Safe(h, e.now)
    ensures Safe(Step(h, e), e.now)
  {
    var h' := Step(h, e);
    if |h'.grants| > |h.grants| {
      var n := |h.grants|;
      assert forall i :: 0 <= i < n ==> h'.grants[i] == h.grants[i];
      forall i | 0 <= i < n && Live(h.grants[i], e.now) ensures h.grants[i].key != e.key && HasLock(h', i) {
        assert HasLock(h, i);
      }
      forall k | k in h'.locks && e.now < h'.locks[k].expiresAt
        ensures exists i :: 0 <= i < |h'.grants| && h'.grants[i].key == k && Live(h'.grants[i], e.now)
      {
        if k == e.key {
          assert Live(h'.grants[n], e.now);
        } else {
          var i :| 0 <= i < n && h.grants[i].key == k && Live(h.grants[i], e.now);
          assert h'.grants[i] == h.grants[i];
        }
      }
    }
  }

  lemma HitIsUnsafe(h: History, e: Event)
    requires Safe(h, e.now) && Hits(h, e)
    ensures !Safe(Step(h, e), e.now)
  {
    var i :| 0 <= i < |h.grants| && TakenFor(h, e, i);
    assert HasLock(h, i);
    var h' := Step(h, e);
    assert h'.grants[i] == h.grants[i];
    assert h.grants[i].key !in h'.locks;
    assert !HasLock(h', i);
  }

  lemma MissIsSafe(h: History, e: Event)
    requires e.Release? && Safe(h, e.now) && !Hits(h, e)
    ensures Safe(Step(h, e), e.now)
  {
    var h' := Step(h, e);
    forall i | 0 <= i < |h'.grants| && Live(h'.grants[i], e.now) ensures h'.grants[i] == h.grants[i] && HasLock(h', i) {
      assert HasLock(h, i);
      assert !TakenFor(h, e, i);
    }
    forall k | k in h'.locks && e.now < h'.locks[k].expiresAt
      ensures exists i :: 0 <= i < |h'.grants| && h'.grants[i].key == k && Live(h'.grants[i], e.now)
    {
      var i :| 0 <= i < |h.grants| && h.grants[i].key == k && Live(h.grants[i], e.now);
      assert HasLock(h, i);
      assert h'.grants[i] == h.grants[i];
    }
  }

  /** From a safe state, an event leads to a safe state exactly when it does not take a live lock away. */
  lemma StepIsSafeIff(h: History, e: Event)
    requires Safe(h, e.now)
    ensures Safe(Step(h, e), e.now) <==> !Hits(h, e)
  {
    if e.Acquire? {
      AcquireIsSafe(h, e);
    } else if Hits(h, e) {
      HitIsUnsafe(h, e);
    } else {
      MissIsSafe(h, e);
    }
  }

  ghost predicate NeverHits(events: seq<Event>) {
    forall n :: 0 <= n < |events| ==> !Hits(Run(events[..n]), events[n])
  }

  /** The state after the first n events is safe, at the time of the last of them. */
  ghost predicate SafeAfter(events: seq<Event>, n: nat)
    requires n <= |events|
  {
    n > 0 ==> Safe(Run(events[..n]), events[n - 1].now)
  }

  ghost predicate SafeThroughout(events: seq<Event>) {
    forall n: nat :: n <= |events| ==> SafeAfter(events, n)
  }

  lemma PrefixStep(events: seq<Event>, n: nat)
    requires Ordered(events) && n < |events| && SafeAfter(events, n)
    ensures Run(events[..n + 1]) == Step(Run(events[..n]), events[n])
    ensures Safe(Run(events[..n]), events[n].now)
  {
    hide Safe, Step;
    assert events[..n + 1][..n] == events[..n];
    if n > 0 {
      SafeLater(Run(events[..n]), events[n - 1].now, events[n].now);
    } else {
      StartIsSafe(events[0].now);
    }
  }

  lemma StartIsSafe(now: int)
    ensures Safe(START, now) && Run([]) == START
  {
  }

  lemma {:induction false} SafeIfNeverHits(events: seq<Event>, n: nat)
    requires Ordered(events) && NeverHits(events) && n <= |events|
    ensures SafeAfter(events, n)
    decreases n
  {
    hide Safe, Hits, Step, Run;
    if n > 0 {
      SafeIfNeverHits(events, n - 1);
      PrefixStep(events, n - 1);
      StepIsSafeIff(Run(events[..n - 1]), events[n - 1]);
    }
  }

  /**
   Whatever tokens are used and whether or not they are passed: a run keeps the lock safe throughout
   exactly when no release in it is taken for that of another, live holder of the key.
   */
  lemma RunIsSafeIff(events: seq<Event>)
    requires Ordered(events)
    ensures SafeThroughout(events) <==> NeverHits(events)
  {
    hide Safe, Hits, Step, Run, SafeAfter;
    if NeverHits(events) {
      forall n: nat | n <= |events| ensures SafeAfter(events, n) {
        SafeIfNeverHits(events, n);
      }
    }
    if SafeThroughout(events) {
      forall n: nat | n < |events| ensures !Hits(Run(events[..n]), events[n]) {
        assert SafeAfter(events, n);
        var m := n + 1;
        assert SafeAfter(events, m);
        NoHitBetween(events, n);
      }
    }
  }

  lemma NoHitBetween(events: seq<Event>, n: nat)
    requires Ordered(events) && n < |events| && SafeAfter(events, n) && SafeAfter(events, n + 1)
    ensures !Hits(Run(events[..n]), events[n])
  {
    hide Safe, Hits, Step, Run;
    PrefixStep(events, n);
    StepIsSafeIff(Run(events[..n]), events[n]);
  }

  /** After a release that hits a live holder, the next one who asks for the key gets it: two hold it. */
  lemma HitLetsSecondIn(h: History, e: Event, i: nat, ttlMs: int, token: string)
    requires Safe(h, e.now) && e.Release? && i < |h.grants| && TakenFor(h, e, i) && ttlMs > 0
    ensures var h' := Step(Step(h, e), Acquire(h.grants[i].key, ttlMs, token, e.now));
      && |h'.grants| == |h.grants| + 1 && h'.grants[i] == h.grants[i] && Live(h'.grants[i], e.now)
      && h'.grants[|h.grants|].key == h'.grants[i].key && Live(h'.grants[|h.grants|], e.now)
  {
    assert HasLock(h, i);
  }

  // ---------------------------------------------------------------- runs with fresh tokens

  /** Release n is called by a holder, for its key and with its token. */
  predicate ByHolder(events: seq<Event>, n: nat)
    requires n < |events| && events[n].Release?
  {
    var e, grants := events[n], Run(events[..n]).grants;
    e.holder.Some? && e.holder.value < |grants|
    && e.key == grants[e.holder.value].key && e.given == Some(grants[e.holder.value].token)
  }

  /** No two acquisitions of a key use the same token, and only holders release, each with its own token. */
  ghost predicate Orderly(events: seq<Event>) {
    && Ordered(events)
    && (forall i :: 0 <= i < |events| && events[i].Acquire? ==> events[i].token != "")
    && (forall n: nat :: n < |events| && events[n].Release? ==> ByHolder(events, n))
    && (forall i, j :: 0 <= i < j < |events| && events[i].Acquire? && events[j].Acquire? ==>
          events[i].key != events[j].key || events[i].token != events[j].token)
  }

  predicate IsSource(e: Event, g: Grant) {
    e.Acquire? && e.key == g.key && e.token == g.token
  }

  /** Every grant of a run comes from an acquisition of its own, in order. */
  lemma {:induction false} GrantSources(events: seq<Event>) returns (at: seq<nat>)
    ensures var grants := Run(events).grants;
      && |at| == |grants|
      && (forall i :: 0 <= i < |at| ==> at[i] < |events| && IsSource(events[at[i]], grants[i]))
      && (forall i, j :: 0 <= i < j < |at| ==> at[i] < at[j])
    decreases |events|
  {
    at := [];
    if events != [] {
      var n := |events| - 1;
      at := GrantSources(events[..n]);
      if |Run(events).grants| > |at| {
        at := at + [n];
      }
    }
  }

  lemma OrderlyNeverHits(events: seq<Event>)
    requires Orderly(events)
    ensures NeverHits(events)
  {
    hide Run;
    forall n | 0 <= n < |events| ensures !Hits(Run(events[..n]), events[n]) {
      var h, e := Run(events[..n]), events[n];
      if e.Release? {
        assert ByHolder(events, n);
        var at := GrantSources(events[..n]);
        var holder := e.holder.value;
        forall i: nat | i < |h.grants| ensures !TakenFor(h, e, i) {
          assert events[at[i]] == events[..n][at[i]] && events[at[holder]] == events[..n][at[holder]];
          assert i < holder ==> at[i] < at[holder];
          assert holder < i ==> at[holder] < at[i];
        }
      }
    }
  }

  /** After any orderly run the table holds exactly the locks of the live grants. */
  lemma RunFaithful(events: seq<Event>, now: int)
    requires Orderly(events) && Past(events, now)
    ensures Safe(Run(events), now)
  {
    hide Run, Safe, NeverHits;
    OrderlyNeverHits(events);
    SafeIfNeverHits(events, |events|);
    assert events[..|events|] == events;
    if events == [] {
      StartIsSafe(now);
    } else {
      SafeLater(Run(events), events[|events| - 1].now, now);
    }
  }

  /** At any time at most one acquisition of a key is neither released nor expired. */
  lemma MutualExclusion(events: seq<Event>, now: int, i: nat, j: nat)
    requires Orderly(events) && Past(events, now)
    requires var grants := Run(events).grants;
      i < |grants| && j < |grants| && grants[i].key == grants[j].key && Live(grants[i], now) && Live(grants[j], now)
    ensures i == j
  {
    hide Run;
    RunFaithful(events, now);
  }

  /** An acquisition succeeds exactly when no holder of the key is live: the lock is neither shared nor lost. */
  lemma AcquiredIffFree(events: seq<Event>, e: Event)
    requires Orderly(events) && e.Acquire? && Past(events, e.now)
    ensures var h := Run(events);
      AcquireIn(h.locks, e.key, e.ttlMs, e.token, e.now).1.Some? <==>
      forall i :: 0 <= i < |h.grants| && h.grants[i].key == e.key ==> !Live(h.grants[i], e.now)
  {
    hide Run;
    RunFaithful(events, e.now);
    var h := Run(events);
    if i :| 0 <= i < |h.grants| && h.grants[i].key == e.key && Live(h.grants[i], e.now) {
      assert HasLock(h, i);
    }
  }

  /** A release never takes the lock of another holder away: live grants keep their locks, except that of the caller. */
  lemma ReleaseSparesOthers(events: seq<Event>, e: Event, i: nat)
    requires Orderly(events + [e]) && e.Release?
    requires i < |Run(events).grants| && e.holder != Some(i) && Live(Run(events).grants[i], e.now)
    ensures var h, h' := Run(events), Run(events + [e]);
      i < |h'.grants| && h'.grants[i] == h.grants[i] && HasLock(h', i)
  {
    var all := events + [e];
    assert all[..|events|] == events && all[|events|] == e;
    RunFaithful(all, e.now);
  }

  // ---------------------------------------------------------------- what breaks it

  /** With a token used twice, a stale holder releases the lock of a later one. */
  lemma SharedTokenHits()
    ensures !NeverHits([Acquire("k", 10, "t", 0), Acquire("k", 10, "t", 10), Release("k", Some("t"), Some(0), 11)])
  {
    ThirdHits("t", "t", Release("k", Some("t"), Some(0), 11));
  }

  /** With tokens of their own, a stale holder that passes none does so too. */
  lemma MissingTokenHits()
    ensures !NeverHits([Acquire("k", 10, "t", 0), Acquire("k", 10, "u", 10), Release("k", None, Some(0), 11)])
  {
    ThirdHits("t", "u", Release("k", None, Some(0), 11));
  }

  /** And so does anybody else without a token. */
  lemma StrangerHits()
    ensures !NeverHits([Acquire("k", 10, "t", 0), Acquire("k", 10, "u", 10), Release("k", None, None, 11)])
  {
    ThirdHits("t", "u", Release("k", None, None, 11));
  }

  lemma ThirdHits(t: string, u: string, e: Event)
    requires e.Release? && e.key == "k" && Opens(e.given, u) && e.holder != Some(1) && e.now == 11
    ensures !NeverHits([Acquire("k", 10, t, 0), Acquire("k", 10, u, 10), e])
  {
    TwoGrants(t, u);
    var events := [Acquire("k", 10, t, 0), Acquire("k", 10, u, 10), e];
    assert events[..2] == [Acquire("k", 10, t, 0), Acquire("k", 10, u, 10)];
    assert TakenFor(Run(events[..2]), events[2], 1);
  }

  lemma TwoGrants(t: string, u: string)
    ensures Run([Acquire("k", 10, t, 0), Acquire("k", 10, u, 10)]).grants ==
      [Grant("k", t, 10, false), Grant("k", u, 20, false)]
  {
    var e0, e1 := Acquire("k", 10, t, 0), Acquire("k", 10, u, 10);
    assert [e0][..0] == [] && [e0, e1][..1] == [e0];
    assert Run([e0]) == Step(START, e0);
    assert Run([e0, e1]) == Step(Run([e0]), e1);
    assert Run([e0]).grants == [Grant("k", t, 10, false)];
  }
}
