/** The in-memory sliding-window rate limiter: trimmed queues and eviction sweeps
    against a specification that remembers every admission. */
module RateLimiter {

  /** All times are whole seconds (Unix time). */
  type History = seq<int>

  /** The admissions of h that are younger than duration at time now. */
  ghost function Recent(h: History, now: int, duration: int): nat {
    |set i | 0 <= i < |h| && now - h[i] < duration|
  }

  /** The specification: fewer than limit admissions within the last duration seconds. */
  ghost predicate Admits(h: History, limit: int, duration: int, now: int) {
    Recent(h, now, duration) < limit
  }

  ghost predicate Ascending(h: History, now: int) {
    && (forall i, j :: 0 <= i <= j < |h| ==> h[i] <= h[j])
    && (forall i :: 0 <= i < |h| ==> h[i] <= now)
  }

  /** What the limiter keeps of a history: the last admissions, at most limit of
      them; the others are too old to matter, now and later, or pushed out by
      limit younger ones. */
  ghost predicate Keeps(q: seq<int>, h: History, limit: int, duration: int, now: int) {
    && |q| <= |h|
    && q == h[|h| - |q|..]
    && |q| <= limit
    && (|q| < limit ==> forall i :: 0 <= i < |h| - |q| ==> now - h[i] >= duration)
  }

  ghost function Block(lo: int, hi: int): (s: set<int>)
    requires lo <= hi
    ensures forall i :: i in s <==> lo <= i < hi
    ensures |s| == hi - lo
    decreases hi - lo
  {
    if lo == hi then {} else Block(lo, hi - 1) + {hi - 1}
  }

  lemma SmallerSet(a: set<int>, b: set<int>)
    requires a <= b
    ensures |a| <= |b|
  {
    if a != b {
      assert b == a + (b - a);
    }
  }

  /** Of an ascending history, the recent admissions are a suffix. */
  lemma RecentIsSuffix(h: History, now: int, duration: int, n: nat)
    requires n <= |h|
    requires forall i :: 0 <= i < n ==> now - h[i] >= duration
    ensures Recent(h, now, duration) <= |h| - n
    ensures (forall i :: n <= i < |h| ==> now - h[i] < duration) ==> Recent(h, now, duration) == |h| - n
  {
    var recent := set i | 0 <= i < |h| && now - h[i] < duration;
    var tail := Block(n, |h|);
    assert recent <= tail;
    SmallerSet(recent, tail);
    if forall i :: n <= i < |h| ==> now - h[i] < duration {
      assert recent == tail;
    }
  }

  lemma RecentAtLeast(h: History, now: int, duration: int, n: nat)
    requires n <= |h|
    requires forall i :: n <= i < |h| ==> now - h[i] < duration
    ensures Recent(h, now, duration) >= |h| - n
  {
    var recent := set i | 0 <= i < |h| && now - h[i] < duration;
    var tail := Block(n, |h|);
    assert tail <= recent;
    SmallerSet(tail, recent);
  }

  /** Looking at the length of the queue and at its oldest element decides exactly
      what counting the whole history decides. */
  lemma QueueDecides(q: seq<int>, h: History, limit: int, duration: int, now: int)
    requires limit >= 1 && Ascending(h, now) && Keeps(q, h, limit, duration, now)
    ensures Admits(h, limit, duration, now) <==> |q| < limit || now - q[0] >= duration
  {
    var n := |h| - |q|;
    if |q| < limit {
      RecentIsSuffix(h, now, duration, n);
    } else if now - q[0] >= duration {
      RecentIsSuffix(h, now, duration, n + 1);
    } else {
      RecentAtLeast(h, now, duration, n);
    }
  }

  /** Time passing keeps the queue a faithful summary. */
  lemma KeepsLater(q: seq<int>, h: History, limit: int, duration: int, now: int, later: int)
    requires Keeps(q, h, limit, duration, now) && Ascending(h, now) && now <= later
    ensures Keeps(q, h, limit, duration, later) && Ascending(h, later)
  {
  }

  /** Forgetting a queue whose newest element is older than the expiry loses
      nothing as long as the duration is no longer than that. */
  lemma EvictionIsSound(q: seq<int>, h: History, limit: int, duration: int, expiry: int, now: int)
    requires limit >= 1 && duration <= expiry + 1
    requires Keeps(q, h, limit, duration, now) && Ascending(h, now)
    requires q == [] || now - q[|q| - 1] > expiry
    ensures Keeps([], h, limit, duration, now)
  {
    if q != [] {
      assert q[|q| - 1] == h[|h| - 1];
    }
  }

  /** Consecutive admissions beyond the limit are a duration apart. */
  ghost predicate Spaced(h: History, limit: int, duration: int) {
    forall i, j :: 0 <= i && i + limit <= j < |h| && i < j ==> h[j] - h[i] >= duration
  }

  lemma AdmissionKeepsSpacing(h: History, limit: int, duration: int, now: int)
    requires limit >= 1 && Ascending(h, now) && Spaced(h, limit, duration)
    requires Admits(h, limit, duration, now)
    ensures Spaced(h + [now], limit, duration) && Ascending(h + [now], now)
  {
    if limit <= |h| && now - h[|h| - limit] < duration {
      RecentAtLeast(h, now, duration, |h| - limit);
    }
  }

  /** Every window [t, t + duration) of a spaced history holds at most limit admissions. */
  lemma WindowIsBounded(h: History, limit: int, duration: int, t: int, now: int)
    requires limit >= 1 && Ascending(h, now) && Spaced(h, limit, duration)
    ensures |set i | 0 <= i < |h| && t <= h[i] < t + duration| <= limit
  {
    var window := set i | 0 <= i < |h| && t <= h[i] < t + duration;
    var first := 0;
    while first < |h| && h[first] < t
      invariant 0 <= first <= |h|
      invariant forall i :: 0 <= i < first ==> h[i] < t
    {
      first := first + 1;
    }
    forall i | i in window ensures i in Block(first, first + limit) {
      assert first <= i;
    }
    SmallerSet(window, Block(first, first + limit));
  }

  /** What each key is limited to. */
  datatype Policy = Policy(limit: string -> int, duration: string -> int)

  type Queues = map<string, seq<int>>

  function Lookup(m: Queues, key: string): seq<int> {
    if key in m then m[key] else []
  }

  ghost predicate KeyOk(q: seq<int>, h: History, limit: int, duration: int, now: int) {
    limit >= 1 && Ascending(h, now) && Keeps(q, h, limit, duration, now) && Spaced(h, limit, duration)
  }

  /** The store answers for the histories of all keys. */
  ghost predicate Faithful(store: Queues, history: Queues, policy: Policy, now: int) {
    forall key :: KeyOk(Lookup(store, key), Lookup(history, key), policy.limit(key), policy.duration(key), now)
  }

  lemma FaithfulLater(store: Queues, history: Queues, policy: Policy, now: int, later: int)
    requires Faithful(store, history, policy, now) && now <= later
    ensures Faithful(store, history, policy, later)
  {
    forall key
      ensures KeyOk(Lookup(store, key), Lookup(history, key), policy.limit(key), policy.duration(key), later)
    {
      KeepsLater(Lookup(store, key), Lookup(history, key), policy.limit(key), policy.duration(key), now, later);
    }
  }

  lemma LookupAfter(m: Queues, key: string, q: seq<int>, other: string)
    ensures Lookup(m[key := q], other) == if other == key then q else Lookup(m, other)
  {
  }

  lemma KeyAdmission(was: seq<int>, h: History, limit: int, duration: int, now: int, q: seq<int>)
    requires KeyOk(was, h, limit, duration, now) && Admits(h, limit, duration, now)
    requires q == (if |was| < limit then was else was[1..]) + [now]
    ensures KeyOk(q, h + [now], limit, duration, now)
  {
    AdmissionKeepsSpacing(h, limit, duration, now);
    assert Keeps(q, h + [now], limit, duration, now);
  }

  /** A request in the sense of the queues: what the new queue of its key must be. */
  lemma FaithfulAdmission(store: Queues, history: Queues, policy: Policy, now: int, key: string, q: seq<int>)
    requires Faithful(store, history, policy, now)
    requires Admits(Lookup(history, key), policy.limit(key), policy.duration(key), now)
    requires var was := Lookup(store, key);
             q == (if |was| < policy.limit(key) then was else was[1..]) + [now]
    ensures Faithful(store[key := q], history[key := Lookup(history, key) + [now]], policy, now)
  {
    var h, was := Lookup(history, key), Lookup(store, key);
    assert KeyOk(was, h, policy.limit(key), policy.duration(key), now);
    KeyAdmission(was, h, policy.limit(key), policy.duration(key), now, q);
    var store', history' := store[key := q], history[key := h + [now]];
    forall other
      ensures KeyOk(Lookup(store', other), Lookup(history', other), policy.limit(other), policy.duration(other), now)
    {
      LookupAfter(store, key, q, other);
      LookupAfter(history, key, h + [now], other);
      assert KeyOk(Lookup(store, other), Lookup(history, other), policy.limit(other), policy.duration(other), now);
    }
  }

  predicate Stale(q: seq<int>, expiry: int, now: int) {
    |q| == 0 || now - q[|q| - 1] > expiry
  }

  function Swept(store: Queues, expiry: int, now: int): Queues {
    map key | key in store && !Stale(store[key], expiry, now) :: store[key]
  }

  /** A sweep forgets nothing that still counts. */
  lemma FaithfulSweep(store: Queues, history: Queues, policy: Policy, now: int, expiry: int)
    requires Faithful(store, history, policy, now)
    requires forall key :: policy.duration(key) <= expiry + 1
    ensures Faithful(Swept(store, expiry, now), history, policy, now)
  {
    forall key
      ensures KeyOk(Lookup(Swept(store, expiry, now), key), Lookup(history, key), policy.limit(key),
                    policy.duration(key), now)
    {
      var q, h := Lookup(store, key), Lookup(history, key);
      assert KeyOk(q, h, policy.limit(key), policy.duration(key), now);
      if Stale(q, expiry, now) {
        EvictionIsSound(q, h, policy.limit(key), policy.duration(key), expiry, now);
      }
    }
  }

  /** What the queue of a key says to a request. */
  predicate QueueAdmits(q: seq<int>, limit: int, duration: int, now: int)
    requires limit >= 1
  {
    |q| < limit || now - q[0] >= duration
  }

  class Limiter {
    var store: Queues
    const expiry: int
    const policy: Policy
    ghost var history: Queues
    ghost var clock: int

    ghost predicate Valid()
      reads this
    {
      && Faithful(store, history, policy, clock)
      && forall key :: policy.duration(key) <= expiry + 1
    }

    constructor (expiry: int, policy: Policy, ghost start: int)
      ensures (forall key :: policy.limit(key) >= 1 && policy.duration(key) <= expiry + 1) ==> Valid()
      ensures store == map[] && history == map[] && clock == start
      ensures this.expiry == expiry && this.policy == policy
    {
      this.expiry, this.policy := expiry, policy;
      store, history, clock := map[], map[], start;
    }

    /** The body of Request, for any limit and duration. */
    method Ask(key: string, maxRequestNum: int, duration: int, now: int) returns (admitted: bool)
      requires maxRequestNum >= 1
      modifies this`store
      ensures var was := Lookup(old(store), key);
              && admitted == QueueAdmits(was, maxRequestNum, duration, now)
              && store == if admitted
                 then old(store)[key := (if |was| < maxRequestNum then was else was[1..]) + [now]]
                 else old(store)
    {
      if key in store {
        if |store[key]| < maxRequestNum {
          store := store[key := store[key] + [now]];
          return true;
        } else {
          if now - store[key][0] >= duration {
            store := store[key := store[key][1..]];
            store := store[key := store[key] + [now]];
            return true;
          } else {
            return false;
          }
        }
      } else {
        store := store[key := []];
        store := store[key := store[key] + [now]];
      }
      return true;
    }

    /** The answer is that of the specification on the full history, and the
        history grows by exactly the admissions. */
    method Request(key: string, maxRequestNum: int, duration: int, now: int) returns (admitted: bool)
      requires Valid() && clock <= now
      requires maxRequestNum == policy.limit(key) && duration == policy.duration(key)
      modifies this
      ensures Valid() && clock == now
      ensures admitted == Admits(Lookup(old(history), key), maxRequestNum, duration, now)
      ensures history == if admitted then old(history)[key := Lookup(old(history), key) + [now]] else old(history)
    {
      FaithfulLater(store, history, policy, clock, now);
      clock := now;
      assert KeyOk(Lookup(store, key), Lookup(history, key), maxRequestNum, duration, now);
      QueueDecides(Lookup(store, key), Lookup(history, key), maxRequestNum, duration, now);
      ghost var before := store;
      admitted := Ask(key, maxRequestNum, duration, now);
      if admitted {
        FaithfulAdmission(before, history, policy, now, key, store[key]);
        history := history[key := Lookup(history, key) + [now]];
      }
    }

    /** The body of one round of clearExpiredItems, for any durations. */
    method Clear(now: int)
      modifies this`store
      ensures store == Swept(old(store), expiry, now)
    {
      var todo := store.Keys;
      while todo != {}
        invariant todo <= store.Keys <= old(store).Keys
        invariant forall key :: key in store ==> store[key] == old(store)[key]
        invariant forall key :: key in old(store) && key !in todo ==>
                    (key in store <==> !Stale(old(store)[key], expiry, now))
        decreases todo
      {
        var key :| key in todo;
        if Stale(store[key], expiry, now) {
          store := store - {key};
        }
        todo := todo - {key};
      }
    }

    /** No history is touched by a sweep, so no later answer changes. */
    method Sweep(now: int)
      requires Valid() && clock <= now
      modifies this
      ensures Valid() && clock == now && history == old(history)
      ensures store == Swept(old(store), expiry, now)
    {
      FaithfulLater(store, history, policy, clock, now);
      clock := now;
      FaithfulSweep(store, history, policy, now, expiry);
      Clear(now);
    }

    /** In every reachable state, no window of the duration of a key holds more
        admissions than its limit. */
    lemma NoWindowOverflows(key: string, t: int)
      requires Valid()
      ensures var h := Lookup(history, key);
              |set i | 0 <= i < |h| && t <= h[i] < t + policy.duration(key)| <= policy.limit(key)
    {
      assert KeyOk(Lookup(store, key), Lookup(history, key), policy.limit(key), policy.duration(key), clock);
      WindowIsBounded(Lookup(history, key), policy.limit(key), policy.duration(key), t, clock);
    }
  }

  /** For every limit and every duration beyond the expiry plus one: after a full
      window at time 0 and a sweep, a request is admitted that the admissions so far
      forbid. */
  method LongerDurationIsUnsound(key: string, limit: int, duration: int, expiry: int)
    returns (admissions: History, now: int, admitted: bool)
    requires limit >= 1 && 0 <= expiry && expiry + 1 < duration
    ensures |admissions| == limit && Ascending(admissions, now)
    ensures admitted && !Admits(admissions, limit, duration, now)
  {
    var l := new Limiter(expiry, Policy(_ => limit, _ => duration), 0);
    admissions, now := [], 0;
    while |admissions| < limit
      invariant |admissions| <= limit && Lookup(l.store, key) == admissions && l.expiry == expiry
      invariant forall i :: 0 <= i < |admissions| ==> admissions[i] == 0
    {
      var ok := l.Ask(key, limit, duration, now);
      assert ok;
      admissions := admissions + [now];
    }
    now := expiry + 1;
    l.Clear(now);
    admitted := l.Ask(key, limit, duration, now);
    RecentAtLeast(admissions, now, duration, 0);
  }
}
