/** One-time verification codes: the atomic specification of the store and the
    mutex-guarded map that implements it inside one process. */
module VerificationSpec {

  /** Times are integers in nanoseconds, as in Go's time.Duration. */
  const SECOND: int := 1_000_000_000
  const VALID_SECONDS: int := 10 * 60
  const TTL: int := VALID_SECONDS * SECOND

  type Key = string
  type Code = string

  /** A code that can still be seen: it is forgotten from expiresAt on. */
  datatype Entry = Entry(code: Code, expiresAt: int, claimed: bool)
  type Store = map<Key, Entry>

  function Register(s: Store, k: Key, c: Code, now: int): Store {
    s[k := Entry(c, now + TTL, false)]
  }

  predicate Usable(s: Store, k: Key, c: Code) {
    k in s && !s[k].claimed && s[k].code == c
  }

  function Claim(s: Store, k: Key, c: Code): Store {
    if Usable(s, k, c) then s[k := s[k].(claimed := true)] else s
  }

  function Release(s: Store, k: Key, c: Code): Store {
    if k in s && s[k].code == c then s[k := s[k].(claimed := false)] else s
  }

  function Delete(s: Store, k: Key): Store {
    s - {k}
  }

  function Expire(s: Store, now: int): Store {
    map k | k in s && now < s[k].expiresAt :: s[k]
  }

  /** A claim excludes every other user of the code until it is released, and a
      release gives back exactly the store the claim was made on. */
  lemma ClaimThenRelease(s: Store, k: Key, c: Code)
    requires Usable(s, k, c)
    ensures !Usable(Claim(s, k, c), k, c)
    ensures Claim(Claim(s, k, c), k, c) == Claim(s, k, c)
    ensures Release(Claim(s, k, c), k, c) == s
  {
    assert s[k := s[k].(claimed := true)][k := s[k]] == s;
  }

  /** Once the token under a key has been re-issued, neither claiming nor
      releasing the older code changes anything. */
  lemma RotatedCodeIsInert(s: Store, k: Key, older: Code, newer: Code, now: int)
    requires older != newer
    ensures var t := Register(s, k, newer, now);
            Claim(t, k, older) == t && Release(t, k, older) == t && Usable(t, k, newer)
  {
  }
}

module VerificationMap {
  import opened VerificationSpec

  datatype Value = Value(code: Code, time: int, claimed: bool)

  const MAP_MAX_SIZE := 10

  /** Go's int(d.Seconds()): truncation toward zero. */
  function WholeSeconds(d: int): int {
    if d >= 0 then d / SECOND else -((-d) / SECOND)
  }

  predicate Expired(v: Value, now: int) {
    WholeSeconds(now - v.time) >= VALID_SECONDS
  }

  /** What a caller can observe of the map at a given time. */
  ghost function View(entries: map<Key, Value>, now: int): Store {
    map k | k in entries && !Expired(entries[k], now)
      :: Entry(entries[k].code, entries[k].time + TTL, entries[k].claimed)
  }

  /** The whole-second comparison of the source is the exact deadline of a
      time-to-live of that many seconds. */
  lemma ExpiredIsDeadline(v: Value, now: int)
    ensures Expired(v, now) <==> v.time + TTL <= now
    ensures Expired(v, now) <==> now - v.time >= 600_000_000_000
  {
  }

  /** Letting time pass on the map is letting the specification expire entries. */
  lemma ViewLater(entries: map<Key, Value>, now: int, later: int)
    requires now <= later
    ensures View(entries, later) == Expire(View(entries, now), later)
  {
    forall k | k in entries
      ensures Expired(entries[k], now) ==> Expired(entries[k], later)
      ensures !Expired(entries[k], later) <==> later < entries[k].time + TTL
    {
      ExpiredIsDeadline(entries[k], now);
      ExpiredIsDeadline(entries[k], later);
    }
  }

  lemma ViewAfterRegister(entries: map<Key, Value>, k: Key, c: Code, now: int)
    ensures View(entries[k := Value(c, now, false)], now) == Register(View(entries, now), k, c, now)
  {
    ExpiredIsDeadline(Value(c, now, false), now);
  }

  /** verificationMap with the operations that hold verificationMutex. */
  class CodeMap {
    var entries: map<Key, Value>

    constructor ()
      ensures entries == map[]
    {
      entries := map[];
    }

    method RegisterCode(k: Key, c: Code, now: int)
      modifies this
      ensures View(entries, now) == Register(View(old(entries), now), k, c, now)
      ensures forall q :: q in entries ==> q in old(entries) || q == k
    {
      ViewAfterRegister(entries, k, c, now);
      entries := entries[k := Value(c, now, false)];
      if |entries| > MAP_MAX_SIZE {
        RemoveExpired(now);
      }
    }

    method VerifyCode(k: Key, c: Code, now: int) returns (ok: bool)
      ensures ok == Usable(View(entries, now), k, c)
    {
      if k !in entries || Expired(entries[k], now) {
        return false;
      }
      if entries[k].claimed {
        return false;
      }
      return c == entries[k].code;
    }

    method ClaimCode(k: Key, c: Code, now: int) returns (ok: bool)
      modifies this
      ensures ok == Usable(View(old(entries), now), k, c)
      ensures View(entries, now) == Claim(View(old(entries), now), k, c)
      ensures !ok ==> entries == old(entries)
    {
      if k !in entries || Expired(entries[k], now) {
        return false;
      }
      if entries[k].claimed || c != entries[k].code {
        return false;
      }
      entries := entries[k := entries[k].(claimed := true)];
      return true;
    }

    method ReleaseClaim(k: Key, c: Code, now: int)
      modifies this
      ensures View(entries, now) == Release(View(old(entries), now), k, c)
    {
      if k !in entries || entries[k].code != c {
        return;
      }
      entries := entries[k := entries[k].(claimed := false)];
    }

    method DeleteKey(k: Key, now: int)
      modifies this
      ensures View(entries, now) == Delete(View(old(entries), now), k)
      ensures k !in entries
    {
      entries := entries - {k};
    }

    /** removeExpiredPairs: a sweep no caller can observe. */
    method RemoveExpired(now: int)
      modifies this
      ensures entries == map k | k in old(entries) && !Expired(old(entries)[k], now) :: old(entries)[k]
      ensures View(entries, now) == View(old(entries), now)
    {
      var todo := entries.Keys;
      while todo != {}
        invariant todo <= entries.Keys <= old(entries).Keys
        invariant forall k :: k in entries ==> entries[k] == old(entries)[k]
        invariant forall k :: k in entries && k !in todo ==> !Expired(entries[k], now)
        invariant forall k :: k in old(entries) && !Expired(old(entries)[k], now) ==> k in entries
        decreases todo
      {
        var k :| k in todo;
        if Expired(entries[k], now) {
          entries := entries - {k};
        }
        todo := todo - {k};
      }
    }
  }
}
