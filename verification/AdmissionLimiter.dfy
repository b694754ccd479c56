/** The four-scope admission limiter: counters with stepwise rollback, and leases
    whose release takes effect once. */
module AdmissionLimiter {
  import opened Strings

  datatype Limits = Limits(global: int, perPlugin: int, perUser: int, perToken: int)

  datatype Scope = Global | Plugin | User | Token

  datatype Refusal = InvalidIdentity | LimitExceeded(scope: Scope, limit: int)

  // ----- Go's counting maps -----

  function Count<K>(m: map<K, int>, k: K): int {
    if k in m then m[k] else 0
  }

  function Increment<K>(m: map<K, int>, k: K): map<K, int> {
    m[k := Count(m, k) + 1]
  }

  /** m[k]--; if m[k] == 0 { delete(m, k) }. */
  function Decrement<K>(m: map<K, int>, k: K): map<K, int> {
    if Count(m, k) - 1 == 0 then m - {k} else m[k := Count(m, k) - 1]
  }

  /** A counting map without entries for nothing. */
  predicate Tidy<K>(m: map<K, int>) {
    forall k :: k in m ==> m[k] > 0
  }

  /** Rolling an increment back restores the map itself, not just its counts. */
  lemma RollbackRestores<K>(m: map<K, int>, k: K)
    requires Tidy(m)
    ensures Decrement(Increment(m, k), k) == m
  {
  }

  // ----- leases -----

  /** What the closure returned by acquire remembers; id tells the closures, and
      with them their sync.Once, apart. */
  datatype Lease = Lease(id: nat, plugin: string, user: int, token: int)

  function PluginOf(l: Lease): string { l.plugin }
  function UserOf(l: Lease): int { l.user }
  function TokenOf(l: Lease): int { l.token }

  ghost function Having<K>(live: set<Lease>, f: Lease -> K, k: K): set<Lease> {
    set l | l in live && f(l) == k
  }

  /** The entries of m are the numbers of live leases per value of f, and none is idle. */
  ghost predicate CountsBy<K(!new)>(live: set<Lease>, f: Lease -> K, m: map<K, int>) {
    Tidy(m) && forall k {:trigger Having(live, f, k)} :: Count(m, k) == |Having(live, f, k)|
  }

  lemma AddBy<K(!new)>(live: set<Lease>, l: Lease, f: Lease -> K, m: map<K, int>)
    requires CountsBy(live, f, m) && l !in live
    ensures CountsBy(live + {l}, f, Increment(m, f(l)))
  {
    var more := live + {l};
    forall k ensures Count(Increment(m, f(l)), k) == |Having(more, f, k)| {
      if k == f(l) {
        assert Having(more, f, k) == Having(live, f, k) + {l};
      } else {
        assert Having(more, f, k) == Having(live, f, k);
      }
    }
  }

  lemma RemoveBy<K(!new)>(live: set<Lease>, l: Lease, f: Lease -> K, m: map<K, int>)
    requires CountsBy(live, f, m) && l in live
    ensures CountsBy(live - {l}, f, Decrement(m, f(l)))
  {
    assert l in Having(live, f, f(l));
    var fewer := live - {l};
    forall k ensures Count(Decrement(m, f(l)), k) == |Having(fewer, f, k)| {
      if k == f(l) {
        assert Having(fewer, f, k) == Having(live, f, k) - {l};
      } else {
        assert Having(fewer, f, k) == Having(live, f, k);
      }
    }
  }

  /** A limit below zero admits nobody, so zero remains. */
  predicate Fits<K>(m: map<K, int>, k: K, limit: int) {
    Count(m, k) <= 0 || Count(m, k) <= limit
  }

  ghost predicate Bounded<K(!new)>(m: map<K, int>, limit: int) {
    forall k :: Fits(m, k, limit)
  }

  lemma IncrementBounded<K(!new)>(m: map<K, int>, k: K, limit: int)
    requires Bounded(m, limit) && Count(m, k) < limit
    ensures Bounded(Increment(m, k), limit)
  {
    forall q ensures Fits(Increment(m, k), q, limit) {
      assert Fits(m, q, limit);
    }
  }

  lemma DecrementBounded<K(!new)>(m: map<K, int>, k: K, limit: int)
    requires Bounded(m, limit)
    ensures Bounded(Decrement(m, k), limit)
  {
    forall q ensures Fits(Decrement(m, k), q, limit) {
      assert Fits(m, q, limit);
    }
  }

  /** One counting map: exact, tidy and within its limit. */
  ghost predicate Scoped<K(!new)>(live: set<Lease>, f: Lease -> K, m: map<K, int>, limit: int) {
    CountsBy(live, f, m) && Bounded(m, limit)
  }

  lemma AddScoped<K(!new)>(live: set<Lease>, l: Lease, f: Lease -> K, m: map<K, int>, limit: int)
    requires Scoped(live, f, m, limit) && l !in live && Count(m, f(l)) < limit
    ensures Scoped(live + {l}, f, Increment(m, f(l)), limit)
  {
    AddBy(live, l, f, m);
    IncrementBounded(m, f(l), limit);
  }

  lemma RemoveScoped<K(!new)>(live: set<Lease>, l: Lease, f: Lease -> K, m: map<K, int>, limit: int)
    requires Scoped(live, f, m, limit) && l in live
    ensures Scoped(live - {l}, f, Decrement(m, f(l)), limit)
  {
    RemoveBy(live, l, f, m);
    DecrementBounded(m, f(l), limit);
  }

  /** The live leases have numbers of their own, given out and not yet used up. */
  ghost predicate Numbered(live: set<Lease>, issued: nat, fired: set<nat>) {
    && (forall l :: l in live ==> l.id < issued && l.id !in fired)
    && (forall l, m :: l in live && m in live && l.id == m.id ==> l == m)
    && (forall i :: i in fired ==> i < issued)
  }

  lemma NumberNext(live: set<Lease>, issued: nat, fired: set<nat>, l: Lease)
    requires Numbered(live, issued, fired) && l.id == issued
    ensures l !in live && |live + {l}| == |live| + 1
    ensures Numbered(live + {l}, issued + 1, fired)
  {
  }

  lemma NumberUsed(live: set<Lease>, issued: nat, fired: set<nat>, l: Lease)
    requires Numbered(live, issued, fired) && l in live
    ensures |live - {l}| == |live| - 1
    ensures Numbered(live - {l}, issued, fired + {l.id})
  {
  }

  /** All four counters equal the live leases of their scope and respect its limit. */
  ghost predicate Exact(live: set<Lease>, global: int, plugin: map<string, int>, user: map<int, int>,
                        token: map<int, int>, limits: Limits) {
    && global == |live| && (global <= 0 || global <= limits.global)
    && Scoped(live, PluginOf, plugin, limits.perPlugin)
    && Scoped(live, UserOf, user, limits.perUser)
    && Scoped(live, TokenOf, token, limits.perToken)
  }

  lemma ExactIsTidy(live: set<Lease>, global: int, plugin: map<string, int>, user: map<int, int>,
                    token: map<int, int>, limits: Limits)
    requires Exact(live, global, plugin, user, token, limits)
    ensures Tidy(plugin) && Tidy(user)
  {
  }

  /** The counters a request is checked against are the live leases of its scopes. */
  lemma CountsAreLeases(live: set<Lease>, global: int, plugin: map<string, int>, user: map<int, int>,
                        token: map<int, int>, limits: Limits, key: string, userID: int, tokenID: int)
    requires Exact(live, global, plugin, user, token, limits)
    ensures global == |live| && Count(plugin, key) == |Having(live, PluginOf, key)|
    ensures Count(user, userID) == |Having(live, UserOf, userID)|
    ensures Count(token, tokenID) == |Having(live, TokenOf, tokenID)|
  {
  }

  lemma AddLease(live: set<Lease>, global: int, plugin: map<string, int>, user: map<int, int>,
                 token: map<int, int>, limits: Limits, l: Lease)
    requires Exact(live, global, plugin, user, token, limits) && l !in live && |live + {l}| == |live| + 1
    requires global < limits.global && Count(plugin, l.plugin) < limits.perPlugin
    requires Count(user, l.user) < limits.perUser && Count(token, l.token) < limits.perToken
    ensures Exact(live + {l}, global + 1, Increment(plugin, l.plugin), Increment(user, l.user),
                  Increment(token, l.token), limits)
  {
    AddScoped(live, l, PluginOf, plugin, limits.perPlugin);
    AddScoped(live, l, UserOf, user, limits.perUser);
    AddScoped(live, l, TokenOf, token, limits.perToken);
  }

  lemma RemoveLease(live: set<Lease>, global: int, plugin: map<string, int>, user: map<int, int>,
                    token: map<int, int>, limits: Limits, l: Lease)
    requires Exact(live, global, plugin, user, token, limits) && l in live && |live - {l}| == |live| - 1
    ensures Exact(live - {l}, global - 1, Decrement(plugin, l.plugin), Decrement(user, l.user),
                  Decrement(token, l.token), limits)
  {
    RemoveScoped(live, l, PluginOf, plugin, limits.perPlugin);
    RemoveScoped(live, l, UserOf, user, limits.perUser);
    RemoveScoped(live, l, TokenOf, token, limits.perToken);
  }

  class Limiter {
    const limits: Limits
    var global: int
    var plugin: map<string, int>
    var user: map<int, int>
    var token: map<int, int>
    /** The leases handed out, and those whose sync.Once has fired. */
    var issued: nat
    var fired: set<nat>
    ghost var live: set<Lease>

    ghost predicate Valid()
      reads this
    {
      Numbered(live, issued, fired) && Exact(live, global, plugin, user, token, limits)
    }

    constructor (limits: Limits)
      ensures Valid() && this.limits == limits && live == {}
    {
      this.limits := limits;
      global, plugin, user, token, issued, fired, live := 0, map[], map[], map[], 0, {}, {};
      assert forall k :: Having({}, PluginOf, k) == {};
      assert forall k :: Having({}, UserOf, k) == {};
      assert forall k :: Having({}, TokenOf, k) == {};
    }

    /** The scope that would refuse, in the order the scopes are asked. */
    function Refuses(key: string, userID: int, tokenID: int): (r: seq<Refusal>)
      reads this
    {
      if key == "" || userID <= 0 || tokenID <= 0 then [InvalidIdentity]
      else if global >= limits.global then [LimitExceeded(Global, limits.global)]
      else if Count(plugin, key) >= limits.perPlugin then [LimitExceeded(Plugin, limits.perPlugin)]
      else if Count(user, userID) >= limits.perUser then [LimitExceeded(User, limits.perUser)]
      else if Count(token, tokenID) >= limits.perToken then [LimitExceeded(Token, limits.perToken)]
      else []
    }

    /** The part of acquire that holds the mutex: count up scope by scope, and count
        back down when a later scope refuses. */
    method Reserve(key: string, userID: int, tokenID: int) returns (refusal: seq<Refusal>)
      requires Tidy(plugin) && Tidy(user)
      requires key != "" && userID > 0 && tokenID > 0
      modifies this`global, this`plugin, this`user, this`token
      ensures refusal == old(Refuses(key, userID, tokenID))
      ensures refusal != [] ==>
        global == old(global) && plugin == old(plugin) && user == old(user) && token == old(token)
      ensures refusal == [] ==>
        && global == old(global) + 1 && plugin == Increment(old(plugin), key)
        && user == Increment(old(user), userID) && token == Increment(old(token), tokenID)
    {
      if global >= limits.global {
        return [LimitExceeded(Global, limits.global)];
      }
      global := global + 1;
      if Count(plugin, key) >= limits.perPlugin {
        global := global - 1;
        return [LimitExceeded(Plugin, limits.perPlugin)];
      }
      RollbackRestores(plugin, key);
      plugin := Increment(plugin, key);
      if Count(user, userID) >= limits.perUser {
        global := global - 1;
        plugin := Decrement(plugin, key);
        return [LimitExceeded(User, limits.perUser)];
      }
      RollbackRestores(user, userID);
      user := Increment(user, userID);
      if Count(token, tokenID) >= limits.perToken {
        global := global - 1;
        plugin := Decrement(plugin, key);
        user := Decrement(user, userID);
        return [LimitExceeded(Token, limits.perToken)];
      }
      token := Increment(token, tokenID);
      return [];
    }

    /** The rest of acquire, for an identity that is complete. */
    method Enter(key: string, userID: int, tokenID: int) returns (lease: Lease, refusal: seq<Refusal>)
      requires Valid() && key != "" && userID > 0 && tokenID > 0
      modifies this`global, this`plugin, this`user, this`token, this`issued, this`live
      ensures Valid() && refusal == old(Refuses(key, userID, tokenID))
      ensures refusal != [] ==>
        global == old(global) && plugin == old(plugin) && user == old(user)
        && token == old(token) && issued == old(issued) && live == old(live)
      ensures refusal == [] ==>
        lease == Lease(old(issued), key, userID, tokenID) && lease !in old(live) && live == old(live) + {lease}
    {
      lease := Lease(issued, key, userID, tokenID);
      ExactIsTidy(live, global, plugin, user, token, limits);
      NumberNext(live, issued, fired, lease);
      if Refuses(key, userID, tokenID) == [] {
        AddLease(live, global, plugin, user, token, limits, lease);
      }
      refusal := Reserve(key, userID, tokenID);
      if refusal == [] {
        issued, live := issued + 1, live + {lease};
      }
    }

    /** A refused acquire leaves the whole state as it was; an accepted one adds
        one live lease for the trimmed identity. */
    method Acquire(pluginKey: string, userID: int, tokenID: int) returns (lease: Lease, refusal: seq<Refusal>)
      requires Valid()
      modifies this`global, this`plugin, this`user, this`token, this`issued, this`live
      ensures Valid()
      // the answer, in terms of the live leases: admitted exactly when every scope has room ...
      ensures refusal == [] <==>
        && TrimSpace(pluginKey) != "" && userID > 0 && tokenID > 0
        && |old(live)| < limits.global
        && |Having(old(live), PluginOf, TrimSpace(pluginKey))| < limits.perPlugin
        && |Having(old(live), UserOf, userID)| < limits.perUser
        && |Having(old(live), TokenOf, tokenID)| < limits.perToken
      // ... and otherwise the first full scope is named, with its limit
      ensures refusal == [InvalidIdentity] <==> TrimSpace(pluginKey) == "" || userID <= 0 || tokenID <= 0
      ensures refusal != [] && refusal != [InvalidIdentity] ==>
        if |old(live)| >= limits.global then refusal == [LimitExceeded(Global, limits.global)]
        else if |Having(old(live), PluginOf, TrimSpace(pluginKey))| >= limits.perPlugin then
          refusal == [LimitExceeded(Plugin, limits.perPlugin)]
        else if |Having(old(live), UserOf, userID)| >= limits.perUser then
          refusal == [LimitExceeded(User, limits.perUser)]
        else refusal == [LimitExceeded(Token, limits.perToken)]
      ensures refusal != [] ==>
        global == old(global) && plugin == old(plugin) && user == old(user)
        && token == old(token) && issued == old(issued) && live == old(live)
      ensures refusal == [] ==>
        && lease.plugin == TrimSpace(pluginKey) && lease.user == userID && lease.token == tokenID
        && lease !in old(live) && live == old(live) + {lease}
    {
      var key := TrimSpace(pluginKey);
      if key == "" || userID <= 0 || tokenID <= 0 {
        return Lease(issued, key, userID, tokenID), [InvalidIdentity];
      }
      CountsAreLeases(live, global, plugin, user, token, limits, key, userID, tokenID);
      lease, refusal := Enter(key, userID, tokenID);
    }

    /** The returned closure, called any number of times: the first call gives the
        four places back, the others do nothing. */
    method Release(lease: Lease)
      requires Valid() && (lease in live || lease.id in fired)
      modifies this
      ensures Valid() && lease.id in fired && fired == old(fired) + {lease.id}
      ensures live == old(live) - {lease}
      ensures lease.id in old(fired) ==>
        global == old(global) && plugin == old(plugin) && user == old(user) && token == old(token)
    {
      if lease.id !in fired {
        NumberUsed(live, issued, fired, lease);
        fired := fired + {lease.id};
        RemoveLease(live, global, plugin, user, token, limits, lease);
        live := live - {lease};
        global := global - 1;
        plugin := Decrement(plugin, lease.plugin);
        user := Decrement(user, lease.user);
        token := Decrement(token, lease.token);
      }
    }
  }
}
