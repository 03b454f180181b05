// The limiter itself: which tier serves a check, what it answers, and what it
// leaves on the server.
module RateLimiter {
  import opened Prelude
  import opened WindowCounter

  // A Redis server holding counters; `hasIncrex` says whether it knows the command.
  class CounterServer {
    var now: nat
    var counters: map<string, Counter>
    const hasIncrex: bool

    constructor (hasIncrex: bool)
      ensures counters == map[] && now == 0 && this.hasIncrex == hasIncrex
    {
      this.hasIncrex := hasIncrex;
      counters := map[];
      now := 0;
    }

    function At(key: string): Option<Counter>
      reads this
    {
      if key in counters then Some(counters[key]) else None
    }

    method Put(key: string, c: Option<Counter>)
      modifies this`counters
      ensures At(key) == c
      ensures forall k :: k != key ==> At(k) == old(At(k))
    {
      counters := if c.Some? then counters[key := c.value] else counters - {key};
    }

    method EvalScript(key: string, cost: int, limit: int, window: nat) returns (r: Reply)
      modifies this`counters
      ensures (At(key), r) == old(Lua(At(key), now, cost, limit, 1000 * window))
      ensures forall k :: k != key ==> At(k) == old(At(k))
    {
      var next := Lua(At(key), now, cost, limit, 1000 * window);
      Put(key, next.0);
      r := next.1;
    }

    // None is the server's "unknown command".
    method TryIncrex(key: string, cost: int, limit: int, window: nat) returns (r: Option<Reply>)
      modifies this`counters
      ensures hasIncrex ==> r.Some? && (At(key), r.value) == old(Increx(At(key), now, cost, limit, 1000 * window))
      ensures !hasIncrex ==> r == None && At(key) == old(At(key))
      ensures forall k :: k != key ==> At(k) == old(At(k))
    {
      r := None;
      if hasIncrex {
        var next := Increx(At(key), now, cost, limit, 1000 * window);
        Put(key, next.0);
        r := Some(next.1);
      }
    }
  }

  datatype CheckResult = CheckResult(allowed: bool, limit: int, remaining: int, resetAfter: int,
                                     backend: string, degraded: bool)

  function Max0(n: int): int { if n > 0 then n else 0 }

  // Whole seconds, rounded up; a counter without an expiry reads as a fresh window.
  function ResetAfter(pttl: int, window: int): int { if pttl > 0 then (pttl + 999) / 1000 else window }

  function Degraded(limit: int, window: int, allowed: bool): CheckResult {
    CheckResult(allowed, limit, if allowed then limit else 0, window, "", true)
  }

  function BuildKey(prefix: string, scope: string, identifier: string): string {
    (if prefix == "" then "" else prefix + [':']) + (if scope == "" then "" else scope + [':']) + identifier
  }

  // What every key under a prefix and a scope starts with.
  function KeyFront(prefix: string, scope: string): string {
    (if prefix == "" then "" else prefix + [':']) + (if scope == "" then "" else scope + [':'])
  }

  lemma KeyIs(prefix: string, scope: string, identifier: string)
    ensures BuildKey(prefix, scope, identifier) == KeyFront(prefix, scope) + identifier
  {
    var front := if prefix == "" then "" else prefix + [':'];
    if scope == "" {
      assert front + "" + identifier == front + identifier;
    }
  }

  // Within a scope every client has a counter of its own.
  lemma ClientsApart(prefix: string, scope: string, a: string, b: string)
    ensures BuildKey(prefix, scope, a) == BuildKey(prefix, scope, b) <==> a == b
  {
    KeyIs(prefix, scope, a);
    KeyIs(prefix, scope, b);
    var front := KeyFront(prefix, scope);
    hide BuildKey, KeyFront;
    assert (front + a)[|front|..] == a && (front + b)[|front|..] == b;
  }

  // Two limiters, or two scopes of one, share no counter, whoever their
  // clients are, if and only if neither's front starts with the other's.
  lemma ScopesApart(prefix: string, scope: string, prefix': string, scope': string)
    ensures (forall a, b :: BuildKey(prefix, scope, a) != BuildKey(prefix', scope', b)) <==>
            !(KeyFront(prefix, scope) <= KeyFront(prefix', scope')) && !(KeyFront(prefix', scope') <= KeyFront(prefix, scope))
  {
    var f, g := KeyFront(prefix, scope), KeyFront(prefix', scope');
    forall a ensures BuildKey(prefix, scope, a) == f + a && BuildKey(prefix', scope', a) == g + a {
      KeyIs(prefix, scope, a);
      KeyIs(prefix', scope', a);
    }
    hide BuildKey, KeyFront;
    if f <= g {
      assert BuildKey(prefix, scope, g[|f|..]) == g == g + "" == BuildKey(prefix', scope', "");
    } else if g <= f {
      assert BuildKey(prefix', scope', f[|g|..]) == f == f + "" == BuildKey(prefix, scope, "");
    } else {
      forall a, b ensures f + a != g + b { FrontsDiffer(f, g, a, b); }
    }
  }

  lemma FrontsDiffer(f: string, g: string, a: string, b: string)
    ensures f + a == g + b ==> f <= g || g <= f
  {
    if f + a == g + b {
      assert forall i :: 0 <= i < |f| && i < |g| ==> f[i] == (f + a)[i] == (g + b)[i] == g[i];
    }
  }

  // So under one prefix, scopes without a colon are apart unless they are one,
  lemma PlainScopesAreApart(prefix: string, scope: string, scope': string)
    requires scope != "" && scope' != "" && ':' !in scope && ':' !in scope'
    ensures (forall a, b :: BuildKey(prefix, scope, a) != BuildKey(prefix, scope', b)) <==> scope != scope'
  {
    ScopesApart(prefix, scope, prefix, scope');
    FrontsOfScopes(prefix, scope, scope');
    FrontsOfScopes(prefix, scope', scope);
  }

  lemma FrontsOfScopes(prefix: string, scope: string, scope': string)
    requires scope != "" && scope' != "" && ':' !in scope && ':' !in scope'
    ensures KeyFront(prefix, scope) <= KeyFront(prefix, scope') <==> scope == scope'
  {
    var p := if prefix == "" then "" else prefix + [':'];
    var f, g := p + (scope + [':']), p + (scope' + [':']);
    assert KeyFront(prefix, scope) == f && KeyFront(prefix, scope') == g;
    if f <= g {
      assert g[|p| + |scope|] == f[|p| + |scope|] == ':';
      assert forall i :: 0 <= i < |scope'| ==> g[|p| + i] == scope'[i];
      assert forall i :: 0 <= i < |scope| ==> scope[i] == f[|p| + i] == g[|p| + i] == scope'[i];
    }
  }

  // but a client whose identifier has a colon can meet another scope's.
  lemma ScopesMayMeet()
    ensures BuildKey("rl", "", "login:ada") == BuildKey("rl", "login", "ada")
  {
    KeyIs("rl", "", "login:ada");
    KeyIs("rl", "login", "ada");
    assert KeyFront("rl", "") + "login:ada" == "rl:login:ada";
    assert KeyFront("rl", "login") + "ada" == "rl:login:ada";
  }

  class RateLimitBackend {
    const redis: CounterServer
    const prefix: string
    const scope: string
    const failClosed: bool
    var supportsIncrex: Option<bool>

    constructor (redis: CounterServer, prefix: string, scope: string, failClosed: bool)
      ensures this.redis == redis && this.prefix == prefix && this.scope == scope && this.failClosed == failClosed
      ensures supportsIncrex == None
    {
      this.redis, this.prefix, this.scope, this.failClosed := redis, prefix, scope, failClosed;
      supportsIncrex := None;
    }

    // What has been learned about the server is true of it.
    predicate Valid() reads this { supportsIncrex.Some? ==> supportsIncrex.value == redis.hasIncrex }

    function Key(identifier: string, scope: Option<string>): string {
      BuildKey(prefix, if scope.Some? then scope.value else this.scope, identifier)
    }

    lemma OwnCounter(identifier: string, scope: Option<string>)
      ensures forall other :: other != identifier ==> Key(other, scope) != Key(identifier, scope)
    {
      forall other | other != identifier ensures Key(other, scope) != Key(identifier, scope) {
        ClientsApart(prefix, if scope.Some? then scope.value else this.scope, other, identifier);
      }
    }

    // `probe` is the answer of the capability probe, None when it got none.
    method Execute(key: string, cost: int, limit: int, window: nat, probe: Option<bool>) returns (r: Reply, backend: string)
      requires Valid() && (probe.Some? ==> probe.value == redis.hasIncrex)
      modifies this`supportsIncrex, redis`counters
      ensures Valid() && supportsIncrex == Some(redis.hasIncrex)
      ensures backend == if redis.hasIncrex then "increx" else "lua"
      ensures redis.hasIncrex ==>
                (redis.At(key), r) == old(Increx(redis.At(key), redis.now, cost, limit, 1000 * window))
      ensures !redis.hasIncrex ==>
                (redis.At(key), r) == old(Lua(redis.At(key), redis.now, cost, limit, 1000 * window))
      ensures forall k :: k != key ==> redis.At(k) == old(redis.At(k))
    {
      if supportsIncrex == None {
        supportsIncrex := probe;
      }
      if supportsIncrex != Some(false) {
        var reply := redis.TryIncrex(key, cost, limit, window);
        if reply.Some? {
          supportsIncrex := Some(true);
          return reply.value, "increx";
        }
        supportsIncrex := Some(false);
      }
      r := redis.EvalScript(key, cost, limit, window);
      backend := "lua";
    }

    // A check is allowed exactly when its cost still fits, whichever tier
    // serves it; only then does the counter grow, by the cost, and only the
    // first charge of a window sets the expiry.
    method Hit(identifier: string, limit: int, window: nat, scope: Option<string>, cost: int,
               failClosedHere: Option<bool>, reachable: bool, probe: Option<bool>) returns (r: Result<CheckResult>)
      requires Valid() && (probe.Some? ==> probe.value == redis.hasIncrex)
      modifies this`supportsIncrex, redis`counters
      ensures Valid()
      ensures cost < 1 <==> r.Err?
      ensures cost < 1 || !reachable ==> redis.counters == old(redis.counters)
      ensures cost >= 1 && !reachable ==>
                var closed := if failClosedHere.Some? then failClosedHere.value else failClosed;
                && r.value.degraded && r.value.allowed == !closed && r.value.limit == limit
                && r.value.remaining == (if closed then 0 else limit) && r.value.resetAfter == window && r.value.backend == ""
      ensures cost >= 1 && reachable && window > 0 && old(Sound(redis.At(Key(identifier, scope)), redis.now)) ==>
                var before := old(redis.At(Key(identifier, scope)));
                var after := redis.At(Key(identifier, scope));
                && after == Charge(before, redis.now, cost, limit, 1000 * window) && Sound(after, redis.now)
                && r.value.allowed == (Value(before) + cost <= limit)
                && !r.value.degraded && r.value.limit == limit && r.value.backend == (if redis.hasIncrex then "increx" else "lua")
                && r.value.remaining == (if Value(after) < limit then limit - Value(after) else 0)
                && r.value.resetAfter == (if after == None then window else (after.value.expiresAt.value - redis.now + 999) / 1000)
      ensures forall k :: k != Key(identifier, scope) ==> redis.At(k) == old(redis.At(k))
      // so no other client is charged
      ensures forall other :: other != identifier ==> redis.At(Key(other, scope)) == old(redis.At(Key(other, scope)))
    {
      OwnCounter(identifier, scope);
      if cost < 1 {
        return Err("cost must be >= 1");
      }
      var key := Key(identifier, scope);
      if !reachable {
        return Ok(Degraded(limit, window, !(if failClosedHere.Some? then failClosedHere.value else failClosed)));
      }
      if window > 0 && Sound(redis.At(key), redis.now) {
        TiersCharge(redis.At(key), redis.now, cost, limit, 1000 * window);
      }
      var reply, backend := Execute(key, cost, limit, window, probe);
      r := Ok(CheckResult(reply.increment != 0, limit, Max0(limit - reply.newValue),
                          ResetAfter(reply.pttl, window), backend, false));
    }

    // Looking does not charge, and foretells a check of cost one.  The expiry
    // is asked for after the value, so `pttl` may be of a later moment.
    method Peek(identifier: string, limit: int, window: nat, scope: Option<string>, reachable: bool, pttl: int)
      returns (r: CheckResult)
      ensures !reachable ==>
                && r.degraded && r.allowed == !failClosed && r.limit == limit
                && r.remaining == (if failClosed then 0 else limit) && r.resetAfter == window
      ensures reachable ==>
                var c := redis.At(Key(identifier, scope));
                && r.allowed == (Lua(c, redis.now, 1, limit, 1000 * window).1.increment != 0)
                && r.remaining == (if Value(c) < limit then limit - Value(c) else 0) && r.limit == limit && !r.degraded
                && r.resetAfter == if pttl > 0 then (pttl + 999) / 1000 else window
      ensures reachable ==>
                var c := redis.At(Key(identifier, scope));
                pttl == Pttl(c, redis.now) && Sound(c, redis.now) ==>
                  r.resetAfter == if c == None then window else (c.value.expiresAt.value - redis.now + 999) / 1000
    {
      if !reachable {
        return Degraded(limit, window, !failClosed);
      }
      var c := redis.At(Key(identifier, scope));
      r := CheckResult(Value(c) < limit, limit, Max0(limit - Value(c)), ResetAfter(pttl, window), "", false);
    }

    method Reset(identifier: string, scope: Option<string>, reachable: bool) returns (existed: bool)
      modifies redis`counters
      ensures reachable ==>
                && existed == old(redis.At(Key(identifier, scope))).Some?
                && redis.At(Key(identifier, scope)) == None
      ensures !reachable ==> !existed && redis.counters == old(redis.counters)
      ensures forall k :: k != Key(identifier, scope) ==> redis.At(k) == old(redis.At(k))
      // so no other client is forgiven
      ensures forall other :: other != identifier ==> redis.At(Key(other, scope)) == old(redis.At(Key(other, scope)))
    {
      OwnCounter(identifier, scope);
      if !reachable {
        return false;
      }
      existed := redis.At(Key(identifier, scope)).Some?;
      redis.Put(Key(identifier, scope), None);
    }
  }
}
