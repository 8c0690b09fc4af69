/** The token bucket that evicts idle buckets:
    backend/internal/platform/ratelimit/ratelimit.go. Times and windows are in
    seconds; answers that are durations are in whole nanoseconds. */
module RateLimit {
  import opened Common

  datatype Policy = Policy(name: string, requests: int, window: real, burst: int)

  datatype Bucket = Bucket(tokens: real, lastSeen: real)

  datatype Decision = Decision(allowed: bool, limit: int, remaining: int, retryAfter: int, reset: int)

  /** A policy's name and a caller's key: one caller's categories count apart. */
  type Key = (string, string)

  type Buckets = map<Key, Bucket>

  predicate Disabled(p: Policy) {
    p.requests <= 0
  }

  /** What ParsePolicy lets through: switched off, or with a positive window. */
  predicate Usable(p: Policy) {
    Disabled(p) || p.window > 0.0
  }

  function Capacity(p: Policy): int {
    if p.burst <= 0 then p.requests else p.burst
  }

  function Rate(p: Policy): real
    requires !Disabled(p) && Usable(p)
  {
    p.requests as real / p.window
  }

  function Min(a: real, b: real): real {
    if a < b then a else b
  }

  function Nanoseconds(seconds: real): int {
    (seconds * 1_000_000_000.0).Floor
  }

  const SECOND := 1_000_000_000

  /** What a bucket holds at a moment; a bucket never seen is full. */
  function Level(b: Option<Bucket>, p: Policy, now: real): real
    requires !Disabled(p) && Usable(p)
  {
    match b
    case None => Capacity(p) as real
    case Some(bucket) => Min(bucket.tokens + (now - bucket.lastSeen) * Rate(p), Capacity(p) as real)
  }

  function Answer(level: real, p: Policy): Decision
    requires !Disabled(p) && Usable(p)
  {
    if level < 1.0 then
      var wait := Nanoseconds((1.0 - level) / Rate(p));
      Decision(false, p.requests, 0, if wait < SECOND then SECOND else wait,
               Nanoseconds((Capacity(p) as real - level) / Rate(p)))
    else
      Decision(true, p.requests, (level - 1.0).Floor, 0, Nanoseconds((Capacity(p) as real - (level - 1.0)) / Rate(p)))
  }

  function After(level: real, now: real): Bucket {
    Bucket(if level < 1.0 then level else level - 1.0, now)
  }

  function Find(buckets: Buckets, k: Key): Option<Bucket> {
    if k in buckets then Some(buckets[k]) else None
  }

  /** One call on a limiter that never evicts. */
  function Plain(buckets: Buckets, key: string, p: Policy, now: real): (Buckets, Decision)
    requires Usable(p)
  {
    if Disabled(p) then (buckets, Decision(true, 0, 0, 0, 0))
    else
      var k := (p.name, key);
      var level := Level(Find(buckets, k), p, now);
      (buckets[k := After(level, now)], Answer(level, p))
  }

  function Evict(buckets: Buckets, now: real, window: real): Buckets {
    map k | k in buckets && !(now - buckets[k].lastSeen > 2.0 * window) :: buckets[k]
  }

  /** One call on the limiter as it is. */
  function Evicting(buckets: Buckets, key: string, p: Policy, now: real): (Buckets, Decision)
    requires Usable(p)
  {
    if Disabled(p) then (buckets, Decision(true, 0, 0, 0, 0)) else Plain(Evict(buckets, now, p.window), key, p, now)
  }

  class TokenBucket {
    var buckets: Buckets

    constructor ()
      ensures buckets == map[]
    {
      buckets := map[];
    }

    /** Drops what nobody touched for two windows of the policy being asked about. */
    method EvictStale(now: real, window: real)
      modifies this
      ensures buckets == Evict(old(buckets), now, window)
    {
      var all := buckets;
      var pending := buckets.Keys;
      while pending != {}
        invariant pending <= all.Keys
        invariant buckets == map k | k in all && (k in pending || !(now - all[k].lastSeen > 2.0 * window)) :: all[k]
        decreases pending
      {
        var key :| key in pending;
        if now - all[key].lastSeen > 2.0 * window {
          buckets := buckets - {key};
        }
        pending := pending - {key};
      }
    }

    method Allow(key: string, policy: Policy, now: real) returns (decision: Decision)
      requires Usable(policy)
      modifies this
      ensures (buckets, decision) == Evicting(old(buckets), key, policy, now)
    {
      if Disabled(policy) {
        return Decision(true, 0, 0, 0, 0);
      }
      var capacity := policy.burst as real;
      if capacity <= 0.0 {
        capacity := policy.requests as real;
      }
      var refillPerSecond := policy.requests as real / policy.window;
      EvictStale(now, policy.window);
      var k := (policy.name, key);
      var tokens := capacity;
      if k in buckets {
        var entry := buckets[k];
        tokens := Min(entry.tokens + (now - entry.lastSeen) * refillPerSecond, capacity);
      }
      assert capacity == Capacity(policy) as real && refillPerSecond == Rate(policy);
      assert tokens == Level(Find(buckets, k), policy, now);
      if tokens < 1.0 {
        buckets := buckets[k := Bucket(tokens, now)];
        var retryAfter := Nanoseconds((1.0 - tokens) / refillPerSecond);
        return Decision(false, policy.requests, 0, if retryAfter < SECOND then SECOND else retryAfter,
                        Nanoseconds((capacity - tokens) / refillPerSecond));
      }
      tokens := tokens - 1.0;
      buckets := buckets[k := Bucket(tokens, now)];
      decision := Decision(true, policy.requests, tokens.Floor, 0, Nanoseconds((capacity - tokens) / refillPerSecond));
    }
  }

  // ---- What one call finds, leaves and is told ------------------------------------

  /** A policy that allows nothing at all is switched off: every call goes through and
      nothing is remembered. */
  lemma SwitchedOffRemembersNothing(buckets: Buckets, key: string, p: Policy, now: real)
    requires Usable(p) && p.requests <= 0
    ensures Evicting(buckets, key, p, now) == (buckets, Decision(true, 0, 0, 0, 0))
  {
  }

  /** The tokens a call finds: the whole allowance, which is the burst or else the
      requests of a window, unless its bucket was touched in the last two windows; then
      what was left and what the time since brought, no more than the allowance. */
  ghost function Tokens(buckets: Buckets, key: string, p: Policy, now: real): real
    requires p.requests > 0 && p.window > 0.0
  {
    var allowance := if p.burst > 0 then p.burst as real else p.requests as real;
    if (p.name, key) !in buckets || now - buckets[(p.name, key)].lastSeen > 2.0 * p.window then allowance
    else
      var b := buckets[(p.name, key)];
      var refilled := b.tokens + (now - b.lastSeen) * (p.requests as real / p.window);
      if refilled > allowance then allowance else refilled
  }

  /** The whole number of nanoseconds in a time. */
  ghost predicate Whole(n: int, nanoseconds: real) {
    n as real <= nanoseconds < n as real + 1.0
  }

  lemma FindsTokens(buckets: Buckets, key: string, p: Policy, now: real)
    requires Usable(p) && p.requests > 0
    ensures var tokens := Tokens(buckets, key, p, now);
      Evicting(buckets, key, p, now)
        == (Evict(buckets, now, p.window)[(p.name, key) := After(tokens, now)], Answer(tokens, p))
  {
    assert Rate(p) == p.requests as real / p.window;
    assert Tokens(buckets, key, p, now) == Level(Find(Evict(buckets, now, p.window), (p.name, key)), p, now);
  }

  /** A call goes through exactly when it finds a whole token, and takes it. Its bucket
      is touched; of the others exactly those idle for two windows are forgotten. */
  lemma AllowTakesAToken(buckets: Buckets, key: string, p: Policy, now: real)
    requires Usable(p) && p.requests > 0
    ensures var tokens, k := Tokens(buckets, key, p, now), (p.name, key);
      var (after, decision) := Evicting(buckets, key, p, now);
      && (decision.allowed <==> tokens >= 1.0)
      && k in after && after[k] == Bucket(if tokens >= 1.0 then tokens - 1.0 else tokens, now)
      && forall other :: other != k ==>
           && (other in after <==> other in buckets && now - buckets[other].lastSeen <= 2.0 * p.window)
           && (other in after ==> after[other] == buckets[other])
  {
    FindsTokens(buckets, key, p, now);
  }

  /** The headers: the limit; the whole tokens left; the time to the next token for a
      refused call, a second at least; and the time to a full allowance. */
  lemma AllowAnnounces(buckets: Buckets, key: string, p: Policy, now: real)
    requires Usable(p) && p.requests > 0
    ensures var tokens, perSecond := Tokens(buckets, key, p, now), p.requests as real / p.window;
      var (after, decision) := Evicting(buckets, key, p, now);
      var left := if tokens >= 1.0 then tokens - 1.0 else tokens;
      var allowance := if p.burst > 0 then p.burst as real else p.requests as real;
      var wait := (1.0 - tokens) / perSecond * 1_000_000_000.0;
      && decision.limit == p.requests
      && Whole(decision.reset, (allowance - left) / perSecond * 1_000_000_000.0)
      && (decision.allowed ==> Whole(decision.remaining, left) && decision.retryAfter == 0)
      && (!decision.allowed ==> decision.remaining == 0)
      && (!decision.allowed && wait < 1_000_000_000.0 ==> decision.retryAfter == 1_000_000_000)
      && (!decision.allowed && wait >= 1_000_000_000.0 ==> Whole(decision.retryAfter, wait))
  {
    FindsTokens(buckets, key, p, now);
    assert Rate(p) == p.requests as real / p.window;
  }

  // ---- Runs ---------------------------------------------------------------------

  datatype Call = Call(key: string, policy: Policy, now: real)

  ghost predicate Over(policies: set<Policy>, calls: seq<Call>, start: real) {
    && (forall c :: c in calls ==> c.policy in policies && Usable(c.policy) && start <= c.now)
    && forall i, j :: 0 <= i < j < |calls| ==> calls[i].now <= calls[j].now
  }

  lemma OverTail(policies: set<Policy>, calls: seq<Call>, start: real)
    requires Over(policies, calls, start) && calls != []
    ensures Over(policies, calls[1..], calls[0].now)
  {
    assert forall c :: c in calls[1..] ==> c in calls;
  }

  function One(evicts: bool, buckets: Buckets, c: Call): (Buckets, Decision)
    requires Usable(c.policy)
  {
    if evicts then Evicting(buckets, c.key, c.policy, c.now) else Plain(buckets, c.key, c.policy, c.now)
  }

  /** The decisions of a run, by the limiter as it is or by one that never evicts. */
  function Run(evicts: bool, buckets: Buckets, calls: seq<Call>): seq<Decision>
    requires forall c :: c in calls ==> Usable(c.policy)
    ensures |Run(evicts, buckets, calls)| == |calls|
    decreases |calls|
  {
    if calls == [] then []
    else
      var r := One(evicts, buckets, calls[0]);
      [r.1] + Run(evicts, r.0, calls[1..])
  }

  function State(evicts: bool, buckets: Buckets, calls: seq<Call>): Buckets
    requires forall c :: c in calls ==> Usable(c.policy)
    decreases |calls|
  {
    if calls == [] then buckets else State(evicts, One(evicts, buckets, calls[0]).0, calls[1..])
  }

  lemma {:induction false} RunConcat(evicts: bool, buckets: Buckets, a: seq<Call>, b: seq<Call>)
    requires forall c :: c in a || c in b ==> Usable(c.policy)
    ensures Run(evicts, buckets, a + b) == Run(evicts, buckets, a) + Run(evicts, State(evicts, buckets, a), b)
    decreases |a|
  {
    if a == [] {
      assert a + b == b;
    } else {
      assert (a + b)[1..] == a[1..] + b;
      RunConcat(evicts, One(evicts, buckets, a[0]).0, a[1..], b);
    }
  }

  // ---- Eviction is invisible ------------------------------------------------------

  /** Two windows of this length refill the whole allowance of the policy. */
  predicate Covers(window: real, p: Policy) {
    Capacity(p) as real * p.window <= 2.0 * window * p.requests as real
  }

  /** Whatever policy evicts a bucket, whatever policy looks for it next would
      have found it full. */
  ghost predicate Harmless(policies: set<Policy>) {
    forall p, q :: p in policies && q in policies && !Disabled(p) && !Disabled(q) ==> Covers(q.window, p)
  }

  lemma Distribute(a: real, b: real, r: real)
    ensures (a + b) * r == a * r + b * r
  {
  }

  lemma ProductNonNegative(a: real, b: real)
    requires a >= 0.0 && b >= 0.0
    ensures a * b >= 0.0
  {
  }

  lemma RatePositive(p: Policy)
    requires !Disabled(p) && Usable(p)
    ensures Rate(p) > 0.0 && Rate(p) * p.window == p.requests as real
  {
  }

  /** Idle for longer than two such windows means full. */
  lemma IdleIsFull(p: Policy, window: real, idle: real)
    requires !Disabled(p) && Usable(p) && idle > 2.0 * window > 0.0 && Covers(window, p)
    ensures idle * Rate(p) >= Capacity(p) as real
  {
    var r, cap := Rate(p), Capacity(p) as real;
    RatePositive(p);
    var full := 2.0 * window * r;
    assert full * p.window == 2.0 * window * p.requests as real;
    if cap > full {
      assert (cap - full) * p.window > 0.0;
    }
    Distribute(2.0 * window, idle - 2.0 * window, r);
    ProductNonNegative(idle - 2.0 * window, r);
  }

  ghost predicate WellKept(buckets: Buckets, now: real) {
    forall k :: k in buckets ==> buckets[k].tokens >= 0.0 && buckets[k].lastSeen <= now
  }

  lemma LevelInRange(b: Bucket, p: Policy, now: real)
    requires !Disabled(p) && Usable(p) && b.tokens >= 0.0 && b.lastSeen <= now
    ensures 0.0 <= Level(Some(b), p, now) <= Capacity(p) as real
  {
    RatePositive(p);
    ProductNonNegative(now - b.lastSeen, Rate(p));
    var refilled, cap := b.tokens + (now - b.lastSeen) * Rate(p), Capacity(p) as real;
    assert refilled >= 0.0 && cap >= 0.0;
    assert Level(Some(b), p, now) == Min(refilled, cap);
  }

  lemma PlainKeeps(buckets: Buckets, key: string, p: Policy, now: real)
    requires Usable(p) && WellKept(buckets, now)
    ensures WellKept(Plain(buckets, key, p, now).0, now)
  {
    if !Disabled(p) && (p.name, key) in buckets {
      LevelInRange(buckets[(p.name, key)], p, now);
    }
  }

  predicate IsIdle(b: Bucket, q: Policy, now: real) {
    !Disabled(q) && Usable(q) && now - b.lastSeen > 2.0 * q.window
  }

  /** What the evicting limiter forgot of the other one. */
  ghost predicate Forgets(kept: Buckets, all: Buckets, policies: set<Policy>, now: real) {
    && (forall k :: k in kept ==> k in all && kept[k] == all[k])
    && (forall k :: k in all && k !in kept ==> exists q :: q in policies && IsIdle(all[k], q, now))
  }

  lemma EvictForgets(kept: Buckets, all: Buckets, policies: set<Policy>, start: real, p: Policy, now: real)
    requires Forgets(kept, all, policies, start) && start <= now && p in policies && !Disabled(p) && Usable(p)
    ensures Forgets(Evict(kept, now, p.window), all, policies, now)
  {
    var left := Evict(kept, now, p.window);
    forall k | k in all && k !in left ensures exists q :: q in policies && IsIdle(all[k], q, now) {
      if k in kept {
        assert IsIdle(all[k], p, now);
      } else {
        var q :| q in policies && IsIdle(all[k], q, start);
        assert IsIdle(all[k], q, now);
      }
    }
  }

  lemma ForgottenIsFull(all: Buckets, k: Key, policies: set<Policy>, p: Policy, now: real)
    requires Harmless(policies) && p in policies && Usable(p) && !Disabled(p) && WellKept(all, now) && k in all
    requires exists q :: q in policies && IsIdle(all[k], q, now)
    ensures Level(Some(all[k]), p, now) == Capacity(p) as real
  {
    var q :| q in policies && IsIdle(all[k], q, now);
    assert Covers(q.window, p);
    IdleIsFull(p, q.window, now - all[k].lastSeen);
    FullLevel(all[k], p, now);
  }

  lemma FullLevel(b: Bucket, p: Policy, now: real)
    requires Usable(p) && !Disabled(p) && b.tokens >= 0.0 && (now - b.lastSeen) * Rate(p) >= Capacity(p) as real
    ensures Level(Some(b), p, now) == Capacity(p) as real
  {
    assert b.tokens + (now - b.lastSeen) * Rate(p) >= Capacity(p) as real;
  }

  lemma ForgetsStep(kept: Buckets, all: Buckets, policies: set<Policy>, start: real, c: Call)
    requires Harmless(policies) && c.policy in policies && Usable(c.policy) && start <= c.now
    requires Forgets(kept, all, policies, start) && WellKept(all, start)
    ensures var e, f := Evicting(kept, c.key, c.policy, c.now), Plain(all, c.key, c.policy, c.now);
      e.1 == f.1 && Forgets(e.0, f.0, policies, c.now) && WellKept(f.0, c.now)
  {
    PlainKeeps(all, c.key, c.policy, c.now);
    if Disabled(c.policy) {
      StillForgets(kept, all, policies, start, c.now);
    } else {
      EvictForgets(kept, all, policies, start, c.policy, c.now);
      var left, k := Evict(kept, c.now, c.policy.window), (c.policy.name, c.key);
      if k in all && k !in left {
        ForgottenIsFull(all, k, policies, c.policy, c.now);
      }
      assert Level(Find(left, k), c.policy, c.now) == Level(Find(all, k), c.policy, c.now);
    }
  }

  lemma StillForgets(kept: Buckets, all: Buckets, policies: set<Policy>, start: real, now: real)
    requires Forgets(kept, all, policies, start) && start <= now
    ensures Forgets(kept, all, policies, now)
  {
    forall k | k in all && k !in kept ensures exists q :: q in policies && IsIdle(all[k], q, now) {
      var q :| q in policies && IsIdle(all[k], q, start);
      assert IsIdle(all[k], q, now);
    }
  }

  lemma {:induction false} RunsAgree(kept: Buckets, all: Buckets, policies: set<Policy>, start: real, calls: seq<Call>)
    requires Harmless(policies) && Over(policies, calls, start)
    requires Forgets(kept, all, policies, start) && WellKept(all, start)
    ensures Run(true, kept, calls) == Run(false, all, calls)
    decreases |calls|
  {
    if calls != [] {
      var c := calls[0];
      ForgetsStep(kept, all, policies, start, c);
      OverTail(policies, calls, start);
      RunsAgree(Evicting(kept, c.key, c.policy, c.now).0, Plain(all, c.key, c.policy, c.now).0, policies, c.now, calls[1..]);
    }
  }

  // ---- And only then ----------------------------------------------------------------

  function Drain(p: Policy, n: nat): seq<Call> {
    seq(n, i => Call("k", p, 0.0))
  }

  /** n calls at one moment leave the whole allowance but n, whether or not idle
      buckets are evicted: nothing is idle. */
  lemma {:induction false} DrainState(evicts: bool, p: Policy, n: nat)
    requires !Disabled(p) && Usable(p) && 1 <= n <= Capacity(p)
    ensures State(evicts, map[], Drain(p, n)) == map[(p.name, "k") := Bucket((Capacity(p) - n) as real, 0.0)]
  {
    var k := (p.name, "k");
    if n == 1 {
      assert Drain(p, 1)[1..] == [];
      assert Evict(map[], 0.0, p.window) == map[];
    } else {
      DrainState(evicts, p, n - 1);
      var before: Buckets := map[k := Bucket((Capacity(p) - (n - 1)) as real, 0.0)];
      StateSnoc(evicts, map[], Drain(p, n - 1), Call("k", p, 0.0));
      assert Drain(p, n) == Drain(p, n - 1) + [Call("k", p, 0.0)];
      assert Evict(before, 0.0, p.window) == before;
      assert 0.0 * Rate(p) == 0.0;
      assert Level(Some(before[k]), p, 0.0) == (Capacity(p) - (n - 1)) as real;
    }
  }

  lemma {:induction false} StateSnoc(evicts: bool, buckets: Buckets, calls: seq<Call>, c: Call)
    requires Usable(c.policy) && forall x :: x in calls ==> Usable(x.policy)
    ensures State(evicts, buckets, calls + [c]) == One(evicts, State(evicts, buckets, calls), c).0
    decreases |calls|
  {
    if calls == [] {
      assert calls + [c] == [c] && [c][1..] == [];
    } else {
      assert (calls + [c])[1..] == calls[1..] + [c];
      StateSnoc(evicts, One(evicts, buckets, calls[0]).0, calls[1..], c);
    }
  }

  /** A moment after q forgets p's bucket and before p would have refilled it. */
  lemma TooEarly(p: Policy, q: Policy) returns (t: real)
    requires !Disabled(p) && Usable(p) && !Disabled(q) && Usable(q) && !Covers(q.window, p)
    ensures t > 2.0 * q.window && 0.0 < t * Rate(p) < Capacity(p) as real
  {
    var r, cap := Rate(p), Capacity(p) as real;
    RatePositive(p);
    t := (2.0 * q.window + cap / r) / 2.0;
    assert 2.0 * q.window * r * p.window == 2.0 * q.window * p.requests as real;
    if 2.0 * q.window * r >= cap {
      ProductNonNegative(2.0 * q.window * r - cap, p.window);
    }
    assert cap / r * r == cap;
    if 2.0 * q.window >= cap / r {
      ProductNonNegative(2.0 * q.window - cap / r, r);
    }
    assert t < cap / r;
    assert (cap / r - t) * r > 0.0;
    assert t * r > 0.0;
  }

  /** A bucket emptied by p, forgotten on a call of q and asked for again: one
      limiter answers as if it were full, the other knows better. */
  lemma LastAnswersDiffer(p: Policy, q: Policy, t: real)
    requires !Disabled(p) && Usable(p) && !Disabled(q) && Usable(q)
    requires t > 2.0 * q.window && 0.0 < t * Rate(p) < Capacity(p) as real
    ensures var drained: Buckets := map[(p.name, "k") := Bucket(0.0, 0.0)];
      var calls := [Call("other", q, t), Call("k", p, t)];
      Run(true, drained, calls) != Run(false, drained, calls)
  {
    var k, o := (p.name, "k"), (q.name, "other");
    var drained: Buckets := map[k := Bucket(0.0, 0.0)];
    var calls := [Call("other", q, t), Call("k", p, t)];
    var e, f := One(true, drained, calls[0]).0, One(false, drained, calls[0]).0;
    assert Evict(drained, t, q.window) == map[];
    assert k !in e && k !in Evict(e, t, p.window);
    assert f[k] == Bucket(0.0, 0.0);
    var full, level := Level(None, p, t), Level(Find(f, k), p, t);
    assert level == t * Rate(p) < full;
    assert Answer(full, p) != Answer(level, p) by {
      assert full >= 1.0;
      assert (full - 1.0).Floor == Capacity(p) - 1;
    }
    assert One(true, e, calls[1]).1 == Answer(full, p);
    assert One(false, f, calls[1]).1 == Answer(level, p);
    assert calls[1..] == [calls[1]];
    assert Run(true, drained, calls)[1] == Run(true, e, calls[1..])[0];
    assert Run(false, drained, calls)[1] == Run(false, f, calls[1..])[0];
  }

  lemma HarmShows(p: Policy, q: Policy) returns (calls: seq<Call>)
    requires !Disabled(p) && Usable(p) && !Disabled(q) && Usable(q) && !Covers(q.window, p)
    ensures Over({p, q}, calls, 0.0) && Run(true, map[], calls) != Run(false, map[], calls)
  {
    var t := TooEarly(p, q);
    var n := Capacity(p);
    var last := [Call("other", q, t), Call("k", p, t)];
    calls := Drain(p, n) + last;
    DrainState(true, p, n);
    DrainState(false, p, n);
    RunConcat(true, map[], Drain(p, n), last);
    RunConcat(false, map[], Drain(p, n), last);
    LastAnswersDiffer(p, q, t);
    assert Run(true, map[], calls)[n..] == Run(true, State(true, map[], Drain(p, n)), last);
    assert Run(false, map[], calls)[n..] == Run(false, State(false, map[], Drain(p, n)), last);
  }

  ghost predicate Invisible(policies: set<Policy>) {
    forall calls :: Over(policies, calls, 0.0) ==> Run(true, map[], calls) == Run(false, map[], calls)
  }

  lemma HarmIsVisible(policies: set<Policy>, p: Policy, q: Policy)
    requires p in policies && q in policies && !Disabled(p) && Usable(p) && !Disabled(q) && Usable(q)
    requires !Covers(q.window, p)
    ensures !Invisible(policies)
  {
    var calls := HarmShows(p, q);
    assert Over(policies, calls, 0.0);
  }

  /** Evicting never changes an answer, on any sequence of calls, exactly when two
      windows of every policy in use refill the allowance of every other. */
  lemma EvictionInvisibleIff(policies: set<Policy>)
    requires forall p :: p in policies ==> Usable(p)
    ensures Invisible(policies) <==> Harmless(policies)
  {
    if Harmless(policies) {
      forall calls | Over(policies, calls, 0.0) ensures Run(true, map[], calls) == Run(false, map[], calls) {
        RunsAgree(map[], map[], policies, 0.0, calls);
      }
    }
    if Invisible(policies) {
      forall p, q | p in policies && q in policies && !Disabled(p) && !Disabled(q) ensures Covers(q.window, p) {
        if !Covers(q.window, p) {
          HarmIsVisible(policies, p, q);
        }
      }
    }
  }

  // ---- The rate -----------------------------------------------------------------------

  /** Only p is asked about under p's name. */
  ghost predicate OwnName(p: Policy, calls: seq<Call>) {
    forall c :: c in calls && c.policy.name == p.name ==> c.policy == p
  }

  predicate Hits(c: Call, p: Policy, key: string, s: real, t: real) {
    c.policy == p && c.key == key && s <= c.now <= t
  }

  /** How many calls of one caller were let through between s and t. */
  function AllowedIn(calls: seq<Call>, decisions: seq<Decision>, p: Policy, key: string, s: real, t: real): nat
    requires |calls| == |decisions|
  {
    if calls == [] then 0
    else (if Hits(calls[0], p, key, s, t) && decisions[0].allowed then 1 else 0)
         + AllowedIn(calls[1..], decisions[1..], p, key, s, t)
  }

  /** A level grows no faster than the rate. */
  lemma LevelGrowth(b: Option<Bucket>, p: Policy, u: real, x: real)
    requires !Disabled(p) && Usable(p) && u <= x
    ensures Level(b, p, x) <= Level(b, p, u) + (x - u) * Rate(p)
    ensures Level(b, p, u) <= Capacity(p) as real
  {
    RatePositive(p);
    ProductNonNegative(x - u, Rate(p));
    if b.Some? {
      Distribute(u - b.value.lastSeen, x - u, Rate(p));
    }
  }

  /** Right after a call a bucket holds one less if it was let through. */
  lemma LevelAfter(level: real, p: Policy, u: real)
    requires !Disabled(p) && Usable(p) && level <= Capacity(p) as real
    ensures Level(Some(After(level, u)), p, u) == After(level, u).tokens
  {
    assert (u - u) * Rate(p) == 0.0;
  }

  lemma {:induction false} NoneLater(calls: seq<Call>, decisions: seq<Decision>, p: Policy, key: string, s: real, t: real)
    requires |calls| == |decisions| && forall c :: c in calls ==> c.now > t
    ensures AllowedIn(calls, decisions, p, key, s, t) == 0
    decreases |calls|
  {
    if calls != [] {
      assert calls[0] in calls && forall c :: c in calls[1..] ==> c in calls;
      NoneLater(calls[1..], decisions[1..], p, key, s, t);
    }
  }

  lemma Stretch(a: real, b: real, c: real, r: real)
    requires a <= b <= c && r >= 0.0
    ensures (c - a) * r == (b - a) * r + (c - b) * r
    ensures (b - a) * r >= 0.0 && (c - b) * r >= 0.0
  {
    Distribute(b - a, c - b, r);
    ProductNonNegative(b - a, r);
    ProductNonNegative(c - b, r);
  }

  /** What a run asks of its first call, for the rest of the run. */
  ghost predicate Regular(policies: set<Policy>, buckets: Buckets, calls: seq<Call>, p: Policy, u: real) {
    Over(policies, calls, u) && OwnName(p, calls) && WellKept(buckets, u)
  }

  lemma RegularTail(policies: set<Policy>, buckets: Buckets, calls: seq<Call>, p: Policy, u: real)
    requires Regular(policies, buckets, calls, p, u) && calls != []
    ensures u <= calls[0].now && Usable(calls[0].policy)
    ensures Regular(policies, One(false, buckets, calls[0]).0, calls[1..], p, calls[0].now)
    ensures Regular(policies, buckets, calls, p, calls[0].now)
    ensures calls[0].policy.name == p.name ==> calls[0].policy == p
    ensures forall c :: c in calls ==> calls[0].now <= c.now
  {
    assert calls[0] in calls && forall c :: c in calls[1..] ==> c in calls;
    OverTail(policies, calls, u);
    PlainKeeps(buckets, calls[0].key, calls[0].policy, calls[0].now);
    forall c | c in calls ensures calls[0].now <= c.now {
      var j :| 0 <= j < |calls| && calls[j] == c;
    }
  }

  function Taken(buckets: Buckets, c: Call, p: Policy, key: string): nat
    requires Usable(c.policy)
  {
    if c.policy == p && c.key == key && One(false, buckets, c).1.allowed then 1 else 0
  }

  /** A call takes from the level of a caller's bucket what it lets through. */
  lemma CallTakes(buckets: Buckets, c: Call, p: Policy, key: string)
    requires !Disabled(p) && Usable(p) && Usable(c.policy) && (c.policy.name == p.name ==> c.policy == p)
    ensures var k := (p.name, key);
      Level(Find(One(false, buckets, c).0, k), p, c.now)
        == Level(Find(buckets, k), p, c.now) - Taken(buckets, c, p, key) as real
  {
    var k := (p.name, key);
    if c.policy == p && c.key == key {
      var level := Level(Find(buckets, k), p, c.now);
      LevelGrowth(Find(buckets, k), p, c.now, c.now);
      LevelAfter(level, p, c.now);
    }
  }

  lemma AllowedStep(buckets: Buckets, calls: seq<Call>, p: Policy, key: string, s: real, t: real)
    requires calls != [] && forall c :: c in calls ==> Usable(c.policy)
    ensures AllowedIn(calls, Run(false, buckets, calls), p, key, s, t)
         == (if s <= calls[0].now <= t then Taken(buckets, calls[0], p, key) else 0)
            + AllowedIn(calls[1..], Run(false, One(false, buckets, calls[0]).0, calls[1..]), p, key, s, t)
  {
    assert Run(false, buckets, calls)[1..] == Run(false, One(false, buckets, calls[0]).0, calls[1..]);
  }

  /** What a bucket can still give out between now and t. */
  ghost function Budget(b: Option<Bucket>, p: Policy, now: real, t: real): real
    requires !Disabled(p) && Usable(p)
  {
    Level(b, p, now) + (t - now) * Rate(p)
  }

  lemma BudgetShrinks(b: Option<Bucket>, p: Policy, u: real, x: real, t: real)
    requires !Disabled(p) && Usable(p) && u <= x <= t
    ensures Budget(b, p, x, t) <= Budget(b, p, u, t)
    ensures Budget(b, p, u, t) <= Capacity(p) as real + (t - u) * Rate(p)
  {
    RatePositive(p);
    LevelGrowth(b, p, u, x);
    Stretch(u, x, t, Rate(p));
  }

  lemma BudgetNonNegative(b: Option<Bucket>, p: Policy, u: real, t: real)
    requires !Disabled(p) && Usable(p) && u <= t
    requires b.Some? ==> b.value.tokens >= 0.0 && b.value.lastSeen <= u
    ensures Budget(b, p, u, t) >= 0.0
  {
    RatePositive(p);
    ProductNonNegative(t - u, Rate(p));
    if b.Some? {
      LevelInRange(b.value, p, u);
    }
  }

  /** A call pays for what it lets through out of the budget. */
  lemma CallPays(buckets: Buckets, c: Call, p: Policy, key: string, u: real, t: real)
    requires !Disabled(p) && Usable(p) && Usable(c.policy) && (c.policy.name == p.name ==> c.policy == p)
    requires u <= c.now <= t
    ensures var k := (p.name, key);
      Taken(buckets, c, p, key) as real + Budget(Find(One(false, buckets, c).0, k), p, c.now, t)
        <= Budget(Find(buckets, k), p, u, t)
  {
    CallTakes(buckets, c, p, key);
    BudgetShrinks(Find(buckets, (p.name, key)), p, u, c.now, t);
  }

  /** From a moment u on, at most what the bucket holds and what it gains. */
  lemma {:induction false} AllowedFrom(policies: set<Policy>, buckets: Buckets, calls: seq<Call>, p: Policy, key: string,
                                       u: real, s: real, t: real)
    requires !Disabled(p) && Usable(p) && Regular(policies, buckets, calls, p, u) && u <= t
    ensures AllowedIn(calls, Run(false, buckets, calls), p, key, s, t) as real
         <= Budget(Find(buckets, (p.name, key)), p, u, t)
    decreases |calls|
  {
    var b := Find(buckets, (p.name, key));
    if calls == [] || calls[0].now > t {
      BudgetNonNegative(b, p, u, t);
      if calls != [] {
        RegularTail(policies, buckets, calls, p, u);
        NoneLater(calls, Run(false, buckets, calls), p, key, s, t);
      }
    } else {
      var c := calls[0];
      RegularTail(policies, buckets, calls, p, u);
      AllowedFrom(policies, One(false, buckets, c).0, calls[1..], p, key, c.now, s, t);
      AllowedStep(buckets, calls, p, key, s, t);
      CallPays(buckets, c, p, key, u, t);
    }
  }

  lemma {:induction false} AllowedWithin(policies: set<Policy>, buckets: Buckets, calls: seq<Call>, p: Policy, key: string,
                                         u: real, s: real, t: real)
    requires !Disabled(p) && Usable(p) && Regular(policies, buckets, calls, p, u) && s <= t
    ensures AllowedIn(calls, Run(false, buckets, calls), p, key, s, t) as real <= Budget(None, p, s, t)
    decreases |calls|
  {
    if calls == [] || calls[0].now > t {
      BudgetNonNegative(None, p, s, t);
      if calls != [] {
        RegularTail(policies, buckets, calls, p, u);
        NoneLater(calls, Run(false, buckets, calls), p, key, s, t);
      }
    } else {
      var x := calls[0].now;
      RegularTail(policies, buckets, calls, p, u);
      if x < s {
        AllowedStep(buckets, calls, p, key, s, t);
        AllowedWithin(policies, One(false, buckets, calls[0]).0, calls[1..], p, key, x, s, t);
      } else {
        AllowedFrom(policies, buckets, calls, p, key, x, s, t);
        BudgetOfFull(Find(buckets, (p.name, key)), p, s, x, t);
      }
    }
  }

  lemma BudgetOfFull(b: Option<Bucket>, p: Policy, s: real, x: real, t: real)
    requires !Disabled(p) && Usable(p) && s <= x <= t
    ensures Budget(b, p, x, t) <= Budget(None, p, s, t)
  {
    RatePositive(p);
    LevelGrowth(b, p, x, x);
    Stretch(s, x, t, Rate(p));
  }

  lemma FullBudget(p: Policy, s: real, t: real)
    requires !Disabled(p) && Usable(p)
    ensures Budget(None, p, s, t) == Capacity(p) as real + (t - s) * Rate(p)
  {
  }

  lemma PlainRateBound(policies: set<Policy>, calls: seq<Call>, p: Policy, key: string, s: real, t: real)
    requires !Disabled(p) && Usable(p) && Regular(policies, map[], calls, p, 0.0) && s <= t
    ensures AllowedIn(calls, Run(false, map[], calls), p, key, s, t) as real
         <= Capacity(p) as real + (t - s) * Rate(p)
  {
    AllowedWithin(policies, map[], calls, p, key, 0.0, s, t);
    FullBudget(p, s, t);
  }

  /** The limiter as it is: under harmless policies no caller is let through more
      often, between any two moments, than the allowance and what the rate adds. */
  lemma RateBound(policies: set<Policy>, calls: seq<Call>, p: Policy, key: string, s: real, t: real)
    requires Harmless(policies) && Over(policies, calls, 0.0) && OwnName(p, calls)
    requires !Disabled(p) && Usable(p) && s <= t
    ensures AllowedIn(calls, Run(true, map[], calls), p, key, s, t) as real
         <= Capacity(p) as real + (t - s) * Rate(p)
  {
    RunsAgree(map[], map[], policies, 0.0, calls);
    PlainRateBound(policies, calls, p, key, s, t);
  }

  // ---- A refusal costs nothing -----------------------------------------------------------

  /** Equal for every question about p's bucket of one caller from now on. */
  ghost predicate SameFuture(a: Buckets, b: Buckets, p: Policy, key: string, now: real)
    requires !Disabled(p) && Usable(p)
  {
    && (forall k :: k != (p.name, key) ==> Find(a, k) == Find(b, k))
    && forall x :: now <= x ==> Level(Find(a, (p.name, key)), p, x) == Level(Find(b, (p.name, key)), p, x)
  }

  lemma RefusalKeepsFuture(buckets: Buckets, p: Policy, key: string, now: real)
    requires !Disabled(p) && Usable(p) && !Plain(buckets, key, p, now).1.allowed
    ensures SameFuture(buckets, Plain(buckets, key, p, now).0, p, key, now)
  {
    var after, k := Plain(buckets, key, p, now).0, (p.name, key);
    var level := Level(Find(buckets, k), p, now);
    var b := buckets[k];
    forall x | now <= x ensures Level(Some(b), p, x) == Level(Some(after[k]), p, x) {
      Distribute(now - b.lastSeen, x - now, Rate(p));
      RatePositive(p);
      ProductNonNegative(x - now, Rate(p));
    }
  }

  /** The next call of the same caller makes the two limiters equal again; any
      other call keeps them alike. */
  lemma SameFutureStep(a: Buckets, b: Buckets, p: Policy, key: string, now: real, c: Call)
    requires !Disabled(p) && Usable(p) && Usable(c.policy) && SameFuture(a, b, p, key, now) && now <= c.now
    requires c.policy.name == p.name ==> c.policy == p
    ensures var x, y := One(false, a, c), One(false, b, c);
      x.1 == y.1 && SameFuture(x.0, y.0, p, key, c.now)
  {
    var x, y, k := One(false, a, c), One(false, b, c), (c.policy.name, c.key);
    assert !Disabled(c.policy) ==> Level(Find(a, k), c.policy, c.now) == Level(Find(b, k), c.policy, c.now);
    forall other | other != (p.name, key) ensures Find(x.0, other) == Find(y.0, other) {
      assert Find(a, other) == Find(b, other);
    }
    var own := (p.name, key);
    if Disabled(c.policy) || k != own {
      assert Find(x.0, own) == Find(a, own) && Find(y.0, own) == Find(b, own);
    } else {
      assert Find(x.0, own) == Find(y.0, own);
    }
  }

  lemma {:induction false} SameFutureSameRun(policies: set<Policy>, a: Buckets, b: Buckets, p: Policy, key: string, now: real,
                                             calls: seq<Call>)
    requires !Disabled(p) && Usable(p) && SameFuture(a, b, p, key, now)
    requires Over(policies, calls, now) && OwnName(p, calls)
    ensures Run(false, a, calls) == Run(false, b, calls)
    decreases |calls|
  {
    if calls != [] {
      var c := calls[0];
      assert c in calls && forall d :: d in calls[1..] ==> d in calls;
      OverTail(policies, calls, now);
      SameFutureStep(a, b, p, key, now, c);
      SameFutureSameRun(policies, One(false, a, c).0, One(false, b, c).0, p, key, c.now, calls[1..]);
    }
  }

  /** Times only rise, so a part of a run is a run. */
  lemma OverPart(policies: set<Policy>, calls: seq<Call>, start: real, i: nat)
    requires Over(policies, calls, start) && i < |calls|
    ensures Over(policies, calls[..i] + calls[i + 1..], start)
    ensures Over(policies, calls[i + 1..], calls[i].now)
    ensures policies >= {calls[i].policy} && Usable(calls[i].policy)
  {
    var without, later := calls[..i] + calls[i + 1..], calls[i + 1..];
    assert calls[i] in calls;
    forall c | c in without ensures c in calls {
    }
    forall a, b | 0 <= a < b < |without| ensures without[a].now <= without[b].now {
      var a', b' := if a < i then a else a + 1, if b < i then b else b + 1;
      assert calls[a'] == without[a] && calls[b'] == without[b];
    }
    forall c | c in later ensures c in calls && calls[i].now <= c.now {
      var j :| 0 <= j < |later| && later[j] == c;
      assert calls[i + 1 + j] == c;
    }
    forall a, b | 0 <= a < b < |later| ensures later[a].now <= later[b].now {
      assert calls[i + 1 + a] == later[a] && calls[i + 1 + b] == later[b];
    }
  }

  lemma Parts<T>(all: seq<T>, a: seq<T>, x: T, b: seq<T>)
    requires all == a + ([x] + b)
    ensures all[..|a|] == a && all[|a|] == x && all[|a| + 1..] == b
  {
  }

  lemma RunOfCons(buckets: Buckets, c: Call, later: seq<Call>)
    requires Usable(c.policy) && forall d :: d in later ==> Usable(d.policy)
    ensures Run(false, buckets, [c] + later)
         == [One(false, buckets, c).1] + Run(false, One(false, buckets, c).0, later)
  {
    assert ([c] + later)[1..] == later;
  }

  /** A run around one of its calls. */
  lemma RunAround(before: seq<Call>, c: Call, later: seq<Call>)
    requires forall d :: d in before + [c] + later ==> Usable(d.policy)
    ensures var s1, all := State(false, map[], before), Run(false, map[], before + ([c] + later));
      && all[..|before|] == Run(false, map[], before)
      && all[|before|] == One(false, s1, c).1
      && all[|before| + 1..] == Run(false, One(false, s1, c).0, later)
  {
    var s1 := State(false, map[], before);
    assert c in before + [c] + later;
    RunConcat(false, map[], before, [c] + later);
    RunOfCons(s1, c, later);
    Parts(Run(false, map[], before + ([c] + later)), Run(false, map[], before),
          One(false, s1, c).1, Run(false, One(false, s1, c).0, later));
  }

  lemma RefusedSameRun(policies: set<Policy>, buckets: Buckets, c: Call, later: seq<Call>)
    requires Usable(c.policy) && !Disabled(c.policy) && !One(false, buckets, c).1.allowed
    requires Over(policies, later, c.now) && OwnName(c.policy, later)
    ensures Run(false, One(false, buckets, c).0, later) == Run(false, buckets, later)
  {
    RefusalKeepsFuture(buckets, c.policy, c.key, c.now);
    SameFutureSameRun(policies, buckets, One(false, buckets, c).0, c.policy, c.key, c.now, later);
  }

  lemma PlainRefusalCostsNothing(policies: set<Policy>, before: seq<Call>, c: Call, later: seq<Call>)
    requires (forall d :: d in before + [c] + later ==> Usable(d.policy)) && !Disabled(c.policy)
    requires Over(policies, later, c.now) && OwnName(c.policy, later)
    requires !Run(false, map[], before + ([c] + later))[|before|].allowed
    ensures var all := Run(false, map[], before + ([c] + later));
      Run(false, map[], before + later) == all[..|before|] + all[|before| + 1..]
  {
    RunAround(before, c, later);
    RunConcat(false, map[], before, later);
    assert c in before + [c] + later;
    RefusedSameRun(policies, State(false, map[], before), c, later);
  }

  /** Leaving a refused call out changes no other answer: a refusal never delays
      what comes later. */
  lemma RefusedCallsCostNothing(policies: set<Policy>, calls: seq<Call>, i: nat)
    requires Harmless(policies) && Over(policies, calls, 0.0) && i < |calls| && !Disabled(calls[i].policy)
    requires OwnName(calls[i].policy, calls[i + 1..]) && !Run(true, map[], calls)[i].allowed
    ensures Over(policies, calls[..i] + calls[i + 1..], 0.0)
    ensures Run(true, map[], calls[..i] + calls[i + 1..])
         == Run(true, map[], calls)[..i] + Run(true, map[], calls)[i + 1..]
  {
    OverPart(policies, calls, 0.0, i);
    RunsAgree(map[], map[], policies, 0.0, calls);
    RunsAgree(map[], map[], policies, 0.0, calls[..i] + calls[i + 1..]);
    AroundOne(calls, i);
    PlainRefusalCostsNothing(policies, calls[..i], calls[i], calls[i + 1..]);
  }

  lemma AroundOne<T>(s: seq<T>, i: nat)
    requires i < |s|
    ensures s == s[..i] + ([s[i]] + s[i + 1..]) && s == s[..i] + [s[i]] + s[i + 1..]
  {
  }

  // ---- What the other fields of an answer promise ------------------------------------------

  const NANOS := 1_000_000_000.0

  lemma QuotientTimes(x: real, r: real)
    requires r > 0.0
    ensures x / r * r == x
  {
  }

  lemma TimesMonotone(a: real, b: real, r: real)
    requires a <= b && r > 0.0
    ensures a * r <= b * r
    ensures a < b ==> a * r < b * r
  {
  }

  /** A whole number of nanoseconds past the announced one covers the wait. */
  lemma WaitCovers(amount: real, p: Policy, waited: real)
    requires !Disabled(p) && Usable(p) && waited * NANOS >= (Nanoseconds(amount / Rate(p)) + 1) as real
    ensures waited * Rate(p) >= amount
  {
    RatePositive(p);
    QuotientTimes(amount, Rate(p));
    assert amount / Rate(p) <= waited;
    TimesMonotone(amount / Rate(p), waited, Rate(p));
  }

  lemma ShortWait(amount: real, p: Policy, waited: real)
    requires !Disabled(p) && Usable(p) && waited * NANOS < Nanoseconds(amount / Rate(p)) as real
    ensures waited * Rate(p) < amount
  {
    RatePositive(p);
    QuotientTimes(amount, Rate(p));
    assert waited < amount / Rate(p);
    TimesMonotone(waited, amount / Rate(p), Rate(p));
  }

  lemma WaitedLongEnough(level: real, p: Policy, now: real, later: real)
    requires !Disabled(p) && Usable(p) && 0.0 <= level < 1.0
    requires (later - now) * NANOS >= (Answer(level, p).retryAfter + 1) as real
    ensures Level(Some(After(level, now)), p, later) >= 1.0
  {
    WaitCovers(1.0 - level, p, later - now);
  }

  lemma WaitedTooShort(level: real, p: Policy, now: real, later: real)
    requires !Disabled(p) && Usable(p) && 0.0 <= level < 1.0 && now <= later
    requires Answer(level, p).retryAfter > SECOND && (later - now) * NANOS < Answer(level, p).retryAfter as real
    ensures Level(Some(After(level, now)), p, later) < 1.0
  {
    ShortWait(1.0 - level, p, later - now);
  }

  lemma FullAgain(level: real, p: Policy, now: real, later: real)
    requires !Disabled(p) && Usable(p) && 0.0 <= level <= Capacity(p) as real
    requires (later - now) * NANOS >= (Answer(level, p).reset + 1) as real
    ensures Level(Some(After(level, now)), p, later) == Capacity(p) as real
  {
    WaitCovers(Capacity(p) as real - After(level, now).tokens, p, later - now);
  }

  // ---- One bucket through a run of the limiter as it is --------------------------------------

  function KeyOf(c: Call): Key {
    (c.policy.name, c.key)
  }

  /** The buckets before call i. */
  function Before(calls: seq<Call>, i: nat): Buckets
    requires i <= |calls| && forall c :: c in calls ==> Usable(c.policy)
  {
    Usables(calls, i);
    State(true, map[], calls[..i])
  }

  lemma Usables(calls: seq<Call>, i: nat)
    requires i <= |calls| && forall c :: c in calls ==> Usable(c.policy)
    ensures forall c :: c in calls[..i] ==> Usable(c.policy)
  {
  }

  function Decisions(calls: seq<Call>): (ds: seq<Decision>)
    requires forall c :: c in calls ==> Usable(c.policy)
    ensures |ds| == |calls|
  {
    Run(true, map[], calls)
  }

  lemma CallAt(calls: seq<Call>, i: nat)
    requires i < |calls| && forall c :: c in calls ==> Usable(c.policy)
    ensures Usable(calls[i].policy)
    ensures Decisions(calls)[i] == One(true, Before(calls, i), calls[i]).1
    ensures Before(calls, i + 1) == One(true, Before(calls, i), calls[i]).0
  {
    assert calls[i] in calls;
    var before, rest := calls[..i], [calls[i]] + calls[i + 1..];
    assert calls == before + rest;
    assert calls[..i + 1] == before + [calls[i]];
    RunConcat(true, map[], before, rest);
    StateSnoc(true, map[], before, calls[i]);
  }

  /** No bucket is ever in debt, or seen later than now. */
  lemma {:induction false} BeforeWellKept(policies: set<Policy>, calls: seq<Call>, i: nat, now: real)
    requires Over(policies, calls, 0.0) && i <= |calls| && forall m :: 0 <= m < i ==> calls[m].now <= now
    ensures WellKept(Before(calls, i), now)
  {
    if i > 0 {
      BeforeWellKept(policies, calls, i - 1, calls[i - 1].now);
      CallAt(calls, i - 1);
      OneWellKept(Before(calls, i - 1), calls[i - 1]);
    }
  }

  lemma OneWellKept(buckets: Buckets, c: Call)
    requires Usable(c.policy) && WellKept(buckets, c.now)
    ensures WellKept(One(true, buckets, c).0, c.now)
  {
    if !Disabled(c.policy) {
      PlainKeeps(Evict(buckets, c.now, c.policy.window), c.key, c.policy, c.now);
    }
  }

  /** What call i finds its bucket to hold. */
  function Found(calls: seq<Call>, i: nat): real
    requires i < |calls| && (forall c :: c in calls ==> Usable(c.policy)) && !Disabled(calls[i].policy)
  {
    var c := calls[i];
    assert c in calls;
    Level(Find(Evict(Before(calls, i), c.now, c.policy.window), KeyOf(c)), c.policy, c.now)
  }

  lemma FoundInRange(policies: set<Policy>, calls: seq<Call>, i: nat)
    requires Over(policies, calls, 0.0) && i < |calls| && !Disabled(calls[i].policy)
    ensures 0.0 <= Found(calls, i) <= Capacity(calls[i].policy) as real
    ensures Decisions(calls)[i] == Answer(Found(calls, i), calls[i].policy)
    ensures KeyOf(calls[i]) in Before(calls, i + 1)
    ensures Before(calls, i + 1)[KeyOf(calls[i])] == After(Found(calls, i), calls[i].now)
  {
    var c := calls[i];
    CallAt(calls, i);
    BeforeWellKept(policies, calls, i, c.now);
    var kept := Evict(Before(calls, i), c.now, c.policy.window);
    if KeyOf(c) in kept {
      LevelInRange(kept[KeyOf(c)], c.policy, c.now);
    }
  }

  /** Tokens stay between nothing and the allowance: in every state of every run,
      in every bucket of a policy that alone has its name. */
  lemma {:induction false} TokensInRange(policies: set<Policy>, calls: seq<Call>, i: nat, p: Policy, key: string)
    requires Over(policies, calls, 0.0) && i <= |calls| && OwnName(p, calls) && !Disabled(p) && Usable(p)
    ensures (p.name, key) in Before(calls, i) ==>
      0.0 <= Before(calls, i)[(p.name, key)].tokens <= Capacity(p) as real
  {
    if i > 0 {
      var c := calls[i - 1];
      TokensInRange(policies, calls, i - 1, p, key);
      CallAt(calls, i - 1);
      assert c in calls;
      if KeyOf(c) == (p.name, key) {
        FoundInRange(policies, calls, i - 1);
      }
    }
  }

  /** Nobody asks about the bucket of call i between i and j. */
  ghost predicate Quiet(calls: seq<Call>, i: nat, j: nat)
    requires i < j <= |calls|
  {
    forall m :: i < m < j ==> KeyOf(calls[m]) != KeyOf(calls[i])
  }

  /** Some call after i and up to j evicts a bucket left alone since call i. */
  ghost predicate Forgotten(calls: seq<Call>, i: nat, j: nat)
    requires i < j <= |calls|
  {
    exists m :: i < m < j && Outlives(calls[m], calls[i].now)
  }

  predicate Outlives(c: Call, seen: real) {
    !Disabled(c.policy) && c.now - seen > 2.0 * c.policy.window
  }

  /** Left alone, the bucket of call i stays as it is until it is forgotten. */
  lemma {:induction false} LeftAlone(policies: set<Policy>, calls: seq<Call>, i: nat, j: nat)
    requires Over(policies, calls, 0.0) && i < j <= |calls| && !Disabled(calls[i].policy) && Quiet(calls, i, j)
    ensures KeyOf(calls[i]) !in Before(calls, j) ==> Forgotten(calls, i, j)
    ensures KeyOf(calls[i]) in Before(calls, j) ==>
      Before(calls, j)[KeyOf(calls[i])] == After(Found(calls, i), calls[i].now)
    decreases j
  {
    if j == i + 1 {
      FoundInRange(policies, calls, i);
    } else {
      LeftAlone(policies, calls, i, j - 1);
      CallAt(calls, j - 1);
      var k, buckets, c := KeyOf(calls[i]), Before(calls, j - 1), calls[j - 1];
      assert KeyOf(c) != k;
      if k !in Before(calls, j) {
        if k in buckets {
          assert Outlives(c, calls[i].now);
        } else {
          var m :| i < m < j - 1 && Outlives(calls[m], calls[i].now);
        }
      }
    }
  }

  /** So the next call about it finds what it held, refilled since, or a whole
      allowance when it was forgotten. */
  lemma NextFinds(policies: set<Policy>, calls: seq<Call>, i: nat, j: nat)
    requires Over(policies, calls, 0.0) && i < j < |calls| && !Disabled(calls[i].policy) && Quiet(calls, i, j)
    requires calls[j].policy == calls[i].policy && calls[j].key == calls[i].key
    ensures var p := calls[i].policy;
      || Found(calls, j) == Level(Some(After(Found(calls, i), calls[i].now)), p, calls[j].now)
      || (Found(calls, j) == Capacity(p) as real && Forgotten(calls, i, j + 1))
  {
    LeftAlone(policies, calls, i, j);
    var k := KeyOf(calls[i]);
    if k !in Before(calls, j) {
      var m :| i < m < j && Outlives(calls[m], calls[i].now);
    } else if k !in Evict(Before(calls, j), calls[j].now, calls[j].policy.window) {
      assert Outlives(calls[j], calls[i].now);
    }
  }

  lemma CapacityIsOne(p: Policy)
    requires !Disabled(p)
    ensures Capacity(p) as real >= 1.0
  {
  }

  /** The question about the same bucket that follows call i. */
  ghost predicate Follows(policies: set<Policy>, calls: seq<Call>, i: nat, j: nat) {
    && Over(policies, calls, 0.0) && i < j < |calls|
    && calls[j].policy == calls[i].policy && calls[j].key == calls[i].key
    && !Disabled(calls[i].policy) && Quiet(calls, i, j)
  }

  /** On every run of the limiter: a caller that was refused and asks nothing until
      the announced wait is over is then let through, up to the nanosecond the
      announcement is rounded down by, whatever others ask in between. */
  lemma RetryAfterIsEnough(policies: set<Policy>, calls: seq<Call>, i: nat, j: nat)
    requires Follows(policies, calls, i, j) && !Decisions(calls)[i].allowed
    requires (calls[j].now - calls[i].now) * NANOS >= (Decisions(calls)[i].retryAfter + 1) as real
    ensures Decisions(calls)[j].allowed
  {
    var p := calls[i].policy;
    FoundInRange(policies, calls, i);
    FoundInRange(policies, calls, j);
    NextFinds(policies, calls, i, j);
    WaitedLongEnough(Found(calls, i), p, calls[i].now, calls[j].now);
    CapacityIsOne(p);
  }

  /** On every run: once the announced reset has passed without a question, the
      caller is answered as one that was never seen. */
  lemma ResetIsFull(policies: set<Policy>, calls: seq<Call>, i: nat, j: nat)
    requires Follows(policies, calls, i, j)
    requires (calls[j].now - calls[i].now) * NANOS >= (Decisions(calls)[i].reset + 1) as real
    ensures Decisions(calls)[j] == Answer(Level(None, calls[i].policy, calls[j].now), calls[i].policy)
  {
    FoundInRange(policies, calls, i);
    FoundInRange(policies, calls, j);
    NextFinds(policies, calls, i, j);
    FullAgain(Found(calls, i), calls[i].policy, calls[i].now, calls[j].now);
  }

  // ---- How many more calls at the same moment --------------------------------------------------

  /** How many calls between i and j are about the bucket of call i. */
  function More(calls: seq<Call>, i: nat, j: nat): nat
    requires i < j <= |calls|
    decreases j
  {
    if j == i + 1 then 0 else More(calls, i, j - 1) + if KeyOf(calls[j - 1]) == KeyOf(calls[i]) then 1 else 0
  }

  /** All calls from i to j come at one moment, and nobody uses the name of call
      i's policy for another. */
  ghost predicate AtOnce(calls: seq<Call>, i: nat, j: nat)
    requires i < j <= |calls|
  {
    forall m :: i < m < j ==>
      calls[m].now == calls[i].now && (calls[m].policy.name == calls[i].policy.name ==> calls[m].policy == calls[i].policy)
  }

  function Least(a: int, b: int): int {
    if a < b then a else b
  }

  lemma OneMoreAtOnce(buckets: Buckets, c: Call, tokens: real)
    requires Usable(c.policy) && !Disabled(c.policy) && 0.0 <= tokens <= Capacity(c.policy) as real
    requires Find(buckets, KeyOf(c)) == Some(Bucket(tokens, c.now))
    ensures var (after, decision) := One(true, buckets, c);
      && (decision.allowed <==> tokens >= 1.0)
      && Find(after, KeyOf(c)) == Some(Bucket(if tokens >= 1.0 then tokens - 1.0 else tokens, c.now))
  {
    assert 0.0 * Rate(c.policy) == 0.0;
    assert KeyOf(c) in Evict(buckets, c.now, c.policy.window);
    assert Level(Some(Bucket(tokens, c.now)), c.policy, c.now) == tokens;
  }

  lemma OtherAtOnce(buckets: Buckets, c: Call, k: Key, b: Bucket)
    requires Usable(c.policy) && KeyOf(c) != k && Find(buckets, k) == Some(b) && b.lastSeen == c.now
    ensures Find(One(true, buckets, c).0, k) == Some(b)
  {
  }

  lemma WholeTokens(tokens: real, spent: nat)
    requires tokens >= 0.0 && spent <= tokens.Floor
    ensures tokens - spent as real >= 1.0 <==> spent < tokens.Floor
    ensures tokens - spent as real >= 0.0
  {
  }

  /** Between calls at one moment whole tokens are spent one by one. */
  lemma {:induction false} Draining(policies: set<Policy>, calls: seq<Call>, i: nat, j: nat)
    requires Over(policies, calls, 0.0) && i < j <= |calls| && AtOnce(calls, i, j) && !Disabled(calls[i].policy)
    requires Decisions(calls)[i].allowed
    ensures var left := Found(calls, i) - 1.0;
      Find(Before(calls, j), KeyOf(calls[i]))
      == Some(Bucket(left - Least(More(calls, i, j), left.Floor) as real, calls[i].now))
    decreases j
  {
    FoundInRange(policies, calls, i);
    var left := Found(calls, i) - 1.0;
    if j > i + 1 {
      Draining(policies, calls, i, j - 1);
      CallAt(calls, j - 1);
      var c, spent := calls[j - 1], Least(More(calls, i, j - 1), left.Floor);
      WholeTokens(left, spent);
      if KeyOf(c) == KeyOf(calls[i]) {
        OneMoreAtOnce(Before(calls, j - 1), c, left - spent as real);
      } else {
        OtherAtOnce(Before(calls, j - 1), c, KeyOf(calls[i]), Bucket(left - spent as real, calls[i].now));
      }
    }
  }

  /** What call i leaves and announces. */
  lemma LeftBy(policies: set<Policy>, calls: seq<Call>, i: nat) returns (left: real)
    requires Over(policies, calls, 0.0) && i < |calls| && !Disabled(calls[i].policy) && Decisions(calls)[i].allowed
    ensures left == Found(calls, i) - 1.0
    ensures 0.0 <= left <= Capacity(calls[i].policy) as real && Decisions(calls)[i].remaining == left.Floor
  {
    FoundInRange(policies, calls, i);
    AnnouncedRemaining(Found(calls, i), calls[i].policy);
    left := Found(calls, i) - 1.0;
  }

  /** What a later call at the same moment finds. */
  lemma LeftAtOnce(policies: set<Policy>, calls: seq<Call>, i: nat, j: nat) returns (left: real)
    requires Over(policies, calls, 0.0) && i < j < |calls| && AtOnce(calls, i, j) && !Disabled(calls[i].policy)
    requires Decisions(calls)[i].allowed
    ensures 0.0 <= left <= Capacity(calls[i].policy) as real && Decisions(calls)[i].remaining == left.Floor
    ensures Find(Before(calls, j), KeyOf(calls[i]))
         == Some(Bucket(left - Least(More(calls, i, j), left.Floor) as real, calls[i].now))
  {
    left := LeftBy(policies, calls, i);
    Draining(policies, calls, i, j);
  }

  /** On every run: of the further calls a caller makes at the same moment exactly
      the announced number is let through, whatever others ask in between. */
  lemma RemainingIsExact(policies: set<Policy>, calls: seq<Call>, i: nat, j: nat)
    requires Over(policies, calls, 0.0) && i < j < |calls| && AtOnce(calls, i, j + 1) && !Disabled(calls[i].policy)
    requires Decisions(calls)[i].allowed && KeyOf(calls[j]) == KeyOf(calls[i])
    ensures Decisions(calls)[j].allowed <==> More(calls, i, j) < Decisions(calls)[i].remaining
  {
    assert calls[j].policy == calls[i].policy && calls[j].now == calls[i].now && AtOnce(calls, i, j);
    var left := LeftAtOnce(policies, calls, i, j);
    SpentAt(policies, calls, j, left, More(calls, i, j));
  }

  lemma SpentAt(policies: set<Policy>, calls: seq<Call>, j: nat, left: real, more: nat)
    requires Over(policies, calls, 0.0) && j < |calls|
    requires !Disabled(calls[j].policy) && 0.0 <= left <= Capacity(calls[j].policy) as real
    requires Find(Before(calls, j), KeyOf(calls[j])) == Some(Bucket(left - Least(more, left.Floor) as real, calls[j].now))
    ensures Decisions(calls)[j].allowed <==> more < left.Floor
  {
    CallAt(calls, j);
    SpentDecides(Before(calls, j), calls[j], left, more);
  }

  lemma AnnouncedRemaining(level: real, p: Policy)
    requires !Disabled(p) && Usable(p) && Answer(level, p).allowed && level <= Capacity(p) as real
    ensures 0.0 <= level - 1.0 <= Capacity(p) as real && Answer(level, p).remaining == (level - 1.0).Floor
  {
  }

  lemma SpentDecides(buckets: Buckets, c: Call, left: real, more: nat)
    requires Usable(c.policy) && !Disabled(c.policy) && 0.0 <= left <= Capacity(c.policy) as real
    requires Find(buckets, KeyOf(c)) == Some(Bucket(left - Least(more, left.Floor) as real, c.now))
    ensures One(true, buckets, c).1.allowed <==> more < left.Floor
  {
    WholeTokens(left, Least(more, left.Floor));
    OneMoreAtOnce(buckets, c, left - Least(more, left.Floor) as real);
  }

  // ---- When the announced wait is needed --------------------------------------------------------

  /** A question that comes before the announced wait is over, where the wait was
      not rounded up to a second. */
  ghost predicate ComesEarly(policies: set<Policy>, calls: seq<Call>, i: nat, j: nat) {
    && Follows(policies, calls, i, j)
    && !Decisions(calls)[i].allowed && Decisions(calls)[i].retryAfter > SECOND
    && (calls[j].now - calls[i].now) * NANOS < Decisions(calls)[i].retryAfter as real
  }

  ghost predicate EarlyIsRefused(policies: set<Policy>) {
    forall calls, i: nat, j: nat :: ComesEarly(policies, calls, i, j) ==> !Decisions(calls)[j].allowed
  }

  /** The longest wait a policy announces. */
  function LongestWait(p: Policy): int
    requires !Disabled(p) && Usable(p)
  {
    Nanoseconds(1.0 / Rate(p))
  }

  /** Two windows of q outlast that wait, so q forgets no bucket of p before. */
  predicate Outlasts(q: Policy, p: Policy)
    requires !Disabled(p) && Usable(p)
  {
    LongestWait(p) <= SECOND || LongestWait(p) as real <= 2.0 * q.window * NANOS
  }

  ghost predicate Patient(policies: set<Policy>)
    requires forall p :: p in policies ==> Usable(p)
  {
    forall p, q :: p in policies && q in policies && !Disabled(p) && !Disabled(q) ==> Outlasts(q, p)
  }

  lemma WaitIsAtMostLongest(level: real, p: Policy)
    requires !Disabled(p) && Usable(p) && 0.0 <= level < 1.0
    ensures Nanoseconds((1.0 - level) / Rate(p)) <= LongestWait(p)
  {
    RatePositive(p);
    QuotientTimes(1.0 - level, Rate(p));
    QuotientTimes(1.0, Rate(p));
    if (1.0 - level) / Rate(p) > 1.0 / Rate(p) {
      TimesMonotone(1.0 / Rate(p), (1.0 - level) / Rate(p), Rate(p));
    }
  }

  lemma PatientRefuses(policies: set<Policy>, calls: seq<Call>, i: nat, j: nat)
    requires (forall p :: p in policies ==> Usable(p)) && Patient(policies) && ComesEarly(policies, calls, i, j)
    ensures !Decisions(calls)[j].allowed
  {
    var p := calls[i].policy;
    assert calls[i] in calls && calls[j] in calls;
    FoundInRange(policies, calls, i);
    FoundInRange(policies, calls, j);
    NextFinds(policies, calls, i, j);
    WaitedTooShort(Found(calls, i), p, calls[i].now, calls[j].now);
    NotForgottenEarly(policies, calls, i, j);
  }

  lemma NotForgottenEarly(policies: set<Policy>, calls: seq<Call>, i: nat, j: nat)
    requires (forall p :: p in policies ==> Usable(p)) && Patient(policies) && ComesEarly(policies, calls, i, j)
    ensures !Forgotten(calls, i, j + 1)
  {
    var p := calls[i].policy;
    assert calls[i] in calls;
    FoundInRange(policies, calls, i);
    WaitIsAtMostLongest(Found(calls, i), p);
    forall m | i < m < j + 1 ensures !Outlives(calls[m], calls[i].now) {
      assert calls[m] in calls && calls[m].now <= calls[j].now;
      assert Disabled(calls[m].policy) || Outlasts(calls[m].policy, p);
    }
  }

  /** A caller spends the allowance and is refused; another caller's question, under
      a policy that forgets sooner than the wait is over, lets it through again. */
  lemma ImpatientLetsThrough(p: Policy, q: Policy) returns (calls: seq<Call>, i: nat, j: nat)
    requires !Disabled(p) && Usable(p) && !Disabled(q) && Usable(q) && !Outlasts(q, p)
    ensures ComesEarly({p, q}, calls, i, j) && Decisions(calls)[j].allowed
  {
    var n := Capacity(p);
    var t := (2.0 * q.window + LongestWait(p) as real / NANOS) / 2.0;
    calls, i, j := Spree(p, q, t), n, n + 2;
    SpreeIsARun(p, q, t);
    DrainState(true, p, n);
    assert calls[..n] == Drain(p, n);
    CallAt(calls, n);
    CallAt(calls, n + 1);
    CallAt(calls, n + 2);
    SpentIsRefused(p, Before(calls, n));
    ForgottenIsLetThrough(p, q, Before(calls, n + 1), t);
  }

  lemma ImpatientShows(policies: set<Policy>, p: Policy, q: Policy)
    requires p in policies && q in policies && !Disabled(p) && Usable(p) && !Disabled(q) && Usable(q) && !Outlasts(q, p)
    ensures !EarlyIsRefused(policies)
  {
    var calls, i, j := ImpatientLetsThrough(p, q);
    assert ComesEarly(policies, calls, i, j);
  }

  /** The whole allowance and one call more; then, at t, another caller under q and
      the first one again. */
  function Spree(p: Policy, q: Policy, t: real): seq<Call>
    requires !Disabled(p)
  {
    Drain(p, Capacity(p)) + [Call("k", p, 0.0), Call("other", q, t), Call("k", p, t)]
  }

  lemma SpreeIsARun(p: Policy, q: Policy, t: real)
    requires !Disabled(p) && Usable(p) && !Disabled(q) && Usable(q) && t >= 0.0
    ensures var calls, n := Spree(p, q, t), Capacity(p);
      && |calls| == n + 3 && calls[n] == Call("k", p, 0.0) && calls[n + 1] == Call("other", q, t)
      && calls[n + 2] == Call("k", p, t) && Follows({p, q}, calls, n, n + 2)
  {
    var calls := Spree(p, q, t);
    forall m | 0 <= m < |calls|
      ensures calls[m].policy in {p, q} && calls[m].now == if m <= Capacity(p) then 0.0 else t
    {
    }
  }

  lemma SpentIsRefused(p: Policy, buckets: Buckets)
    requires !Disabled(p) && Usable(p) && LongestWait(p) > SECOND
    requires buckets == map[(p.name, "k") := Bucket(0.0, 0.0)]
    ensures var (after, d) := One(true, buckets, Call("k", p, 0.0));
      !d.allowed && d.retryAfter == LongestWait(p) && after == buckets
  {
    assert 0.0 * Rate(p) == 0.0;
    assert Evict(buckets, 0.0, p.window) == buckets;
    assert Level(Some(Bucket(0.0, 0.0)), p, 0.0) == 0.0;
  }

  lemma ForgottenIsLetThrough(p: Policy, q: Policy, buckets: Buckets, t: real)
    requires !Disabled(p) && Usable(p) && !Disabled(q) && Usable(q) && t > 2.0 * q.window
    requires buckets == map[(p.name, "k") := Bucket(0.0, 0.0)]
    ensures One(true, One(true, buckets, Call("other", q, t)).0, Call("k", p, t)).1.allowed
  {
    assert Evict(buckets, t, q.window) == map[];
    CapacityIsOne(p);
  }

  /** The announced wait is needed on every run exactly when no policy in use
      forgets sooner than the longest wait another announces. It fails, for one, when
      one call an hour is allowed and another policy has a window of a second. */
  lemma RetryAfterIsNeededIff(policies: set<Policy>)
    requires forall p :: p in policies ==> Usable(p)
    ensures EarlyIsRefused(policies) <==> Patient(policies)
  {
    if Patient(policies) {
      forall calls, i: nat, j: nat | ComesEarly(policies, calls, i, j) ensures !Decisions(calls)[j].allowed {
        PatientRefuses(policies, calls, i, j);
      }
    }
    if EarlyIsRefused(policies) {
      forall p, q | p in policies && q in policies && !Disabled(p) && !Disabled(q) ensures Outlasts(q, p) {
        if !Outlasts(q, p) {
          ImpatientShows(policies, p, q);
        }
      }
    }
  }

  /** Policies under which eviction never shows are patient. */
  lemma HarmlessIsPatient(policies: set<Policy>)
    requires (forall p :: p in policies ==> Usable(p)) && Harmless(policies)
    ensures Patient(policies) && EarlyIsRefused(policies)
  {
    forall p, q | p in policies && q in policies && !Disabled(p) && !Disabled(q) ensures Outlasts(q, p) {
      CoversOutlasts(q, p);
    }
    RetryAfterIsNeededIff(policies);
  }

  lemma CoversOutlasts(q: Policy, p: Policy)
    requires !Disabled(p) && Usable(p) && !Disabled(q) && Usable(q) && Covers(q.window, p)
    ensures LongestWait(p) as real <= 2.0 * q.window * NANOS
  {
    RatePositive(p);
    CapacityIsOne(p);
    TimesMonotone(1.0, Capacity(p) as real, p.window);
    QuotientTimes(1.0, Rate(p));
    var wait := 1.0 / Rate(p);
    if wait > 2.0 * q.window {
      TimesMonotone(2.0 * q.window, wait, Rate(p));
      TimesMonotone(2.0 * q.window * Rate(p), 1.0, p.window);
      assert 2.0 * q.window * Rate(p) * p.window == 2.0 * q.window * p.requests as real;
    }
  }
}
