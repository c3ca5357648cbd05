/**
 What the limiter of internal/ratelimit/ratelimit.go guarantees over whole traces of
 calls, by any keys, and exactly for which configurations.
 */
module RateLimitLaws {
  import opened RateLimit

  /** A call of `Allow`, and the keys `Reset` since the call before; resetting reads no clock. */
  datatype Call = Call(key: string, at: Readings, resets: set<string>)

  /** The resets before a call, and the call. */
  function CallStep(p: Params, s: State, c: Call): (State, bool) {
    AllowStep(p, Forget(s, c.resets), c.key, c.at)
  }

  /** The same if the limiter never forgot a bucket on its own. */
  function PlainStep(p: Params, m: Buckets, c: Call): (Buckets, bool) {
    SpendStep(p, m - c.resets, c.key, c.at)
  }

  /** The clock never runs backwards, within a call or from one call to the next. */
  ghost predicate InOrder(t0: real, trace: seq<Call>) {
    && (forall i :: 0 <= i < |trace| ==> t0 <= trace[i].at.sinceCleanup && trace[i].at.Ordered())
    && (forall i, j :: 0 <= i < j < |trace| ==> trace[i].at.stamp <= trace[j].at.sinceCleanup)
  }

  /** A fresh limiter created at `t0`, after the calls of `trace`. */
  function Run(p: Params, t0: real, trace: seq<Call>): State {
    if trace == [] then State(map[], t0)
    else var n := |trace| - 1; CallStep(p, Run(p, t0, trace[..n]), trace[n]).0
  }

  /** The answers of that limiter, call by call. */
  function Decisions(p: Params, t0: real, trace: seq<Call>): (ds: seq<bool>)
    ensures |ds| == |trace|
  {
    if trace == [] then []
    else
      var n := |trace| - 1;
      Decisions(p, t0, trace[..n]) + [CallStep(p, Run(p, t0, trace[..n]), trace[n]).1]
  }

  /** The buckets of a limiter that forgets one only when it is reset. */
  function PlainRun(p: Params, trace: seq<Call>): Buckets {
    if trace == [] then map[]
    else var n := |trace| - 1; PlainStep(p, PlainRun(p, trace[..n]), trace[n]).0
  }

  function PlainDecisions(p: Params, trace: seq<Call>): (ds: seq<bool>)
    ensures |ds| == |trace|
  {
    if trace == [] then []
    else
      var n := |trace| - 1;
      PlainDecisions(p, trace[..n]) + [PlainStep(p, PlainRun(p, trace[..n]), trace[n]).1]
  }

  /** How many of the calls `i..j` were by `key` and were allowed. */
  function Admitted(trace: seq<Call>, ds: seq<bool>, key: string, i: nat, j: nat): nat
    requires i <= j <= |trace| == |ds|
    decreases j
  {
    if i == j then 0
    else Admitted(trace, ds, key, i, j - 1) + (if trace[j - 1].key == key && ds[j - 1] then 1 else 0)
  }

  lemma {:induction false} AdmittedPrefix(trace: seq<Call>, ds: seq<bool>, more: seq<Call>, moreDs: seq<bool>,
                                          key: string, i: nat, j: nat)
    requires i <= j <= |trace| == |ds| && |more| == |moreDs|
    requires trace <= more && ds <= moreDs
    ensures Admitted(trace, ds, key, i, j) == Admitted(more, moreDs, key, i, j)
    decreases j
  {
    if i < j {
      AdmittedPrefix(trace, ds, more, moreDs, key, i, j - 1);
    }
  }

  /** Earlier answers do not depend on later calls. */
  lemma {:induction false} PlainDecisionsPrefix(p: Params, trace: seq<Call>, n: nat)
    requires n <= |trace|
    ensures PlainDecisions(p, trace)[..n] == PlainDecisions(p, trace[..n])
  {
    var last := |trace| - 1;
    if n < |trace| {
      PlainDecisionsPrefix(p, trace[..last], n);
      assert trace[..last][..n] == trace[..n];
    } else {
      assert trace[..n] == trace;
    }
  }

  lemma PlainDecisionAt(p: Params, trace: seq<Call>, n: nat)
    requires n < |trace|
    ensures PlainDecisions(p, trace[..n]) <= PlainDecisions(p, trace)
    ensures PlainDecisions(p, trace)[n] == PlainStep(p, PlainRun(p, trace[..n]), trace[n]).1
  {
    var ds := PlainDecisions(p, trace);
    PlainDecisionsPrefix(p, trace, n);
    PlainDecisionsPrefix(p, trace, n + 1);
    assert trace[..n + 1][..n] == trace[..n];
    assert ds[n] == ds[..n + 1][n];
  }

  // ----- eviction is invisible -----------------------------------------------------------

  /** An idle bucket of twice the cleanup interval would have refilled, and buckets start full. */
  predicate Sound(p: Params) {
    p.burst >= 1 && 2.0 * p.cleanupInterval * p.rate >= p.burst as real
  }

  /** A bucket holds between zero and `burst` tokens, and was last seen no later than `now`. */
  ghost predicate Sane(p: Params, m: Buckets, now: real) {
    forall k :: k in m ==> 0.0 <= m[k].tokens <= p.burst as real && m[k].lastCheck <= now
  }

  ghost predicate Full(p: Params, b: BucketState, now: real) {
    Available(p, b, now) == p.burst as real
  }

  /** `s` differs from the never-forgetting limiter only in keys whose bucket there would be full again. */
  ghost predicate Simulates(p: Params, s: State, plain: Buckets, now: real) {
    && s.lastCleanup <= now
    && Sane(p, plain, now)
    && (forall k :: k in s.buckets ==> k in plain && s.buckets[k] == plain[k])
    && (forall k :: k in plain && k !in s.buckets ==> Full(p, plain[k], now))
  }

  lemma RefillAdds(p: Params, a: real, b: real)
    ensures Refill(p, a) + Refill(p, b) == Refill(p, a + b)
  {
  }

  lemma RefillGains(p: Params, elapsed: real)
    requires p.rate >= 0.0 && elapsed >= 0.0
    ensures Refill(p, elapsed) >= 0.0
  {
  }

  lemma RefillLoses(p: Params, elapsed: real)
    requires p.rate <= 0.0 && elapsed >= 0.0
    ensures Refill(p, elapsed) <= 0.0
  {
  }

  lemma RateIsPositive(p: Params)
    requires Sound(p) && p.cleanupInterval > 0.0
    ensures p.rate > 0.0
  {
    if p.rate <= 0.0 {
      RefillLoses(p, 2.0 * p.cleanupInterval);
    }
  }

  lemma StaysFull(p: Params, b: BucketState, now: real, later: real)
    requires p.rate >= 0.0 && now <= later
    requires Full(p, b, now)
    ensures Full(p, b, later)
  {
    RefillGains(p, later - now);
    RefillAdds(p, now - b.lastCheck, later - now);
  }

  /** A bucket old enough to be evicted has refilled by then. */
  lemma EvictedIsFull(p: Params, b: BucketState, now: real)
    requires Sound(p) && p.cleanupInterval > 0.0 && b.tokens >= 0.0
    requires b.lastCheck < now - 2.0 * p.cleanupInterval
    ensures Full(p, b, now)
  {
    RateIsPositive(p);
    var rest := now - b.lastCheck - 2.0 * p.cleanupInterval;
    RefillGains(p, rest);
    RefillAdds(p, 2.0 * p.cleanupInterval, rest);
  }

  lemma CleanupSimulates(p: Params, s: State, plain: Buckets, now: real, r: Readings)
    requires Sound(p) && p.cleanupInterval > 0.0
    requires Simulates(p, s, plain, now) && now <= r.sinceCleanup && r.Ordered()
    ensures Simulates(p, Cleaned(p, s, r), plain, r.refillNow)
  {
    RateIsPositive(p);
    var c := Cleaned(p, s, r);
    forall k | k in plain && k !in c.buckets
      ensures Full(p, plain[k], r.refillNow)
    {
      if k in s.buckets {
        EvictedIsFull(p, plain[k], r.cutoffNow);
        StaysFull(p, plain[k], r.cutoffNow, r.refillNow);
      } else {
        StaysFull(p, plain[k], now, r.refillNow);
      }
    }
  }

  lemma AvailableBounds(p: Params, b: BucketState, t: real)
    requires p.burst >= 1 && p.rate >= 0.0 && 0.0 <= b.tokens <= p.burst as real && b.lastCheck <= t
    ensures 0.0 <= Available(p, b, t) <= p.burst as real
  {
    RefillGains(p, t - b.lastCheck);
  }

  lemma SpendKeepsSane(p: Params, m: Buckets, key: string, r: Readings, now: real)
    requires p.burst >= 1 && p.rate >= 0.0 && Sane(p, m, now) && now <= r.refillNow <= r.stamp
    ensures Sane(p, SpendStep(p, m, key, r).0, r.stamp)
  {
    if key in m {
      AvailableBounds(p, m[key], r.refillNow);
    }
  }

  lemma StepSimulates(p: Params, s: State, plain: Buckets, now: real, key: string, r: Readings)
    requires Sound(p) && p.cleanupInterval > 0.0
    requires Simulates(p, s, plain, now) && now <= r.sinceCleanup && r.Ordered()
    ensures AllowStep(p, s, key, r).1 == SpendStep(p, plain, key, r).1
    ensures Simulates(p, AllowStep(p, s, key, r).0, SpendStep(p, plain, key, r).0, r.stamp)
  {
    RateIsPositive(p);
    CleanupSimulates(p, s, plain, now, r);
    SpendSimulates(p, Cleaned(p, s, r), plain, key, r);
  }

  /** A missing bucket and a full one answer alike, and leave the same bucket. */
  lemma SpendAgrees(p: Params, m: Buckets, plain: Buckets, key: string, r: Readings)
    requires p.burst >= 1
    requires key in m ==> key in plain && m[key] == plain[key]
    requires key in plain && key !in m ==> Full(p, plain[key], r.refillNow)
    ensures SpendStep(p, m, key, r).1 == SpendStep(p, plain, key, r).1
    ensures SpendStep(p, m, key, r).0[key] == SpendStep(p, plain, key, r).0[key]
  {
  }

  lemma SpendSimulates(p: Params, c: State, plain: Buckets, key: string, r: Readings)
    requires p.burst >= 1 && p.rate >= 0.0
    requires Simulates(p, c, plain, r.refillNow) && r.Ordered()
    ensures var (m, ok) := SpendStep(p, c.buckets, key, r);
            var (plain', ok') := SpendStep(p, plain, key, r);
            ok == ok' && Simulates(p, State(m, c.lastCleanup), plain', r.stamp)
  {
    var (m, ok) := SpendStep(p, c.buckets, key, r);
    var (plain', ok') := SpendStep(p, plain, key, r);
    SpendKeepsSane(p, plain, key, r, r.refillNow);
    SpendAgrees(p, c.buckets, plain, key, r);
    forall k | k in plain' && k !in m
      ensures Full(p, plain'[k], r.stamp)
    {
      assert plain'[k] == plain[k];
      StaysFull(p, plain[k], r.refillNow, r.stamp);
    }
  }

  /** Resets forget the same keys on both sides. */
  lemma ForgetSimulates(p: Params, s: State, plain: Buckets, now: real, keys: set<string>)
    requires Simulates(p, s, plain, now)
    ensures Simulates(p, Forget(s, keys), plain - keys, now)
  {
  }

  /**
   When buckets refill before they can be evicted, the limiter answers every trace as one
   that never evicts, from which it differs only in buckets that would be full.
   */
  lemma {:induction false} TraceSimulates(p: Params, t0: real, trace: seq<Call>)
    requires Sound(p) && p.cleanupInterval > 0.0 && InOrder(t0, trace)
    ensures Decisions(p, t0, trace) == PlainDecisions(p, trace)
    ensures Simulates(p, Run(p, t0, trace), PlainRun(p, trace), if trace == [] then t0 else trace[|trace| - 1].at.stamp)
  {
    if trace != [] {
      var n := |trace| - 1;
      var s, plain := Run(p, t0, trace[..n]), PlainRun(p, trace[..n]);
      var now := if n == 0 then t0 else trace[n - 1].at.stamp;
      TraceSimulates(p, t0, trace[..n]);
      ForgetSimulates(p, s, plain, now, trace[n].resets);
      StepSimulates(p, Forget(s, trace[n].resets), plain - trace[n].resets, now, trace[n].key, trace[n].at);
    }
  }

  // ----- eviction is a reset, whatever the configuration -----------------------------------

  /** The state in which a call looks for its bucket: after the resets before it and its cleanup. */
  function Found(p: Params, s: State, c: Call): Buckets {
    Cleaned(p, Forget(s, c.resets), c.at).buckets
  }

  /** The trace with every eviction written as a reset. */
  function WithEvictions(p: Params, t0: real, trace: seq<Call>): (r: seq<Call>)
    ensures |r| == |trace|
    ensures forall i :: 0 <= i < |trace| ==> r[i].key == trace[i].key && r[i].at == trace[i].at
  {
    if trace == [] then []
    else
      var n := |trace| - 1;
      var s := Run(p, t0, trace[..n]);
      WithEvictions(p, t0, trace[..n])
      + [trace[n].(resets := trace[n].resets + (s.buckets.Keys - Found(p, s, trace[n]).Keys))]
  }

  lemma {:induction false} WithEvictionsPrefix(p: Params, t0: real, trace: seq<Call>, n: nat)
    requires n <= |trace|
    ensures WithEvictions(p, t0, trace)[..n] == WithEvictions(p, t0, trace[..n])
  {
    var last := |trace| - 1;
    if n < |trace| {
      WithEvictionsPrefix(p, t0, trace[..last], n);
      assert trace[..last][..n] == trace[..n];
    } else {
      assert trace[..n] == trace;
    }
  }

  /** An eviction acts as a reset of the evicted keys just before the call would. */
  lemma {:induction false} EvictionIsReset(p: Params, t0: real, trace: seq<Call>)
    ensures Run(p, t0, trace).buckets == PlainRun(p, WithEvictions(p, t0, trace))
    ensures Decisions(p, t0, trace) == PlainDecisions(p, WithEvictions(p, t0, trace))
  {
    if trace != [] {
      var n := |trace| - 1;
      var s, marked := Run(p, t0, trace[..n]), WithEvictions(p, t0, trace);
      EvictionIsReset(p, t0, trace[..n]);
      WithEvictionsPrefix(p, t0, trace, n);
      assert s.buckets - marked[n].resets == Found(p, s, trace[n]);
    }
  }

  lemma WithEvictionsAt(p: Params, t0: real, trace: seq<Call>, i: nat)
    requires i < |trace|
    ensures var s := Run(p, t0, trace[..i]);
            WithEvictions(p, t0, trace)[i].resets == trace[i].resets + (s.buckets.Keys - Found(p, s, trace[i]).Keys)
  {
    var upTo := trace[..i + 1];
    assert upTo[..i] == trace[..i];
    WithEvictionsPrefix(p, t0, trace, i + 1);
    assert WithEvictions(p, t0, trace)[i] == WithEvictions(p, t0, trace)[..i + 1][i];
  }

  /** What call `i` finds is what the resets, evictions among them, left. */
  lemma FoundAfterReset(p: Params, t0: real, trace: seq<Call>, i: nat)
    requires i < |trace|
    ensures var marked := WithEvictions(p, t0, trace);
            Found(p, Run(p, t0, trace[..i]), trace[i]) == PlainRun(p, marked[..i]) - marked[i].resets
  {
    var s, marked := Run(p, t0, trace[..i]), WithEvictions(p, t0, trace);
    EvictionIsReset(p, t0, trace[..i]);
    WithEvictionsPrefix(p, t0, trace, i);
    WithEvictionsAt(p, t0, trace, i);
    assert s.buckets - marked[i].resets == Found(p, s, trace[i]);
  }
}
