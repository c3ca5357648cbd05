/**
 The token-bucket limiter of internal/ratelimit/ratelimit.go.

 Tokens, rates and clock readings are reals.  Every place where the Go code reads
 the clock is a separate field of `Readings`, so a call may be slow between any two
 of them.  `AllowStep` is the specification of one call; class `Limiter` is the code,
 proved against it.
 */
module RateLimit {

  /** The limiter's configuration: `cleanupInterval` is five minutes in `NewLimiter`. */
  datatype Params = Params(rate: real, burst: int, cleanupInterval: real)

  datatype BucketState = BucketState(tokens: real, lastCheck: real)

  type Buckets = map<string, BucketState>

  datatype State = State(buckets: Buckets, lastCleanup: real)

  /** The clock as one call of `Allow` reads it, in program order. */
  datatype Readings = Readings(sinceCleanup: real, cleanupStamp: real, cutoffNow: real, refillNow: real, stamp: real) {
    predicate Ordered() {
      sinceCleanup <= cleanupStamp <= cutoffNow <= refillNow <= stamp
    }
  }

  /** A call during which the clock stands still. */
  function Instant(t: real): Readings {
    Readings(t, t, t, t, t)
  }

  /** The buckets used no earlier than `cutoff`. */
  function Recent(m: Buckets, cutoff: real): Buckets {
    map k | k in m && !(m[k].lastCheck < cutoff) :: m[k]
  }

  /** What `maybeCleanup` leaves. */
  function Cleaned(p: Params, s: State, r: Readings): State {
    if r.sinceCleanup - s.lastCleanup < p.cleanupInterval then s
    else State(Recent(s.buckets, r.cutoffNow - 2.0 * p.cleanupInterval), r.cleanupStamp)
  }

  /** The tokens that `elapsed` seconds add. */
  function Refill(p: Params, elapsed: real): real {
    elapsed * p.rate
  }

  /** What a bucket would hold at time `t`. */
  function Available(p: Params, b: BucketState, t: real): real {
    var refilled := b.tokens + Refill(p, t - b.lastCheck);
    if refilled > p.burst as real then p.burst as real else refilled
  }

  /** What `Reset` leaves when called for each of `keys`. */
  function Forget(s: State, keys: set<string>): State {
    s.(buckets := s.buckets - keys)
  }

  /** One request against the buckets alone, with no cleanup: the limiter's meaning for a key. */
  function SpendStep(p: Params, m: Buckets, key: string, r: Readings): (Buckets, bool) {
    if key !in m then (m[key := BucketState(p.burst as real - 1.0, r.stamp)], true)
    else
      var tokens := Available(p, m[key], r.refillNow);
      if tokens >= 1.0 then (m[key := BucketState(tokens - 1.0, r.stamp)], true)
      else (m[key := BucketState(tokens, r.stamp)], false)
  }

  /** One call of `Allow`: the new state and the decision. */
  function AllowStep(p: Params, s: State, key: string, r: Readings): (State, bool) {
    var c := Cleaned(p, s, r);
    var (m, ok) := SpendStep(p, c.buckets, key, r);
    (State(m, c.lastCleanup), ok)
  }

  class Bucket {
    var tokens: real
    var lastCheck: real

    constructor (tokens: real, lastCheck: real)
      ensures this.tokens == tokens && this.lastCheck == lastCheck
    {
      this.tokens, this.lastCheck := tokens, lastCheck;
    }
  }

  class Limiter {
    const params: Params
    var buckets: map<string, Bucket>
    var lastCleanup: real

    /** No two keys share a bucket object. */
    ghost predicate Valid()
      reads this
    {
      forall k, l :: k in buckets && l in buckets && k != l ==> buckets[k] != buckets[l]
    }

    ghost function Contents(): Buckets
      reads this, buckets.Values
    {
      map k | k in buckets :: BucketState(buckets[k].tokens, buckets[k].lastCheck)
    }

    ghost function View(): State
      reads this, buckets.Values
    {
      State(Contents(), lastCleanup)
    }

    constructor (rate: real, burst: int, now: real)
      ensures Valid() && params == Params(rate, burst, 300.0)
      ensures View() == State(map[], now)
    {
      params := Params(rate, burst, 300.0);
      buckets := map[];
      lastCleanup := now;
    }

    method Allow(key: string, r: Readings) returns (ok: bool)
      requires Valid()
      modifies this, buckets.Values
      ensures Valid() && fresh(buckets.Values - old(buckets.Values))
      ensures (View(), ok) == AllowStep(params, old(View()), key, r)
    {
      MaybeCleanup(r);
      ghost var cleaned := Contents();
      if key !in buckets {
        var b := new Bucket(params.burst as real - 1.0, r.stamp);
        buckets := buckets[key := b];
        assert Contents() == cleaned[key := BucketState(params.burst as real - 1.0, r.stamp)];
        return true;
      }
      ok := Spend(buckets[key], r);
      assert Contents() == cleaned[key := BucketState(buckets[key].tokens, buckets[key].lastCheck)];
    }

    /** The refill and the decision of `Allow`, on the bucket it looked up. */
    method Spend(b: Bucket, r: Readings) returns (ok: bool)
      modifies b
      ensures var tokens := Available(params, old(BucketState(b.tokens, b.lastCheck)), r.refillNow);
              ok == (tokens >= 1.0) && b.tokens == (if ok then tokens - 1.0 else tokens) && b.lastCheck == r.stamp
    {
      b.tokens := b.tokens + Refill(params, r.refillNow - b.lastCheck);
      if b.tokens > params.burst as real {
        b.tokens := params.burst as real;
      }
      b.lastCheck := r.stamp;
      ok := b.tokens >= 1.0;
      if ok {
        b.tokens := b.tokens - 1.0;
      }
    }

    /** Forgets one key: its next request finds a full bucket. */
    method Reset(key: string)
      requires Valid()
      modifies this
      ensures Valid() && buckets.Values <= old(buckets.Values)
      ensures View() == Forget(old(View()), {key})
    {
      buckets := buckets - {key};
    }

    method Size() returns (n: nat)
      ensures n == |Contents()|
    {
      n := |buckets|;
      assert Contents().Keys == buckets.Keys;
    }

    method MaybeCleanup(r: Readings)
      requires Valid()
      modifies this
      ensures Valid() && buckets.Values <= old(buckets.Values)
      ensures View() == Cleaned(params, old(View()), r)
    {
      if r.sinceCleanup - lastCleanup < params.cleanupInterval {
        return;
      }
      lastCleanup := r.cleanupStamp;
      Evict(r.cutoffNow - 2.0 * params.cleanupInterval);
    }

    method Evict(cutoff: real)
      requires Valid()
      modifies this`buckets
      ensures Valid() && buckets.Values <= old(buckets.Values)
      ensures Contents() == Recent(old(Contents()), cutoff)
    {
      var unseen := buckets.Keys;
      while unseen != {}
        invariant unseen <= buckets.Keys <= old(buckets).Keys
        invariant forall k :: k in buckets ==> buckets[k] == old(buckets)[k]
        invariant forall k :: k in old(buckets) && k !in unseen ==>
                    (k in buckets <==> !(old(buckets)[k].lastCheck < cutoff))
        decreases unseen
      {
        var k :| k in unseen;
        unseen := unseen - {k};
        if buckets[k].lastCheck < cutoff {
          buckets := buckets - {k};
        }
      }
    }
  }
}
