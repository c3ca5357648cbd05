/** For exactly which configurations the limiter keeps its rate, hides its evictions and keeps keys apart. */
module RateLimitIff {
  import opened RateLimit
  import opened RateLimitLaws
  import opened RateLimitWindows

  /** Forgetting idle buckets changes no answer on any trace. */
  ghost predicate EvictionInvisible(p: Params) {
    forall t0, trace :: InOrder(t0, trace) ==> Decisions(p, t0, trace) == PlainDecisions(p, trace)
  }

  /** Every key stays within the rate on every trace. */
  ghost predicate RateEnforced(p: Params) {
    forall t0, trace, key :: InOrder(t0, trace) ==> WithinRate(p, trace, Decisions(p, t0, trace), key)
  }

  /** A key calls `n` times at once, waits `gap`, and calls `n` times again. */
  function TwoBatches(n: nat, gap: real): (r: seq<Call>)
    ensures |r| == 2 * n
    ensures forall i :: 0 <= i < |r| ==> r[i] == Call("k", Instant(if i < n then 0.0 else gap), {})
  {
    seq(2 * n, i => Call("k", Instant(if i < n then 0.0 else gap), {}))
  }

  /** The evicting limiter after `m` of these calls, if it allowed all of them. */
  function BatchState(p: Params, gap: real, m: nat): State
    requires m <= 2 * p.burst
  {
    if m == 0 then State(map[], 0.0)
    else if m <= p.burst then State(map["k" := BucketState((p.burst - m) as real, 0.0)], 0.0)
    else State(map["k" := BucketState((2 * p.burst - m) as real, gap)], gap)
  }

  lemma BatchStep(p: Params, gap: real, m: nat)
    requires p.burst >= 1 && p.cleanupInterval > 0.0 && gap > 2.0 * p.cleanupInterval && m < 2 * p.burst
    ensures CallStep(p, BatchState(p, gap, m), TwoBatches(p.burst, gap)[m]) == (BatchState(p, gap, m + 1), true)
  {
    assert Refill(p, 0.0 - 0.0) == 0.0 && Refill(p, gap - gap) == 0.0;
    var r := Instant(if m < p.burst then 0.0 else gap);
    var s := BatchState(p, gap, m);
    if m == 0 {
    } else if m == p.burst {
      assert Cleaned(p, s, r) == State(map[], gap);
    } else {
      assert Cleaned(p, s, r) == s;
      assert Available(p, s.buckets["k"], r.refillNow) == s.buckets["k"].tokens;
      assert AllowStep(p, s, "k", r).0.buckets == BatchState(p, gap, m + 1).buckets;
    }
    assert Forget(s, {}) == s;
  }

  /** The evicting limiter allows both batches whole. */
  lemma {:induction false} BothBatchesAllowed(p: Params, gap: real, m: nat)
    requires p.burst >= 1 && p.cleanupInterval > 0.0 && gap > 2.0 * p.cleanupInterval && m <= 2 * p.burst
    ensures Run(p, 0.0, TwoBatches(p.burst, gap)[..m]) == BatchState(p, gap, m)
    ensures forall i :: 0 <= i < m ==> Decisions(p, 0.0, TwoBatches(p.burst, gap)[..m])[i]
  {
    if m > 0 {
      var trace := TwoBatches(p.burst, gap)[..m];
      BothBatchesAllowed(p, gap, m - 1);
      BatchStep(p, gap, m - 1);
      assert trace[..m - 1] == TwoBatches(p.burst, gap)[..m - 1];
    }
  }

  lemma {:induction false} AllAdmitted(trace: seq<Call>, ds: seq<bool>, key: string, j: nat)
    requires j <= |trace| == |ds|
    requires forall i :: 0 <= i < j ==> trace[i].key == key && ds[i]
    ensures Admitted(trace, ds, key, 0, j) == j
  {
    if j > 0 {
      AllAdmitted(trace, ds, key, j - 1);
    }
  }

  /** A wait after which a bucket is forgotten although it has not refilled. */
  lemma UnsoundGap(p: Params) returns (gap: real)
    requires p.burst >= 1 && p.cleanupInterval > 0.0 && !Sound(p)
    ensures 2.0 * p.cleanupInterval < gap < 3.0 * p.cleanupInterval && Refill(p, gap) < p.burst as real
  {
    var idle := 2.0 * p.cleanupInterval;
    var slack := p.cleanupInterval / 2.0;
    if p.rate <= 0.0 {
      RefillLoses(p, idle + slack);
    } else {
      var most := (p.burst as real - Refill(p, idle)) / 2.0 / p.rate;
      assert Refill(p, most) == (p.burst as real - Refill(p, idle)) / 2.0;
      if most < slack {
        slack := most;
      } else {
        RefillAdds(p, slack, most - slack);
        RefillGains(p, most - slack);
      }
      RefillAdds(p, idle, slack);
    }
    gap := idle + slack;
  }

  lemma TwoBatchesInOrder(p: Params, gap: real)
    requires p.burst >= 1 && gap >= 0.0
    ensures InOrder(0.0, TwoBatches(p.burst, gap)) && Instants(TwoBatches(p.burst, gap))
  {
  }

  lemma TooManyAdmitted(p: Params, gap: real, ds: seq<bool>)
    requires p.burst >= 1 && Refill(p, gap) < p.burst as real && |ds| == 2 * p.burst
    requires forall i :: 0 <= i < |ds| ==> ds[i]
    ensures !AdmitsWithin(p, TwoBatches(p.burst, gap), ds, "k", 0, |ds| - 1)
    ensures !FitsEveryWindow(p, TwoBatches(p.burst, gap), ds, |ds| - 1)
  {
    var trace, n := TwoBatches(p.burst, gap), |ds|;
    AllAdmitted(trace, ds, "k", n);
    AllAdmitted(trace, ds, "k", n - 1);
    assert Kept(trace, "k", 0, n - 1);
    assert trace[n - 1].at == Instant(gap) && trace[0].at == Instant(0.0);
    assert gap - 0.0 == gap;
    FitsInstants(p, trace, ds, 0, n - 1);
  }

  lemma TwoBatchesBreak(p: Params)
    requires p.burst >= 1 && p.cleanupInterval > 0.0 && !Sound(p)
    ensures !RateEnforced(p) && !EvictionInvisible(p)
  {
    var gap := UnsoundGap(p);
    var trace := TwoBatches(p.burst, gap);
    TwoBatchesInOrder(p, gap);
    TwoBatchesAnswers(p, gap);
  }

  lemma TwoBatchesAnswers(p: Params, gap: real)
    requires p.burst >= 1 && p.cleanupInterval > 0.0 && gap > 2.0 * p.cleanupInterval
             && Refill(p, gap) < p.burst as real
    ensures !WithinRate(p, TwoBatches(p.burst, gap), Decisions(p, 0.0, TwoBatches(p.burst, gap)), "k")
    ensures Decisions(p, 0.0, TwoBatches(p.burst, gap)) != PlainDecisions(p, TwoBatches(p.burst, gap))
  {
    var trace := TwoBatches(p.burst, gap);
    BothBatchesAllowed(p, gap, |trace|);
    assert trace[..|trace|] == trace;
    TooManyAdmitted(p, gap, Decisions(p, 0.0, trace));
    PlainRefusesOne(p, gap);
  }

  lemma PlainRefusesOne(p: Params, gap: real)
    requires p.burst >= 1 && gap >= 0.0 && Refill(p, gap) < p.burst as real
    ensures exists i :: 0 <= i < 2 * p.burst && !PlainDecisions(p, TwoBatches(p.burst, gap))[i]
  {
    var trace := TwoBatches(p.burst, gap);
    var ds := PlainDecisions(p, trace);
    if forall i :: 0 <= i < |ds| ==> ds[i] {
      TooManyAdmitted(p, gap, ds);
      TwoBatchesInOrder(p, gap);
      PlainDecisionIsWindowTest(p, trace, |trace| - 1);
      assert false;
    }
  }

  /** With a burst below one, a bucket can only be used by forgetting it. */
  lemma NoBurstBreaks(p: Params)
    requires p.burst < 1 && p.cleanupInterval > 0.0
    ensures !RateEnforced(p) && !EvictionInvisible(p)
  {
    var gap := 2.0 * p.cleanupInterval + 1.0;
    var one, two := Call("k", Instant(0.0), {}), Call("k", Instant(gap), {});
    var first, trace := [one], [one, two];
    assert first[..0] == [] && trace[..1] == first;
    assert InOrder(0.0, first) && InOrder(0.0, trace);
    assert Decisions(p, 0.0, first) == [true] && Decisions(p, 0.0, trace)[1];
    assert !PlainDecisions(p, trace)[1];
    assert Refill(p, 0.0) == 0.0;
    assert Admitted(first, [true], "k", 0, 1) == 1;
    assert Kept(first, "k", 0, 0) && !AdmitsWithin(p, first, [true], "k", 0, 0);
    assert !WithinRate(p, first, Decisions(p, 0.0, first), "k");
  }

  /**
   Forgetting idle buckets is invisible if and only if a bucket idle for twice the cleanup
   interval would have refilled (and buckets hold at least one token).
   */
  lemma EvictionInvisibleIff(p: Params)
    requires p.cleanupInterval > 0.0
    ensures EvictionInvisible(p) <==> Sound(p)
  {
    if Sound(p) {
      forall t0, trace | InOrder(t0, trace)
        ensures Decisions(p, t0, trace) == PlainDecisions(p, trace)
      {
        TraceSimulates(p, t0, trace);
      }
    } else if p.burst >= 1 {
      TwoBatchesBreak(p);
    } else {
      NoBurstBreaks(p);
    }
  }

  /**
   The limiter enforces its rate, in every window and with the clock read as the code
   reads it, if and only if the same condition holds.
   */
  lemma RateEnforcedIff(p: Params)
    requires p.cleanupInterval > 0.0
    ensures RateEnforced(p) <==> Sound(p)
  {
    if Sound(p) {
      RateIsPositive(p);
      forall t0, trace, key | InOrder(t0, trace)
        ensures WithinRate(p, trace, Decisions(p, t0, trace), key)
      {
        TraceSimulates(p, t0, trace);
        PlainWithinRate(p, t0, trace, key);
      }
    } else if p.burst >= 1 {
      TwoBatchesBreak(p);
    } else {
      NoBurstBreaks(p);
    }
  }

  // ----- keys are kept apart ------------------------------------------------------------------

  /** Whether `key` was reset after its last call. */
  function Pending(trace: seq<Call>, key: string): bool {
    if trace == [] then false
    else var n := |trace| - 1; trace[n].key != key && (key in trace[n].resets || Pending(trace[..n], key))
  }

  /** The calls of one key alone, with its own resets between them. */
  function Own(trace: seq<Call>, key: string): seq<Call> {
    if trace == [] then []
    else
      var n := |trace| - 1;
      var own := Own(trace[..n], key);
      if trace[n].key != key then own
      else own + [trace[n].(resets := if key in trace[n].resets || Pending(trace[..n], key) then {key} else {})]
  }

  function Last<T>(s: seq<T>): T
    requires s != []
  {
    s[|s| - 1]
  }

  /** The answer to each call is the one its key would get if no other key ever called. */
  ghost predicate KeyIndependent(p: Params) {
    forall t0, trace :: AnswersAlone(p, t0, trace)
  }

  /** The last call of an orderly trace is answered as its key's own calls would be. */
  ghost predicate AnswersAlone(p: Params, t0: real, trace: seq<Call>) {
    InOrder(t0, trace) && trace != [] ==>
      Last(Decisions(p, t0, trace)) == Last(Decisions(p, t0, Own(trace, Last(trace).key)))
  }

  lemma {:induction false} OwnInOrder(t0: real, trace: seq<Call>, key: string)
    requires InOrder(t0, trace)
    ensures InOrder(t0, Own(trace, key))
    ensures forall i :: 0 <= i < |Own(trace, key)| ==>
              exists j :: 0 <= j < |trace| && trace[j].at == Own(trace, key)[i].at
  {
    if trace != [] {
      var n := |trace| - 1;
      var before, own := Own(trace[..n], key), Own(trace, key);
      OwnInOrder(t0, trace[..n], key);
      forall i | 0 <= i < |own|
        ensures exists j :: 0 <= j < |trace| && trace[j].at == own[i].at
      {
        if i < |before| {
          var j :| 0 <= j < n && trace[..n][j].at == before[i].at;
          assert trace[j].at == own[i].at;
        }
      }
      forall i, j | 0 <= i < j < |own|
        ensures own[i].at.stamp <= own[j].at.sinceCleanup
      {
        if j == |before| {
          var k :| 0 <= k < n && trace[..n][k].at == before[i].at;
          assert trace[k].at.stamp <= trace[n].at.sinceCleanup;
        }
      }
    }
  }

  /** Without eviction, a key's bucket depends on the key's own calls and resets alone. */
  lemma {:induction false} PlainOwn(p: Params, trace: seq<Call>, key: string)
    ensures var m, own := PlainRun(p, trace), PlainRun(p, Own(trace, key));
            && (key in m <==> key in own && !Pending(trace, key))
            && (key in m ==> m[key] == own[key])
  {
    if trace != [] {
      var n := |trace| - 1;
      PlainOwn(p, trace[..n], key);
      if trace[n].key == key {
        assert Own(trace, key)[..|Own(trace[..n], key)|] == Own(trace[..n], key);
      }
    }
  }

  lemma PlainAnswersAlone(p: Params, trace: seq<Call>)
    requires trace != []
    ensures Last(PlainDecisions(p, trace)) == Last(PlainDecisions(p, Own(trace, Last(trace).key)))
  {
    var n, key := |trace| - 1, Last(trace).key;
    PlainOwn(p, trace[..n], key);
    assert Own(trace, key)[..|Own(trace[..n], key)|] == Own(trace[..n], key);
  }

  /** `k` spends a batch, another key calls at `middle`, and `k` spends a batch again at `gap`. */
  function Interrupted(n: nat, middle: real, gap: real): (r: seq<Call>)
    ensures |r| == 2 * n + 1
    ensures forall i :: 0 <= i < |r| ==>
              r[i] == Call(if i == n then "o" else "k",
                           Instant(if i < n then 0.0 else if i == n then middle else gap), {})
  {
    seq(2 * n + 1, i => Call(if i == n then "o" else "k",
                             Instant(if i < n then 0.0 else if i == n then middle else gap), {}))
  }

  lemma InterruptedInOrder(n: nat, middle: real, gap: real)
    requires 0.0 <= middle <= gap
    ensures InOrder(0.0, Interrupted(n, middle, gap)) && Instants(Interrupted(n, middle, gap))
  {
  }

  lemma {:induction false} OwnInterrupted(n: nat, middle: real, gap: real, m: nat)
    requires m <= 2 * n + 1
    ensures !Pending(Interrupted(n, middle, gap)[..m], "k")
    ensures Own(Interrupted(n, middle, gap)[..m], "k") == TwoBatches(n, gap)[..if m <= n then m else m - 1]
  {
    if m > 0 {
      var trace := Interrupted(n, middle, gap)[..m];
      OwnInterrupted(n, middle, gap, m - 1);
      assert trace[..m - 1] == Interrupted(n, middle, gap)[..m - 1];
      if m != n + 1 {
        var k := if m <= n then m - 1 else m - 2;
        assert TwoBatches(n, gap)[..k + 1] == TwoBatches(n, gap)[..k] + [TwoBatches(n, gap)[k]];
      }
    }
  }

  /** The other key's call cleans up while `k` is not yet old enough, so none of `k`'s later calls does. */
  ghost predicate NothingEvicted(p: Params, s: State, n: nat, m: nat) {
    && (m >= 1 ==> "k" in s.buckets)
    && (forall k :: k in s.buckets ==> s.buckets[k].lastCheck >= 0.0)
    && s.lastCleanup == if m <= n then 0.0 else 2.0 * p.cleanupInterval
  }

  lemma {:induction false} InterruptedKeepsBucket(p: Params, n: nat, gap: real, m: nat)
    requires p.cleanupInterval > 0.0 && 2.0 * p.cleanupInterval < gap < 3.0 * p.cleanupInterval
             && 1 <= n && m <= 2 * n + 1
    ensures NothingEvicted(p, Run(p, 0.0, Interrupted(n, 2.0 * p.cleanupInterval, gap)[..m]), n, m)
  {
    if m > 0 {
      var trace := Interrupted(n, 2.0 * p.cleanupInterval, gap);
      InterruptedKeepsBucket(p, n, gap, m - 1);
      assert trace[..m][..m - 1] == trace[..m - 1];
      InterruptedStep(p, n, gap, m - 1, Run(p, 0.0, trace[..m - 1]));
    }
  }

  lemma InterruptedStep(p: Params, n: nat, gap: real, m: nat, s: State)
    requires p.cleanupInterval > 0.0 && 2.0 * p.cleanupInterval < gap < 3.0 * p.cleanupInterval
             && 1 <= n && m < 2 * n + 1
    requires NothingEvicted(p, s, n, m)
    ensures var c := Interrupted(n, 2.0 * p.cleanupInterval, gap)[m];
            Found(p, s, c) == s.buckets && NothingEvicted(p, CallStep(p, s, c).0, n, m + 1)
  {
    var c := Interrupted(n, 2.0 * p.cleanupInterval, gap)[m];
    assert Forget(s, c.resets) == s;
    assert Found(p, s, c) == s.buckets;
  }

  lemma InterruptedCreatesOnce(p: Params, n: nat, gap: real, i: nat)
    requires p.cleanupInterval > 0.0 && 2.0 * p.cleanupInterval < gap < 3.0 * p.cleanupInterval
             && 1 <= i <= 2 * n && i != n
    ensures !Creates(p, 0.0, Interrupted(n, 2.0 * p.cleanupInterval, gap), i)
  {
    var trace := Interrupted(n, 2.0 * p.cleanupInterval, gap);
    InterruptedKeepsBucket(p, n, gap, i);
    InterruptedStep(p, n, gap, i, Run(p, 0.0, trace[..i]));
  }

  lemma {:induction false} InterruptedAdmitted(n: nat, middle: real, gap: real, ds: seq<bool>, m: nat)
    requires m <= 2 * n + 1 == |ds| && forall i :: 0 <= i < m && i != n ==> ds[i]
    ensures Admitted(Interrupted(n, middle, gap), ds, "k", 0, m) == if m <= n then m else m - 1
  {
    if m > 0 {
      InterruptedAdmitted(n, middle, gap, ds, m - 1);
    }
  }

  lemma LastAnswer(p: Params, t0: real, trace: seq<Call>, i: nat)
    requires i < |trace|
    ensures Last(Decisions(p, t0, trace[..i + 1])) == Decisions(p, t0, trace)[i]
  {
    DecisionAt(p, t0, trace, i);
    assert trace[..i + 1][..i] == trace[..i];
  }

  lemma AnswerAlone(p: Params, trace: seq<Call>, i: nat, own: seq<Call>)
    requires KeyIndependent(p) && i < |trace| && InOrder(0.0, trace) && Own(trace[..i + 1], trace[i].key) == own
    ensures own != [] && Decisions(p, 0.0, trace)[i] == Last(Decisions(p, 0.0, own))
  {
    LastAnswer(p, 0.0, trace, i);
    assert InOrder(0.0, trace[..i + 1]);
    assert AnswersAlone(p, 0.0, trace[..i + 1]);
  }

  /** If keys are independent, each call of `k` in the interrupted batches is answered as without the interruption. */
  lemma InterruptedAnswers(p: Params, n: nat, middle: real, gap: real, i: nat)
    requires KeyIndependent(p) && 0.0 <= middle <= gap && i <= 2 * n && i != n
    ensures var alone := TwoBatches(n, gap)[..if i < n then i + 1 else i];
            Decisions(p, 0.0, Interrupted(n, middle, gap))[i] == Last(Decisions(p, 0.0, alone))
  {
    InterruptedInOrder(n, middle, gap);
    OwnInterrupted(n, middle, gap, i + 1);
    AnswerAlone(p, Interrupted(n, middle, gap), i, TwoBatches(n, gap)[..if i < n then i + 1 else i]);
  }

  /** Both batches are allowed whole, whatever the answer to the call between them. */
  ghost predicate BatchesAllowed(ds: seq<bool>, n: nat) {
    forall i :: 0 <= i < |ds| && i != n ==> ds[i]
  }

  lemma InterruptedWindowIsFull(p: Params, gap: real, ds: seq<bool>)
    requires p.burst >= 1 && Refill(p, gap) < p.burst as real && |ds| == 2 * p.burst + 1 && BatchesAllowed(ds, p.burst)
    ensures !FitsWindow(p, Interrupted(p.burst, 2.0 * p.cleanupInterval, gap), ds, 0, 2 * p.burst)
  {
    InterruptedAdmitted(p.burst, 2.0 * p.cleanupInterval, gap, ds, 2 * p.burst);
    FitsInstants(p, Interrupted(p.burst, 2.0 * p.cleanupInterval, gap), ds, 0, 2 * p.burst);
    assert gap - 0.0 == gap;
  }

  lemma InterruptedRefuses(p: Params, gap: real)
    requires p.burst >= 1 && p.cleanupInterval > 0.0 && Refill(p, gap) < p.burst as real
    requires 2.0 * p.cleanupInterval < gap < 3.0 * p.cleanupInterval
    ensures !BatchesAllowed(Decisions(p, 0.0, Interrupted(p.burst, 2.0 * p.cleanupInterval, gap)), p.burst)
  {
    var n, trace := p.burst, Interrupted(p.burst, 2.0 * p.cleanupInterval, gap);
    InterruptedInOrder(n, 2.0 * p.cleanupInterval, gap);
    forall i | 0 < i <= 2 * n && trace[i].key == "k"
      ensures !Creates(p, 0.0, trace, i)
    {
      InterruptedCreatesOnce(p, n, gap, i);
    }
    DecisionIsWindowTest(p, 0.0, trace, 2 * n);
    assert SameBucket(p, 0.0, trace, 0, 2 * n);
    if BatchesAllowed(Decisions(p, 0.0, trace), n) {
      InterruptedWindowIsFull(p, gap, Decisions(p, 0.0, trace));
    }
  }

  lemma InterruptionShows(p: Params)
    requires p.burst >= 1 && p.cleanupInterval > 0.0 && !Sound(p)
    ensures !KeyIndependent(p)
  {
    var gap := UnsoundGap(p);
    var n, middle := p.burst, 2.0 * p.cleanupInterval;
    InterruptedRefuses(p, gap);
    var i :| 0 <= i <= 2 * n && i != n && !Decisions(p, 0.0, Interrupted(n, middle, gap))[i];
    BothBatchesAllowed(p, gap, if i < n then i + 1 else i);
    if KeyIndependent(p) {
      InterruptedAnswers(p, n, middle, gap, i);
    }
  }

  /** With a burst below one, a key alone gets in again by being forgotten. */
  lemma AloneGetsInAgain(p: Params, gap: real)
    requires p.burst < 1 && p.cleanupInterval > 0.0 && gap > 2.0 * p.cleanupInterval
    ensures Last(Decisions(p, 0.0, TwoBatches(1, gap)))
  {
    var one, alone := [Call("k", Instant(0.0), {})], TwoBatches(1, gap);
    assert alone[..1] == one && one[..0] == [];
    assert Run(p, 0.0, one) == State(map["k" := BucketState(p.burst as real - 1.0, 0.0)], 0.0);
    assert Creates(p, 0.0, alone, 1);
    NoBurstDecision(p, 0.0, alone, 1);
  }

  /** With a burst below one, another key's call can delay the eviction that lets a key in again. */
  lemma InterruptionShowsNoBurst(p: Params)
    requires p.burst < 1 && p.cleanupInterval > 0.0
    ensures !KeyIndependent(p)
  {
    var gap, middle := 2.5 * p.cleanupInterval, 2.0 * p.cleanupInterval;
    var alone := TwoBatches(1, gap);
    assert alone[..2] == alone;
    AloneGetsInAgain(p, gap);
    InterruptedCreatesOnce(p, 1, gap, 2);
    NoBurstDecision(p, 0.0, Interrupted(1, middle, gap), 2);
    if KeyIndependent(p) {
      InterruptedAnswers(p, 1, middle, gap, 2);
    }
  }

  lemma SoundAnswersAlone(p: Params, t0: real, trace: seq<Call>)
    requires Sound(p) && p.cleanupInterval > 0.0 && InOrder(t0, trace) && trace != []
    ensures AnswersAlone(p, t0, trace)
  {
    OwnInOrder(t0, trace, Last(trace).key);
    TraceSimulates(p, t0, trace);
    TraceSimulates(p, t0, Own(trace, Last(trace).key));
    PlainAnswersAlone(p, trace);
  }

  /**
   The answers to each key are independent of the traffic on all others if and only if a
   bucket refills before it can be evicted (and holds at least one token).
   */
  lemma KeyIndependentIff(p: Params)
    requires p.cleanupInterval > 0.0
    ensures KeyIndependent(p) <==> Sound(p)
  {
    if Sound(p) {
      forall t0, trace
        ensures AnswersAlone(p, t0, trace)
      {
        if InOrder(t0, trace) && trace != [] {
          SoundAnswersAlone(p, t0, trace);
        }
      }
    } else if p.burst >= 1 {
      InterruptionShows(p);
    } else {
      InterruptionShowsNoBurst(p);
    }
  }
}
