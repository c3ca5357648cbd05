/** When the limiter cleans up, and which buckets that takes, told from the clock readings alone. */
module RateLimitCleanup {
  import opened RateLimit
  import opened RateLimitLaws
  import opened RateLimitWindows

  /** When the limiter last cleaned up: at its creation, or in a call that came an interval or more later. */
  function LastCleanup(p: Params, t0: real, trace: seq<Call>): real {
    if trace == [] then t0
    else
      var n := |trace| - 1;
      var before := LastCleanup(p, t0, trace[..n]);
      if trace[n].at.sinceCleanup >= before + p.cleanupInterval then trace[n].at.cleanupStamp else before
  }

  /** Call `i` cleans up. */
  predicate CleansUp(p: Params, t0: real, trace: seq<Call>, i: nat)
    requires i < |trace|
  {
    trace[i].at.sinceCleanup >= LastCleanup(p, t0, trace[..i]) + p.cleanupInterval
  }

  /**
   The bucket that call `j` was the last to use outlives call `i`: its key is not reset,
   and if the call cleans up, the bucket was used within the last two intervals.
   */
  predicate Survives(p: Params, t0: real, trace: seq<Call>, j: nat, i: nat)
    requires j < i < |trace|
  {
    && trace[j].key !in trace[i].resets
    && (CleansUp(p, t0, trace, i) ==> trace[j].at.stamp + 2.0 * p.cleanupInterval >= trace[i].at.cutoffNow)
  }

  /** Call `j` is the last of `key` so far, and its bucket outlived every call since. */
  ghost predicate Alive(p: Params, t0: real, trace: seq<Call>, key: string, j: nat) {
    && j < |trace| && trace[j].key == key
    && forall i :: j < i < |trace| ==> trace[i].key != key && Survives(p, t0, trace, j, i)
  }

  lemma {:induction false} CleanupIsLast(p: Params, t0: real, trace: seq<Call>)
    ensures Run(p, t0, trace).lastCleanup == LastCleanup(p, t0, trace)
  {
    if trace != [] {
      CleanupIsLast(p, t0, trace[..|trace| - 1]);
    }
  }

  /** A call of another key finds a bucket exactly if the last call to use it is alive and survived. */
  lemma AliveSnoc(p: Params, t0: real, trace: seq<Call>, key: string, j: nat)
    requires trace != []
    ensures var n := |trace| - 1;
            Alive(p, t0, trace, key, j) <==>
              if trace[n].key == key then j == n
              else j < n && Alive(p, t0, trace[..n], key, j) && Survives(p, t0, trace, j, n)
  {
    var n := |trace| - 1;
    forall i | j < i < n
      ensures trace[..n][i] == trace[i] && (Survives(p, t0, trace, j, i) <==> Survives(p, t0, trace[..n], j, i))
    {
      assert trace[..n][..i] == trace[..i];
    }
  }

  /** What a call finds of a bucket that was there. */
  lemma FoundIfSurvives(p: Params, t0: real, trace: seq<Call>, key: string, j: nat)
    requires trace != [] && j < |trace| - 1 && trace[j].key == key
    requires var m := Run(p, t0, trace[..|trace| - 1]).buckets; key in m && m[key].lastCheck == trace[j].at.stamp
    ensures var n := |trace| - 1;
            var s := Run(p, t0, trace[..n]);
            && (key in Found(p, s, trace[n]) <==> Survives(p, t0, trace, j, n))
            && (key in Found(p, s, trace[n]) ==> Found(p, s, trace[n])[key] == s.buckets[key])
  {
    CleanupIsLast(p, t0, trace[..|trace| - 1]);
  }

  /** The limiter holds a bucket for exactly the keys whose last call is alive, last used by that call. */
  lemma {:induction false} BucketIffAlive(p: Params, t0: real, trace: seq<Call>, key: string)
    ensures var m := Run(p, t0, trace).buckets;
            && (key in m <==> exists j: nat :: Alive(p, t0, trace, key, j))
            && (forall j: nat :: Alive(p, t0, trace, key, j) ==> key in m && m[key].lastCheck == trace[j].at.stamp)
  {
    if trace != [] {
      var n := |trace| - 1;
      BucketIffAlive(p, t0, trace[..n], key);
      forall j: nat
        ensures Alive(p, t0, trace, key, j) <==>
                  if trace[n].key == key then j == n
                  else j < n && Alive(p, t0, trace[..n], key, j) && Survives(p, t0, trace, j, n)
      {
        AliveSnoc(p, t0, trace, key, j);
      }
      if trace[n].key == key {
        assert Alive(p, t0, trace, key, n);
      } else if key in Run(p, t0, trace[..n]).buckets {
        var j: nat :| Alive(p, t0, trace[..n], key, j);
        FoundIfSurvives(p, t0, trace, key, j);
        assert Alive(p, t0, trace, key, j) <==> Survives(p, t0, trace, j, n);
      }
    }
  }

  /**
   A call creates its bucket if and only if its key never called before, or the bucket of
   the key's last call was reset or taken by a cleanup since: a cleanup happens in each call
   that starts an interval or more after the last one, and takes the buckets not used for
   more than two intervals.
   */
  lemma CreatesIffLost(p: Params, t0: real, trace: seq<Call>, n: nat)
    requires n < |trace|
    ensures Creates(p, t0, trace, n) <==>
              !exists j: nat :: j < n && Alive(p, t0, trace[..n], trace[n].key, j) && Survives(p, t0, trace, j, n)
  {
    var key, upTo := trace[n].key, trace[..n + 1];
    assert upTo[..n] == trace[..n];
    BucketIffAlive(p, t0, trace[..n], key);
    if key in Run(p, t0, trace[..n]).buckets {
      var j: nat :| Alive(p, t0, trace[..n], key, j);
      FoundIfSurvives(p, t0, upTo, key, j);
      assert Survives(p, t0, upTo, j, n) <==> Survives(p, t0, trace, j, n);
      OnlyOneAlive(p, t0, trace[..n], key, j);
    }
  }

  lemma OnlyOneAlive(p: Params, t0: real, trace: seq<Call>, key: string, j: nat)
    requires Alive(p, t0, trace, key, j)
    ensures forall k: nat :: Alive(p, t0, trace, key, k) ==> k == j
  {
  }
}
