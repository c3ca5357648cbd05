/**
 What a decision of the limiter means, for every configuration, and how many requests any
 window admits.
 */
module RateLimitWindows {
  import opened RateLimit
  import opened RateLimitLaws

  // ----- the exact meaning of a decision --------------------------------------------------

  /** What a window of the given length may admit: a burst and the refill. */
  function Allowance(p: Params, length: real): real {
    p.burst as real + Refill(p, length)
  }

  /** So many requests in a window of the given length are no more than the burst and the rate allow. */
  predicate Allowed(p: Params, requests: nat, length: real) {
    requests as real <= p.burst as real + length * p.rate
  }

  lemma AllowedIff(p: Params, requests: nat, length: real)
    ensures Allowed(p, requests, length) <==> requests as real <= Allowance(p, length)
  {
  }

  /** Each call reads the clock once. */
  ghost predicate Instants(trace: seq<Call>) {
    forall i :: 0 <= i < |trace| ==> trace[i].at == Instant(trace[i].at.stamp)
  }

  /**
   The time that counts from call `j` of the key up to `t`, in the calls `..n`: the time
   between the two last readings of a call of the key is skipped.
   */
  function Idle(trace: seq<Call>, key: string, j: nat, n: nat, t: real): real
    requires n <= |trace|
    decreases n
  {
    if n <= j then 0.0
    else if n == j + 1 then t - trace[j].at.stamp
    else if trace[n - 1].key == key then
      Idle(trace, key, j, n - 1, trace[n - 1].at.refillNow) + (t - trace[n - 1].at.stamp)
    else Idle(trace, key, j, n - 1, t)
  }

  /** Idle time depends on the keys and the readings of the calls so far only. */
  lemma {:induction false} IdleAgrees(trace: seq<Call>, other: seq<Call>, key: string, j: nat, n: nat, t: real)
    requires n <= |trace| && n <= |other|
    requires forall i :: 0 <= i < n ==> trace[i].key == other[i].key && trace[i].at == other[i].at
    ensures Idle(trace, key, j, n, t) == Idle(other, key, j, n, t)
    decreases n
  {
    if n > j + 1 {
      IdleAgrees(trace, other, key, j, n - 1, if trace[n - 1].key == key then trace[n - 1].at.refillNow else t);
    }
  }

  /** With one reading per call nothing is skipped. */
  lemma {:induction false} IdleIsElapsed(trace: seq<Call>, key: string, j: nat, n: nat, t: real)
    requires Instants(trace) && j < n <= |trace|
    ensures Idle(trace, key, j, n, t) == t - trace[j].at.stamp
    decreases n
  {
    if n > j + 1 {
      IdleIsElapsed(trace, key, j, n - 1, if trace[n - 1].key == key then trace[n - 1].at.refillNow else t);
    }
  }

  /** The most that the requests from call `j` on leave for time `t`. */
  function Room(p: Params, trace: seq<Call>, ds: seq<bool>, key: string, j: nat, n: nat, t: real): real
    requires j <= n <= |trace| == |ds| && j < |trace|
  {
    Allowance(p, Idle(trace, key, j, n, t)) - Admitted(trace, ds, key, j, n) as real
  }

  /** No call of `trace[j + 1..n + 1]` found `key` reset. */
  ghost predicate Kept(trace: seq<Call>, key: string, j: int, n: int)
    requires n < |trace|
  {
    forall i :: 0 <= j < i <= n ==> key !in trace[i].resets
  }

  /** Which of the calls `..n` were by `key` and left the bucket that call `last` still finds. */
  ghost function Mine(trace: seq<Call>, key: string, n: nat, last: int): (r: seq<bool>)
    requires n <= |trace| && last < |trace|
    ensures |r| == n
  {
    seq(n, j requires 0 <= j < n => trace[j].key == key && Kept(trace, key, j, last))
  }

  ghost function Rooms(p: Params, trace: seq<Call>, ds: seq<bool>, key: string, n: nat, t: real): (r: seq<real>)
    requires n <= |trace| == |ds|
    ensures |r| == n
  {
    seq(n, j requires 0 <= j < n => Room(p, trace, ds, key, j, n, t))
  }

  /** The least of `top` and of the rooms marked as `mine`. */
  ghost predicate Least(top: real, mine: seq<bool>, rooms: seq<real>, room: real)
    requires |mine| == |rooms|
  {
    && room <= top
    && (forall j :: 0 <= j < |rooms| && mine[j] ==> room <= rooms[j])
    && (room == top || exists j :: 0 <= j < |rooms| && mine[j] && room == rooms[j])
  }

  /** `room` is the least of `burst` and of the room left by every call marked as `mine`. */
  ghost predicate LeastRoom(p: Params, trace: seq<Call>, ds: seq<bool>, key: string, mine: seq<bool>, t: real,
                            room: real)
    requires |mine| <= |trace| == |ds|
  {
    Least(p.burst as real, mine, Rooms(p, trace, ds, key, |mine|, t), room)
  }

  lemma RoomLater(p: Params, trace: seq<Call>, ds: seq<bool>, key: string, j: nat, n: nat, t: real)
    requires j < n < |trace| == |ds| && trace[n].key == key
    ensures Room(p, trace, ds, key, j, n + 1, t)
         == Room(p, trace, ds, key, j, n, trace[n].at.refillNow)
            + Refill(p, t - trace[n].at.stamp) - (if ds[n] then 1.0 else 0.0)
  {
    RefillAdds(p, Idle(trace, key, j, n, trace[n].at.refillNow), t - trace[n].at.stamp);
  }

  lemma LeastMoves(top: real, mine: seq<bool>, rooms: seq<real>, room: real, change: real, rooms': seq<real>)
    requires |mine| == |rooms| && Least(top, mine, rooms, room)
    requires |rooms'| == |rooms| + 1 && rooms'[|rooms|] == top + change
    requires forall j :: 0 <= j < |rooms| ==> rooms'[j] == rooms[j] + change
    ensures Least(top, mine + [true], rooms', if room + change > top then top else room + change)
  {
    var moved := room + change;
    if room == top {
      assert moved == rooms'[|rooms|];
    } else {
      var j :| 0 <= j < |rooms| && mine[j] && room == rooms[j];
      assert moved == rooms'[j] && (mine + [true])[j];
    }
  }

  lemma RoomOfLast(p: Params, trace: seq<Call>, ds: seq<bool>, key: string, n: nat, t: real)
    requires n < |trace| == |ds| && trace[n].key == key
    ensures Room(p, trace, ds, key, n, n + 1, t)
         == p.burst as real + (Refill(p, t - trace[n].at.stamp) - (if ds[n] then 1.0 else 0.0))
  {
    assert Admitted(trace, ds, key, n, n) == 0;
  }

  function Change(p: Params, now: real, t: real, ok: bool): real {
    Refill(p, t - now) - (if ok then 1.0 else 0.0)
  }

  lemma RoomsMove(p: Params, trace: seq<Call>, ds: seq<bool>, key: string, n: nat, t: real)
    requires n < |trace| == |ds| && trace[n].key == key
    ensures var change := Change(p, trace[n].at.stamp, t, ds[n]);
            var rooms, rooms' := Rooms(p, trace, ds, key, n, trace[n].at.refillNow), Rooms(p, trace, ds, key, n + 1, t);
            rooms'[n] == p.burst as real + change && forall j :: 0 <= j < n ==> rooms'[j] == rooms[j] + change
  {
    RoomOfLast(p, trace, ds, key, n, t);
    forall j | 0 <= j < n
      ensures Rooms(p, trace, ds, key, n + 1, t)[j]
           == Rooms(p, trace, ds, key, n, trace[n].at.refillNow)[j] + Change(p, trace[n].at.stamp, t, ds[n])
    {
      RoomLater(p, trace, ds, key, j, n, t);
    }
  }

  lemma AvailableLater(p: Params, trace: seq<Call>, ds: seq<bool>, key: string, mine: seq<bool>, room: real, t: real)
    requires |mine| < |trace| == |ds| && trace[|mine|].key == key
    requires LeastRoom(p, trace, ds, key, mine, trace[|mine|].at.refillNow, room)
    ensures var now, ok := trace[|mine|].at.stamp, ds[|mine|];
            var left := BucketState(room - (if ok then 1.0 else 0.0), now);
            LeastRoom(p, trace, ds, key, mine + [true], t, Available(p, left, t))
  {
    var n := |mine|;
    RoomsMove(p, trace, ds, key, n, t);
    LeastMoves(p.burst as real, mine, Rooms(p, trace, ds, key, n, trace[n].at.refillNow), room,
               Change(p, trace[n].at.stamp, t, ds[n]), Rooms(p, trace, ds, key, n + 1, t));
  }

  lemma LeastRoomPrefix(p: Params, trace: seq<Call>, ds: seq<bool>, key: string, mine: seq<bool>, t: real, room: real,
                        more: seq<Call>, moreDs: seq<bool>)
    requires |mine| <= |trace| == |ds| && |more| == |moreDs| && trace <= more && ds <= moreDs
    requires LeastRoom(p, trace, ds, key, mine, t, room)
    ensures LeastRoom(p, more, moreDs, key, mine, t, room)
  {
    forall j | 0 <= j < |mine|
      ensures Room(p, more, moreDs, key, j, |mine|, t) == Room(p, trace, ds, key, j, |mine|, t)
    {
      AdmittedPrefix(trace, ds, more, moreDs, key, j, |mine|);
      IdleAgrees(trace, more, key, j, |mine|, t);
      assert more[j] == trace[j];
    }
    assert Rooms(p, more, moreDs, key, |mine|, t) == Rooms(p, trace, ds, key, |mine|, t);
  }

  lemma OtherCallsLeaveRoom(p: Params, trace: seq<Call>, ds: seq<bool>, key: string, mine: seq<bool>, t: real,
                            room: real)
    requires |mine| < |trace| == |ds| && trace[|mine|].key != key
    requires LeastRoom(p, trace, ds, key, mine, t, room)
    ensures LeastRoom(p, trace, ds, key, mine + [false], t, room)
  {
    var n := |mine|;
    var rooms, rooms' := Rooms(p, trace, ds, key, n, t), Rooms(p, trace, ds, key, n + 1, t);
    assert forall j :: 0 <= j < n ==> rooms'[j] == rooms[j] && (mine + [false])[j] == mine[j];
    if room != p.burst as real {
      var j :| 0 <= j < n && mine[j] && room == rooms[j];
      assert (mine + [false])[j] && room == rooms'[j];
    }
  }

  /** A call finds the calls that the one before it left, unless the key was reset. */
  lemma MineAt(trace: seq<Call>, key: string)
    requires trace != []
    ensures var n := |trace| - 1;
            var before, found := Mine(trace[..n], key, n, n - 1), Mine(trace, key, n, n);
            && Mine(trace, key, n + 1, n) == found + [trace[n].key == key]
            && (if key in trace[n].resets then forall j :: 0 <= j < n ==> !found[j] else found == before)
  {
    var n := |trace| - 1;
    var before, found := Mine(trace[..n], key, n, n - 1), Mine(trace, key, n, n);
    forall j | 0 <= j < n && key !in trace[n].resets
      ensures found[j] == before[j]
    {
      assert trace[..n][j] == trace[j];
      assert forall i :: j < i < n ==> trace[..n][i] == trace[i];
    }
  }

  lemma MineUpTo(trace: seq<Call>, key: string, n: nat)
    requires n < |trace|
    ensures Mine(trace[..n + 1], key, n, n) == Mine(trace, key, n, n)
  {
  }

  /** A key has a bucket exactly when it called and was not reset since. */
  lemma {:induction false} BucketIffMine(p: Params, trace: seq<Call>, key: string)
    ensures key in PlainRun(p, trace) <==> true in Mine(trace, key, |trace|, |trace| - 1)
  {
    if trace != [] {
      var n := |trace| - 1;
      BucketIffMine(p, trace[..n], key);
      MineAt(trace, key);
      assert true in Mine(trace, key, n + 1, n) <==> true in Mine(trace, key, n, n) || trace[n].key == key;
    }
  }

  /** A bucket's content, at any time, is the least room left by the key's calls since it was created. */
  lemma {:induction false} BucketIsLeastRoom(p: Params, trace: seq<Call>, key: string, t: real)
    requires p.burst >= 1
    ensures key in PlainRun(p, trace) ==>
              LeastRoom(p, trace, PlainDecisions(p, trace), key, Mine(trace, key, |trace|, |trace| - 1), t,
                        Available(p, PlainRun(p, trace)[key], t))
    decreases |trace|, 1
  {
    if trace != [] {
      var n := |trace| - 1;
      var ds, r := PlainDecisions(p, trace), trace[n].at;
      var m, found := PlainRun(p, trace[..n]) - trace[n].resets, Mine(trace, key, n, n);
      MineAt(trace, key);
      if trace[n].key == key {
        FoundIsLeastRoom(p, trace, key, r.refillNow);
        AvailableLater(p, trace, ds, key, found, FoundRoom(p, m, key, r.refillNow), t);
      } else if key in m {
        FoundIsLeastRoom(p, trace, key, t);
        OtherCallsLeaveRoom(p, trace, ds, key, found, t, Available(p, m[key], t));
      }
    }
  }

  /** The tokens a request of `key` has at its disposal. */
  function FoundRoom(p: Params, m: Buckets, key: string, t: real): real {
    if key in m then Available(p, m[key], t) else p.burst as real
  }

  /** What the last call of `trace` finds is the least room left by the calls it finds. */
  lemma {:induction false} FoundIsLeastRoom(p: Params, trace: seq<Call>, key: string, t: real)
    requires p.burst >= 1 && trace != []
    ensures var n := |trace| - 1;
            LeastRoom(p, trace, PlainDecisions(p, trace), key, Mine(trace, key, n, n), t,
                      FoundRoom(p, PlainRun(p, trace[..n]) - trace[n].resets, key, t))
    decreases |trace|, 0
  {
    var n := |trace| - 1;
    var before := trace[..n];
    var m := PlainRun(p, before) - trace[n].resets;
    MineAt(trace, key);
    if key in m {
      BucketIsLeastRoom(p, before, key, t);
      LeastRoomPrefix(p, before, PlainDecisions(p, before), key, Mine(before, key, n, n - 1), t,
                      Available(p, m[key], t),
                      trace, PlainDecisions(p, trace));
    } else {
      BucketIffMine(p, before, key);
    }
  }

  /** No window that ends with call `n`, and within which its key was not reset, would hold more than its allowance. */
  ghost predicate FitsEveryWindow(p: Params, trace: seq<Call>, ds: seq<bool>, n: nat)
    requires n < |trace| == |ds|
  {
    forall j :: 0 <= j <= n && trace[j].key == trace[n].key && Kept(trace, trace[n].key, j, n) ==>
      FitsWindow(p, trace, ds, j, n)
  }

  /** Counting call `n` in, the calls `j..n + 1` admit no more than the window from `j` to `n` allows. */
  ghost predicate FitsWindow(p: Params, trace: seq<Call>, ds: seq<bool>, j: nat, n: nat)
    requires j <= n < |trace| == |ds|
  {
    Allowed(p, Admitted(trace, ds, trace[n].key, j, n) + 1, Idle(trace, trace[n].key, j, n, trace[n].at.refillNow))
  }

  lemma FitsIsRoom(p: Params, trace: seq<Call>, ds: seq<bool>, n: nat, j: nat)
    requires j <= n < |trace| == |ds|
    ensures FitsWindow(p, trace, ds, j, n) <==> Room(p, trace, ds, trace[n].key, j, n, trace[n].at.refillNow) >= 1.0
  {
    AllowedIff(p, Admitted(trace, ds, trace[n].key, j, n) + 1, Idle(trace, trace[n].key, j, n, trace[n].at.refillNow));
  }

  lemma RoomIsWindowTest(p: Params, trace: seq<Call>, ds: seq<bool>, n: nat, room: real)
    requires p.burst >= 1 && n < |trace| == |ds|
    requires LeastRoom(p, trace, ds, trace[n].key, Mine(trace, trace[n].key, n, n), trace[n].at.refillNow, room)
    ensures room >= 1.0 <==> FitsEveryWindow(p, trace, ds, n)
  {
    var key, now := trace[n].key, trace[n].at.refillNow;
    var mine, rooms := Mine(trace, key, n, n), Rooms(p, trace, ds, key, n, now);
    forall j | 0 <= j <= n
      ensures FitsWindow(p, trace, ds, j, n) <==> (if j < n then rooms[j] else p.burst as real) >= 1.0
    {
      FitsIsRoom(p, trace, ds, n, j);
    }
    assert forall j :: 0 <= j < n ==> (mine[j] <==> trace[j].key == key && Kept(trace, key, j, n));
    if room != p.burst as real {
      var j :| 0 <= j < n && mine[j] && room == rooms[j];
      assert FitsWindow(p, trace, ds, j, n) <==> room >= 1.0;
    }
  }

  /** What call `n` finds is the least room left by the calls it finds. */
  lemma RoomFoundAt(p: Params, trace: seq<Call>, n: nat)
    requires p.burst >= 1 && n < |trace|
    ensures var key, now := trace[n].key, trace[n].at.refillNow;
            LeastRoom(p, trace, PlainDecisions(p, trace), key, Mine(trace, key, n, n), now,
                      FoundRoom(p, PlainRun(p, trace[..n]) - trace[n].resets, key, now))
  {
    var key, now, upTo := trace[n].key, trace[n].at.refillNow, trace[..n + 1];
    var room := FoundRoom(p, PlainRun(p, trace[..n]) - trace[n].resets, key, now);
    assert upTo[..n] == trace[..n];
    FoundIsLeastRoom(p, upTo, key, now);
    PlainDecisionsPrefix(p, trace, n + 1);
    LeastRoomPrefix(p, upTo, PlainDecisions(p, upTo), key, Mine(upTo, key, n, n), now, room, trace,
                    PlainDecisions(p, trace));
    MineUpTo(trace, key, n);
  }

  /** Without eviction, a request is allowed if and only if it fits every window since its key was last reset. */
  lemma PlainDecisionIsWindowTest(p: Params, trace: seq<Call>, n: nat)
    requires p.burst >= 1 && n < |trace|
    ensures PlainDecisions(p, trace)[n] <==> FitsEveryWindow(p, trace, PlainDecisions(p, trace), n)
  {
    RoomFoundAt(p, trace, n);
    PlainDecisionAt(p, trace, n);
    RoomIsWindowTest(p, trace, PlainDecisions(p, trace), n,
                     FoundRoom(p, PlainRun(p, trace[..n]) - trace[n].resets, trace[n].key, trace[n].at.refillNow));
  }

  // ----- the bucket a call finds is the one its key's last creating call made -----------------

  /** Call `i` finds no bucket of its key and creates one. */
  ghost predicate Creates(p: Params, t0: real, trace: seq<Call>, i: nat)
    requires i < |trace|
  {
    trace[i].key !in Found(p, Run(p, t0, trace[..i]), trace[i])
  }

  /** Call `n` uses the bucket that call `j` of the same key used: none in between created another. */
  ghost predicate SameBucket(p: Params, t0: real, trace: seq<Call>, j: nat, n: nat)
    requires j <= n < |trace|
  {
    trace[j].key == trace[n].key
    && forall i :: j < i <= n && trace[i].key == trace[n].key ==> !Creates(p, t0, trace, i)
  }

  lemma PlainCreatesIff(p: Params, trace: seq<Call>, key: string, i: nat)
    requires i < |trace|
    ensures key in PlainRun(p, trace[..i]) - trace[i].resets
       <==> exists j :: 0 <= j < i && trace[j].key == key && Kept(trace, key, j, i)
  {
    var upTo := trace[..i + 1];
    assert upTo[..i] == trace[..i];
    BucketIffMine(p, trace[..i], key);
    MineAt(upTo, key);
    MineUpTo(trace, key, i);
    if j :| 0 <= j < i && trace[j].key == key && Kept(trace, key, j, i) {
      assert Mine(trace, key, i, i)[j];
    }
  }

  lemma CreatesIff(p: Params, t0: real, trace: seq<Call>, i: nat)
    requires i < |trace|
    ensures Creates(p, t0, trace, i)
       <==> forall j :: 0 <= j < i && trace[j].key == trace[i].key ==>
              !Kept(WithEvictions(p, t0, trace), trace[i].key, j, i)
  {
    FoundAfterReset(p, t0, trace, i);
    PlainCreatesIff(p, WithEvictions(p, t0, trace), trace[i].key, i);
  }

  /** The first call of `key` from `i` on. */
  ghost function NextCall(trace: seq<Call>, key: string, i: nat, n: nat): (k: nat)
    requires i <= n < |trace| && trace[n].key == key
    ensures i <= k <= n && trace[k].key == key && forall h :: i <= h < k ==> trace[h].key != key
    decreases n - i
  {
    if trace[i].key == key then i else NextCall(trace, key, i + 1, n)
  }

  /** Between two calls of a key, its bucket was lost exactly when one of its calls had to create another. */
  lemma SameBucketIff(p: Params, t0: real, trace: seq<Call>, j: nat, n: nat)
    requires j <= n < |trace| && trace[j].key == trace[n].key
    ensures SameBucket(p, t0, trace, j, n) <==> Kept(WithEvictions(p, t0, trace), trace[n].key, j, n)
  {
    var marked, key := WithEvictions(p, t0, trace), trace[n].key;
    if Kept(marked, key, j, n) {
      forall i | j < i <= n && trace[i].key == key
        ensures !Creates(p, t0, trace, i)
      {
        CreatesIff(p, t0, trace, i);
        assert Kept(marked, key, j, i);
      }
    } else {
      var lost :| j < lost <= n && key in marked[lost].resets;
      var k := NextCall(trace, key, lost, n);
      CreatesIff(p, t0, trace, k);
      assert !SameBucket(p, t0, trace, j, n);
    }
  }

  /**
   A request is allowed if and only if no window of its key's requests that ends with it,
   and starts no earlier than its bucket was created, would then exceed the burst plus what
   the window's length refills, whatever other keys do.  The window's length leaves out the
   time that passes between the last two clock readings of its calls.
   */
  lemma DecisionIsWindowTest(p: Params, t0: real, trace: seq<Call>, n: nat)
    requires p.burst >= 1 && n < |trace|
    ensures Decisions(p, t0, trace)[n]
       <==> forall j :: 0 <= j <= n && SameBucket(p, t0, trace, j, n) ==>
              FitsWindow(p, trace, Decisions(p, t0, trace), j, n)
  {
    var marked, ds := WithEvictions(p, t0, trace), Decisions(p, t0, trace);
    EvictionIsReset(p, t0, trace);
    PlainDecisionIsWindowTest(p, marked, n);
    forall j | 0 <= j <= n
      ensures SameBucket(p, t0, trace, j, n) ==> FitsWindow(p, trace, ds, j, n)
         <==> marked[j].key == marked[n].key && Kept(marked, marked[n].key, j, n) ==> FitsWindow(p, marked, ds, j, n)
    {
      WindowCarriesOver(p, t0, trace, ds, j, n);
    }
  }

  lemma WindowCarriesOver(p: Params, t0: real, trace: seq<Call>, ds: seq<bool>, j: nat, n: nat)
    requires j <= n < |trace| == |ds|
    ensures var marked := WithEvictions(p, t0, trace);
            && (FitsWindow(p, trace, ds, j, n) <==> FitsWindow(p, marked, ds, j, n))
            && (SameBucket(p, t0, trace, j, n) <==> marked[j].key == marked[n].key && Kept(marked, marked[n].key, j, n))
  {
    SameKeysAdmit(trace, WithEvictions(p, t0, trace), ds, trace[n].key, j, n);
    IdleAgrees(trace, WithEvictions(p, t0, trace), trace[n].key, j, n, trace[n].at.refillNow);
    if trace[j].key == trace[n].key {
      SameBucketIff(p, t0, trace, j, n);
    }
  }

  lemma {:induction false} SameKeysAdmit(trace: seq<Call>, other: seq<Call>, ds: seq<bool>, key: string, i: nat, j: nat)
    requires i <= j <= |trace| == |other| == |ds|
    requires forall k :: 0 <= k < |trace| ==> trace[k].key == other[k].key
    ensures Admitted(trace, ds, key, i, j) == Admitted(other, ds, key, i, j)
    decreases j
  {
    if i < j {
      SameKeysAdmit(trace, other, ds, key, i, j - 1);
    }
  }

  /** With a burst below one, a request is allowed if and only if it creates its bucket. */
  lemma NoBurstDecision(p: Params, t0: real, trace: seq<Call>, n: nat)
    requires p.burst < 1 && n < |trace|
    ensures Decisions(p, t0, trace)[n] <==> Creates(p, t0, trace, n)
  {
    DecisionAt(p, t0, trace, n);
  }

  lemma {:induction false} DecisionAt(p: Params, t0: real, trace: seq<Call>, n: nat)
    requires n < |trace|
    ensures Decisions(p, t0, trace)[n] == CallStep(p, Run(p, t0, trace[..n]), trace[n]).1
  {
    var last := |trace| - 1;
    if n < last {
      DecisionAt(p, t0, trace[..last], n);
      assert trace[..last][..n] == trace[..n];
      assert Decisions(p, t0, trace)[n] == Decisions(p, t0, trace[..last])[n];
    }
  }

  /** With one clock reading per call, a window's length is the time from its first call to its last. */
  lemma FitsInstants(p: Params, trace: seq<Call>, ds: seq<bool>, j: nat, n: nat)
    requires Instants(trace) && j <= n < |trace| == |ds|
    ensures FitsWindow(p, trace, ds, j, n) <==>
              Allowed(p, Admitted(trace, ds, trace[n].key, j, n) + 1, trace[n].at.stamp - trace[j].at.stamp)
  {
    if j < n {
      IdleIsElapsed(trace, trace[n].key, j, n, trace[n].at.refillNow);
    }
  }

  /** When buckets refill before they can be evicted, only resets end a key's windows. */
  lemma SoundDecisionIsWindowTest(p: Params, t0: real, trace: seq<Call>, n: nat)
    requires Sound(p) && p.cleanupInterval > 0.0 && InOrder(t0, trace) && n < |trace|
    ensures Decisions(p, t0, trace)[n] <==> FitsEveryWindow(p, trace, Decisions(p, t0, trace), n)
  {
    TraceSimulates(p, t0, trace);
    PlainDecisionIsWindowTest(p, trace, n);
  }

  // ----- the rate bound, with the clock as the code reads it -------------------------------

  /**
   In every window of calls within which `key` was not reset, it was allowed at most the
   burst plus what the window refills.  A call counts at its last clock reading.
   */
  ghost predicate WithinRate(p: Params, trace: seq<Call>, ds: seq<bool>, key: string)
    requires |trace| == |ds|
  {
    forall i, j :: 0 <= i <= j < |trace| && Kept(trace, key, i, j) ==> AdmitsWithin(p, trace, ds, key, i, j)
  }

  ghost predicate AdmitsWithin(p: Params, trace: seq<Call>, ds: seq<bool>, key: string, i: nat, j: nat)
    requires i <= j < |trace| == |ds|
  {
    Allowed(p, Admitted(trace, ds, key, i, j + 1), trace[j].at.stamp - trace[i].at.stamp)
  }

  lemma {:induction false} SaneAfter(p: Params, t0: real, trace: seq<Call>)
    requires p.burst >= 1 && p.rate >= 0.0 && InOrder(t0, trace)
    ensures Sane(p, PlainRun(p, trace), if trace == [] then t0 else trace[|trace| - 1].at.stamp)
  {
    if trace != [] {
      var n := |trace| - 1;
      var now := if n == 0 then t0 else trace[n - 1].at.stamp;
      SaneAfter(p, t0, trace[..n]);
      assert Sane(p, PlainRun(p, trace[..n]) - trace[n].resets, now);
      SpendKeepsSane(p, PlainRun(p, trace[..n]) - trace[n].resets, trace[n].key, trace[n].at, now);
    }
  }

  /** What a bucket offers and what the window admitted together stay within the bound. */
  ghost predicate WindowHolds(p: Params, m: Buckets, key: string, admitted: nat, start: real, now: real) {
    if key in m then Available(p, m[key], now) + admitted as real <= Allowance(p, now - start)
    else admitted == 0
  }

  lemma AvailableGrows(p: Params, b: BucketState, now: real, later: real)
    requires p.rate >= 0.0 && now <= later
    ensures Available(p, b, later) <= Available(p, b, now) + Refill(p, later - now)
  {
    RefillAdds(p, now - b.lastCheck, later - now);
    RefillGains(p, later - now);
  }

  lemma WindowAges(p: Params, m: Buckets, key: string, admitted: nat, start: real, now: real, later: real)
    requires p.rate >= 0.0 && now <= later && WindowHolds(p, m, key, admitted, start, now)
    ensures WindowHolds(p, m, key, admitted, start, later)
  {
    if key in m {
      AvailableGrows(p, m[key], now, later);
      RefillAdds(p, now - start, later - now);
    }
  }

  lemma SpendKeepsWindow(p: Params, m: Buckets, key: string, admitted: nat, start: real, r: Readings)
    requires p.burst >= 1 && p.rate >= 0.0 && start <= r.refillNow <= r.stamp
    requires WindowHolds(p, m, key, admitted, start, r.refillNow)
    ensures var (m', ok) := SpendStep(p, m, key, r);
            WindowHolds(p, m', key, admitted + (if ok then 1 else 0), start, r.stamp)
  {
    RefillGains(p, r.refillNow - start);
    RefillGains(p, r.stamp - r.refillNow);
    RefillAdds(p, r.refillNow - start, r.stamp - r.refillNow);
    var (m', ok) := SpendStep(p, m, key, r);
    assert Refill(p, r.stamp - r.stamp) == 0.0;
  }

  /** A window that starts with the last reading of a call has room for a full bucket. */
  lemma WindowOpens(p: Params, m: Buckets, c: Call, key: string)
    requires p.burst >= 1
    ensures var (m', ok) := PlainStep(p, m, c);
            WindowHolds(p, m', key, if c.key == key && ok then 1 else 0, c.at.stamp, c.at.stamp)
  {
    assert Refill(p, c.at.stamp - c.at.stamp) == 0.0;
  }

  /** One more call in a window that does not reset `key`. */
  lemma CallKeepsWindow(p: Params, m: Buckets, c: Call, key: string, admitted: nat, start: real, now: real)
    requires p.burst >= 1 && p.rate >= 0.0 && start <= now <= c.at.refillNow <= c.at.stamp && key !in c.resets
    requires WindowHolds(p, m, key, admitted, start, now)
    ensures var (m', ok) := PlainStep(p, m, c);
            WindowHolds(p, m', key, admitted + (if c.key == key && ok then 1 else 0), start, c.at.stamp)
  {
    var m0 := m - c.resets;
    assert WindowHolds(p, m0, key, admitted, start, now);
    WindowAges(p, m0, key, admitted, start, now, c.at.refillNow);
    if c.key == key {
      SpendKeepsWindow(p, m0, key, admitted, start, c.at);
    } else {
      WindowAges(p, m0, key, admitted, start, c.at.refillNow, c.at.stamp);
    }
  }

  lemma {:induction false} PlainWindowHolds(p: Params, t0: real, trace: seq<Call>, key: string, i: nat)
    requires p.burst >= 1 && p.rate >= 0.0 && InOrder(t0, trace) && i < |trace| && Kept(trace, key, i, |trace| - 1)
    ensures WindowHolds(p, PlainRun(p, trace), key, Admitted(trace, PlainDecisions(p, trace), key, i, |trace|),
                        trace[i].at.stamp, trace[|trace| - 1].at.stamp)
  {
    var n := |trace| - 1;
    var before, ds := trace[..n], PlainDecisions(p, trace);
    if i < n {
      PlainWindowHolds(p, t0, before, key, i);
      AdmittedPrefix(before, PlainDecisions(p, before), trace, ds, key, i, n);
      CallKeepsWindow(p, PlainRun(p, before), trace[n], key, Admitted(trace, ds, key, i, n),
                      trace[i].at.stamp, before[n - 1].at.stamp);
    } else {
      WindowOpens(p, PlainRun(p, before), trace[n], key);
    }
  }

  lemma PlainWindowBound(p: Params, t0: real, trace: seq<Call>, key: string, i: nat)
    requires p.burst >= 1 && p.rate >= 0.0 && InOrder(t0, trace) && i < |trace| && Kept(trace, key, i, |trace| - 1)
    ensures AdmitsWithin(p, trace, PlainDecisions(p, trace), key, i, |trace| - 1)
  {
    var m, now := PlainRun(p, trace), trace[|trace| - 1].at.stamp;
    PlainWindowHolds(p, t0, trace, key, i);
    SaneAfter(p, t0, trace);
    AllowedIff(p, Admitted(trace, PlainDecisions(p, trace), key, i, |trace|), now - trace[i].at.stamp);
    if key in m {
      AvailableBounds(p, m[key], now);
    } else {
      RefillGains(p, now - trace[i].at.stamp);
    }
  }

  lemma PrefixInOrder(t0: real, trace: seq<Call>, key: string, i: nat, j: nat)
    requires InOrder(t0, trace) && i <= j < |trace| && Kept(trace, key, i, j)
    ensures InOrder(t0, trace[..j + 1]) && Kept(trace[..j + 1], key, i, j)
  {
  }

  lemma AdmittedUpTo(p: Params, trace: seq<Call>, key: string, i: nat, j: nat)
    requires i <= j <= |trace|
    ensures Admitted(trace[..j], PlainDecisions(p, trace[..j]), key, i, j)
         == Admitted(trace, PlainDecisions(p, trace), key, i, j)
  {
    PlainDecisionsPrefix(p, trace, j);
    AdmittedPrefix(trace[..j], PlainDecisions(p, trace)[..j], trace, PlainDecisions(p, trace), key, i, j);
  }

  lemma PlainWithinWindow(p: Params, t0: real, trace: seq<Call>, key: string, i: nat, j: nat)
    requires p.burst >= 1 && p.rate >= 0.0 && InOrder(t0, trace) && i <= j < |trace| && Kept(trace, key, i, j)
    ensures AdmitsWithin(p, trace, PlainDecisions(p, trace), key, i, j)
  {
    PrefixInOrder(t0, trace, key, i, j);
    PlainWindowBound(p, t0, trace[..j + 1], key, i);
    AdmittedUpTo(p, trace, key, i, j + 1);
  }

  lemma PlainWithinRate(p: Params, t0: real, trace: seq<Call>, key: string)
    requires p.burst >= 1 && p.rate >= 0.0 && InOrder(t0, trace)
    ensures WithinRate(p, trace, PlainDecisions(p, trace), key)
  {
    forall i, j | 0 <= i <= j < |trace| && Kept(trace, key, i, j)
      ensures AdmitsWithin(p, trace, PlainDecisions(p, trace), key, i, j)
    {
      PlainWithinWindow(p, t0, trace, key, i, j);
    }
  }

  /** Whatever the configuration evicts, a window within which a key kept its bucket stays within the rate. */
  lemma RateWhileKept(p: Params, t0: real, trace: seq<Call>, key: string)
    requires p.burst >= 1 && p.rate >= 0.0 && InOrder(t0, trace)
    ensures WithinRate(p, WithEvictions(p, t0, trace), Decisions(p, t0, trace), key)
  {
    EvictionIsReset(p, t0, trace);
    PlainWithinRate(p, t0, WithEvictions(p, t0, trace), key);
  }
}
