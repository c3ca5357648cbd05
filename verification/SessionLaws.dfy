/** When a proxy's sessions are collected, and when its average round-trip time goes wrong. */
module SessionLaws {
  import opened Integers
  import opened Frames
  import opened Sessions
  import opened Proxies
  import opened ProxyLaws

  function Start(e: Event): int {
    match e case Receive(_, at) => at.created case Forward(_, now, _, _) => now case Tick(began, _, _) => began
  }

  function End(e: Event): int {
    match e case Receive(_, at) => at.measured case Forward(_, _, touched, _) => touched case Tick(_, _, ended) => ended
  }

  /** The clock never runs backwards, within an event or from one to the next. */
  ghost predicate InOrder(events: seq<Event>) {
    && (forall i :: 0 <= i < |events| ==> Start(events[i]) <= End(events[i]))
    && (forall i :: 0 <= i < |events| && events[i].Receive? ==>
          events[i].at.created <= events[i].at.touched <= events[i].at.measured)
    && (forall i, id: FrameID :: 0 <= i < |events| && events[i].Tick? ==>
          events[i].began <= events[i].clock(id) <= events[i].ended)
    && (forall i, j :: 0 <= i < j < |events| ==> End(events[i]) <= Start(events[j]))
  }

  /** The event receives a frame of session `id`. */
  predicate Arrives(e: Event, id: FrameID) {
    e.Receive? && e.arrival.Arrived? && e.arrival.frame.sessionID == id
  }

  /** The event receives or sends a packet of session `id`. */
  predicate Carries(e: Event, id: FrameID) {
    Arrives(e, id) || (e.Forward? && e.packet.sessionID == id && Sends(e.packet, e.tunnelTakes))
  }

  /** When the event touches a session. */
  function Touched(e: Event): int {
    match e case Receive(_, at) => at.touched case Forward(_, _, touched, _) => touched case Tick(began, _, _) => began
  }

  /** A live session was last active at its latest packet. */
  ghost predicate LastActiveIsLatest(c: Config, p: ProxyState, events: seq<Event>, id: FrameID) {
    id in p.sessions ==>
      (var s := p.sessions[id];
       && s.timeout == c.timeout
       && (exists m :: 0 <= m < |events| && Carries(events[m], id) && Touched(events[m]) == s.stats.lastActive)
       && (forall m :: 0 <= m < |events| && Carries(events[m], id) ==> Touched(events[m]) <= s.stats.lastActive))
  }

  lemma StepLastActive(c: Config, p: ProxyState, events: seq<Event>, e: Event, id: FrameID)
    requires InOrder(events + [e]) && LastActiveIsLatest(c, p, events, id)
    ensures LastActiveIsLatest(c, Step(c, p, e), events + [e], id)
  {
    var all, p' := events + [e], Step(c, p, e);
    assert all[|events|] == e;
    forall m | 0 <= m < |events|
      ensures all[m] == events[m] && Touched(all[m]) <= Start(e)
    {
      assert Touched(all[m]) <= End(all[m]);
    }
    if id in p'.sessions {
      if Carries(e, id) {
        assert p'.sessions[id].stats.lastActive == Touched(e);
      } else {
        assert id in p.sessions && p'.sessions[id] == p.sessions[id];
        var m :| 0 <= m < |events| && Carries(events[m], id) && Touched(events[m]) == p.sessions[id].stats.lastActive;
        assert Carries(all[m], id);
      }
    }
  }

  lemma {:induction false} RunLastActive(c: Config, events: seq<Event>, id: FrameID)
    requires InOrder(events)
    ensures LastActiveIsLatest(c, Run(c, events), events, id)
  {
    if events != [] {
      var n := |events| - 1;
      RunLastActive(c, events[..n], id);
      assert events == events[..n] + [events[n]];
      StepLastActive(c, Run(c, events[..n]), events[..n], events[n], id);
    }
  }

  // ----- a session with traffic is kept -----

  ghost predicate EverArrives(events: seq<Event>, id: FrameID) {
    exists m :: 0 <= m < |events| && Arrives(events[m], id)
  }

  /** Once it has begun, session `id` has a packet within the timeout before every garbage collection. */
  ghost predicate Busy(c: Config, events: seq<Event>, id: FrameID) {
    forall n :: 0 <= n < |events| && events[n].Tick? && EverArrives(events[..n], id) ==>
      exists m :: 0 <= m < n && Carries(events[m], id) && events[n].clock(id) - Touched(events[m]) <= c.timeout
  }

  lemma BusyPrefix(c: Config, events: seq<Event>, id: FrameID, k: nat)
    requires Busy(c, events, id) && k <= |events|
    ensures Busy(c, events[..k], id)
  {
    var before := events[..k];
    forall n | 0 <= n < k && before[n].Tick? && EverArrives(before[..n], id)
      ensures exists m :: 0 <= m < n && Carries(before[m], id) && before[n].clock(id) - Touched(before[m]) <= c.timeout
    {
      assert before[..n] == events[..n] && before[n] == events[n];
      var m :| 0 <= m < n && Carries(events[m], id) && events[n].clock(id) - Touched(events[m]) <= c.timeout;
      assert before[m] == events[m];
    }
  }

  lemma TickKeepsBusy(c: Config, events: seq<Event>, id: FrameID)
    requires events != [] && InOrder(events) && Busy(c, events, id) && events[|events| - 1].Tick?
    requires id in Run(c, events[..|events| - 1]).sessions && EverArrives(events[..|events| - 1], id)
    ensures !Expired(Run(c, events[..|events| - 1]).sessions[id], events[|events| - 1].clock(id))
  {
    var n := |events| - 1;
    var before := events[..n];
    RunLastActive(c, before, id);
    var m :| 0 <= m < n && Carries(events[m], id) && events[n].clock(id) - Touched(events[m]) <= c.timeout;
    assert Carries(before[m], id);
  }

  lemma ArrivesSnoc(events: seq<Event>, id: FrameID)
    requires events != []
    ensures EverArrives(events, id) <==> EverArrives(events[..|events| - 1], id) || Arrives(events[|events| - 1], id)
  {
    var n := |events| - 1;
    if m :| 0 <= m < n && Arrives(events[..n][m], id) {
      assert Arrives(events[m], id);
    }
    if m :| 0 <= m < |events| && Arrives(events[m], id) {
      assert m == n || Arrives(events[..n][m], id);
    }
  }

  /** A step that does not collect the session neither takes from its account nor ends it. */
  lemma StepKeeps(k: Measure, c: Config, p: ProxyState, e: Event, id: FrameID)
    requires e.Tick? && id in p.sessions ==> !Expired(p.sessions[id], e.clock(id))
    ensures Taken(k, p.sessions, e, id) == 0
    ensures id in Step(c, p, e).sessions <==> id in p.sessions || Arrives(e, id)
  {
  }

  /**
   A session that has traffic at least once per timeout is never collected: it lives from
   its first packet on, and its own counters are those of everything received for it.
   */
  lemma {:induction false} BusyIsKept(c: Config, events: seq<Event>, id: FrameID, k: Measure)
    requires InOrder(events) && Busy(c, events, id)
    ensures id in Run(c, events).sessions <==> EverArrives(events, id)
    ensures Collected(k, c, events, id) == 0 && Live(k, Run(c, events).sessions, id) == Accepted(k, events, id)
    decreases |events|
  {
    if events != [] {
      var n := |events| - 1;
      BusyPrefix(c, events, id, n);
      BusyIsKept(c, events[..n], id, k);
      ArrivesSnoc(events, id);
      var p := Run(c, events[..n]);
      if events[n].Tick? && id in p.sessions {
        TickKeepsBusy(c, events, id);
      }
      StepKeeps(k, c, p, events[n], id);
    }
    SessionAccountsExact(k, c, events, id);
  }

  // ----- an idle session is collected -----

  predicate Apart(events: seq<Event>, i: int, j: int, gap: int) {
    0 <= i < j < |events| && Start(events[j]) - Start(events[i]) > gap
  }

  ghost predicate TickBetween(events: seq<Event>, i: int, j: int) {
    exists k :: 0 <= i < k <= j < |events| && events[k].Tick?
  }

  /** Whenever more than `gap` passes from one event to another, a garbage collection happens between them. */
  ghost predicate TicksEvery(events: seq<Event>, gap: int) {
    forall i, j :: Apart(events, i, j, gap) ==> TickBetween(events, i, j)
  }

  /** The last event from `m` on that starts by `time`. */
  lemma {:induction false} LastBy(events: seq<Event>, m: nat, time: int) returns (i: nat)
    requires m < |events| && Start(events[m]) <= time && Start(events[|events| - 1]) > time
    ensures m <= i < |events| - 1 && Start(events[i]) <= time && Start(events[i + 1]) > time
    decreases |events| - m
  {
    if Start(events[m + 1]) > time {
      i := m;
    } else {
      i := LastBy(events, m + 1, time);
    }
  }

  lemma {:induction false} StaysGone(c: Config, events: seq<Event>, id: FrameID, k: nat)
    requires k <= |events| && id !in Run(c, events[..k]).sessions
    requires forall m :: k <= m < |events| ==> !Carries(events[m], id)
    ensures id !in Run(c, events).sessions
    decreases |events|
  {
    if k < |events| {
      var n := |events| - 1;
      assert events[..n][..k] == events[..k];
      StaysGone(c, events[..n], id, k);
    } else {
      assert events[..k] == events;
    }
  }

  lemma {:induction false} IdleLastActive(c: Config, events: seq<Event>, id: FrameID, m: nat)
    requires InOrder(events) && m < |events| && forall j :: m < j < |events| ==> !Carries(events[j], id)
    requires id in Run(c, events).sessions
    ensures Run(c, events).sessions[id].stats.lastActive <= Touched(events[m])
    ensures Run(c, events).sessions[id].timeout == c.timeout
  {
    RunLastActive(c, events, id);
    var j :| 0 <= j < |events| && Carries(events[j], id)
        && Touched(events[j]) == Run(c, events).sessions[id].stats.lastActive;
    if j < m {
      assert Touched(events[j]) <= End(events[j]) <= Start(events[m]) <= Touched(events[m]);
    }
  }

  /** A garbage collection more than the timeout after the last packet removes the session. */
  lemma LateTickCollects(c: Config, events: seq<Event>, id: FrameID, m: nat, k: nat)
    requires c.timeout > 0 && InOrder(events) && m < k < |events|
    requires forall j :: m < j < |events| ==> !Carries(events[j], id)
    requires events[k].Tick? && events[k].clock(id) > Touched(events[m]) + c.timeout
    ensures id !in Run(c, events[..k + 1]).sessions
  {
    var before := events[..k];
    assert events[..k + 1][..k] == before;
    if id in Run(c, before).sessions {
      IdleLastActive(c, before, id, m);
    }
  }

  /** Some garbage collection runs after `deadline`, if the run outlasts it by more than `gap`. */
  lemma TickAfter(events: seq<Event>, m: nat, deadline: int, gap: int) returns (k: nat)
    requires InOrder(events) && TicksEvery(events, gap) && gap >= 0
    requires m < |events| && Start(events[m]) <= deadline && Start(events[|events| - 1]) > deadline + gap
    ensures m < k < |events| && events[k].Tick? && events[k].began > deadline
  {
    var last := |events| - 1;
    var i := LastBy(events, m, deadline);
    assert Apart(events, i, last, gap) && TickBetween(events, i, last);
    k :| i < k <= last && events[k].Tick?;
    if k > i + 1 {
      assert Start(events[i + 1]) <= End(events[i + 1]) <= Start(events[k]);
    }
  }

  lemma TouchedWithin(events: seq<Event>, m: nat)
    requires InOrder(events) && m < |events|
    ensures Start(events[m]) <= Touched(events[m]) <= End(events[m])
  {
  }

  /**
   If garbage collections come at most `gap` apart, a session whose last packet was event
   `m` is gone by one timeout and one gap later.
   */
  lemma IdleIsCollected(c: Config, events: seq<Event>, id: FrameID, m: nat, gap: int)
    requires c.timeout > 0 && InOrder(events) && TicksEvery(events, gap) && gap >= 0
    requires m < |events| && forall j :: m < j < |events| ==> !Carries(events[j], id)
    requires Start(events[|events| - 1]) > Touched(events[m]) + c.timeout + gap
    ensures id !in Run(c, events).sessions
  {
    TouchedWithin(events, m);
    var k := TickAfter(events, m, Touched(events[m]) + c.timeout, gap);
    LateTickCollects(c, events, id, m, k);
    StaysGone(c, events, id, k + 1);
  }

  // ----- the average can overflow -----

  /** A frame stamped with the earliest time that the wire can carry. */
  function AncientFrame(id: FrameID): Frame {
    Frame(id, 0, 0, -(TWO_TO_64 / 2) * 1000, [])
  }

  /** Two such datagrams, received at the epoch. */
  function AncientRun(id: FrameID): seq<Event> {
    var e := Receive(ArrivalOf(Encoded(AncientFrame(id)).value), Readings(0, 0, 0));
    [e, e]
  }

  lemma AncientArrival(id: FrameID)
    ensures ArrivalOf(Encoded(AncientFrame(id)).value) == Arrived(AncientFrame(id), 0)
  {
    var f := AncientFrame(id);
    TimestampRoundTripIff(f.timestamp);
    FrameRoundTrip(f, []);
    assert Encoded(f).value + [] == Encoded(f).value;
  }

  lemma MeasuredPair(e: Event)
    requires e.Receive? && e.arrival.Arrived?
    ensures var rtt := Since(e.at.measured, e.arrival.frame.timestamp); Measured([e, e]) == [rtt, rtt]
  {
    assert [e, e][..1] == [e] && [e][..0] == [];
    assert Measured([e]) == [Since(e.at.measured, e.arrival.frame.timestamp)];
  }

  lemma SumOfPair(x: int)
    ensures Sum([x, x]) == 2 * x
  {
    assert [x, x][..1] == [x] && [x][..0] == [];
    assert Sum([x]) == x;
  }

  lemma LongestPairAverage()
    ensures AverageRTT([MAX_DURATION, MAX_DURATION]) == 0.0
  {
    SumOfPair(MAX_DURATION);
    assert Wrap(2 * MAX_DURATION) == -2 && Milliseconds(-2) == 0;
  }

  /** A run after which the reported average is zero, although every sample is the longest possible time. */
  lemma AverageCanOverflow(c: Config, id: FrameID)
    ensures var samples := Run(c, AncientRun(id)).rttSamples;
            samples == [MAX_DURATION, MAX_DURATION] && AverageRTT(samples) == 0.0
  {
    AncientArrival(id);
    MeasuredPair(AncientRun(id)[0]);
    SamplesAreLastMeasured(c, AncientRun(id));
    LongestPairAverage();
  }
}
