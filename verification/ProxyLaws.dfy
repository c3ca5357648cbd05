/**
 What one relay proxy guarantees over whole runs of receiving, forwarding and garbage
 collection: exact accounts, an exact sample window, and when sessions are collected.
 */
module ProxyLaws {
  import opened Integers
  import opened Totals
  import opened Frames
  import opened Sessions
  import opened Proxies

  datatype Event =
    | Receive(arrival: Arrival, at: Readings)
    | Forward(packet: Packet, now: int, touched: int, tunnelTakes: bool)
    | Tick(began: int, clock: Clock, ended: int)

  function Step(c: Config, p: ProxyState, e: Event): ProxyState {
    match e
    case Receive(a, at) => ReceiveStep(c, p, a, at)
    case Forward(k, _, touched, takes) => ForwardStep(p, k, touched, takes)
    case Tick(_, clock, _) => TickStep(p, clock)
  }

  /** A new proxy after the events. */
  function Run(c: Config, events: seq<Event>): ProxyState {
    if events == [] then EMPTY
    else var n := |events| - 1; Step(c, Run(c, events[..n]), events[n])
  }

  // ----- accounts per session id -----

  /** What is accounted for: packets, their payload bytes, or the bytes their frames took on the wire. */
  datatype Measure = Packets | PayloadBytes | WireBytes

  function Load(k: Measure, st: Stats): int {
    match k
    case Packets => st.packetsIn
    case PayloadBytes => st.bytesIn
    case WireBytes => st.bytesIn + HEADER_SIZE * st.packetsIn
  }

  /** The load that one datagram adds. */
  function Gain(k: Measure, a: Arrival): nat {
    if a.Junk? then 0
    else match k case Packets => 1 case PayloadBytes => |a.frame.payload| case WireBytes => FrameSize(|a.frame.payload|)
  }

  /** What an event brings for session `id`. */
  function Brought(k: Measure, e: Event, id: FrameID): nat {
    if e.Receive? && e.arrival.Arrived? && e.arrival.frame.sessionID == id then Gain(k, e.arrival) else 0
  }

  /** What the received datagrams brought for session `id`. */
  function Accepted(k: Measure, events: seq<Event>, id: FrameID): nat {
    if events == [] then 0
    else var n := |events| - 1; Accepted(k, events[..n], id) + Brought(k, events[n], id)
  }

  function Live(k: Measure, m: Registry, id: FrameID): int {
    if id in m then Load(k, m[id].stats) else 0
  }

  /** What a garbage collection takes of session `id`. */
  function Taken(k: Measure, m: Registry, e: Event, id: FrameID): int {
    if e.Tick? && id in m && Expired(m[id], e.clock(id)) then Load(k, m[id].stats) else 0
  }

  /** What the collected incarnations of session `id` had counted. */
  function Collected(k: Measure, c: Config, events: seq<Event>, id: FrameID): int {
    if events == [] then 0
    else
      var n := |events| - 1;
      Collected(k, c, events[..n], id) + Taken(k, Run(c, events[..n]).sessions, events[n], id)
  }

  lemma StepBalances(k: Measure, c: Config, p: ProxyState, e: Event, id: FrameID)
    ensures Taken(k, p.sessions, e, id) + Live(k, Step(c, p, e).sessions, id)
         == Live(k, p.sessions, id) + Brought(k, e, id)
  {
    match e
    case Receive(a, at) =>
    case Forward(_, _, _, _) =>
    case Tick(_, _, _) =>
  }

  /**
   For every session id, what its live session and its collected incarnations have counted
   is exactly what the received datagrams brought for it.
   */
  lemma {:induction false} SessionAccountsExact(k: Measure, c: Config, events: seq<Event>, id: FrameID)
    ensures Collected(k, c, events, id) + Live(k, Run(c, events).sessions, id) == Accepted(k, events, id)
  {
    if events != [] {
      var n := |events| - 1;
      SessionAccountsExact(k, c, events[..n], id);
      StepBalances(k, c, Run(c, events[..n]), events[n], id);
    }
  }

  // ----- conservation -----

  ghost function Loads(k: Measure, m: Registry): map<FrameID, int> {
    map id | id in m :: Load(k, m[id].stats)
  }

  /** The load of the sessions that garbage collection removed. */
  ghost function CollectedLoad(k: Measure, c: Config, events: seq<Event>): int {
    if events == [] then 0
    else
      var n := |events| - 1;
      var m := Run(c, events[..n]).sessions;
      CollectedLoad(k, c, events[..n])
      + (if events[n].Tick?
         then Total(Loads(k, map id | id in m && Expired(m[id], events[n].clock(id)) :: m[id])) else 0)
  }

  function ReceivedLoad(k: Measure, events: seq<Event>): int {
    if events == [] then 0
    else
      var n := |events| - 1;
      ReceivedLoad(k, events[..n]) + (if events[n].Receive? then Gain(k, events[n].arrival) else 0)
  }

  lemma ReceiveLoads(k: Measure, c: Config, p: ProxyState, a: Arrival, at: Readings)
    ensures Total(Loads(k, ReceiveStep(c, p, a, at).sessions)) == Total(Loads(k, p.sessions)) + Gain(k, a)
  {
    if a.Arrived? {
      var id, m' := a.frame.sessionID, ReceiveStep(c, p, a, at).sessions;
      TotalUpdate(Loads(k, p.sessions), id, Load(k, m'[id].stats));
      assert Loads(k, m') == Loads(k, p.sessions)[id := Load(k, m'[id].stats)];
    }
  }

  lemma ForwardLoads(k: Measure, p: ProxyState, e: Event)
    requires e.Forward?
    ensures Loads(k, ForwardStep(p, e.packet, e.touched, e.tunnelTakes).sessions) == Loads(k, p.sessions)
  {
  }

  lemma TickLoads(k: Measure, p: ProxyState, clock: Clock)
    ensures Total(Loads(k, TickStep(p, clock).sessions))
          + Total(Loads(k, map id | id in p.sessions && Expired(p.sessions[id], clock(id)) :: p.sessions[id]))
         == Total(Loads(k, p.sessions))
  {
    var m := p.sessions;
    var gone := set id | id in m && Expired(m[id], clock(id));
    var all := Loads(k, m);
    TotalSplit(all, gone);
    assert Loads(k, Unexpired(m, clock)) == map id | id in all && id !in gone :: all[id];
    assert Loads(k, map id | id in m && Expired(m[id], clock(id)) :: m[id])
        == map id | id in all && id in gone :: all[id];
  }

  lemma {:induction false} LoadIsConserved(k: Measure, c: Config, events: seq<Event>)
    ensures Total(Loads(k, Run(c, events).sessions)) + CollectedLoad(k, c, events) == ReceivedLoad(k, events)
  {
    if events == [] {
      assert Loads(k, EMPTY.sessions) == map[];
    } else {
      var n := |events| - 1;
      LoadIsConserved(k, c, events[..n]);
      var p := Run(c, events[..n]);
      match events[n]
      case Receive(a, at) => ReceiveLoads(k, c, p, a, at);
      case Forward(_, _, _, _) => ForwardLoads(k, p, events[n]);
      case Tick(_, clock, _) => TickLoads(k, p, clock);
    }
  }

  function Received(events: seq<Event>): nat {
    if events == [] then 0
    else var n := |events| - 1; Received(events[..n]) + (if events[n].Receive? then 1 else 0)
  }

  /** The bytes that followed frames in the datagrams that decoded. */
  function Trailing(events: seq<Event>): nat {
    if events == [] then 0
    else
      var n := |events| - 1;
      Trailing(events[..n])
      + (if events[n].Receive? && events[n].arrival.Arrived? then events[n].arrival.surplus else 0)
  }

  /** No accepted datagram has bytes after its frame. */
  ghost predicate NoneTrails(events: seq<Event>) {
    forall i :: 0 <= i < |events| && events[i].Receive? && events[i].arrival.Arrived? ==> events[i].arrival.surplus == 0
  }

  lemma {:induction false} TotalsCountEvents(c: Config, events: seq<Event>)
    ensures Run(c, events).packetsDropped + ReceivedLoad(Packets, events) == Received(events)
    ensures Run(c, events).bytesIn == ReceivedLoad(WireBytes, events) + Trailing(events)
  {
    if events != [] {
      var n := |events| - 1;
      TotalsCountEvents(c, events[..n]);
    }
  }

  lemma {:induction false} NothingTrailsIff(events: seq<Event>)
    ensures Trailing(events) == 0 <==> NoneTrails(events)
  {
    if events != [] {
      var n := |events| - 1;
      var before := events[..n];
      NothingTrailsIff(before);
      assert forall i :: 0 <= i < n ==> before[i] == events[i];
    }
  }

  /**
   Every datagram received is counted once, in a live session, a collected one, or as
   dropped; and the bytes received are those that the sessions' frames took, plus what
   trailed the frames, which is nothing exactly when no accepted datagram has trailing bytes.
   */
  lemma ProxyConservation(c: Config, events: seq<Event>)
    ensures var p := Run(c, events);
            && Received(events) == Total(Loads(Packets, p.sessions)) + CollectedLoad(Packets, c, events)
               + p.packetsDropped
            && p.bytesIn == Total(Loads(WireBytes, p.sessions)) + CollectedLoad(WireBytes, c, events) + Trailing(events)
            && (Trailing(events) == 0 <==> NoneTrails(events))
  {
    LoadIsConserved(Packets, c, events);
    LoadIsConserved(WireBytes, c, events);
    TotalsCountEvents(c, events);
    NothingTrailsIff(events);
  }

  // ----- round-trip times -----

  /** The round-trip times of the datagrams that decoded, in order. */
  function Measured(events: seq<Event>): seq<int> {
    if events == [] then []
    else
      var n := |events| - 1;
      var e := events[n];
      Measured(events[..n]) +
      (if e.Receive? && e.arrival.Arrived? then [Since(e.at.measured, e.arrival.frame.timestamp)] else [])
  }

  /** A round-trip time is the time between stamp and measurement, cut off where 64 bits end. */
  lemma SinceIs(now: int, past: int)
    ensures -0x8000_0000_0000_0000 <= now - past <= 0x7FFF_FFFF_FFFF_FFFF ==> Since(now, past) == now - past
    ensures now - past > 0x7FFF_FFFF_FFFF_FFFF ==> Since(now, past) == 0x7FFF_FFFF_FFFF_FFFF
    ensures now - past < -0x8000_0000_0000_0000 ==> Since(now, past) == -0x8000_0000_0000_0000
  {
  }

  function Last(s: seq<int>, n: nat): seq<int> {
    if |s| <= n then s else s[|s| - n..]
  }

  /** The sample window is the last hundred round-trip times measured, in order. */
  lemma {:induction false} SamplesAreLastMeasured(c: Config, events: seq<Event>)
    ensures Run(c, events).rttSamples == Last(Measured(events), 100)
  {
    if events != [] {
      var n := |events| - 1;
      SamplesAreLastMeasured(c, events[..n]);
    }
  }

  /** Whole milliseconds differ from the sum by less than one, unless the sum does not fit. */
  lemma MillisecondsIff(sum: int)
    ensures -1_000_000 < 1_000_000 * Milliseconds(Wrap(sum)) - sum < 1_000_000 <==> InInt64(sum)
  {
    if !InInt64(sum) {
      var k := (sum - Wrap(sum)) / TWO_TO_64;
      assert sum - Wrap(sum) == k * TWO_TO_64;
      assert k != 0;
    }
  }

  lemma ScaleDown(x: real, len: real)
    requires len > 0.0
    ensures -1.0 / len < x / len < 1.0 / len <==> -1.0 < x < 1.0
  {
    assert x / len * len == x && 1.0 / len * len == 1.0;
  }

  /** The mean of the samples in milliseconds. */
  function Mean(samples: seq<int>): real
    requires samples != []
  {
    Sum(samples) as real / 1_000_000.0 / |samples| as real
  }

  /**
   The reported average is less than one millisecond over the number of samples away from
   their mean, if and only if their sum fits in a 64-bit duration.
   */
  lemma AverageIsCloseIff(samples: seq<int>)
    requires samples != []
    ensures var len := |samples| as real;
            -1.0 / len < AverageRTT(samples) - Mean(samples) < 1.0 / len <==> InInt64(Sum(samples))
  {
    var sum, len := Sum(samples), |samples| as real;
    var ms := Milliseconds(Wrap(sum));
    MillisecondsIff(sum);
    var x := ms as real - sum as real / 1_000_000.0;
    assert AverageRTT(samples) - Mean(samples) == x / len;
    ScaleDown(x, len);
    assert 1_000_000.0 * x == (1_000_000 * ms - sum) as real;
  }

  /**
   If the sum fits, the average times the number of samples is a whole number of
   milliseconds: the sum without its fraction of a millisecond, whatever its sign.
   */
  lemma AverageIsTruncated(samples: seq<int>) returns (ms: int)
    requires samples != [] && InInt64(Sum(samples))
    ensures AverageRTT(samples) == ms as real / |samples| as real
    ensures Sum(samples) >= 0 ==> 1_000_000 * ms <= Sum(samples) < 1_000_000 * (ms + 1)
    ensures Sum(samples) <= 0 ==> 1_000_000 * (ms - 1) < Sum(samples) <= 1_000_000 * ms
  {
    ms := Milliseconds(Wrap(Sum(samples)));
  }
}
