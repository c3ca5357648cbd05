/** What two joined proxies exchange: every frame that arrives is one the peer forwarded, field by field. */
module RelayFrames {
  import opened Wrappers
  import opened Frames
  import opened Sessions
  import opened Proxies
  import opened ProxyLaws
  import opened RelayPair

  /** Exactly the packets of up to 1200 bytes that the tunnel takes go out, and each decodes to its own five fields. */
  lemma OutgoingDecodes(k: Packet, now: int, takes: bool)
    ensures Outgoing(k, now, takes).Some? <==> |k.payload| <= 1200 && takes
    ensures Outgoing(k, now, takes).Some? ==>
              Decoded(Outgoing(k, now, takes).value)
              == Success(Frame(k.sessionID, k.flowID, k.direction, OnWire(now), k.payload))
  {
    if Sends(k, takes) {
      var d := Outgoing(k, now, takes).value;
      FrameRoundTrip(FrameOf(k, now), []);
      assert d + [] == d;
    }
  }

  // ----- the frames sent, received, on their way and lost -----

  /** The frames of the packets that went out, with their timestamps as the wire carries them. */
  function SentFrames(events: seq<Event>): multiset<Frame> {
    if events == [] then multiset{}
    else var n := |events| - 1; SentFrames(events[..n]) + SentFrame(events[n])
  }

  function SentFrame(e: Event): multiset<Frame> {
    if e.Forward? && |e.packet.payload| <= 1200 && e.tunnelTakes then
      var k := e.packet;
      multiset{Frame(k.sessionID, k.flowID, k.direction, OnWire(e.now), k.payload)}
    else multiset{}
  }

  function ReceivedFrames(events: seq<Event>): multiset<Frame> {
    if events == [] then multiset{}
    else
      var n := |events| - 1;
      ReceivedFrames(events[..n]) + (if events[n].Receive? then FrameIn(events[n].arrival) else multiset{})
  }

  function FrameIn(a: Arrival): multiset<Frame> {
    if a.Arrived? then multiset{a.frame} else multiset{}
  }

  function FramesIn(ds: seq<seq<Byte>>): multiset<Frame> {
    if ds == [] then multiset{}
    else var n := |ds| - 1; FramesIn(ds[..n]) + FrameIn(ArrivalOf(ds[n]))
  }

  /** Each frame sent is received, on its way, or lost, and nothing else is. */
  ghost predicate Delivers(sender: seq<Event>, receiver: seq<Event>, lane: Lane) {
    SentFrames(sender) == ReceivedFrames(receiver) + FramesIn(lane.inFlight) + FramesIn(lane.lost)
  }

  lemma SnocFrames(events: seq<Event>, e: Event)
    ensures SentFrames(events + [e]) == SentFrames(events) + SentFrame(e)
    ensures ReceivedFrames(events + [e])
         == ReceivedFrames(events) + (if e.Receive? then FrameIn(e.arrival) else multiset{})
  {
    assert (events + [e])[..|events|] == events;
  }

  lemma SnocDatagram(ds: seq<seq<Byte>>, d: seq<Byte>)
    ensures FramesIn(ds + [d]) == FramesIn(ds) + FrameIn(ArrivalOf(d))
  {
    assert (ds + [d])[..|ds|] == ds;
  }

  lemma AddInAnyOrder<T>(a: multiset<T>, b: multiset<T>, c: multiset<T>)
    ensures a + b + c == a + c + b
  {
  }

  lemma WithoutSnoc<T>(s: seq<T>, i: nat)
    requires i < |s| - 1
    ensures Without(s, i) == Without(s[..|s| - 1], i) + [s[|s| - 1]]
  {
  }

  lemma {:induction false} FramesWithout(ds: seq<seq<Byte>>, i: nat)
    requires i < |ds|
    ensures FramesIn(ds) == FramesIn(Without(ds, i)) + FrameIn(ArrivalOf(ds[i]))
    decreases |ds|
  {
    var n := |ds| - 1;
    if i < n {
      var rest := Without(ds[..n], i);
      FramesWithout(ds[..n], i);
      WithoutSnoc(ds, i);
      SnocDatagram(rest, ds[n]);
      AddInAnyOrder(FramesIn(rest), FrameIn(ArrivalOf(ds[i])), FrameIn(ArrivalOf(ds[n])));
    } else {
      assert Without(ds, i) == ds[..n];
    }
  }

  lemma SendDelivers(sender: seq<Event>, receiver: seq<Event>, lane: Lane, k: Packet, now: int, touched: int,
                     takes: bool)
    requires Delivers(sender, receiver, lane)
    ensures Delivers(sender + [Forward(k, now, touched, takes)], receiver, EnqueueOn(lane, k, now, takes))
  {
    SnocFrames(sender, Forward(k, now, touched, takes));
    OutgoingDecodes(k, now, takes);
    if |k.payload| <= 1200 && takes {
      SnocDatagram(lane.inFlight, Outgoing(k, now, takes).value);
    }
  }

  lemma DeliverDelivers(sender: seq<Event>, receiver: seq<Event>, lane: Lane, which: nat, at: Readings)
    requires Delivers(sender, receiver, lane) && which < |lane.inFlight|
    ensures Delivers(sender, receiver + [Receive(ArrivalOf(lane.inFlight[which]), at)], DeliverOn(lane, which))
  {
    SnocFrames(receiver, Receive(ArrivalOf(lane.inFlight[which]), at));
    FramesWithout(lane.inFlight, which);
  }

  lemma LoseDelivers(sender: seq<Event>, receiver: seq<Event>, lane: Lane, which: nat)
    requires Delivers(sender, receiver, lane) && which < |lane.inFlight|
    ensures Delivers(sender, receiver, LoseOn(lane, which))
  {
    FramesWithout(lane.inFlight, which);
    SnocDatagram(lane.lost, lane.inFlight[which]);
  }

  lemma OthersDeliver(sender: seq<Event>, receiver: seq<Event>, lane: Lane, e: Event)
    requires Delivers(sender, receiver, lane)
    ensures !e.Forward? ==> Delivers(sender + [e], receiver, lane)
    ensures !e.Receive? ==> Delivers(sender, receiver + [e], lane)
  {
    SnocFrames(sender, e);
    SnocFrames(receiver, e);
  }

  ghost predicate BothDeliver(w: World) {
    Delivers(w.left, w.right, w.toRight) && Delivers(w.right, w.left, w.toLeft)
  }

  lemma SendMoveDelivers(w: World, from: Side, k: Packet, now: int, touched: int, takes: bool)
    requires BothDeliver(w)
    ensures BothDeliver(Next(w, Send(from, k, now, touched, takes)))
  {
    SendDelivers(EventsOf(w, from), EventsOf(w, Other(from)), LaneTo(w, Other(from)), k, now, touched, takes);
    OthersDeliver(EventsOf(w, Other(from)), EventsOf(w, from), LaneTo(w, from), Forward(k, now, touched, takes));
  }

  lemma DeliverMoveDelivers(w: World, to: Side, which: nat, at: Readings)
    requires BothDeliver(w) && which < |LaneTo(w, to).inFlight|
    ensures BothDeliver(Next(w, Deliver(to, which, at)))
  {
    DeliverDelivers(EventsOf(w, Other(to)), EventsOf(w, to), LaneTo(w, to), which, at);
    OthersDeliver(EventsOf(w, to), EventsOf(w, Other(to)), LaneTo(w, Other(to)),
                  Receive(ArrivalOf(LaneTo(w, to).inFlight[which]), at));
  }

  lemma CollectMoveDelivers(w: World, side: Side, began: int, clock: Clock, ended: int)
    requires BothDeliver(w)
    ensures BothDeliver(Next(w, Collect(side, began, clock, ended)))
  {
    var e := Tick(began, clock, ended);
    OthersDeliver(w.left, w.right, w.toRight, e);
    OthersDeliver(w.right, w.left, w.toLeft, e);
    assert Next(w, Collect(side, began, clock, ended)) == WithEvent(w, side, e);
  }

  lemma NextDelivers(w: World, m: Move)
    requires BothDeliver(w) && Enabled(w, m)
    ensures BothDeliver(Next(w, m))
  {
    match m
    case Send(from, k, now, touched, takes) => SendMoveDelivers(w, from, k, now, touched, takes);
    case Deliver(to, which, at) => DeliverMoveDelivers(w, to, which, at);
    case Lose(to, which) => LoseDelivers(EventsOf(w, Other(to)), EventsOf(w, to), LaneTo(w, to), which);
    case Collect(side, began, clock, ended) => CollectMoveDelivers(w, side, began, clock, ended);
  }

  lemma {:induction false} RunDelivers(w: World, moves: seq<Move>)
    requires BothDeliver(w) && Possible(w, moves)
    ensures BothDeliver(After(w, moves))
    decreases |moves|
  {
    if moves != [] {
      NextDelivers(w, moves[0]);
      RunDelivers(Next(w, moves[0]), moves[1..]);
    }
  }

  // ----- the theorem -----

  /** Frame `f` is packet `e`, with the time it was sent at as the wire carries it. */
  predicate IsFrameOf(f: Frame, e: Event) {
    && e.Forward?
    && f.sessionID == e.packet.sessionID && f.flowID == e.packet.flowID && f.direction == e.packet.direction
    && f.payload == e.packet.payload && f.timestamp == OnWire(e.now)
  }

  lemma {:induction false} SentBySomeone(events: seq<Event>, f: Frame)
    requires f in SentFrames(events)
    ensures exists j :: 0 <= j < |events| && IsFrameOf(f, events[j])
  {
    var n := |events| - 1;
    if f in SentFrames(events[..n]) {
      SentBySomeone(events[..n], f);
      var j :| 0 <= j < n && IsFrameOf(f, events[..n][j]);
      assert IsFrameOf(f, events[j]);
    } else {
      assert IsFrameOf(f, events[n]);
    }
  }

  lemma {:induction false} ReceivedIsCounted(events: seq<Event>, i: nat)
    requires i < |events| && events[i].Receive? && events[i].arrival.Arrived?
    ensures events[i].arrival.frame in ReceivedFrames(events)
    decreases |events|
  {
    var n := |events| - 1;
    if i < n {
      ReceivedIsCounted(events[..n], i);
    }
  }

  /**
   In every run, the frames received, those on their way and those lost are together
   exactly the frames sent, each as often as it was sent; so every frame received carries
   the session, flow, direction, payload and time of a packet that the peer forwarded.
   */
  lemma RelayIsFaithful(moves: seq<Move>, from: Side)
    requires Possible(START, moves)
    ensures var w := After(START, moves);
            var sender, receiver, lane := EventsOf(w, from), EventsOf(w, Other(from)), LaneTo(w, Other(from));
            && SentFrames(sender) == ReceivedFrames(receiver) + FramesIn(lane.inFlight) + FramesIn(lane.lost)
            && forall i :: 0 <= i < |receiver| && receiver[i].Receive? && receiver[i].arrival.Arrived? ==>
                 exists j :: 0 <= j < |sender| && IsFrameOf(receiver[i].arrival.frame, sender[j])
  {
    var w := After(START, moves);
    var sender, receiver := EventsOf(w, from), EventsOf(w, Other(from));
    RunDelivers(START, moves);
    forall i | 0 <= i < |receiver| && receiver[i].Receive? && receiver[i].arrival.Arrived?
      ensures exists j :: 0 <= j < |sender| && IsFrameOf(receiver[i].arrival.frame, sender[j])
    {
      ReceivedIsCounted(receiver, i);
      SentBySomeone(sender, receiver[i].arrival.frame);
    }
  }
}
