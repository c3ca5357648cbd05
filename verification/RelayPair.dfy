/**
 Two relay proxies joined by a tunnel of unreliable datagrams (section 5 of RFC 9221):
 datagrams may be lost or reordered, but not invented or repeated.
 */
module RelayPair {
  import opened Frames
  import opened Sessions
  import opened Proxies
  import opened ProxyLaws

  datatype Side = Left | Right

  /** The datagrams on their way to one side, and those that never arrive. */
  datatype Lane = Lane(inFlight: seq<seq<Byte>>, lost: seq<seq<Byte>>)

  /** What each proxy has done so far, and the lane towards each of them. */
  datatype World = World(left: seq<Event>, right: seq<Event>, toLeft: Lane, toRight: Lane)

  datatype Move =
    | Send(from: Side, packet: Packet, now: int, touched: int, tunnelTakes: bool)
    | Deliver(to: Side, which: nat, at: Readings)
    | Lose(to: Side, which: nat)
    | Collect(where: Side, began: int, clock: Clock, ended: int)

  const START := World([], [], Lane([], []), Lane([], []))

  function Without<T>(s: seq<T>, i: nat): seq<T>
    requires i < |s|
  {
    s[..i] + s[i + 1..]
  }

  // ----- one direction -----

  function EnqueueOn(lane: Lane, k: Packet, now: int, takes: bool): Lane {
    var d := Outgoing(k, now, takes);
    if d.Some? then lane.(inFlight := lane.inFlight + [d.value]) else lane
  }

  function DeliverOn(lane: Lane, which: nat): Lane
    requires which < |lane.inFlight|
  {
    lane.(inFlight := Without(lane.inFlight, which))
  }

  function LoseOn(lane: Lane, which: nat): Lane
    requires which < |lane.inFlight|
  {
    Lane(Without(lane.inFlight, which), lane.lost + [lane.inFlight[which]])
  }

  // ----- the pair -----

  function LaneTo(w: World, side: Side): Lane {
    if side.Left? then w.toLeft else w.toRight
  }

  function EventsOf(w: World, side: Side): seq<Event> {
    if side.Left? then w.left else w.right
  }

  function Other(side: Side): Side {
    if side.Left? then Right else Left
  }

  function WithEvent(w: World, side: Side, e: Event): World {
    if side.Left? then w.(left := w.left + [e]) else w.(right := w.right + [e])
  }

  function WithLane(w: World, side: Side, lane: Lane): World {
    if side.Left? then w.(toLeft := lane) else w.(toRight := lane)
  }

  predicate Enabled(w: World, m: Move) {
    match m
    case Deliver(to, which, _) => which < |LaneTo(w, to).inFlight|
    case Lose(to, which) => which < |LaneTo(w, to).inFlight|
    case _ => true
  }

  function Next(w: World, m: Move): World
    requires Enabled(w, m)
  {
    match m
    case Send(from, k, now, touched, takes) =>
      WithLane(WithEvent(w, from, Forward(k, now, touched, takes)), Other(from),
               EnqueueOn(LaneTo(w, Other(from)), k, now, takes))
    case Deliver(to, which, at) =>
      WithLane(WithEvent(w, to, Receive(ArrivalOf(LaneTo(w, to).inFlight[which]), at)), to,
               DeliverOn(LaneTo(w, to), which))
    case Lose(to, which) => WithLane(w, to, LoseOn(LaneTo(w, to), which))
    case Collect(side, began, clock, ended) => WithEvent(w, side, Tick(began, clock, ended))
  }

  /** Every move of the run can be made when its turn comes. */
  predicate Possible(w: World, moves: seq<Move>)
    decreases |moves|
  {
    moves == [] || (Enabled(w, moves[0]) && Possible(Next(w, moves[0]), moves[1..]))
  }

  function After(w: World, moves: seq<Move>): World
    requires Possible(w, moves)
    decreases |moves|
  {
    if moves == [] then w else After(Next(w, moves[0]), moves[1..])
  }

  // ----- accounts of a direction -----

  /** What an event sent under session `id`. */
  function SentBy(k: Measure, e: Event, id: FrameID): nat {
    if e.Forward? && e.packet.sessionID == id && Sends(e.packet, e.tunnelTakes) then
      match k case Packets => 1 case PayloadBytes => |e.packet.payload| case WireBytes => FrameSize(|e.packet.payload|)
    else 0
  }

  function Sent(k: Measure, events: seq<Event>, id: FrameID): nat {
    if events == [] then 0
    else var n := |events| - 1; Sent(k, events[..n], id) + SentBy(k, events[n], id)
  }

  /** What datagrams carry under session `id`. */
  function Cargo(k: Measure, ds: seq<seq<Byte>>, id: FrameID): nat {
    if ds == [] then 0
    else var n := |ds| - 1; Cargo(k, ds[..n], id) + CargoOf(k, ArrivalOf(ds[n]), id)
  }

  function CargoOf(k: Measure, a: Arrival, id: FrameID): nat {
    if a.Arrived? && a.frame.sessionID == id then Gain(k, a) else 0
  }

  function Size(ds: seq<seq<Byte>>): nat {
    if ds == [] then 0 else var n := |ds| - 1; Size(ds[..n]) + |ds[n]|
  }

  function BytesSent(events: seq<Event>): nat {
    if events == [] then 0
    else
      var n := |events| - 1;
      var e := events[n];
      BytesSent(events[..n])
      + (if e.Forward? && Sends(e.packet, e.tunnelTakes) then FrameSize(|e.packet.payload|) else 0)
  }

  function BytesReceived(events: seq<Event>): nat {
    if events == [] then 0
    else
      var n := |events| - 1;
      var e := events[n];
      BytesReceived(events[..n])
      + (if e.Receive? && e.arrival.Arrived? then FrameSize(|e.arrival.frame.payload|) + e.arrival.surplus else 0)
  }

  /** The datagram is a frame and nothing else. */
  predicate Genuine(a: Arrival) {
    a.Arrived? && a.surplus == 0
  }

  ghost predicate Tallies(k: Measure, sender: seq<Event>, receiver: seq<Event>, lane: Lane, id: FrameID) {
    Sent(k, sender, id) == Accepted(k, receiver, id) + Cargo(k, lane.inFlight, id) + Cargo(k, lane.lost, id)
  }

  /** Everything sent is received, on its way, or lost; and it is all genuine. */
  ghost predicate Accounted(sender: seq<Event>, receiver: seq<Event>, lane: Lane) {
    && (forall k, id :: Tallies(k, sender, receiver, lane, id))
    && BytesSent(sender) == BytesReceived(receiver) + Size(lane.inFlight) + Size(lane.lost)
    && (forall i :: 0 <= i < |lane.inFlight| ==> Genuine(ArrivalOf(lane.inFlight[i])))
    && (forall i :: 0 <= i < |receiver| && receiver[i].Receive? ==> Genuine(receiver[i].arrival))
  }

  lemma OutgoingIsGenuine(k: Packet, now: int, takes: bool)
    requires Sends(k, takes)
    ensures var a := ArrivalOf(Outgoing(k, now, takes).value);
            Genuine(a) && a.frame.sessionID == k.sessionID && a.frame.payload == k.payload
  {
    var d := Outgoing(k, now, takes).value;
    FrameRoundTrip(FrameOf(k, now), []);
    assert d + [] == d;
  }

  lemma {:induction false} CargoWithout(k: Measure, ds: seq<seq<Byte>>, i: nat, id: FrameID)
    requires i < |ds|
    ensures Cargo(k, ds, id) == Cargo(k, Without(ds, i), id) + CargoOf(k, ArrivalOf(ds[i]), id)
    decreases |ds|
  {
    var n := |ds| - 1;
    if i < n {
      CargoWithout(k, ds[..n], i, id);
      assert Without(ds, i)[..n - 1] == Without(ds[..n], i);
    } else {
      assert Without(ds, i) == ds[..n];
    }
  }

  lemma {:induction false} SizeWithout(ds: seq<seq<Byte>>, i: nat)
    requires i < |ds|
    ensures Size(ds) == Size(Without(ds, i)) + |ds[i]|
    decreases |ds|
  {
    var n := |ds| - 1;
    if i < n {
      SizeWithout(ds[..n], i);
      assert Without(ds, i)[..n - 1] == Without(ds[..n], i);
    } else {
      assert Without(ds, i) == ds[..n];
    }
  }

  lemma SnocSums(k: Measure, events: seq<Event>, e: Event, id: FrameID)
    ensures Sent(k, events + [e], id) == Sent(k, events, id) + SentBy(k, e, id)
    ensures Accepted(k, events + [e], id) == Accepted(k, events, id) + Brought(k, e, id)
    ensures BytesSent(events + [e]) == BytesSent(events)
            + (if e.Forward? && Sends(e.packet, e.tunnelTakes) then FrameSize(|e.packet.payload|) else 0)
    ensures BytesReceived(events + [e]) == BytesReceived(events)
            + (if e.Receive? && e.arrival.Arrived? then FrameSize(|e.arrival.frame.payload|) + e.arrival.surplus else 0)
  {
    assert (events + [e])[..|events|] == events;
  }

  lemma SnocCargo(k: Measure, ds: seq<seq<Byte>>, d: seq<Byte>, id: FrameID)
    ensures Cargo(k, ds + [d], id) == Cargo(k, ds, id) + CargoOf(k, ArrivalOf(d), id)
    ensures Size(ds + [d]) == Size(ds) + |d|
  {
    assert (ds + [d])[..|ds|] == ds;
  }

  lemma SendTallies(k: Measure, sender: seq<Event>, receiver: seq<Event>, lane: Lane, p: Packet, now: int, touched: int,
                    takes: bool, id: FrameID)
    requires Tallies(k, sender, receiver, lane, id)
    ensures Tallies(k, sender + [Forward(p, now, touched, takes)], receiver, EnqueueOn(lane, p, now, takes), id)
  {
    SnocSums(k, sender, Forward(p, now, touched, takes), id);
    if Sends(p, takes) {
      OutgoingIsGenuine(p, now, takes);
      SnocCargo(k, lane.inFlight, Outgoing(p, now, takes).value, id);
    }
  }

  lemma SendKeepsAccounts(sender: seq<Event>, receiver: seq<Event>, lane: Lane, p: Packet, now: int, touched: int,
                          takes: bool)
    requires Accounted(sender, receiver, lane)
    ensures Accounted(sender + [Forward(p, now, touched, takes)], receiver, EnqueueOn(lane, p, now, takes))
  {
    forall k, id
      ensures Tallies(k, sender + [Forward(p, now, touched, takes)], receiver, EnqueueOn(lane, p, now, takes), id)
    {
      SendTallies(k, sender, receiver, lane, p, now, touched, takes, id);
    }
    SnocSums(Packets, sender, Forward(p, now, touched, takes), p.sessionID);
    if Sends(p, takes) {
      OutgoingIsGenuine(p, now, takes);
      SnocCargo(Packets, lane.inFlight, Outgoing(p, now, takes).value, p.sessionID);
    }
  }

  lemma DeliverTallies(k: Measure, sender: seq<Event>, receiver: seq<Event>, lane: Lane, which: nat, at: Readings,
                       id: FrameID)
    requires Tallies(k, sender, receiver, lane, id) && which < |lane.inFlight|
    ensures Tallies(k, sender, receiver + [Receive(ArrivalOf(lane.inFlight[which]), at)], DeliverOn(lane, which), id)
  {
    SnocSums(k, receiver, Receive(ArrivalOf(lane.inFlight[which]), at), id);
    CargoWithout(k, lane.inFlight, which, id);
  }

  lemma WithoutIndex<T>(s: seq<T>, i: nat, j: nat)
    requires i < |s| && j < |s| - 1
    ensures Without(s, i)[j] == s[if j < i then j else j + 1]
  {
  }

  lemma GenuineWithout(ds: seq<seq<Byte>>, i: nat)
    requires i < |ds| && forall j :: 0 <= j < |ds| ==> Genuine(ArrivalOf(ds[j]))
    ensures forall j :: 0 <= j < |ds| - 1 ==> Genuine(ArrivalOf(Without(ds, i)[j]))
  {
    forall j | 0 <= j < |ds| - 1
      ensures Genuine(ArrivalOf(Without(ds, i)[j]))
    {
      WithoutIndex(ds, i, j);
    }
  }

  lemma DeliverKeepsAccounts(sender: seq<Event>, receiver: seq<Event>, lane: Lane, which: nat, at: Readings)
    requires Accounted(sender, receiver, lane) && which < |lane.inFlight|
    ensures Accounted(sender, receiver + [Receive(ArrivalOf(lane.inFlight[which]), at)], DeliverOn(lane, which))
  {
    var e := Receive(ArrivalOf(lane.inFlight[which]), at);
    forall k, id
      ensures Tallies(k, sender, receiver + [e], DeliverOn(lane, which), id)
    {
      DeliverTallies(k, sender, receiver, lane, which, at, id);
    }
    SnocSums(Packets, receiver, e, e.arrival.frame.sessionID);
    SizeWithout(lane.inFlight, which);
    GenuineWithout(lane.inFlight, which);
  }

  lemma LoseTallies(k: Measure, sender: seq<Event>, receiver: seq<Event>, lane: Lane, which: nat, id: FrameID)
    requires Tallies(k, sender, receiver, lane, id) && which < |lane.inFlight|
    ensures Tallies(k, sender, receiver, LoseOn(lane, which), id)
  {
    CargoWithout(k, lane.inFlight, which, id);
    SnocCargo(k, lane.lost, lane.inFlight[which], id);
  }

  lemma LoseKeepsAccounts(sender: seq<Event>, receiver: seq<Event>, lane: Lane, which: nat)
    requires Accounted(sender, receiver, lane) && which < |lane.inFlight|
    ensures Accounted(sender, receiver, LoseOn(lane, which))
  {
    forall k, id
      ensures Tallies(k, sender, receiver, LoseOn(lane, which), id)
    {
      LoseTallies(k, sender, receiver, lane, which, id);
    }
    SizeWithout(lane.inFlight, which);
    SnocCargo(Packets, lane.lost, lane.inFlight[which], ArrivalOf(lane.inFlight[which]).frame.sessionID);
    GenuineWithout(lane.inFlight, which);
  }

  /** What a sender receives or collects, and what a receiver sends or collects, does not matter to the direction. */
  lemma OthersKeepAccounts(sender: seq<Event>, receiver: seq<Event>, lane: Lane, e: Event)
    requires Accounted(sender, receiver, lane)
    ensures !e.Forward? ==> Accounted(sender + [e], receiver, lane)
    ensures !e.Receive? ==> Accounted(sender, receiver + [e], lane)
  {
    forall k, id
      ensures !e.Forward? ==>
                && Tallies(k, sender + [e], receiver, lane, id)
                && BytesSent(sender + [e]) == BytesSent(sender)
      ensures !e.Receive? ==>
                && Tallies(k, sender, receiver + [e], lane, id)
                && BytesReceived(receiver + [e]) == BytesReceived(receiver)
    {
      assert Tallies(k, sender, receiver, lane, id);
      SnocSums(k, sender, e, id);
      SnocSums(k, receiver, e, id);
    }
  }

  /** Both directions are accounted for. */
  ghost predicate Sound(w: World) {
    && Accounted(w.left, w.right, w.toRight)
    && Accounted(w.right, w.left, w.toLeft)
  }

  lemma SendIsSound(w: World, from: Side, k: Packet, now: int, touched: int, takes: bool)
    requires Sound(w)
    ensures Sound(Next(w, Send(from, k, now, touched, takes)))
  {
    SendKeepsAccounts(EventsOf(w, from), EventsOf(w, Other(from)), LaneTo(w, Other(from)), k, now, touched, takes);
    OthersKeepAccounts(EventsOf(w, Other(from)), EventsOf(w, from), LaneTo(w, from), Forward(k, now, touched, takes));
  }

  lemma DeliverIsSound(w: World, to: Side, which: nat, at: Readings)
    requires Sound(w) && which < |LaneTo(w, to).inFlight|
    ensures Sound(Next(w, Deliver(to, which, at)))
  {
    DeliverKeepsAccounts(EventsOf(w, Other(to)), EventsOf(w, to), LaneTo(w, to), which, at);
    OthersKeepAccounts(EventsOf(w, to), EventsOf(w, Other(to)), LaneTo(w, Other(to)),
                       Receive(ArrivalOf(LaneTo(w, to).inFlight[which]), at));
  }

  lemma CollectIsSound(w: World, side: Side, began: int, clock: Clock, ended: int)
    requires Sound(w)
    ensures Sound(Next(w, Collect(side, began, clock, ended)))
  {
    OthersKeepAccounts(EventsOf(w, side), EventsOf(w, Other(side)), LaneTo(w, Other(side)), Tick(began, clock, ended));
    OthersKeepAccounts(EventsOf(w, Other(side)), EventsOf(w, side), LaneTo(w, side), Tick(began, clock, ended));
  }

  lemma NextIsSound(w: World, m: Move)
    requires Sound(w) && Enabled(w, m)
    ensures Sound(Next(w, m))
  {
    match m
    case Send(from, k, now, touched, takes) => SendIsSound(w, from, k, now, touched, takes);
    case Deliver(to, which, at) => DeliverIsSound(w, to, which, at);
    case Lose(to, which) => LoseKeepsAccounts(EventsOf(w, Other(to)), EventsOf(w, to), LaneTo(w, to), which);
    case Collect(side, began, clock, ended) => CollectIsSound(w, side, began, clock, ended);
  }

  lemma {:induction false} RunIsSound(w: World, moves: seq<Move>)
    requires Sound(w) && Possible(w, moves)
    ensures Sound(After(w, moves))
    decreases |moves|
  {
    if moves != [] {
      NextIsSound(w, moves[0]);
      RunIsSound(Next(w, moves[0]), moves[1..]);
    }
  }

  // ----- what the proxies themselves report -----

  lemma {:induction false} ProxyBytes(c: Config, events: seq<Event>)
    ensures Run(c, events).bytesOut == BytesSent(events)
    ensures Run(c, events).bytesIn == BytesReceived(events)
  {
    if events != [] {
      ProxyBytes(c, events[..|events| - 1]);
    }
  }

  lemma {:induction false} NothingDropped(c: Config, events: seq<Event>)
    requires forall i :: 0 <= i < |events| && events[i].Receive? ==> Genuine(events[i].arrival)
    ensures Run(c, events).packetsDropped == 0
  {
    if events != [] {
      NothingDropped(c, events[..|events| - 1]);
    }
  }

  lemma {:induction false} SessionHasPackets(c: Config, events: seq<Event>, id: FrameID)
    ensures id in Run(c, events).sessions ==> Live(Packets, Run(c, events).sessions, id) > 0
    ensures Collected(Packets, c, events, id) >= 0 && Collected(PayloadBytes, c, events, id) >= 0
  {
    if events != [] {
      SessionHasPackets(c, events[..|events| - 1], id);
    }
  }

  /**
   In every run of two proxies over such a tunnel, what the receiver has ever counted for a
   session, plus what is on its way and what was lost, is exactly what its peer forwarded;
   so no session exists that was not forwarded, nothing is dropped, and the bytes agree.
   */
  lemma RelayIsExact(cs: Config, cr: Config, moves: seq<Move>, from: Side, id: FrameID, k: Measure)
    requires Possible(START, moves)
    ensures var w := After(START, moves);
            var sender, receiver, lane := EventsOf(w, from), EventsOf(w, Other(from)), LaneTo(w, Other(from));
            var s, r := Run(cs, sender), Run(cr, receiver);
            && Collected(k, cr, receiver, id) + Live(k, r.sessions, id) + Cargo(k, lane.inFlight, id)
               + Cargo(k, lane.lost, id)
               == Sent(k, sender, id)
            && (id in r.sessions ==> Sent(Packets, sender, id) > 0)
            && s.bytesOut == r.bytesIn + Size(lane.inFlight) + Size(lane.lost)
            && r.packetsDropped == 0
  {
    var w := After(START, moves);
    var sender, receiver := EventsOf(w, from), EventsOf(w, Other(from));
    RunIsSound(START, moves);
    SessionAccountsExact(k, cr, receiver, id);
    SessionAccountsExact(Packets, cr, receiver, id);
    assert Tallies(k, sender, receiver, LaneTo(w, Other(from)), id)
           && Tallies(Packets, sender, receiver, LaneTo(w, Other(from)), id);
    SessionHasPackets(cr, receiver, id);
    ProxyBytes(cs, sender);
    ProxyBytes(cr, receiver);
    NothingDropped(cr, receiver);
  }
}
