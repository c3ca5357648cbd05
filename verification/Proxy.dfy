/**
 The relay proxy of internal/relay/proxy.go: one end of the tunnel.

 The tunnel itself is a parameter: a forwarded datagram is handed back with whether it
 was sent, and received datagrams come in as arguments.  The `...Step` functions specify
 one call each; class `Proxy` is the code, proved against them.
 */
module Proxies {
  import opened Wrappers
  import opened Frames
  import opened Sessions

  datatype Config = Config(peer: string, timeout: int)

  datatype ProxyState = ProxyState(sessions: Registry, bytesIn: nat, bytesOut: nat, packetsDropped: nat,
                                   rttSamples: seq<int>)

  const EMPTY := ProxyState(map[], 0, 0, 0, [])

  /** The clock as the handling of one datagram reads it. */
  datatype Readings = Readings(created: int, touched: int, measured: int)

  const MAX_SAMPLES: nat := 100
  const MAX_DURATION: int := 0x7FFF_FFFF_FFFF_FFFF
  const MIN_DURATION: int := -0x8000_0000_0000_0000

  /** `time.Since`: a difference of times, held within a 64-bit duration. */
  function Since(now: int, past: int): (d: int)
    ensures MIN_DURATION <= d <= MAX_DURATION
  {
    var d := now - past;
    if d > MAX_DURATION then MAX_DURATION else if d < MIN_DURATION then MIN_DURATION else d
  }

  function Sampled(samples: seq<int>, rtt: int): seq<int> {
    var s := samples + [rtt];
    if |s| > MAX_SAMPLES then s[1..] else s
  }

  function SessionFor(c: Config, m: Registry, id: FrameID, now: int): SessionView {
    if id in m then m[id] else Opened(c.peer, now, c.timeout)
  }

  /** A datagram as `DecodeFrame` sees it: junk, or a frame and how many bytes follow it. */
  datatype Arrival = Junk | Arrived(frame: Frame, surplus: nat)

  function ArrivalOf(d: seq<Byte>): (a: Arrival)
    ensures a.Junk? <==> Decoded(d).Failure?
    ensures a.Arrived? ==> Decoded(d) == Success(a.frame) && FrameSize(|a.frame.payload|) + a.surplus == |d|
  {
    match Decoded(d)
    case Failure(_) => Junk
    case Success(f) => Arrived(f, |d| - HEADER_SIZE - |f.payload|)
  }

  function FrameSize(payload: nat): nat {
    HEADER_SIZE + payload
  }

  /** A datagram that decodes is counted, in its session and in the totals; any other changes nothing. */
  function HandleStep(c: Config, p: ProxyState, a: Arrival, r: Readings): (ProxyState, bool) {
    match a
    case Junk => (p, false)
    case Arrived(f, surplus) =>
      var s := SessionFor(c, p.sessions, f.sessionID, r.created);
      (p.(bytesIn := p.bytesIn + FrameSize(|f.payload|) + surplus,
          sessions := p.sessions[f.sessionID := s.(stats := PacketIn(s.stats, |f.payload|, r.touched))],
          rttSamples := Sampled(p.rttSamples, Since(r.measured, f.timestamp))), true)
  }

  /** The receive branch of `Run`: a datagram that cannot be handled counts as dropped. */
  function ReceiveStep(c: Config, p: ProxyState, a: Arrival, r: Readings): ProxyState {
    var (p', ok) := HandleStep(c, p, a, r);
    if ok then p' else p'.(packetsDropped := p'.packetsDropped + 1)
  }

  /** What `ForwardPacket` is asked to send. */
  datatype Packet = Packet(sessionID: FrameID, flowID: UInt16, direction: Byte, payload: seq<Byte>)

  function FrameOf(k: Packet, now: int): Frame {
    Frame(k.sessionID, k.flowID, k.direction, now, k.payload)
  }

  /** Whether the packet goes out: its frame encodes and the tunnel takes it. */
  predicate Sends(k: Packet, tunnelTakes: bool) {
    |k.payload| <= MAX_PAYLOAD && tunnelTakes
  }

  /** The datagram that goes out. */
  function Outgoing(k: Packet, now: int, tunnelTakes: bool): (d: Option<seq<Byte>>)
    ensures d.Some? <==> Sends(k, tunnelTakes)
    ensures d.Some? ==> Encoded(FrameOf(k, now)) == Success(d.value) && |d.value| == FrameSize(|k.payload|)
  {
    var e := Encoded(FrameOf(k, now));
    if e.Success? && tunnelTakes then Some(e.value) else None
  }

  /** A sent packet counts in the totals, and in its session if there is one. */
  function ForwardStep(p: ProxyState, k: Packet, touched: int, tunnelTakes: bool): ProxyState {
    if !Sends(k, tunnelTakes) then p
    else
      var p1 := p.(bytesOut := p.bytesOut + FrameSize(|k.payload|));
      if k.sessionID !in p.sessions then p1
      else
        var s := p.sessions[k.sessionID];
        p1.(sessions := p.sessions[k.sessionID := s.(stats := PacketOut(s.stats, |k.payload|, touched))])
  }

  function TickStep(p: ProxyState, clock: Clock): ProxyState {
    p.(sessions := Unexpired(p.sessions, clock))
  }

  // ----- statistics -----

  function Sum(s: seq<int>): int {
    if s == [] then 0 else Sum(s[..|s| - 1]) + s[|s| - 1]
  }

  /** Addition of 64-bit durations. */
  function Wrap(d: int): int {
    ToInt64(ToUint64(d))
  }

  /** `Duration.Milliseconds`: Go's division truncates toward zero. */
  function Milliseconds(d: int): int {
    if d >= 0 then d / 1_000_000 else -(-d / 1_000_000)
  }

  datatype ProxyStats = ProxyStats(bytesIn: nat, bytesOut: nat, packetsDropped: nat, sessionsActive: nat,
                                   avgRTTMs: real)

  /** The reported average round-trip time, in milliseconds. */
  function AverageRTT(samples: seq<int>): real {
    if samples == [] then 0.0 else Milliseconds(Wrap(Sum(samples))) as real / |samples| as real
  }

  lemma WrapAdds(a: int, b: int)
    ensures Wrap(Wrap(a) + b) == Wrap(a + b)
  {
  }

  // ----- the code -----

  lemma LastWriteCounts(m: Registry, id: FrameID, s: SessionView, t: SessionView)
    ensures m[id := s][id := t] == m[id := t]
  {
  }

  class Proxy {
    const peer: string
    const sessions: Manager
    var bytesIn: nat
    var bytesOut: nat
    var packetsDropped: nat
    var rttSamples: seq<int>

    constructor (peer: string, timeout: int)
      ensures Valid() && fresh(sessions) && Settings() == Config(peer, timeout) && View() == EMPTY
    {
      this.peer := peer;
      sessions := new Manager(timeout);
      bytesIn, bytesOut, packetsDropped, rttSamples := 0, 0, 0, [];
    }

    ghost predicate Valid()
      reads sessions
    {
      sessions.Valid()
    }

    ghost function Settings(): Config {
      Config(peer, sessions.defaultTimeout)
    }

    ghost function View(): ProxyState
      reads this, sessions, sessions.sessions.Values
    {
      ProxyState(sessions.View(), bytesIn, bytesOut, packetsDropped, rttSamples)
    }

    method HandleDatagram(data: array<Byte>, r: Readings) returns (ok: bool)
      requires Valid()
      modifies this, sessions, sessions.sessions.Values
      ensures Valid() && fresh(sessions.sessions.Values - old(sessions.sessions.Values))
      ensures (View(), ok) == HandleStep(Settings(), old(View()), ArrivalOf(data[..]), r)
    {
      var decoded := DecodeFrame(data);
      if decoded.Failure? {
        return false;
      }
      ghost var a := ArrivalOf(data[..]);
      HandleFrame(decoded.value, data.Length, a.surplus, r);
      return true;
    }

    /** The accounting of `handleDatagram` for a datagram of `size` bytes that decoded. */
    method HandleFrame(frame: Frame, size: nat, ghost surplus: nat, r: Readings)
      requires Valid() && size == FrameSize(|frame.payload|) + surplus
      modifies this, sessions, sessions.sessions.Values
      ensures Valid() && fresh(sessions.sessions.Values - old(sessions.sessions.Values))
      ensures View() == HandleStep(Settings(), old(View()), Arrived(frame, surplus), r).0
    {
      bytesIn := bytesIn + size;
      CountIn(frame.sessionID, |frame.payload|, r);
      RecordRTT(Since(r.measured, frame.timestamp));
    }

    method RecordRTT(rtt: int)
      modifies this`rttSamples
      ensures rttSamples == Sampled(old(rttSamples), rtt)
    {
      rttSamples := rttSamples + [rtt];
      if |rttSamples| > MAX_SAMPLES {
        rttSamples := rttSamples[1..];
      }
    }

    /** Finds or creates the session of a received frame, and records the packet in it. */
    method CountIn(id: FrameID, n: nat, r: Readings)
      requires Valid()
      modifies sessions, sessions.sessions.Values
      ensures Valid() && fresh(sessions.sessions.Values - old(sessions.sessions.Values))
      ensures var s := SessionFor(Settings(), old(sessions.View()), id, r.created);
              sessions.View() == old(sessions.View())[id := s.(stats := PacketIn(s.stats, n, r.touched))]
    {
      ghost var was := sessions.View();
      var s := SessionOf(id, r.created);
      ghost var entered := s.View();
      RecordIn(id, s, n, r.touched);
      LastWriteCounts(was, id, entered, s.View());
    }

    /** Records a received packet in a registered session. */
    method RecordIn(id: FrameID, s: Session, n: nat, now: int)
      requires Valid() && id in sessions.sessions && sessions.sessions[id] == s
      modifies s
      ensures s.View() == old(s.View()).(stats := PacketIn(old(s.View()).stats, n, now))
      ensures sessions.View() == old(sessions.View())[id := s.View()]
    {
      s.RecordPacketIn(n, now);
    }

    /** The session of a received frame, created if missing. */
    method SessionOf(id: FrameID, now: int) returns (s: Session)
      requires Valid()
      modifies sessions
      ensures Valid() && fresh(sessions.sessions.Values - old(sessions.sessions.Values))
      ensures (s in old(sessions.sessions.Values) || fresh(s)) && id in sessions.sessions && sessions.sessions[id] == s
      ensures s.View() == SessionFor(Settings(), old(sessions.View()), id, now)
      ensures sessions.View() == old(sessions.View())[id := s.View()]
    {
      var found := sessions.Get(id);
      if found.None? {
        s := sessions.Create(id, peer, now);
      } else {
        s := found.value;
      }
    }

    /** One datagram from the tunnel, as the loop of `Run` takes it. */
    method Receive(data: array<Byte>, r: Readings)
      requires Valid()
      modifies this, sessions, sessions.sessions.Values
      ensures Valid() && fresh(sessions.sessions.Values - old(sessions.sessions.Values))
      ensures View() == ReceiveStep(Settings(), old(View()), ArrivalOf(data[..]), r)
    {
      var ok := HandleDatagram(data, r);
      if !ok {
        packetsDropped := packetsDropped + 1;
      }
    }

    /** One tick of the garbage-collection ticker of `Run`. */
    method Tick(clock: Clock)
      requires Valid()
      modifies sessions
      ensures Valid() && sessions.sessions.Values <= old(sessions.sessions.Values)
      ensures View() == TickStep(old(View()), clock)
    {
      var _ := sessions.GC(clock);
    }

    method ForwardPacket(k: Packet, now: int, touched: int, tunnelTakes: bool) returns (out: Option<seq<Byte>>)
      requires Valid()
      modifies this, sessions.sessions.Values
      ensures Valid() && out == Outgoing(k, now, tunnelTakes)
      ensures View() == ForwardStep(old(View()), k, touched, tunnelTakes)
    {
      var data := Encode(FrameOf(k, now));
      if data.Failure? || !tunnelTakes {
        return None;
      }
      bytesOut := bytesOut + data.value.Length;
      out := Some(data.value[..]);
      var found := sessions.Get(k.sessionID);
      if found.Some? {
        found.value.RecordPacketOut(|k.payload|, touched);
      }
      assert sessions.View() == ForwardStep(old(View()), k, touched, tunnelTakes).sessions;
    }

    method GetStats() returns (stats: ProxyStats)
      ensures stats == ProxyStats(bytesIn, bytesOut, packetsDropped, |sessions.View()|, AverageRTT(rttSamples))
    {
      var active := sessions.Count();
      var avg := 0.0;
      if |rttSamples| > 0 {
        var total := 0;
        for i := 0 to |rttSamples|
          invariant total == Wrap(Sum(rttSamples[..i]))
        {
          assert rttSamples[..i + 1][..i] == rttSamples[..i];
          WrapAdds(Sum(rttSamples[..i]), rttSamples[i]);
          total := Wrap(total + rttSamples[i]);
        }
        assert rttSamples[..|rttSamples|] == rttSamples;
        avg := Milliseconds(total) as real / |rttSamples| as real;
      }
      return ProxyStats(bytesIn, bytesOut, packetsDropped, active, avg);
    }
  }
}
