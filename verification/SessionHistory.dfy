/** What a session's fields say of the events behind it: how it opened, what it sent, and when it can go. */
module SessionHistory {
  import opened Frames
  import opened Sessions
  import opened Proxies
  import opened ProxyLaws
  import opened SessionLaws

  // ----- how a session opened -----

  /** Event `m` opened the session with `id` that is there after the events. */
  ghost predicate OpenedBy(c: Config, events: seq<Event>, id: FrameID, m: nat) {
    && m < |events| && Arrives(events[m], id) && id !in Run(c, events[..m]).sessions
    && forall j :: m < j <= |events| ==> id in Run(c, events[..j]).sessions
  }

  lemma OpenedBefore(c: Config, events: seq<Event>, id: FrameID, m: nat)
    requires events != [] && OpenedBy(c, events[..|events| - 1], id, m) && id in Run(c, events).sessions
    ensures OpenedBy(c, events, id, m)
  {
    var n := |events| - 1;
    assert events[..n][..m] == events[..m] && events[..n + 1] == events;
    forall j | m < j <= n
      ensures id in Run(c, events[..j]).sessions
    {
      assert events[..n][..j] == events[..j];
    }
  }

  /**
   A live session was opened by a frame for its id that found none, and has been there
   since: it is active, names the tunnel's peer, and holds that frame's time and the
   proxy's timeout.
   */
  lemma {:induction false} SessionOpening(c: Config, events: seq<Event>, id: FrameID) returns (m: nat)
    requires id in Run(c, events).sessions
    ensures OpenedBy(c, events, id, m)
    ensures var s := Run(c, events).sessions[id];
            s.phase == Active && s.peerAddr == c.peer && s.timeout == c.timeout && s.stats.packetsDropped == 0
            && s.stats.createdAt == events[m].at.created
  {
    var n := |events| - 1;
    assert events[..n + 1] == events;
    if id in Run(c, events[..n]).sessions {
      m := SessionOpening(c, events[..n], id);
      OpenedBefore(c, events, id, m);
    } else {
      m := n;
    }
  }

  // ----- what a session sent -----

  datatype OutMeasure = PacketsOut | BytesOut

  function LoadOut(k: OutMeasure, st: Stats): int {
    match k case PacketsOut => st.packetsOut case BytesOut => st.bytesOut
  }

  function LiveOut(k: OutMeasure, m: Registry, id: FrameID): int {
    if id in m then LoadOut(k, m[id].stats) else 0
  }

  function TakenOut(k: OutMeasure, m: Registry, e: Event, id: FrameID): int {
    if e.Tick? && id in m && Expired(m[id], e.clock(id)) then LoadOut(k, m[id].stats) else 0
  }

  /** What the collected incarnations of session `id` had sent. */
  function CollectedOut(k: OutMeasure, c: Config, events: seq<Event>, id: FrameID): int {
    if events == [] then 0
    else
      var n := |events| - 1;
      CollectedOut(k, c, events[..n], id) + TakenOut(k, Run(c, events[..n]).sessions, events[n], id)
  }

  /** What a forwarded packet of up to 1200 bytes that the tunnel took adds to the session `id`. */
  function Departed(k: OutMeasure, e: Event, id: FrameID): nat {
    if e.Forward? && e.packet.sessionID == id && |e.packet.payload| <= 1200 && e.tunnelTakes then
      match k case PacketsOut => 1 case BytesOut => |e.packet.payload|
    else 0
  }

  /** What went out under session `id` while there was such a session. */
  function SentWhileLive(k: OutMeasure, c: Config, events: seq<Event>, id: FrameID): nat {
    if events == [] then 0
    else
      var n := |events| - 1;
      SentWhileLive(k, c, events[..n], id)
      + (if id in Run(c, events[..n]).sessions then Departed(k, events[n], id) else 0)
  }

  /**
   What the live session and its collected incarnations count as sent is exactly what went
   out under the id while a session was there.
   */
  lemma {:induction false} SentAccountsExact(k: OutMeasure, c: Config, events: seq<Event>, id: FrameID)
    ensures CollectedOut(k, c, events, id) + LiveOut(k, Run(c, events).sessions, id) == SentWhileLive(k, c, events, id)
  {
    if events != [] {
      SentAccountsExact(k, c, events[..|events| - 1], id);
    }
  }

  // ----- a timeout that is not positive -----

  /** With a timeout of zero or less no session is ever collected, however long it is idle. */
  lemma {:induction false} NoTimeoutKeeps(c: Config, events: seq<Event>, id: FrameID)
    requires c.timeout <= 0
    ensures id in Run(c, events).sessions <==> EverArrives(events, id)
    ensures id in Run(c, events).sessions ==> Run(c, events).sessions[id].timeout == c.timeout
  {
    if events != [] {
      NoTimeoutKeeps(c, events[..|events| - 1], id);
      ArrivesSnoc(events, id);
    }
  }
}
