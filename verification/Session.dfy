/**
 Relay sessions and their registry, internal/relay/session.go.  Times and timeouts are
 nanoseconds, passed where the code reads the clock.
 */
module Sessions {
  import opened Wrappers
  import opened Frames

  datatype Phase = Active | Closing | Closed

  datatype Stats = Stats(packetsIn: nat, packetsOut: nat, bytesIn: nat, bytesOut: nat, packetsDropped: nat,
                         createdAt: int, lastActive: int)

  datatype SessionView = SessionView(phase: Phase, peerAddr: string, stats: Stats, timeout: int)

  type Registry = map<FrameID, SessionView>

  function Opened(peerAddr: string, now: int, timeout: int): SessionView {
    SessionView(Active, peerAddr, Stats(0, 0, 0, 0, 0, now, now), timeout)
  }

  function PacketIn(st: Stats, n: nat, now: int): Stats {
    st.(packetsIn := st.packetsIn + 1, bytesIn := st.bytesIn + n, lastActive := now)
  }

  function PacketOut(st: Stats, n: nat, now: int): Stats {
    st.(packetsOut := st.packetsOut + 1, bytesOut := st.bytesOut + n, lastActive := now)
  }

  predicate Expired(s: SessionView, now: int) {
    s.timeout > 0 && now - s.stats.lastActive > s.timeout
  }

  /** The clock as one garbage collection reads it, once for each session. */
  type Clock = FrameID -> int

  /** The sessions that a garbage collection keeps. */
  function Unexpired(m: Registry, clock: Clock): Registry {
    map id | id in m && !Expired(m[id], clock(id)) :: m[id]
  }

  lemma LeftIsUnexpired(was: Registry, left: Registry, clock: Clock)
    requires forall id :: id in left ==> id in was && left[id] == was[id]
    requires forall id :: id in was ==> (id in left <==> !Expired(was[id], clock(id)))
    ensures left == Unexpired(was, clock)
  {
  }

  class Session {
    const peerAddr: string
    const timeout: int
    var phase: Phase
    var stats: Stats

    constructor (peerAddr: string, now: int, timeout: int)
      ensures View() == Opened(peerAddr, now, timeout)
    {
      this.peerAddr, this.timeout := peerAddr, timeout;
      phase, stats := Active, Stats(0, 0, 0, 0, 0, now, now);
    }

    ghost function View(): SessionView
      reads this
    {
      SessionView(phase, peerAddr, stats, timeout)
    }

    method IsExpired(now: int) returns (b: bool)
      ensures b == Expired(View(), now)
    {
      if timeout <= 0 {
        return false;
      }
      return now - stats.lastActive > timeout;
    }

    method Touch(now: int)
      modifies this
      ensures View() == old(View()).(stats := old(stats).(lastActive := now))
    {
      stats := stats.(lastActive := now);
    }

    method RecordPacketIn(n: nat, now: int)
      modifies this
      ensures View() == old(View()).(stats := PacketIn(old(stats), n, now))
    {
      stats := stats.(packetsIn := stats.packetsIn + 1, bytesIn := stats.bytesIn + n);
      Touch(now);
    }

    method RecordPacketOut(n: nat, now: int)
      modifies this
      ensures View() == old(View()).(stats := PacketOut(old(stats), n, now))
    {
      stats := stats.(packetsOut := stats.packetsOut + 1, bytesOut := stats.bytesOut + n);
      Touch(now);
    }
  }

  class Manager {
    const defaultTimeout: int
    var sessions: map<FrameID, Session>

    constructor (defaultTimeout: int)
      ensures Valid() && this.defaultTimeout == defaultTimeout && View() == map[] && sessions == map[]
    {
      this.defaultTimeout := defaultTimeout;
      sessions := map[];
    }

    /** No two ids share a session. */
    ghost predicate Valid()
      reads this
    {
      forall i, j :: i in sessions && j in sessions && i != j ==> sessions[i] != sessions[j]
    }

    ghost function View(): Registry
      reads this, sessions.Values
    {
      map id | id in sessions :: sessions[id].View()
    }

    /** Registers a new session, in place of any earlier one with the id. */
    method Create(id: FrameID, peerAddr: string, now: int) returns (s: Session)
      requires Valid()
      modifies this
      ensures Valid() && fresh(s) && sessions == old(sessions)[id := s]
              && s.View() == Opened(peerAddr, now, defaultTimeout)
      ensures View() == old(View())[id := Opened(peerAddr, now, defaultTimeout)]
    {
      s := new Session(peerAddr, now, defaultTimeout);
      sessions := sessions[id := s];
    }

    method Get(id: FrameID) returns (s: Option<Session>)
      ensures s == if id in sessions then Some(sessions[id]) else None
    {
      return if id in sessions then Some(sessions[id]) else None;
    }

    method Close(id: FrameID) returns (ok: bool)
      requires Valid()
      modifies sessions.Values
      ensures ok == (id in sessions)
      ensures View() == if ok then old(View())[id := old(View())[id].(phase := Closed)] else old(View())
    {
      if id !in sessions {
        return false;
      }
      sessions[id].phase := Closed;
      return true;
    }

    method Delete(id: FrameID)
      requires Valid()
      modifies this
      ensures Valid() && View() == old(View()) - {id}
    {
      sessions := sessions - {id};
    }

    method Count() returns (n: nat)
      ensures n == |View()|
    {
      n := |sessions|;
      assert View().Keys == sessions.Keys;
    }

    /** Removes the expired sessions, and says how many they were. */
    method GC(clock: Clock) returns (removed: nat)
      requires Valid()
      modifies this
      ensures Valid() && sessions.Values <= old(sessions.Values)
      ensures View() == Unexpired(old(View()), clock) && removed == |old(View())| - |View()|
    {
      ghost var was := View();
      assert was.Keys == sessions.Keys;
      removed := DeleteExpired(clock);
      ghost var left := View();
      assert left.Keys == sessions.Keys;
      LeftIsUnexpired(was, left, clock);
    }

    /** The loop of `GC`. */
    method DeleteExpired(clock: Clock) returns (removed: nat)
      modifies this
      ensures sessions.Keys <= old(sessions).Keys && removed == |old(sessions).Keys| - |sessions.Keys|
      ensures forall id :: id in sessions ==> sessions[id] == old(sessions)[id]
      ensures forall id :: id in old(sessions) ==> (id in sessions <==> !Expired(old(sessions)[id].View(), clock(id)))
    {
      removed := 0;
      var unseen := sessions.Keys;
      while unseen != {}
        invariant unseen <= sessions.Keys <= old(sessions).Keys
        invariant forall id :: id in sessions ==> sessions[id] == old(sessions)[id]
        invariant forall id :: id in old(sessions) && id !in unseen ==>
                    (id in sessions <==> !Expired(old(sessions)[id].View(), clock(id)))
        invariant removed + |sessions.Keys| == |old(sessions).Keys|
        decreases unseen
      {
        var id :| id in unseen;
        unseen := unseen - {id};
        var expired := sessions[id].IsExpired(clock(id));
        if expired {
          assert (sessions - {id}).Keys == sessions.Keys - {id};
          sessions := sessions - {id};
          removed := removed + 1;
        }
      }
    }
  }
}
