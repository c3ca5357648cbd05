/**
 The quota tracker of internal/quota/quota.go: concurrent allocations per user and per
 IP, and credential requests per minute.

 The `...Step` functions specify one call each; class `Tracker` is the code, proved
 against them.  Time is in seconds.  A missing `lastCredential` is Go's zero time, from
 which `time.Since` is always more than a minute.
 */
module Quota {
  import opened Wrappers
  import opened Totals

  datatype Limits = Limits(maxAllocationsPerUser: int, maxAllocationsPerIP: int, maxCredentialsPerMinute: int)

  datatype UserState = UserState(allocations: int, lastCredential: Option<real>, credCount: int)

  const NEW_USER := UserState(0, None, 0)

  datatype State = State(users: map<string, UserState>, ips: map<string, int>)

  /** The clock as one call of `AllowCredential` reads it. */
  datatype Readings = Readings(check: real, stamp: real)

  function UserOf(s: State, user: string): UserState {
    if user in s.users then s.users[user] else NEW_USER
  }

  function IPOf(s: State, ip: string): int {
    if ip in s.ips then s.ips[ip] else 0
  }

  function AllowAllocationStep(l: Limits, s: State, user: string, ip: string): (State, bool) {
    var u := UserOf(s, user);
    var entered := s.(users := s.users[user := u]);
    if u.allocations >= l.maxAllocationsPerUser then (entered, false) else AllowForIPStep(l, entered, user, ip)
  }

  /** An allocation that the user's limit allows. */
  function AllowForIPStep(l: Limits, s: State, user: string, ip: string): (State, bool)
    requires user in s.users
  {
    var u, n := s.users[user], IPOf(s, ip);
    var counted := s.ips[ip := n];
    if n >= l.maxAllocationsPerIP then (s.(ips := counted), false)
    else (State(s.users[user := u.(allocations := u.allocations + 1)], counted[ip := n + 1]), true)
  }

  function ReleaseAllocationStep(s: State, user: string, ip: string): State {
    State(if user in s.users && s.users[user].allocations > 0
          then s.users[user := s.users[user].(allocations := s.users[user].allocations - 1)] else s.users,
          if ip in s.ips && s.ips[ip] > 0 then s.ips[ip := s.ips[ip] - 1] else s.ips)
  }

  predicate MinutePassed(last: Option<real>, now: real) {
    last.None? || now - last.value > 60.0
  }

  /** The user's credential window at the time of a request. */
  function CurrentWindow(u: UserState, r: Readings): UserState {
    if MinutePassed(u.lastCredential, r.check) then u.(credCount := 0, lastCredential := Some(r.stamp)) else u
  }

  /** One credential request against the user's window. */
  function WindowStep(max: int, u: UserState, r: Readings): (UserState, bool) {
    var w := CurrentWindow(u, r);
    if w.credCount >= max then (w, false) else (w.(credCount := w.credCount + 1), true)
  }

  function AllowCredentialStep(l: Limits, s: State, user: string, r: Readings): (State, bool) {
    var (u, ok) := WindowStep(l.maxCredentialsPerMinute, UserOf(s, user), r);
    (s.(users := s.users[user := u]), ok)
  }

  class UserQuota {
    var allocations: int
    var lastCredential: Option<real>
    var credCount: int

    constructor ()
      ensures View() == NEW_USER
    {
      allocations, lastCredential, credCount := 0, None, 0;
    }

    ghost function View(): UserState
      reads this
    {
      UserState(allocations, lastCredential, credCount)
    }
  }

  /** An `ipQuota` has one counter, so the map of IPs holds the counters themselves. */
  class Tracker {
    const limits: Limits
    var users: map<string, UserQuota>
    var ips: map<string, int>

    /** What the entries of the users hold. */
    ghost var entries: map<string, UserState>

    /** No two users share an entry, and `entries` is up to date. */
    ghost predicate Valid()
      reads this`users, this`entries, users.Values
    {
      && (forall u, v :: u in users && v in users && u != v ==> users[u] != users[v])
      && users.Keys == entries.Keys
      && (forall u :: u in users ==> users[u].View() == entries[u])
    }

    ghost function View(): State
      reads this
    {
      State(entries, ips)
    }

    constructor (limits: Limits)
      ensures Valid() && this.limits == limits && View() == State(map[], map[])
    {
      this.limits := limits;
      users, ips, entries := map[], map[], map[];
    }

    /** The user's entry, created on first use. */
    method User(user: string) returns (u: UserQuota)
      requires Valid()
      modifies this`users, this`entries
      ensures Valid() && user in users && users[user] == u
      ensures fresh(users.Values - old(users.Values)) && (u in old(users.Values) || fresh(u))
      ensures u.View() == UserOf(old(View()), user)
      ensures entries == old(entries)[user := u.View()]
    {
      if user !in users {
        u := new UserQuota();
        users := users[user := u];
        entries := entries[user := NEW_USER];
      } else {
        u := users[user];
      }
    }

    method AllowAllocation(user: string, ip: string) returns (ok: bool)
      requires Valid()
      modifies this, users.Values
      ensures Valid() && fresh(users.Values - old(users.Values))
      ensures (View(), ok) == AllowAllocationStep(limits, old(View()), user, ip)
    {
      var u := User(user);
      if u.allocations >= limits.maxAllocationsPerUser {
        return false;
      }
      ok := AllowForIP(u, user, ip);
    }

    /** The per-IP check of `AllowAllocation`, and the two increments. */
    method AllowForIP(u: UserQuota, user: string, ip: string) returns (ok: bool)
      requires Valid() && user in users && users[user] == u
      modifies this`ips, this`entries, u
      ensures Valid()
      ensures (View(), ok) == AllowForIPStep(limits, old(View()), user, ip)
    {
      if ip !in ips {
        ips := ips[ip := 0];
      }
      assert ips == old(ips)[ip := ips[ip]];
      if ips[ip] >= limits.maxAllocationsPerIP {
        return false;
      }
      u.allocations := u.allocations + 1;
      ips := ips[ip := ips[ip] + 1];
      entries := entries[user := u.View()];
      return true;
    }

    method ReleaseAllocation(user: string, ip: string)
      requires Valid()
      modifies this`ips, this`entries, users.Values
      ensures Valid() && View() == ReleaseAllocationStep(old(View()), user, ip)
    {
      if user in users && users[user].allocations > 0 {
        users[user].allocations := users[user].allocations - 1;
        entries := entries[user := users[user].View()];
      }
      if ip in ips && ips[ip] > 0 {
        ips := ips[ip := ips[ip] - 1];
      }
    }

    method AllowCredential(user: string, r: Readings) returns (ok: bool)
      requires Valid()
      modifies this`users, this`entries, users.Values
      ensures Valid() && fresh(users.Values - old(users.Values))
      ensures (View(), ok) == AllowCredentialStep(limits, old(View()), user, r)
    {
      var u := User(user);
      ok := CountCredential(u, user, r);
      assert entries == old(entries)[user := entries[user]];
    }

    /** The window check of `AllowCredential`, on the user's entry. */
    method CountCredential(u: UserQuota, user: string, r: Readings) returns (ok: bool)
      requires Valid() && user in users && users[user] == u
      modifies this`entries, u
      ensures Valid()
      ensures (u.View(), ok) == WindowStep(limits.maxCredentialsPerMinute, old(u.View()), r)
      ensures entries == old(entries)[user := u.View()]
    {
      if MinutePassed(u.lastCredential, r.check) {
        u.credCount := 0;
        u.lastCredential := Some(r.stamp);
      }
      ok := u.credCount < limits.maxCredentialsPerMinute;
      if ok {
        u.credCount := u.credCount + 1;
      }
      entries := entries[user := u.View()];
    }

    /** Counts the allocations over all users. */
    method ActiveAllocations() returns (total: int)
      requires Valid()
      ensures total == Total(map u | u in entries :: entries[u].allocations)
    {
      total := 0;
      ghost var counts := map u | u in entries :: entries[u].allocations;
      var unseen := users.Keys;
      assert counts == map u | u in unseen :: counts[u];
      while unseen != {}
        invariant unseen <= users.Keys == counts.Keys
        invariant total + Total(map u | u in unseen :: counts[u]) == Total(counts)
        decreases unseen
      {
        var u :| u in unseen;
        ghost var rest := map v | v in unseen :: counts[v];
        TotalPick(rest, u);
        unseen := unseen - {u};
        assert rest - {u} == map v | v in unseen :: counts[v];
        total := total + users[u].allocations;
      }
    }

    /** Counts the users that hold an allocation. */
    method ActiveUsers() returns (count: nat)
      requires Valid()
      ensures count == |set u | u in entries && entries[u].allocations > 0|
    {
      count := 0;
      ghost var seen: set<string> := {};
      var unseen := users.Keys;
      while unseen != {}
        invariant unseen <= users.Keys
        invariant seen == set u | u in users && u !in unseen && users[u].allocations > 0
        invariant count == |seen|
        decreases unseen
      {
        var u :| u in unseen;
        unseen := unseen - {u};
        if users[u].allocations > 0 {
          count := count + 1;
          seen := seen + {u};
        }
      }
      assert seen == set u | u in entries && entries[u].allocations > 0;
    }
  }
}
