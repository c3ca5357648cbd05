/**
 What the tracker of internal/quota/quota.go guarantees over whole runs: its counters
 stand for one list of live leases exactly as long as releases are sound, and how many
 credentials a minute can see.
 */
module QuotaLaws {
  import opened Integers
  import opened Wrappers
  import opened Totals
  import opened Quota

  datatype Event =
    | Allocate(user: string, ip: string)
    | Release(user: string, ip: string)
    | Request(user: string, at: Readings)

  function Step(l: Limits, s: State, e: Event): (State, bool) {
    match e
    case Allocate(user, ip) => AllowAllocationStep(l, s, user, ip)
    case Release(user, ip) => (ReleaseAllocationStep(s, user, ip), true)
    case Request(user, at) => AllowCredentialStep(l, s, user, at)
  }

  /** A new tracker after the events. */
  function Run(l: Limits, events: seq<Event>): State {
    if events == [] then State(map[], map[])
    else var n := |events| - 1; Step(l, Run(l, events[..n]), events[n]).0
  }

  /** The tracker's answer to the event at `n`. */
  function Answer(l: Limits, events: seq<Event>, n: nat): bool
    requires n < |events|
  {
    Step(l, Run(l, events[..n]), events[n]).1
  }

  // ----- the meaning of the counters: live leases -----

  datatype Lease = Lease(user: string, ip: string)

  function UserCount(live: seq<Lease>, user: string): nat {
    if live == [] then 0 else UserCount(live[1..], user) + (if live[0].user == user then 1 else 0)
  }

  function IPCount(live: seq<Lease>, ip: string): nat {
    if live == [] then 0 else IPCount(live[1..], ip) + (if live[0].ip == ip then 1 else 0)
  }

  /** The leases without the first one for `x`, if there is one. */
  function Drop(live: seq<Lease>, x: Lease): seq<Lease> {
    if live == [] then [] else if live[0] == x then live[1..] else [live[0]] + Drop(live[1..], x)
  }

  /** The tracker that the limits describe: it keeps the live leases themselves. */
  function LeaseStep(l: Limits, live: seq<Lease>, e: Event): (seq<Lease>, bool) {
    match e
    case Allocate(user, ip) =>
      if UserCount(live, user) < l.maxAllocationsPerUser && IPCount(live, ip) < l.maxAllocationsPerIP
      then ([Lease(user, ip)] + live, true) else (live, false)
    case Release(user, ip) => (Drop(live, Lease(user, ip)), true)
    case Request(_, _) => (live, true)
  }

  function Leases(l: Limits, events: seq<Event>): seq<Lease> {
    if events == [] then []
    else var n := |events| - 1; LeaseStep(l, Leases(l, events[..n]), events[n]).0
  }

  /** The counters are the two projections of the live leases. */
  ghost predicate Counts(s: State, live: seq<Lease>) {
    && (forall u :: UserOf(s, u).allocations == UserCount(live, u))
    && (forall i :: IPOf(s, i) == IPCount(live, i))
  }

  /** The release is of a live lease, or neither its user nor its IP has one. */
  predicate SoundRelease(live: seq<Lease>, e: Event) {
    e.Release? ==> Lease(e.user, e.ip) in live || (UserCount(live, e.user) == 0 && IPCount(live, e.ip) == 0)
  }

  lemma {:induction false} DropCounts(live: seq<Lease>, x: Lease, user: string, ip: string)
    ensures var d := if x in live then 1 else 0;
            && |Drop(live, x)| == |live| - d
            && UserCount(Drop(live, x), user) == UserCount(live, user) - (if x.user == user then d else 0)
            && IPCount(Drop(live, x), ip) == IPCount(live, ip) - (if x.ip == ip then d else 0)
  {
    if live != [] && live[0] != x {
      DropCounts(live[1..], x, user, ip);
    }
  }

  lemma {:induction false} LiveIsCounted(live: seq<Lease>, x: Lease)
    requires x in live
    ensures UserCount(live, x.user) > 0 && IPCount(live, x.ip) > 0
  {
    if live[0] != x {
      LiveIsCounted(live[1..], x);
    }
  }

  /** A release keeps the counters exact if and only if it is sound. */
  lemma ReleaseCountsIff(s: State, live: seq<Lease>, user: string, ip: string)
    requires Counts(s, live)
    ensures Counts(ReleaseAllocationStep(s, user, ip), Drop(live, Lease(user, ip)))
       <==> SoundRelease(live, Release(user, ip))
  {
    var s', x := ReleaseAllocationStep(s, user, ip), Lease(user, ip);
    forall u
      ensures UserCount(Drop(live, x), u) == UserCount(live, u) - (if u == user && x in live then 1 else 0)
    {
      DropCounts(live, x, u, ip);
    }
    forall i
      ensures IPCount(Drop(live, x), i) == IPCount(live, i) - (if i == ip && x in live then 1 else 0)
    {
      DropCounts(live, x, user, i);
    }
    if x in live {
      LiveIsCounted(live, x);
    } else {
      assert UserOf(s', user).allocations == Minus(UserCount(live, user), 1);
      assert IPOf(s', ip) == Minus(IPCount(live, ip), 1);
    }
  }

  /** Allocations and credential requests keep the counters exact, and the counters decide as the leases would. */
  lemma StepCounts(l: Limits, s: State, live: seq<Lease>, e: Event)
    requires Counts(s, live) && !e.Release?
    ensures Counts(Step(l, s, e).0, LeaseStep(l, live, e).0)
    ensures e.Allocate? ==> Step(l, s, e).1 == LeaseStep(l, live, e).1
  {
    var s', live' := Step(l, s, e).0, LeaseStep(l, live, e).0;
    forall u
      ensures UserOf(s', u).allocations == UserCount(live', u)
    {
      assert UserOf(s, u).allocations == UserCount(live, u);
    }
    forall i
      ensures IPOf(s', i) == IPCount(live', i)
    {
      assert IPOf(s, i) == IPCount(live, i);
    }
  }

  ghost predicate SoundReleases(l: Limits, events: seq<Event>) {
    forall n :: 0 <= n < |events| ==> SoundRelease(Leases(l, events[..n]), events[n])
  }

  /** The counters are exact after every event so far. */
  ghost predicate AlwaysCounts(l: Limits, events: seq<Event>) {
    forall n :: 0 <= n <= |events| ==> Counts(Run(l, events[..n]), Leases(l, events[..n]))
  }

  lemma NextCountsIff(l: Limits, events: seq<Event>, n: nat)
    requires n < |events| && Counts(Run(l, events[..n]), Leases(l, events[..n]))
    ensures Counts(Run(l, events[..n + 1]), Leases(l, events[..n + 1]))
       <==> SoundRelease(Leases(l, events[..n]), events[n])
  {
    assert events[..n + 1][..n] == events[..n];
    var s, live, e := Run(l, events[..n]), Leases(l, events[..n]), events[n];
    if e.Release? {
      ReleaseCountsIff(s, live, e.user, e.ip);
    } else {
      StepCounts(l, s, live, e);
    }
  }

  lemma {:induction false} CountsUpTo(l: Limits, events: seq<Event>, n: nat)
    requires n <= |events| && SoundReleases(l, events)
    ensures Counts(Run(l, events[..n]), Leases(l, events[..n]))
  {
    if n > 0 {
      CountsUpTo(l, events, n - 1);
      NextCountsIff(l, events, n - 1);
    }
  }

  /**
   Through a whole run the counters are the projections of one list of live leases, if and
   only if every release is of a live lease or touches counters that are both zero.
   */
  lemma CountersExactIff(l: Limits, events: seq<Event>)
    ensures AlwaysCounts(l, events) <==> SoundReleases(l, events)
  {
    if SoundReleases(l, events) {
      forall n | 0 <= n <= |events|
        ensures Counts(Run(l, events[..n]), Leases(l, events[..n]))
      {
        CountsUpTo(l, events, n);
      }
    }
    if AlwaysCounts(l, events) {
      forall n | 0 <= n < |events|
        ensures SoundRelease(Leases(l, events[..n]), events[n])
      {
        NextCountsIff(l, events, n);
      }
    }
  }

  // ----- totals -----

  ghost function UserCounters(s: State): map<string, int> {
    map u | u in s.users :: s.users[u].allocations
  }

  /** The distinct users with a live lease. */
  ghost function LiveUsers(live: seq<Lease>): set<string> {
    set x | x in live :: x.user
  }

  /** Counting leases per key and adding up counts them all. */
  lemma {:induction false} UserCountsAddUp(live: seq<Lease>, m: map<string, int>)
    requires forall u :: u in m ==> m[u] == UserCount(live, u)
    requires forall u :: UserCount(live, u) > 0 ==> u in m
    ensures Total(m) == |live|
  {
    if live == [] {
      TotalZero(m);
    } else {
      var u := live[0].user;
      LiveIsCounted(live, live[0]);
      var rest := m[u := m[u] - 1];
      UserCountsAddUp(live[1..], rest);
      TotalUpdate(m, u, m[u] - 1);
    }
  }

  lemma {:induction false} IPCountsAddUp(live: seq<Lease>, m: map<string, int>)
    requires forall i :: i in m ==> m[i] == IPCount(live, i)
    requires forall i :: IPCount(live, i) > 0 ==> i in m
    ensures Total(m) == |live|
  {
    if live == [] {
      TotalZero(m);
    } else {
      var i := live[0].ip;
      LiveIsCounted(live, live[0]);
      var rest := m[i := m[i] - 1];
      IPCountsAddUp(live[1..], rest);
      TotalUpdate(m, i, m[i] - 1);
    }
  }

  lemma {:induction false} CountedIsLive(live: seq<Lease>, user: string)
    ensures UserCount(live, user) > 0 <==> user in LiveUsers(live)
  {
    if live != [] {
      CountedIsLive(live[1..], user);
      assert live == [live[0]] + live[1..];
      if user in LiveUsers(live[1..]) {
        var x :| x in live[1..] && x.user == user;
        assert x in live;
      }
      if live[0].user == user {
        assert live[0] in live;
      }
      if x :| x in live && x.user == user {
        assert x == live[0] || x in live[1..];
      }
    }
  }

  /** What `ActiveAllocations` and `ActiveUsers` return: the live leases, and their distinct users. */
  lemma TotalsAreLeases(s: State, live: seq<Lease>)
    requires Counts(s, live)
    ensures Total(UserCounters(s)) == Total(s.ips) == |live|
    ensures (set u | u in s.users && s.users[u].allocations > 0) == LiveUsers(live)
  {
    forall u
      ensures UserCount(live, u) > 0 ==> u in s.users
      ensures u in s.users ==> s.users[u].allocations == UserCount(live, u)
    {
      assert UserOf(s, u).allocations == UserCount(live, u);
    }
    forall i
      ensures IPCount(live, i) > 0 ==> i in s.ips
      ensures i in s.ips ==> s.ips[i] == IPCount(live, i)
    {
      assert IPOf(s, i) == IPCount(live, i);
    }
    UserCountsAddUp(live, UserCounters(s));
    IPCountsAddUp(live, s.ips);
    forall u
      ensures u in s.users && s.users[u].allocations > 0 <==> u in LiveUsers(live)
    {
      CountedIsLive(live, u);
    }
  }

  /**
   In a run with sound releases the tracker decides every allocation as the live leases
   require, and its totals count them.
   */
  lemma TrackerRefinesLeases(l: Limits, events: seq<Event>, n: nat)
    requires SoundReleases(l, events) && n < |events|
    ensures var s, live := Run(l, events[..n]), Leases(l, events[..n]);
            && (events[n].Allocate? ==>
                  (Answer(l, events, n) <==>
                   && UserCount(live, events[n].user) < l.maxAllocationsPerUser
                   && IPCount(live, events[n].ip) < l.maxAllocationsPerIP))
            && Total(UserCounters(s)) == Total(s.ips) == |live|
            && (set u | u in s.users && s.users[u].allocations > 0) == LiveUsers(live)
  {
    CountsUpTo(l, events, n);
    var s, live := Run(l, events[..n]), Leases(l, events[..n]);
    TotalsAreLeases(s, live);
    if events[n].Allocate? {
      StepCounts(l, s, live, events[n]);
    }
  }

  ghost predicate InRange(l: Limits, s: State) {
    && (forall u :: u in s.users ==> 0 <= s.users[u].allocations <= l.maxAllocationsPerUser)
    && (forall i :: i in s.ips ==> 0 <= s.ips[i] <= l.maxAllocationsPerIP)
  }

  lemma StepStaysInRange(l: Limits, s: State, e: Event)
    requires l.maxAllocationsPerUser >= 0 && l.maxAllocationsPerIP >= 0 && InRange(l, s)
    ensures InRange(l, Step(l, s, e).0)
  {
    match e
    case Allocate(user, ip) =>
      assert 0 <= UserOf(s, user).allocations && 0 <= IPOf(s, ip);
    case Release(user, ip) =>
    case Request(user, at) =>
      assert 0 <= UserOf(s, user).allocations <= l.maxAllocationsPerUser;
      assert WindowStep(l.maxCredentialsPerMinute, UserOf(s, user), at).0.allocations == UserOf(s, user).allocations;
  }

  /** Whatever is released, no counter leaves the range from zero to its limit. */
  lemma {:induction false} CountersStayInRange(l: Limits, events: seq<Event>)
    requires l.maxAllocationsPerUser >= 0 && l.maxAllocationsPerIP >= 0
    ensures InRange(l, Run(l, events))
  {
    if events != [] {
      var n := |events| - 1;
      CountersStayInRange(l, events[..n]);
      StepStaysInRange(l, Run(l, events[..n]), events[n]);
    }
  }

  /** A release keeps the two families of counters in balance if and only if it lowers both or neither. */
  lemma ReleaseBalancesIff(s: State, user: string, ip: string)
    requires Total(UserCounters(s)) == Total(s.ips)
    ensures var s' := ReleaseAllocationStep(s, user, ip);
            Total(UserCounters(s')) == Total(s'.ips) <==> (UserOf(s, user).allocations > 0 <==> IPOf(s, ip) > 0)
  {
    var s' := ReleaseAllocationStep(s, user, ip);
    if UserOf(s, user).allocations > 0 {
      TotalUpdate(UserCounters(s), user, s.users[user].allocations - 1);
      assert UserCounters(s') == UserCounters(s)[user := s.users[user].allocations - 1];
    } else {
      assert UserCounters(s') == UserCounters(s);
    }
    if IPOf(s, ip) > 0 {
      TotalUpdate(s.ips, ip, s.ips[ip] - 1);
    }
  }

  // ----- credential requests per minute -----

  /** The clock never runs backwards over the credential requests. */
  ghost predicate InOrder(events: seq<Event>) {
    && (forall i :: 0 <= i < |events| && events[i].Request? ==> events[i].at.check <= events[i].at.stamp)
    && (forall i, j :: 0 <= i < j < |events| && events[i].Request? && events[j].Request? ==>
          events[i].at.stamp <= events[j].at.check)
  }

  predicate RequestBy(e: Event, user: string) {
    e.Request? && e.user == user
  }

  /** The credentials that `user` was granted by the events `i..j`. */
  function Granted(l: Limits, events: seq<Event>, user: string, i: nat, j: nat): nat
    requires i <= j <= |events|
    decreases j
  {
    if i == j then 0
    else
      Granted(l, events, user, i, j - 1)
      + (if RequestBy(events[j - 1], user) && Answer(l, events, j - 1) then 1 else 0)
  }

  /** Every request that `user` makes in the events `i..j` reads the clock between `start` and `end`. */
  ghost predicate Within(events: seq<Event>, user: string, i: nat, j: nat, start: real, end: real)
    requires i <= j <= |events|
  {
    forall n :: i <= n < j && RequestBy(events[n], user) ==> start <= events[n].at.check && events[n].at.stamp <= end
  }

  /** How many windows the user opened in the events `i..j`. */
  function Opened(l: Limits, events: seq<Event>, user: string, i: nat, j: nat): nat
    requires i <= j <= |events|
    decreases j
  {
    if i == j then 0
    else
      var e := events[j - 1];
      Opened(l, events, user, i, j - 1)
      + (if RequestBy(e, user) && MinutePassed(UserOf(Run(l, events[..j - 1]), user).lastCredential, e.at.check)
         then 1 else 0)
  }

  lemma RunSnoc(l: Limits, events: seq<Event>, j: nat)
    requires j < |events|
    ensures Run(l, events[..j + 1]) == Step(l, Run(l, events[..j]), events[j]).0
  {
    assert events[..j + 1][..j] == events[..j];
  }

  /** Only its own requests move a user's window. */
  lemma OtherEventsKeepWindow(l: Limits, s: State, e: Event, user: string)
    requires !RequestBy(e, user)
    ensures var u, u' := UserOf(s, user), UserOf(Step(l, s, e).0, user);
            u'.lastCredential == u.lastCredential && u'.credCount == u.credCount
  {
  }

  lemma OwnRequestMovesWindow(l: Limits, s: State, e: Event, user: string)
    requires RequestBy(e, user)
    ensures (UserOf(Step(l, s, e).0, user), Step(l, s, e).1)
         == WindowStep(l.maxCredentialsPerMinute, UserOf(s, user), e.at)
  {
  }

  /** An open window has granted at least one credential, and at most the limit. */
  ghost predicate WindowInUse(max: int, u: UserState) {
    if u.lastCredential.None? then u.credCount == 0 else 1 <= u.credCount <= max
  }

  lemma {:induction false} WindowsInUse(l: Limits, events: seq<Event>, user: string)
    requires l.maxCredentialsPerMinute >= 1
    ensures WindowInUse(l.maxCredentialsPerMinute, UserOf(Run(l, events), user))
  {
    if events != [] {
      var n := |events| - 1;
      var s := Run(l, events[..n]);
      WindowsInUse(l, events[..n], user);
      if RequestBy(events[n], user) {
        OwnRequestMovesWindow(l, s, events[n], user);
      } else {
        OtherEventsKeepWindow(l, s, events[n], user);
      }
    }
  }

  /** What `windows` whole windows may grant. */
  function Budget(max: int, windows: nat): int {
    if windows == 0 then 0 else Budget(max, windows - 1) + max
  }

  lemma {:induction false} BudgetIsProduct(max: int, windows: nat)
    ensures Budget(max, windows) == max * windows
  {
    if windows > 0 {
      BudgetIsProduct(max, windows - 1);
      assert max * windows == max * (windows - 1) + max;
    }
  }

  /** `granted` credentials and `windows` new windows between `start` and `end` left the window `u`. */
  ghost predicate Accounted(max: int, u: UserState, granted: nat, windows: nat, start: real, end: real) {
    && granted <= Budget(max, windows) + (if u.lastCredential.None? then 0 else u.credCount - 1)
    && (windows >= 1 ==> u.lastCredential.Some? && start <= u.lastCredential.value <= end)
    && (windows >= 2 ==> u.lastCredential.value > start + 60.0 * (windows - 1) as real)
  }

  lemma RequestAccounted(max: int, u: UserState, r: Readings, granted: nat, windows: nat, start: real, end: real)
    requires max >= 1 && WindowInUse(max, u) && start <= r.check <= r.stamp <= end
    requires Accounted(max, u, granted, windows, start, end)
    ensures var (u', ok) := WindowStep(max, u, r);
            Accounted(max, u', granted + (if ok then 1 else 0),
                      windows + (if MinutePassed(u.lastCredential, r.check) then 1 else 0), start, end)
  {
    assert Budget(max, windows + 1) == Budget(max, windows) + max;
  }

  lemma {:induction false} AllAccounted(l: Limits, events: seq<Event>, user: string, i: nat, j: nat, start: real,
                                        end: real)
    requires l.maxCredentialsPerMinute >= 1 && i <= j <= |events|
    requires InOrder(events) && Within(events, user, i, j, start, end)
    ensures Accounted(l.maxCredentialsPerMinute, UserOf(Run(l, events[..j]), user),
                      Granted(l, events, user, i, j), Opened(l, events, user, i, j), start, end)
    decreases j
  {
    if i == j {
      WindowsInUse(l, events[..j], user);
    } else {
      AllAccounted(l, events, user, i, j - 1, start, end);
      NextAccounted(l, events, user, i, j - 1, start, end);
    }
  }

  lemma NextAccounted(l: Limits, events: seq<Event>, user: string, i: nat, j: nat, start: real, end: real)
    requires l.maxCredentialsPerMinute >= 1 && i <= j < |events|
    requires RequestBy(events[j], user) ==> start <= events[j].at.check <= events[j].at.stamp <= end
    requires Accounted(l.maxCredentialsPerMinute, UserOf(Run(l, events[..j]), user),
                       Granted(l, events, user, i, j), Opened(l, events, user, i, j), start, end)
    ensures Accounted(l.maxCredentialsPerMinute, UserOf(Run(l, events[..j + 1]), user),
                      Granted(l, events, user, i, j + 1), Opened(l, events, user, i, j + 1), start, end)
  {
    var s, granted, windows := Run(l, events[..j]), Granted(l, events, user, i, j), Opened(l, events, user, i, j);
    WindowsInUse(l, events[..j], user);
    RunSnoc(l, events, j);
    StepAccounted(l, s, events[j], user, granted, windows, start, end);
  }

  lemma StepAccounted(l: Limits, s: State, e: Event, user: string, granted: nat, windows: nat, start: real, end: real)
    requires l.maxCredentialsPerMinute >= 1 && WindowInUse(l.maxCredentialsPerMinute, UserOf(s, user))
    requires RequestBy(e, user) ==> start <= e.at.check <= e.at.stamp <= end
    requires Accounted(l.maxCredentialsPerMinute, UserOf(s, user), granted, windows, start, end)
    ensures Accounted(l.maxCredentialsPerMinute, UserOf(Step(l, s, e).0, user),
                      granted + (if RequestBy(e, user) && Step(l, s, e).1 then 1 else 0),
                      windows
                      + (if RequestBy(e, user) && MinutePassed(UserOf(s, user).lastCredential, e.at.check)
                         then 1 else 0),
                      start, end)
  {
    if RequestBy(e, user) {
      OwnRequestMovesWindow(l, s, e, user);
      RequestAccounted(l.maxCredentialsPerMinute, UserOf(s, user), e.at, granted, windows, start, end);
    } else {
      OtherEventsKeepWindow(l, s, e, user);
    }
  }

  lemma {:induction false} NoneGranted(l: Limits, events: seq<Event>, user: string, i: nat, j: nat)
    requires l.maxCredentialsPerMinute <= 0 && i <= j <= |events|
    ensures Granted(l, events, user, i, j) == 0
    decreases j
  {
    if i < j {
      NoneGranted(l, events, user, i, j - 1);
      if RequestBy(events[j - 1], user) {
        OwnRequestMovesWindow(l, Run(l, events[..j - 1]), events[j - 1], user);
        NoCredits(l, events[..j - 1], user);
      }
    }
  }

  lemma {:induction false} NoCredits(l: Limits, events: seq<Event>, user: string)
    requires l.maxCredentialsPerMinute <= 0
    ensures UserOf(Run(l, events), user).credCount == 0
  {
    if events != [] {
      var n := |events| - 1;
      var s := Run(l, events[..n]);
      NoCredits(l, events[..n], user);
      if RequestBy(events[n], user) {
        OwnRequestMovesWindow(l, s, events[n], user);
      } else {
        OtherEventsKeepWindow(l, s, events[n], user);
      }
    }
  }

  lemma FewWindows(max: int, u: UserState, granted: nat, windows: nat, start: real, end: real, minutes: nat)
    requires max >= 1 && WindowInUse(max, u) && Accounted(max, u, granted, windows, start, end)
    requires minutes >= 1 && end - start <= 60.0 * minutes as real
    ensures granted <= max * (minutes + 1) - 1
  {
    BudgetIsProduct(max, windows);
    assert windows <= minutes;
    assert max * windows <= max * minutes;
    assert max * (minutes + 1) == max * minutes + max;
  }

  /** Any `minutes` minutes grant a user at most `max * (minutes + 1) - 1` credentials. */
  lemma GrantedBound(l: Limits, events: seq<Event>, user: string, i: nat, j: nat, start: real, end: real, minutes: nat)
    requires l.maxCredentialsPerMinute >= 1 && i <= j <= |events|
    requires InOrder(events) && Within(events, user, i, j, start, end)
    requires minutes >= 1 && end - start <= 60.0 * minutes as real
    ensures Granted(l, events, user, i, j) <= l.maxCredentialsPerMinute * (minutes + 1) - 1
  {
    AllAccounted(l, events, user, i, j, start, end);
    WindowsInUse(l, events[..j], user);
    FewWindows(l.maxCredentialsPerMinute, UserOf(Run(l, events[..j]), user),
               Granted(l, events, user, i, j), Opened(l, events, user, i, j), start, end, minutes);
  }

  // ----- the exact meaning of a credential decision -----

  /**
   The user's latest window to open: its first request opens one, and so does each request
   that starts more than a minute after the window open before it was stamped.
   */
  function LatestOpening(events: seq<Event>, user: string): (o: Option<nat>)
    ensures o.Some? ==> o.value < |events| && RequestBy(events[o.value], user)
  {
    if events == [] then None
    else
      var n := |events| - 1;
      var before := LatestOpening(events[..n], user);
      if !RequestBy(events[n], user) then before
      else if before.None? || events[n].at.check - events[before.value].at.stamp > 60.0 then Some(n)
      else before
  }

  /** The window the user's entry holds is the latest to open, and its count is what was granted since. */
  ghost predicate HoldsLatestWindow(l: Limits, events: seq<Event>, user: string) {
    var u := UserOf(Run(l, events), user);
    match LatestOpening(events, user)
    case None => u.lastCredential == None && u.credCount == 0
    case Some(o) =>
      u.lastCredential == Some(events[o].at.stamp) && u.credCount == Granted(l, events, user, o, |events|)
  }

  lemma {:induction false} GrantedPrefix(l: Limits, events: seq<Event>, more: seq<Event>, user: string, i: nat, j: nat)
    requires events <= more && i <= j <= |events|
    ensures Granted(l, events, user, i, j) == Granted(l, more, user, i, j)
    decreases j
  {
    if i < j {
      GrantedPrefix(l, events, more, user, i, j - 1);
      assert events[..j - 1] == more[..j - 1];
    }
  }

  lemma GrantedSnoc(l: Limits, events: seq<Event>, user: string, o: nat)
    requires events != [] && o < |events|
    ensures var n := |events| - 1;
            var more := if RequestBy(events[n], user) && Answer(l, events, n) then 1 else 0;
            Granted(l, events, user, o, n + 1) == Granted(l, events[..n], user, o, n) + more
  {
    GrantedPrefix(l, events[..|events| - 1], events, user, o, |events| - 1);
  }

  lemma {:induction false} LatestWindowHeld(l: Limits, events: seq<Event>, user: string)
    ensures HoldsLatestWindow(l, events, user)
  {
    if events != [] {
      var n := |events| - 1;
      var s, o := Run(l, events[..n]), LatestOpening(events, user);
      LatestWindowHeld(l, events[..n], user);
      if RequestBy(events[n], user) {
        OwnRequestMovesWindow(l, s, events[n], user);
      } else {
        OtherEventsKeepWindow(l, s, events[n], user);
      }
      if o.Some? {
        GrantedSnoc(l, events, user, o.value);
      }
    }
  }

  /**
   A credential is granted if and only if fewer than the limit were granted to the user
   since its latest window opened; refused requests neither count nor move the window.
   */
  lemma CredentialGrantedIff(l: Limits, events: seq<Event>, user: string, n: nat)
    requires n < |events| && RequestBy(events[n], user)
    ensures var o := LatestOpening(events[..n + 1], user);
            o.Some? && (Answer(l, events, n) <==> Granted(l, events, user, o.value, n) < l.maxCredentialsPerMinute)
  {
    var o := LatestOpening(events[..n + 1], user);
    assert events[..n + 1][..n] == events[..n];
    LatestWindowHeld(l, events[..n], user);
    OwnRequestMovesWindow(l, Run(l, events[..n]), events[n], user);
    GrantedPrefix(l, events[..n], events, user, o.value, n);
  }

  // ----- the bound is reached -----

  /** `k` requests in one instant. */
  function Requests(k: nat, t: real): (r: seq<Event>)
    ensures |r| == k
  {
    seq(k, _ => Request("u", Readings(t, t)))
  }

  /** When the windows of `Burst` open: `step` more than a minute apart. */
  function Opening(step: real, window: nat): real {
    if window == 0 then 0.0 else Opening(step, window - 1) + 60.0 + step
  }

  /**
   One request opens a window, the rest of its credit is spent a minute later, and then
   each of `windows` new windows is used up as it opens.
   */
  function Burst(max: nat, step: real, windows: nat): (r: seq<Event>)
    requires max >= 1
    ensures |r| >= 1
  {
    if windows == 0 then Requests(1, 0.0) + Requests(max - 1, 60.0)
    else Burst(max, step, windows - 1) + Requests(max, Opening(step, windows))
  }

  /** The user's window after `k` requests granted at `t`. */
  function Spent(u: UserState, t: real, k: nat): UserState {
    if k == 0 then u
    else if MinutePassed(u.lastCredential, t) then u.(lastCredential := Some(t), credCount := k)
    else u.(credCount := u.credCount + k)
  }

  lemma OneMoreGranted(l: Limits, before: seq<Event>, i: nat, t: real)
    requires i <= |before|
    ensures var events, e := before + [Request("u", Readings(t, t))], Request("u", Readings(t, t));
            var (u, ok) := WindowStep(l.maxCredentialsPerMinute, UserOf(Run(l, before), "u"), e.at);
            && UserOf(Run(l, events), "u") == u
            && Granted(l, events, "u", i, |events|) == Granted(l, before, "u", i, |before|) + (if ok then 1 else 0)
  {
    var e := Request("u", Readings(t, t));
    var events := before + [e];
    assert events[..|before|] == before;
    GrantedPrefix(l, before, events, "u", i, |before|);
    OwnRequestMovesWindow(l, Run(l, before), e, "u");
  }

  /** Requests within the credit that is left are all granted. */
  lemma {:induction false} RequestsGranted(l: Limits, before: seq<Event>, i: nat, t: real, k: nat)
    requires i <= |before|
    requires var u := UserOf(Run(l, before), "u");
             (if MinutePassed(u.lastCredential, t) then 0 else u.credCount) + k <= l.maxCredentialsPerMinute
    ensures var events := before + Requests(k, t);
            && UserOf(Run(l, events), "u") == Spent(UserOf(Run(l, before), "u"), t, k)
            && Granted(l, events, "u", i, |events|) == Granted(l, before, "u", i, |before|) + k
  {
    var events := before + Requests(k, t);
    if k == 0 {
      assert events == before;
    } else {
      var fewer := before + Requests(k - 1, t);
      RequestsGranted(l, before, i, t, k - 1);
      assert events == fewer + [Request("u", Readings(t, t))];
      OneMoreGranted(l, fewer, i, t);
    }
  }

  lemma {:induction false} BurstGranted(l: Limits, step: real, windows: nat)
    requires step > 0.0 && l.maxCredentialsPerMinute >= 1
    ensures var max := l.maxCredentialsPerMinute;
            var events := Burst(max, step, windows);
            && UserOf(Run(l, events), "u") == UserState(0, Some(Opening(step, windows)), max)
            && Granted(l, events, "u", 1, |events|) == Budget(max, windows) + max - 1
  {
    var max := l.maxCredentialsPerMinute;
    if windows == 0 {
      FirstWindowGranted(l);
    } else {
      BurstGranted(l, step, windows - 1);
      RequestsGranted(l, Burst(max, step, windows - 1), 1, Opening(step, windows), max);
    }
  }

  lemma FirstWindowGranted(l: Limits)
    requires l.maxCredentialsPerMinute >= 1
    ensures var max := l.maxCredentialsPerMinute;
            var events := Requests(1, 0.0) + Requests(max - 1, 60.0);
            && UserOf(Run(l, events), "u") == UserState(0, Some(0.0), max)
            && Granted(l, events, "u", 1, |events|) == max - 1
  {
    RequestsGranted(l, [], 0, 0.0, 1);
    assert [] + Requests(1, 0.0) == Requests(1, 0.0);
    RequestsGranted(l, Requests(1, 0.0), 1, 60.0, l.maxCredentialsPerMinute - 1);
  }

  /** Orderly requests of one user, from the second on between one minute and `end`. */
  ghost predicate RequestsUntil(events: seq<Event>, end: real) {
    && InOrder(events)
    && (forall n :: 0 <= n < |events| ==> RequestBy(events[n], "u") && events[n].at.stamp <= end)
    && (forall n :: 1 <= n < |events| ==> 60.0 <= events[n].at.check)
  }

  lemma RequestsInOrder(before: seq<Event>, k: nat, end: real, t: real)
    requires RequestsUntil(before, end) && before != [] && end <= t && 60.0 <= t
    ensures RequestsUntil(before + Requests(k, t), t)
  {
  }

  function LatestRequest(step: real, windows: nat): real {
    if windows == 0 then 60.0 else Opening(step, windows)
  }

  lemma {:induction false} OpeningIsLater(step: real, window: nat)
    requires step > 0.0 && window >= 1
    ensures 60.0 <= LatestRequest(step, window - 1) <= Opening(step, window)
  {
    if window > 1 {
      OpeningIsLater(step, window - 1);
    } else {
      assert Opening(step, 0) == 0.0;
    }
  }

  lemma {:induction false} BurstInOrder(max: nat, step: real, windows: nat)
    requires step > 0.0 && max >= 1
    ensures RequestsUntil(Burst(max, step, windows), LatestRequest(step, windows))
  {
    if windows == 0 {
      RequestsInOrder(Requests(1, 0.0), max - 1, 0.0, 60.0);
    } else {
      BurstInOrder(max, step, windows - 1);
      OpeningIsLater(step, windows);
      RequestsInOrder(Burst(max, step, windows - 1), max, LatestRequest(step, windows - 1), Opening(step, windows));
    }
  }

  lemma {:induction false} OpeningIs(step: real, window: nat)
    ensures Opening(step, window) == 60.0 * window as real + step * window as real
  {
    if window > 0 {
      OpeningIs(step, window - 1);
      assert step * window as real == step * (window - 1) as real + step;
    }
  }

  lemma LastOpening(gap: real, minutes: nat)
    requires minutes >= 1
    ensures Opening(gap / minutes as real, minutes) == 60.0 + 60.0 * (minutes - 1) as real + gap
  {
    OpeningIs(gap / minutes as real, minutes);
  }

  /**
   The bound is reached, for any number of minutes, in an interval as little longer than one
   minute less as one likes.
   */
  lemma BoundIsReached(l: Limits, minutes: nat, gap: real)
    requires gap > 0.0 && l.maxCredentialsPerMinute >= 1 && minutes >= 1
    ensures var events := Burst(l.maxCredentialsPerMinute, gap / minutes as real, minutes);
            && InOrder(events)
            && Within(events, "u", 1, |events|, 60.0, 60.0 + 60.0 * (minutes - 1) as real + gap)
            && Granted(l, events, "u", 1, |events|) == l.maxCredentialsPerMinute * (minutes + 1) - 1
  {
    var max, step := l.maxCredentialsPerMinute, gap / minutes as real;
    assert step > 0.0;
    BurstGranted(l, step, minutes);
    BurstInOrder(max, step, minutes);
    LastOpening(gap, minutes);
    BudgetIsProduct(max, minutes + 1);
    assert Budget(max, minutes + 1) == Budget(max, minutes) + max;
  }

  ghost predicate WithinMinute(events: seq<Event>, user: string, i: int, j: int, start: real) {
    0 <= i <= j <= |events| && Within(events, user, i, j, start, start + 60.0)
  }

  /** No minute grants a user more than the limit. */
  ghost predicate KeptPerMinute(l: Limits) {
    forall events, user, i, j, start ::
      InOrder(events) && WithinMinute(events, user, i, j, start)
      ==> Granted(l, events, user, i, j) <= (if l.maxCredentialsPerMinute > 0 then l.maxCredentialsPerMinute else 0)
  }

  /** The documented limit per minute holds for every minute if and only if it is at most one. */
  lemma KeptPerMinuteIff(l: Limits)
    ensures KeptPerMinute(l) <==> l.maxCredentialsPerMinute <= 1
  {
    if l.maxCredentialsPerMinute <= 1 {
      forall events, user, i, j, start | InOrder(events) && WithinMinute(events, user, i, j, start)
        ensures Granted(l, events, user, i, j)
             <= (if l.maxCredentialsPerMinute > 0 then l.maxCredentialsPerMinute else 0)
      {
        if l.maxCredentialsPerMinute == 1 {
          GrantedBound(l, events, user, i, j, start, start + 60.0, 1);
        } else {
          NoneGranted(l, events, user, i, j);
        }
      }
    } else {
      MinuteBroken(l);
    }
  }

  lemma MinuteBroken(l: Limits)
    requires l.maxCredentialsPerMinute >= 2
    ensures !KeptPerMinute(l)
  {
    var events := Burst(l.maxCredentialsPerMinute, 60.0 / 1 as real, 1);
    BoundIsReached(l, 1, 60.0);
    assert WithinMinute(events, "u", 1, |events|, 60.0);
  }
}
