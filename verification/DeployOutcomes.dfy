/**
 When a run fails and with which error, where it stops, and what it does to the app and
 its addresses: told from the given configuration, the remote and the fate of each call.
 */
module DeployOutcomes {
  import opened Wrappers
  import opened Text
  import opened FlyTypes
  import opened FlyJson
  import opened FlyApi
  import opened Deploy
  import opened DeployEffects
  import opened DeployRuns
  import opened DeployAnswers

  predicate Works(w: World, c: Call) {
    w.fault(c) == Outcome.Works
  }

  // ----- regions -----

  /**
   What goes wrong with one region, if anything: creating its machine if it has none; else
   updating the machine if it is not up to date, or starting it if it is then stopped.
   */
  ghost function RegionError(w: World, given: DeployConfig, region: string, existing: Option<Machine>): Option<Error> {
    match existing
    case None => if Works(w, CreateMachine(region)) then None else Some(CallFailed(CreateMachine(region)))
    case Some(m) =>
      var changed := !UpToDate(given, existing);
      var state := if changed then w.stateAfterUpdate(m.id) else m.state;
      if changed && !Works(w, UpdateMachine(m.id)) then Some(CallFailed(UpdateMachine(m.id)))
      else if EqualFold(state, "stopped") && !Works(w, StartMachine(m.id)) then Some(CallFailed(StartMachine(m.id)))
      else None
  }

  /** The error of the first region from `k` on that has one. */
  ghost function FirstError(w: World, given: DeployConfig, existing: map<string, Machine>, k: nat): Option<Error>
    requires k <= |given.regions|
    decreases |given.regions| - k
  {
    if k == |given.regions| then None
    else
      var e := RegionError(w, given, given.regions[k], Lookup(existing, given.regions[k]));
      if e.Some? then e else FirstError(w, given, existing, k + 1)
  }

  ghost predicate Ends<T>(r: Result<T, Error>, e: Option<Error>) {
    if e.Some? then r == Failure(e.value) else r.Success?
  }

  lemma RegionOutcome(w: World, n: Net, given: DeployConfig, region: string, existing: Option<Machine>)
    requires WellFormed(n.remote) && n.remote.app.Some? && Current(n.remote.machines, region, existing)
    ensures Ends(EnsureMachineStep(false, w, n, WithDefaults(given), region, existing).1,
                 RegionError(w, given, region, existing))
  {
    if existing.Some? {
      DesiredIsGiven(given, existing.value.config);
    }
  }

  /** What the loop from region `k` on comes to; the regions after the one that fails are not touched. */
  ghost predicate LoopEnds(w: World, given: DeployConfig, existing: map<string, Machine>, k: nat,
                           before: Machines, after: Machines, ms: Result<seq<Machine>, Error>)
    requires k <= |given.regions|
  {
    && Ends(ms, FirstError(w, given, existing, k))
    && forall j :: FailsBeforehand(w, given, existing, k, j) ==> Untouched(before, after, given.regions[j])
  }

  /** Some region before `j` has an error. */
  ghost predicate FailsBeforehand(w: World, given: DeployConfig, existing: map<string, Machine>, k: nat, j: int) {
    k <= j < |given.regions|
    && exists i :: k <= i < j && RegionError(w, given, given.regions[i], Lookup(existing, given.regions[i])).Some?
  }

  /** What the rest of the loop needs to know of the step for one region. */
  ghost predicate EndedFirst(w: World, given: DeployConfig, region: string, existing: Option<Machine>,
                             r: Remote, r': Remote, m: Result<Machine, Error>) {
    && Ends(m, RegionError(w, given, region, existing))
    && WellFormed(r') && r'.app == r.app && OnlyRegion(r.machines, r'.machines, region)
  }

  lemma FirstEnds(w: World, n: Net, given: DeployConfig, region: string, existing: Option<Machine>)
    requires WellFormed(n.remote) && n.remote.app.Some? && Current(n.remote.machines, region, existing)
    ensures var (n', m) := EnsureMachineStep(false, w, n, WithDefaults(given), region, existing);
            EndedFirst(w, given, region, existing, n.remote, n'.remote, m)
  {
    RegionOutcome(w, n, given, region, existing);
    EnsureEffect(w, n, WithDefaults(given), region, existing);
  }

  lemma {:induction false} LoopOutcome(w: World, n: Net, given: DeployConfig, existing: map<string, Machine>, k: nat,
                                       done: seq<Machine>)
    requires CleanRegions(given.regions) && k == |done| <= |given.regions| && n.remote.app.Some?
    requires WellFormed(n.remote) && Ready(given.regions, k, existing, n.remote.machines)
    ensures var (n', ms) := EnsureFrom(false, w, n, WithDefaults(given), existing, k, done);
            LoopEnds(w, given, existing, k, n.remote.machines, n'.remote.machines, ms)
    decreases |given.regions| - k, 1
  {
    if k < |given.regions| {
      var x := given.regions[k];
      TrimIsTrimmed(x);
      FirstEnds(w, n, given, x, Lookup(existing, x));
      var (n1, m) := EnsureMachineStep(false, w, n, WithDefaults(given), x, Lookup(existing, x));
      if m.Failure? {
        EndsHere(w, given, existing, k, n.remote, n1.remote, m);
      } else {
        RestOutcome(w, n, n1, m, given, existing, k, done);
      }
    }
  }

  lemma StopsHere(w: World, given: DeployConfig, existing: map<string, Machine>, k: nat,
                  before: Machines, after: Machines)
    requires CleanRegions(given.regions) && k < |given.regions| && OnlyRegion(before, after, given.regions[k])
    ensures forall j :: k < j < |given.regions| ==> Untouched(before, after, given.regions[j])
  {
    forall j | k < j < |given.regions|
      ensures Untouched(before, after, given.regions[j])
    {
      OtherRegionsStay(before, after, given.regions[k], given.regions[j]);
    }
  }

  lemma EndsHere(w: World, given: DeployConfig, existing: map<string, Machine>, k: nat, r: Remote, r1: Remote,
                 m: Result<Machine, Error>)
    requires CleanRegions(given.regions) && k < |given.regions| && m.Failure?
    requires EndedFirst(w, given, given.regions[k], Lookup(existing, given.regions[k]), r, r1, m)
    ensures LoopEnds(w, given, existing, k, r.machines, r1.machines, Failure(m.error))
  {
    StopsHere(w, given, existing, k, r.machines, r1.machines);
  }

  lemma {:induction false} RestOutcome(w: World, n: Net, n1: Net, m: Result<Machine, Error>, given: DeployConfig,
                                       existing: map<string, Machine>, k: nat, done: seq<Machine>)
    requires CleanRegions(given.regions) && k == |done| < |given.regions| && n.remote.app.Some? && m.Success?
    requires Ready(given.regions, k, existing, n.remote.machines)
    requires EndedFirst(w, given, given.regions[k], Lookup(existing, given.regions[k]), n.remote, n1.remote, m)
    ensures var (n', ms) := EnsureFrom(false, w, n1, WithDefaults(given), existing, k + 1, done + [m.value]);
            LoopEnds(w, given, existing, k, n.remote.machines, n'.remote.machines, ms)
    decreases |given.regions| - k, 0
  {
    ReadyAfterFirst(given.regions, k, existing, n.remote.machines, n1.remote.machines);
    LoopOutcome(w, n1, given, existing, k + 1, done + [m.value]);
    StopsHere(w, given, existing, k, n.remote.machines, n1.remote.machines);
    var (n', ms) := EnsureFrom(false, w, n1, WithDefaults(given), existing, k + 1, done + [m.value]);
    EndsEarlier(w, given, existing, k, n.remote.machines, n1.remote.machines, n'.remote.machines, ms);
  }

  lemma EndsEarlier(w: World, given: DeployConfig, existing: map<string, Machine>, k: nat,
                    before: Machines, middle: Machines, after: Machines, ms: Result<seq<Machine>, Error>)
    requires k < |given.regions|
    requires RegionError(w, given, given.regions[k], Lookup(existing, given.regions[k])) == None
    requires forall j :: k < j < |given.regions| ==> Untouched(before, middle, given.regions[j])
    requires LoopEnds(w, given, existing, k + 1, middle, after, ms)
    ensures LoopEnds(w, given, existing, k, before, after, ms)
  {
    forall j | FailsBeforehand(w, given, existing, k, j)
      ensures Untouched(before, after, given.regions[j])
    {
      var i :| k <= i < j && RegionError(w, given, given.regions[i], Lookup(existing, given.regions[i])).Some?;
      assert FailsBeforehand(w, given, existing, k + 1, j);
      assert Untouched(before, middle, given.regions[j]) && Untouched(middle, after, given.regions[j]);
    }
  }

  // ----- the whole run -----

  /** The organization charged for an address: the one Fly reports for the app, the given one if it reports none. */
  function Owner(r: Remote, given: DeployConfig): string {
    if r.app.Some? && r.app.value.organizationSlug != "" then r.app.value.organizationSlug
    else if r.app.Some? && r.app.value.orgSlug != "" then r.app.value.orgSlug
    else given.orgSlug
  }

  /** What goes wrong before the machines are listed. */
  function PreparationError(w: World, r: Remote, given: DeployConfig): Option<Error> {
    if given.appName == "" then Some(Required("app name"))
    else if given.orgSlug == "" then Some(Required("org slug"))
    else if given.regions == [] then Some(Required("region"))
    else if given.image == "" then Some(Required("image"))
    else if r.app.Some? && !Works(w, GetApp) then Some(CallFailed(CreateApp))
    else if r.app.None? && !Works(w, CreateApp) then Some(CallFailed(CreateApp))
    else if !Works(w, ListIPs) then Some(CallFailed(ListIPs))
    else if r.ips == [] && !Works(w, AllocateIP(Owner(r, given))) then Some(CallFailed(AllocateIP(Owner(r, given))))
    else None
  }

  /** What goes wrong with a run, if anything; no `DestroyMachine` call is in it. */
  ghost function RunError(w: World, r: Remote, given: DeployConfig): Option<Error>
    requires Lists(w.listing, r.machines)
  {
    var e := PreparationError(w, r, given);
    if e.Some? then e
    else if !Works(w, ListMachines) then Some(CallFailed(ListMachines))
    else FirstError(w, given, LastPerRegion(Listed(w.listing, r.machines)), 0)
  }

  lemma PrepareOutcome(w: World, n: Net, given: DeployConfig)
    requires MissingField(given).None?
    ensures var (n', p) := PrepareStep(false, w, n, WithDefaults(given));
            Ends(p, PreparationError(w, n.remote, given)) && (p.Success? ==> n'.remote.app.Some?)
  {
  }

  lemma ConvergeOutcome(w: World, n: Net, given: DeployConfig)
    requires WellFormed(n.remote) && Lists(w.listing, n.remote.machines) && CleanRegions(given.regions)
    requires n.remote.app.Some?
    ensures Ends(ConvergeStep(false, w, n, WithDefaults(given)).1,
                 if !Works(w, ListMachines) then Some(CallFailed(ListMachines))
                 else FirstError(w, given, LastPerRegion(Listed(w.listing, n.remote.machines)), 0))
  {
    var (n1, listed) := ListMachinesStep(false, w, n);
    if listed.Success? {
      var existing := LastPerRegion(listed.value);
      SweepEffect(w, n1, given.regions);
      LoopOutcome(w, SweepStep(w, n1, Doomed(existing, given.regions)), given, existing, 0, []);
    }
  }

  /**
   A run fails exactly when one of its calls other than the destructions fails, or a field
   is missing, and with the error of the first; a failed destruction fails no run.
   */
  lemma RunFailsIff(w: World, n: Net, given: DeployConfig)
    requires WellFormed(n.remote) && Lists(w.listing, n.remote.machines) && CleanRegions(given.regions)
    ensures Ends(DeployStep(false, w, n, given).1, RunError(w, n.remote, given))
  {
    if MissingField(given).None? {
      var cfg := WithDefaults(given);
      PrepareOutcome(w, n, given);
      PrepareEffect(w, n, cfg);
      var (n1, p) := PrepareStep(false, w, n, cfg);
      if p.Success? {
        ConvergeOutcome(w, n1, given);
      }
    }
  }

  // ----- what a run leaves behind, whatever fails -----

  /** A run refused for a missing field sends nothing. */
  lemma RefusedRunSendsNothing(w: World, n: Net, given: DeployConfig)
    requires Lists(w.listing, n.remote.machines)
    requires given.appName == "" || given.orgSlug == "" || given.regions == [] || given.image == ""
    ensures DeployStep(false, w, n, given).0 == n
  {
  }

  /** The app of the given name in the given organization, if there was none; and a v4 address, if it had none. */
  ghost predicate AppPrepared(given: DeployConfig, r: Remote, r': Remote) {
    && (r'.app == r.app || (r.app.None? && r'.app == Some(App(given.appName, given.orgSlug, ""))))
    && (r'.ips == r.ips || (r.ips == [] && |r'.ips| == 1 && r'.ips[0].kind == "v4"))
  }

  lemma PreparesApp(w: World, n: Net, given: DeployConfig)
    ensures var (n', p) := PrepareStep(false, w, n, WithDefaults(given));
            && AppPrepared(given, n.remote, n'.remote)
            && (p.Success? ==> n'.remote.app == Some(p.value.app) && n'.remote.ips == p.value.ips != [])
  {
  }

  /**
   Whatever fails, a run adds to the remote at most the app it was given, in the organization
   it was given, and one v4 address; a run that succeeds reports the app and its addresses.
   */
  lemma RunPreparesApp(w: World, n: Net, given: DeployConfig)
    requires WellFormed(n.remote) && Lists(w.listing, n.remote.machines) && CleanRegions(given.regions)
    ensures var (n', res) := DeployStep(false, w, n, given);
            && AppPrepared(given, n.remote, n'.remote)
            && (res.Success? ==> n'.remote.app == Some(res.value.app) && n'.remote.ips == res.value.ips != [])
  {
    if MissingField(given).None? {
      var cfg := WithDefaults(given);
      PreparesApp(w, n, given);
      PrepareEffect(w, n, cfg);
      var (n1, p) := PrepareStep(false, w, n, cfg);
      if p.Success? {
        ConvergeAnyFaults(w, n1, cfg);
      }
    }
  }

  /** Whether the loop from region `k` on gets to region `j` and its creation, if it comes to that, takes effect. */
  ghost predicate Fills(w: World, given: DeployConfig, existing: map<string, Machine>, k: nat, j: int) {
    k <= j < |given.regions| && !FailsBeforehand(w, given, existing, k, j)
    && w.fault(CreateMachine(given.regions[j])) != FailsBefore
  }

  /** The empty regions from `k` on get a machine exactly where the loop gets and the creation takes effect. */
  ghost predicate FillsExactly(w: World, given: DeployConfig, existing: map<string, Machine>, k: nat,
                               before: Machines, after: Machines) {
    forall j :: k <= j < |given.regions| && InRegion(before, given.regions[j]) == {} ==>
      (InRegion(after, given.regions[j]) != {} <==> Fills(w, given, existing, k, j))
  }

  lemma FillsFirst(w: World, n: Net, given: DeployConfig, region: string)
    requires WellFormed(n.remote) && n.remote.app.Some? && InRegion(n.remote.machines, region) == {}
    ensures var n' := EnsureMachineStep(false, w, n, WithDefaults(given), region, None).0;
            InRegion(n'.remote.machines, region) != {} <==> w.fault(CreateMachine(region)) != FailsBefore
  {
    var after := EnsureMachineStep(false, w, n, WithDefaults(given), region, None).0.remote.machines;
    if w.fault(CreateMachine(region)) != FailsBefore {
      assert n.remote.nextId in InRegion(after, region);
    }
  }

  /** What the first region's step does, for the loop's sake. */
  ghost predicate FirstFills(w: World, given: DeployConfig, region: string, existing: Option<Machine>,
                             r: Remote, r': Remote, m: Result<Machine, Error>) {
    && EndedFirst(w, given, region, existing, r, r', m)
    && (existing.None? ==> (InRegion(r'.machines, region) != {} <==> w.fault(CreateMachine(region)) != FailsBefore))
  }

  lemma FirstFillsOrNot(w: World, n: Net, given: DeployConfig, region: string, existing: Option<Machine>)
    requires WellFormed(n.remote) && n.remote.app.Some? && Current(n.remote.machines, region, existing)
    ensures var (n', m) := EnsureMachineStep(false, w, n, WithDefaults(given), region, existing);
            FirstFills(w, given, region, existing, n.remote, n'.remote, m)
  {
    FirstEnds(w, n, given, region, existing);
    if existing.None? {
      FillsFirst(w, n, given, region);
    }
  }

  lemma {:induction false} LoopFills(w: World, n: Net, given: DeployConfig, existing: map<string, Machine>, k: nat,
                                     done: seq<Machine>)
    requires CleanRegions(given.regions) && k == |done| <= |given.regions| && n.remote.app.Some?
    requires WellFormed(n.remote) && Ready(given.regions, k, existing, n.remote.machines)
    ensures var n' := EnsureFrom(false, w, n, WithDefaults(given), existing, k, done).0;
            FillsExactly(w, given, existing, k, n.remote.machines, n'.remote.machines)
    decreases |given.regions| - k, 1
  {
    if k < |given.regions| {
      var x := given.regions[k];
      TrimIsTrimmed(x);
      FirstFillsOrNot(w, n, given, x, Lookup(existing, x));
      var (n1, m) := EnsureMachineStep(false, w, n, WithDefaults(given), x, Lookup(existing, x));
      if m.Failure? {
        FillsNoMore(w, given, existing, k, n.remote, n1.remote, m);
      } else {
        RestFills(w, n, n1, m, given, existing, k, done);
      }
    }
  }

  lemma FillsNoMore(w: World, given: DeployConfig, existing: map<string, Machine>, k: nat, r: Remote, r1: Remote,
                    m: Result<Machine, Error>)
    requires CleanRegions(given.regions) && k < |given.regions| && m.Failure?
    requires Ready(given.regions, k, existing, r.machines)
    requires FirstFills(w, given, given.regions[k], Lookup(existing, given.regions[k]), r, r1, m)
    ensures FillsExactly(w, given, existing, k, r.machines, r1.machines)
  {
    StopsHere(w, given, existing, k, r.machines, r1.machines);
    forall j | k <= j < |given.regions| && InRegion(r.machines, given.regions[j]) == {}
      ensures InRegion(r1.machines, given.regions[j]) != {} <==> Fills(w, given, existing, k, j)
    {
      if j == k {
        assert Current(r.machines, given.regions[k], Lookup(existing, given.regions[k]));
        ExistingIsInRegion(r.machines, given.regions[k], Lookup(existing, given.regions[k]));
      } else {
        assert FailsBeforehand(w, given, existing, k, j);
      }
    }
  }

  lemma ExistingIsInRegion(machines: Machines, region: string, existing: Option<Machine>)
    requires Current(machines, region, existing)
    ensures existing.Some? ==> InRegion(machines, region) != {}
  {
    if existing.Some? {
      assert existing.value.id in InRegion(machines, region);
    }
  }

  lemma {:induction false} RestFills(w: World, n: Net, n1: Net, m: Result<Machine, Error>, given: DeployConfig,
                                     existing: map<string, Machine>, k: nat, done: seq<Machine>)
    requires CleanRegions(given.regions) && k == |done| < |given.regions| && n.remote.app.Some? && m.Success?
    requires Ready(given.regions, k, existing, n.remote.machines)
    requires FirstFills(w, given, given.regions[k], Lookup(existing, given.regions[k]), n.remote, n1.remote, m)
    ensures var n' := EnsureFrom(false, w, n1, WithDefaults(given), existing, k + 1, done + [m.value]).0;
            FillsExactly(w, given, existing, k, n.remote.machines, n'.remote.machines)
    decreases |given.regions| - k, 0
  {
    ReadyAfterFirst(given.regions, k, existing, n.remote.machines, n1.remote.machines);
    LoopFills(w, n1, given, existing, k + 1, done + [m.value]);
    EnsureFromEffect(w, n1, WithDefaults(given), existing, k + 1, done + [m.value]);
    var n' := EnsureFrom(false, w, n1, WithDefaults(given), existing, k + 1, done + [m.value]).0;
    FillsEarlier(w, given, existing, k, n.remote, n1.remote, n'.remote.machines, m);
  }

  lemma FillsEarlier(w: World, given: DeployConfig, existing: map<string, Machine>, k: nat, r: Remote, r1: Remote,
                     after: Machines, m: Result<Machine, Error>)
    requires CleanRegions(given.regions) && k < |given.regions| && m.Success?
    requires Ready(given.regions, k, existing, r.machines)
    requires FirstFills(w, given, given.regions[k], Lookup(existing, given.regions[k]), r, r1, m)
    requires Filled(given.regions, k + 1, r1.machines, after)
    requires FillsExactly(w, given, existing, k + 1, r1.machines, after)
    ensures FillsExactly(w, given, existing, k, r.machines, after)
  {
    StopsHere(w, given, existing, k, r.machines, r1.machines);
    forall j | k <= j < |given.regions| && InRegion(r.machines, given.regions[j]) == {}
      ensures InRegion(after, given.regions[j]) != {} <==> Fills(w, given, existing, k, j)
    {
      if j == k {
        assert Current(r.machines, given.regions[k], Lookup(existing, given.regions[k]));
        ExistingIsInRegion(r.machines, given.regions[k], Lookup(existing, given.regions[k]));
        assert given.regions[k] !in given.regions[k + 1..];
        assert Untouched(r1.machines, after, given.regions[k]);
      } else {
        FailsLater(w, given, existing, k, j);
      }
    }
  }

  lemma FailsLater(w: World, given: DeployConfig, existing: map<string, Machine>, k: nat, j: nat)
    requires k < j < |given.regions|
    requires RegionError(w, given, given.regions[k], Lookup(existing, given.regions[k])) == None
    ensures FailsBeforehand(w, given, existing, k, j) <==> FailsBeforehand(w, given, existing, k + 1, j)
  {
  }

  /** The run gets as far as the listing. */
  predicate GetsToList(w: World, r: Remote, given: DeployConfig) {
    PreparationError(w, r, given).None? && Works(w, ListMachines)
  }

  /** The machines that the sweep takes from a region: the last listed one, if its destruction takes effect. */
  ghost function Destroyed(w: World, machines: Machines, region: string): set<MachineID>
    requires Lists(w.listing, machines)
  {
    set id | id in machines && LastListed(w.listing, machines, region, id) && w.fault(DestroyMachine(id)) != FailsBefore
  }

  /** What a run that lists the machines does to region `x`, whatever fails. */
  ghost predicate ChangedExactly(w: World, given: DeployConfig, before: Machines, after: Machines, x: string)
    requires Lists(w.listing, before)
  {
    if x == "" then Untouched(before, after, x)
    else if x !in given.regions then InRegion(after, x) == InRegion(before, x) - Destroyed(w, before, x)
    else InRegion(before, x) != {} ==> InRegion(after, x) == InRegion(before, x)
  }

  lemma SweepTakes(w: World, n: Net, regions: seq<string>, x: string)
    requires WellFormed(n.remote) && Lists(w.listing, n.remote.machines) && x != "" && x !in regions
    ensures var before := n.remote.machines;
            var existing := LastPerRegion(Listed(w.listing, before));
            InRegion(SweepStep(w, n, Doomed(existing, regions)).remote.machines, x)
            == InRegion(before, x) - Destroyed(w, before, x)
  {
    var before := n.remote.machines;
    var existing := LastPerRegion(Listed(w.listing, before));
    var doomed := Doomed(existing, regions);
    ExistingIsFiled(w.listing, n.remote);
    VictimIsLastListed(w, n.remote, x);
    forall id | id in InRegion(before, x)
      ensures id in doomed <==> id in Victim(w, before, x)
    {
      if id in doomed {
        assert x in existing && id == existing[x].id;
      }
      if id in Victim(w, before, x) {
        assert existing[x].id in doomed;
      }
    }
  }

  lemma RegionAfterLoop(w: World, given: DeployConfig, before: Machines, middle: Machines, after: Machines, x: string)
    requires Lists(w.listing, before) && CleanRegions(given.regions)
    requires SweptRegion(w, given.regions, before, middle, x) && Filled(given.regions, 0, middle, after)
    requires x != "" && x !in given.regions ==> InRegion(middle, x) == InRegion(before, x) - Destroyed(w, before, x)
    ensures ChangedExactly(w, given, before, after, x)
  {
    assert given.regions[0..] == given.regions;
    if x !in given.regions {
      assert Untouched(middle, after, x);
    } else {
      assert AtMostFilled(middle, after, x);
    }
  }

  /** Of the given regions without a machine, those get one that the loop reaches and whose creation takes effect. */
  ghost predicate FilledExactly(w: World, given: DeployConfig, before: Machines, after: Machines)
    requires Lists(w.listing, before)
  {
    var existing := LastPerRegion(Listed(w.listing, before));
    && FillsExactly(w, given, existing, 0, before, after)
    && forall j :: FailsBeforehand(w, given, existing, 0, j) ==> Untouched(before, after, given.regions[j])
  }

  lemma LoopAfterSweep(w: World, n: Net, given: DeployConfig)
    requires WellFormed(n.remote) && Lists(w.listing, n.remote.machines) && CleanRegions(given.regions)
    requires n.remote.app.Some?
    ensures var existing := LastPerRegion(Listed(w.listing, n.remote.machines));
            var n2 := SweepStep(w, n, Doomed(existing, given.regions));
            var after := EnsureFrom(false, w, n2, WithDefaults(given), existing, 0, []).0.remote.machines;
            FilledExactly(w, given, n.remote.machines, after)
  {
    var existing := LastPerRegion(Listed(w.listing, n.remote.machines));
    var n2 := SweepStep(w, n, Doomed(existing, given.regions));
    SweepEffect(w, n, given.regions);
    LoopFills(w, n2, given, existing, 0, []);
    LoopOutcome(w, n2, given, existing, 0, []);
    forall j | 0 <= j < |given.regions|
      ensures Untouched(n.remote.machines, n2.remote.machines, given.regions[j])
    {
      assert SweptRegion(w, given.regions, n.remote.machines, n2.remote.machines, given.regions[j]);
    }
  }

  lemma ConvergeIsExact(w: World, n: Net, given: DeployConfig)
    requires WellFormed(n.remote) && Lists(w.listing, n.remote.machines) && CleanRegions(given.regions)
    requires n.remote.app.Some? && Works(w, ListMachines)
    ensures var after := ConvergeStep(false, w, n, WithDefaults(given)).0.remote.machines;
            && (forall x :: ChangedExactly(w, given, n.remote.machines, after, x))
            && FilledExactly(w, given, n.remote.machines, after)
  {
    var cfg := WithDefaults(given);
    var (n1, listed) := ListMachinesStep(false, w, n);
    var existing := LastPerRegion(listed.value);
    SweepEffect(w, n1, given.regions);
    var n2 := SweepStep(w, n1, Doomed(existing, given.regions));
    EnsureFromEffect(w, n2, cfg, existing, 0, []);
    var after := EnsureFrom(false, w, n2, cfg, existing, 0, []).0.remote.machines;
    LoopAfterSweep(w, n1, given);
    forall x
      ensures ChangedExactly(w, given, n.remote.machines, after, x)
    {
      if x != "" && x !in given.regions {
        SweepTakes(w, n1, given.regions, x);
      }
      RegionAfterLoop(w, given, n.remote.machines, n2.remote.machines, after, x);
    }
  }

  /**
   What a run does to the machines, exactly, under any faults: nothing before the listing;
   then each undesired region loses its last listed machine unless that call fails before
   its effect, desired regions keep their machines, and those without one get one where the
   creation takes effect, up to and including the first region with an error.
   */
  lemma RunIsExact(w: World, n: Net, given: DeployConfig)
    requires WellFormed(n.remote) && Lists(w.listing, n.remote.machines) && CleanRegions(given.regions)
    ensures var before, after := n.remote.machines, DeployStep(false, w, n, given).0.remote.machines;
            if GetsToList(w, n.remote, given) then
              (forall x :: ChangedExactly(w, given, before, after, x)) && FilledExactly(w, given, before, after)
            else after == before
  {
    if MissingField(given).None? {
      var cfg := WithDefaults(given);
      PrepareOutcome(w, n, given);
      PrepareEffect(w, n, cfg);
      var (n1, p) := PrepareStep(false, w, n, cfg);
      if p.Success? && Works(w, ListMachines) {
        ConvergeIsExact(w, n1, given);
      }
    }
  }

  // ----- what a machine can look like after a run, whatever fails -----

  /** A machine of a region from `k` on, as a run leaves it when it touches it: with the given configuration. */
  ghost predicate AsMade(w: World, given: DeployConfig, k: nat, before: Machines, id: MachineID, m: Machine)
    requires k <= |given.regions|
  {
    && m.id == id && m.region in given.regions[k..] && AsGiven(given, m.config)
    && m.state in {"created", "started", w.stateAfterUpdate(id)}
    && (id in before ==> before[id].region == m.region)
    && (m.name == MachineName(given, m.region)
        || (id in before && m == before[id].(state := "started")))
  }

  /** Every machine was there before just so, or is as the run makes machines, with an id from `next` on if new. */
  ghost predicate KeptOrMade(w: World, given: DeployConfig, k: nat, next: MachineID, before: Machines, after: Machines)
    requires k <= |given.regions|
  {
    forall id :: id in after ==>
      || (id in before && after[id] == before[id])
      || ((id in before || id >= next) && AsMade(w, given, k, before, id, after[id]))
  }

  lemma RequestIsGiven(w: World, given: DeployConfig, r: Remote, region: string, id: MachineID)
    ensures var req := Request(WithDefaults(given), region);
            && Created(r, req).name == Updated(w, id, req).name == MachineName(given, region)
            && AsGiven(given, Created(r, req).config) && AsGiven(given, Updated(w, id, req).config)
  {
    AsDesiredIsGiven(given, Wire(DesiredConfig(WithDefaults(given))));
  }

  lemma CreateMakes(w: World, n: Net, given: DeployConfig, k: nat, next: MachineID)
    requires WellFormed(n.remote) && k < |given.regions| && next <= n.remote.nextId
    ensures var n' := EnsureMachineStep(false, w, n, WithDefaults(given), given.regions[k], None).0;
            KeptOrMade(w, given, k, next, n.remote.machines, n'.remote.machines) && next <= n'.remote.nextId
  {
    RequestIsGiven(w, given, n.remote, given.regions[k], 0);
  }

  lemma StartMakes(w: World, r: Remote, n1: Net, given: DeployConfig, k: nat, next: MachineID, id: MachineID)
    requires k < |given.regions| && KeptOrMade(w, given, k, next, r.machines, n1.remote.machines)
    requires id in n1.remote.machines && id in r.machines
    requires AsMade(w, given, k, r.machines, id, n1.remote.machines[id].(state := "started"))
    ensures KeptOrMade(w, given, k, next, r.machines, StartMachineStep(false, w, n1, id).0.remote.machines)
  {
  }

  lemma KeepMakes(w: World, n: Net, given: DeployConfig, k: nat, next: MachineID, e: Machine)
    requires WellFormed(n.remote) && k < |given.regions| && Current(n.remote.machines, given.regions[k], Some(e))
    requires UpToDate(given, Some(e))
    ensures var n' := EnsureMachineStep(false, w, n, WithDefaults(given), given.regions[k], Some(e)).0;
            KeptOrMade(w, given, k, next, n.remote.machines, n'.remote.machines)
  {
    DesiredIsGiven(given, e.config);
    StartMakes(w, n.remote, n, given, k, next, e.id);
  }

  lemma UpdateMakes(w: World, n: Net, given: DeployConfig, k: nat, next: MachineID, e: Machine)
    requires WellFormed(n.remote) && k < |given.regions| && Current(n.remote.machines, given.regions[k], Some(e))
    requires !UpToDate(given, Some(e))
    ensures var n' := EnsureMachineStep(false, w, n, WithDefaults(given), given.regions[k], Some(e)).0;
            KeptOrMade(w, given, k, next, n.remote.machines, n'.remote.machines)
  {
    var req := Request(WithDefaults(given), given.regions[k]);
    DesiredIsGiven(given, e.config);
    RequestIsGiven(w, given, n.remote, given.regions[k], e.id);
    var (n1, updated) := UpdateMachineStep(false, w, n, e.id, req);
    assert AsMade(w, given, k, n.remote.machines, e.id, Updated(w, e.id, req));
    if updated.Success? {
      StartMakes(w, n.remote, n1, given, k, next, e.id);
    }
  }

  lemma MadeEarlier(w: World, given: DeployConfig, k: nat, next: MachineID,
                    before: Machines, middle: Machines, after: Machines)
    requires CleanRegions(given.regions) && k < |given.regions| && OnlyRegion(before, middle, given.regions[k])
    requires KeptOrMade(w, given, k, next, before, middle) && KeptOrMade(w, given, k + 1, next, middle, after)
    ensures KeptOrMade(w, given, k, next, before, after)
  {
    forall id | id in after
      ensures || (id in before && after[id] == before[id])
              || ((id in before || id >= next) && AsMade(w, given, k, before, id, after[id]))
    {
      if !(id in middle && after[id] == middle[id]) {
        assert AsMade(w, given, k + 1, middle, id, after[id]);
        assert given.regions[k] !in given.regions[k + 1..];
      }
    }
  }

  lemma RegionMakes(w: World, n: Net, given: DeployConfig, k: nat, next: MachineID, existing: Option<Machine>)
    requires WellFormed(n.remote) && k < |given.regions| && Current(n.remote.machines, given.regions[k], existing)
    requires next <= n.remote.nextId
    ensures var n' := EnsureMachineStep(false, w, n, WithDefaults(given), given.regions[k], existing).0;
            KeptOrMade(w, given, k, next, n.remote.machines, n'.remote.machines)
  {
    if existing.None? {
      CreateMakes(w, n, given, k, next);
    } else if UpToDate(given, existing) {
      KeepMakes(w, n, given, k, next, existing.value);
    } else {
      UpdateMakes(w, n, given, k, next, existing.value);
    }
  }

  lemma IdsOnlyGrow(w: World, n: Net, given: DeployConfig, region: string, existing: Option<Machine>)
    ensures EnsureMachineStep(false, w, n, WithDefaults(given), region, existing).0.remote.nextId >= n.remote.nextId
  {
  }

  /** What the rest of the loop needs to know of the step for region `k`. */
  ghost predicate MadeFirst(w: World, given: DeployConfig, k: nat, next: MachineID, r: Remote, r': Remote)
    requires k < |given.regions|
  {
    && WellFormed(r') && next <= r'.nextId && OnlyRegion(r.machines, r'.machines, given.regions[k])
    && LoopMade(w, given, k, next, r, r')
  }

  ghost predicate LoopMade(w: World, given: DeployConfig, k: nat, next: MachineID, r: Remote, r': Remote) {
    k <= |given.regions| && KeptOrMade(w, given, k, next, r.machines, r'.machines)
  }

  lemma NothingMade(w: World, given: DeployConfig, k: nat, next: MachineID, r: Remote)
    requires k <= |given.regions|
    ensures LoopMade(w, given, k, next, r, r)
  {
  }

  lemma FirstMakes(w: World, n: Net, given: DeployConfig, k: nat, next: MachineID, existing: Option<Machine>)
    requires WellFormed(n.remote) && k < |given.regions| && Current(n.remote.machines, given.regions[k], existing)
    requires next <= n.remote.nextId
    ensures var n' := EnsureMachineStep(false, w, n, WithDefaults(given), given.regions[k], existing).0;
            MadeFirst(w, given, k, next, n.remote, n'.remote)
  {
    EnsureEffect(w, n, WithDefaults(given), given.regions[k], existing);
    IdsOnlyGrow(w, n, given, given.regions[k], existing);
    RegionMakes(w, n, given, k, next, existing);
  }

  lemma {:induction false} LoopMakes(w: World, n: Net, given: DeployConfig, existing: map<string, Machine>, k: nat,
                                     next: MachineID, done: seq<Machine>)
    requires CleanRegions(given.regions) && k == |done| <= |given.regions| && next <= n.remote.nextId
    requires WellFormed(n.remote) && Ready(given.regions, k, existing, n.remote.machines)
    ensures var n' := EnsureFrom(false, w, n, WithDefaults(given), existing, k, done).0;
            LoopMade(w, given, k, next, n.remote, n'.remote)
    decreases |given.regions| - k, 1
  {
    if k < |given.regions| {
      var x := given.regions[k];
      TrimIsTrimmed(x);
      FirstMakes(w, n, given, k, next, Lookup(existing, x));
      var (n1, m) := EnsureMachineStep(false, w, n, WithDefaults(given), x, Lookup(existing, x));
      if m.Success? {
        RestMakes(w, n, n1, m.value, given, existing, k, next, done);
      }
    } else {
      NothingMade(w, given, k, next, n.remote);
    }
  }

  lemma {:induction false} RestMakes(w: World, n: Net, n1: Net, m: Machine, given: DeployConfig,
                                     existing: map<string, Machine>, k: nat, next: MachineID, done: seq<Machine>)
    requires CleanRegions(given.regions) && k == |done| < |given.regions|
    requires Ready(given.regions, k, existing, n.remote.machines) && MadeFirst(w, given, k, next, n.remote, n1.remote)
    ensures var n' := EnsureFrom(false, w, n1, WithDefaults(given), existing, k + 1, done + [m]).0;
            LoopMade(w, given, k, next, n.remote, n'.remote)
    decreases |given.regions| - k, 0
  {
    ReadyAfterFirst(given.regions, k, existing, n.remote.machines, n1.remote.machines);
    LoopMakes(w, n1, given, existing, k + 1, next, done + [m]);
    var n' := EnsureFrom(false, w, n1, WithDefaults(given), existing, k + 1, done + [m]).0;
    MadeEarlier(w, given, k, next, n.remote.machines, n1.remote.machines, n'.remote.machines);
  }

  lemma ConvergeMakes(w: World, n: Net, given: DeployConfig)
    requires WellFormed(n.remote) && Lists(w.listing, n.remote.machines) && CleanRegions(given.regions)
    ensures var n' := ConvergeStep(false, w, n, WithDefaults(given)).0;
            KeptOrMade(w, given, 0, n.remote.nextId, n.remote.machines, n'.remote.machines)
  {
    var (n1, listed) := ListMachinesStep(false, w, n);
    if listed.Success? {
      var existing := LastPerRegion(listed.value);
      var n2 := SweepStep(w, n1, Doomed(existing, given.regions));
      SweepEffect(w, n1, given.regions);
      LoopMakes(w, n2, given, existing, 0, n.remote.nextId, []);
      var n3 := EnsureFrom(false, w, n2, WithDefaults(given), existing, 0, []).0;
      MadeAfterSweep(w, given, n.remote, n2.remote.machines, n3.remote.machines);
    }
  }

  lemma MadeAfterSweep(w: World, given: DeployConfig, r: Remote, middle: Machines, after: Machines)
    requires WellFormed(r) && middle.Keys <= r.machines.Keys
    requires forall id :: id in middle ==> middle[id] == r.machines[id]
    requires KeptOrMade(w, given, 0, r.nextId, middle, after)
    ensures KeptOrMade(w, given, 0, r.nextId, r.machines, after)
  {
    forall id | id in after
      ensures || (id in r.machines && after[id] == r.machines[id])
              || ((id in r.machines || id >= r.nextId) && AsMade(w, given, 0, r.machines, id, after[id]))
    {
      assert id in r.machines ==> id < r.nextId;
      assert id in middle ==> id in r.machines;
    }
  }

  /**
   Whatever fails, every machine after a run was there before just so, or has the given
   configuration in one of the given regions, and is named after that region or only started.
   */
  lemma RunKeepsOrMakes(w: World, n: Net, given: DeployConfig)
    requires WellFormed(n.remote) && Lists(w.listing, n.remote.machines) && CleanRegions(given.regions)
    ensures var n' := DeployStep(false, w, n, given).0;
            KeptOrMade(w, given, 0, n.remote.nextId, n.remote.machines, n'.remote.machines)
  {
    if MissingField(given).None? {
      var cfg := WithDefaults(given);
      PrepareEffect(w, n, cfg);
      var (n1, p) := PrepareStep(false, w, n, cfg);
      if p.Success? {
        ConvergeMakes(w, n1, given);
      }
    }
  }
}
