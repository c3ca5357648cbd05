/** For which region lists `Deploy` keeps its promise of convergence, and what a dry run does. */
module DeployInputs {
  import opened Wrappers
  import opened Text
  import opened FlyTypes
  import opened FlyApi
  import opened RegionFlags
  import opened Deploy
  import opened DeployEffects
  import opened DeployAnswers
  import opened DeployLaws
  import opened DeployRepeats

  /** One run without failures converges, from every remote with at most one machine per region. */
  ghost predicate AlwaysConverges(given: DeployConfig) {
    forall w: World, n: Net |
      && FailureFree(w) && WellFormed(n.remote) && OnePerRegion(n.remote.machines)
      && Lists(w.listing, n.remote.machines) ::
      Converged(given, DeployStep(false, w, n, given).0.remote)
  }

  function CalmWorld(): World {
    World(_ => Works, [1], _ => "started")
  }

  /** A remote that holds one running machine, in region `x`. */
  function OneMachine(x: string): Net {
    Net(Remote(Some(App("app", "org", "")), [IPAddress("a", "v4")],
               map[1 := Machine(1, "m", x, "started", MachineConfig("image", NilMap, NilSlice, None, NilMap))], 2),
        multiset{})
  }

  lemma OneMachineIsFair(x: string)
    ensures var w, n := CalmWorld(), OneMachine(x);
            && FailureFree(w) && WellFormed(n.remote) && OnePerRegion(n.remote.machines)
            && Lists(w.listing, n.remote.machines)
  {
    var m := OneMachine(x).remote.machines;
    forall y
      ensures |InRegion(m, y)| <= 1
    {
      Smaller(InRegion(m, y), {1});
    }
  }

  // ----- a region that is blank or named twice -----

  /** How many regions from `k` on the create loop reads as `x`. */
  function Count(regions: seq<string>, k: nat, x: string): nat
    requires k <= |regions|
    decreases |regions| - k
  {
    if k == |regions| then 0 else (if Trim(regions[k]) == x then 1 else 0) + Count(regions, k + 1, x)
  }

  lemma {:induction false} CountAtLeast(regions: seq<string>, k: nat, i: nat, x: string)
    requires k <= i < |regions| && Trim(regions[i]) == x
    ensures Count(regions, k, x) >= 1 + Count(regions, i + 1, x)
    decreases i - k
  {
    if k < i {
      CountAtLeast(regions, k + 1, i, x);
    }
  }

  lemma AddedIsCounted(machines: Machines, id: MachineID, m: Machine, x: string)
    requires id !in machines
    ensures |InRegion(machines[id := m], x)| == |InRegion(machines, x)| + (if m.region == x then 1 else 0)
  {
    assert InRegion(machines[id := m], x) == InRegion(machines, x) + (if m.region == x then {id} else {});
  }

  lemma CreateAddsOne(w: World, n: Net, cfg: DeployConfig, region: string, x: string)
    requires FailureFree(w) && n.remote.app.Some? && WellFormed(n.remote)
    ensures var (n', m) := EnsureMachineStep(false, w, n, cfg, region, None);
            && m.Success? && WellFormed(n'.remote) && n'.remote.app.Some?
            && |InRegion(n'.remote.machines, x)| == |InRegion(n.remote.machines, x)| + (if region == x then 1 else 0)
  {
    AddedIsCounted(n.remote.machines, n.remote.nextId, Created(n.remote, Request(cfg, region)), x);
  }

  /** With nothing to keep, the loop creates a machine per listed region, repeated and blank ones included. */
  lemma {:induction false} LoopCreatesAll(w: World, n: Net, cfg: DeployConfig, k: nat, done: seq<Machine>, x: string)
    requires FailureFree(w) && n.remote.app.Some? && WellFormed(n.remote) && k <= |cfg.regions|
    ensures |InRegion(EnsureFrom(false, w, n, cfg, map[], k, done).0.remote.machines, x)|
         == |InRegion(n.remote.machines, x)| + Count(cfg.regions, k, x)
    decreases |cfg.regions| - k
  {
    if k < |cfg.regions| {
      var region := Trim(cfg.regions[k]);
      CreateAddsOne(w, n, cfg, region, x);
      var (n1, m) := EnsureMachineStep(false, w, n, cfg, region, None);
      LoopCreatesAll(w, n1, cfg, k + 1, done + [m.value], x);
    }
  }

  lemma RegionlessRun(given: DeployConfig, x: string)
    requires MissingField(given).None?
    ensures |InRegion(DeployStep(false, CalmWorld(), OneMachine(""), given).0.remote.machines, x)|
         == (if x == "" then 1 else 0) + Count(given.regions, 0, x)
  {
    var w, n, cfg := CalmWorld(), OneMachine(""), WithDefaults(given);
    OneMachineIsFair("");
    PrepareReads(w, n, cfg);
    var n1 := Net(n.remote, n.calls + multiset{GetApp, ListIPs} + multiset{ListMachines});
    var listed := Listed(w.listing, n.remote.machines);
    assert listed[..0] == [] && LastPerRegion(listed) == map[];
    assert Doomed(map[], cfg.regions) == {};
    SweepOfNone(w, n1);
    LoopCreatesAll(w, n1, cfg, 0, [], x);
    assert InRegion(n.remote.machines, x) == if x == "" then {1} else {};
  }

  lemma BlankOrRepeatedBreaks(given: DeployConfig, x: string)
    requires MissingField(given).None? && Count(given.regions, 0, x) >= (if x == "" then 1 else 2)
    requires x in Wanted(given.regions)
    ensures !AlwaysConverges(given)
  {
    RegionlessRun(given, x);
    OneMachineIsFair("");
    var r' := DeployStep(false, CalmWorld(), OneMachine(""), given).0.remote;
    assert !RegionConverged(WithDefaults(given), r'.machines, x);
  }

  // ----- a region that is not trimmed -----

  /** A machine that the run itself destroyed is never replaced: the loop takes it for existing. */
  lemma {:induction false} VanishedStays(w: World, n: Net, cfg: DeployConfig, m: Machine, k: nat, done: seq<Machine>)
    requires k <= |cfg.regions| && m.id !in n.remote.machines && m.id < n.remote.nextId
             && InRegion(n.remote.machines, m.region) == {}
    ensures InRegion(EnsureFrom(false, w, n, cfg, map[m.region := m], k, done).0.remote.machines, m.region) == {}
    decreases |cfg.regions| - k
  {
    if k < |cfg.regions| {
      var region := Trim(cfg.regions[k]);
      VanishedStep(w, n, cfg, m, region);
      var (n1, r) := EnsureMachineStep(false, w, n, cfg, region, Lookup(map[m.region := m], region));
      if r.Success? {
        VanishedStays(w, n1, cfg, m, k + 1, done + [r.value]);
      }
    }
  }

  lemma VanishedStep(w: World, n: Net, cfg: DeployConfig, m: Machine, region: string)
    requires m.id !in n.remote.machines && m.id < n.remote.nextId && InRegion(n.remote.machines, m.region) == {}
    ensures var r' := EnsureMachineStep(false, w, n, cfg, region, Lookup(map[m.region := m], region)).0.remote;
            m.id !in r'.machines && m.id < r'.nextId && InRegion(r'.machines, m.region) == {}
  {
  }

  lemma UntrimmedBreaks(given: DeployConfig, x: string)
    requires MissingField(given).None? && x in Wanted(given.regions) && x !in given.regions && x != ""
    ensures !AlwaysConverges(given)
  {
    var w, n, cfg := CalmWorld(), OneMachine(x), WithDefaults(given);
    OneMachineIsFair(x);
    PrepareReads(w, n, cfg);
    var m := n.remote.machines[1];
    OnlyMachineIsDoomed(m, cfg.regions);
    var n1 := Net(n.remote, n.calls + multiset{GetApp, ListIPs} + multiset{ListMachines});
    var n2 := SweepStep(w, n1, {1});
    assert n2.remote.machines == map[];
    VanishedStays(w, n2, cfg, m, 0, []);
    assert !RegionConverged(cfg, DeployStep(false, w, n, given).0.remote.machines, x);
  }

  /** The only machine, configured as wanted and running, in a region named with white space around it. */
  function SettledMachine(given: DeployConfig): Net
    requires given.regions != []
  {
    var m := Machine(1, "m", Trim(given.regions[0]), "started", DesiredConfig(WithDefaults(given)));
    Net(Remote(Some(App("app", "org", "")), [IPAddress("a", "v4")], map[1 := m], 2), multiset{})
  }

  /** The only machine, listed, is taken for the machine of its region, and swept if that is not desired. */
  lemma OnlyMachineIsDoomed(m: Machine, regions: seq<string>)
    requires m.id == 1 && m.region != "" && m.region !in regions
    ensures LastPerRegion(Listed([1], map[1 := m])) == map[m.region := m]
    ensures Doomed(map[m.region := m], regions) == {1}
  {
    var listed := Listed([1], map[1 := m]);
    assert listed == [m] && listed[..0] == [];
    assert map[m.region := m][m.region].id in Doomed(map[m.region := m], regions);
  }

  lemma DestroyedIsReported(w: World, n2: Net, cfg: DeployConfig, m: Machine)
    requires |cfg.regions| == 1 && Trim(cfg.regions[0]) == m.region && m.config == DesiredConfig(cfg)
             && m.state == "started"
    ensures EnsureFrom(false, w, n2, cfg, map[m.region := m], 0, []) == (n2, Success([m]))
  {
    FreshStates(m);
    assert EnsureMachineStep(false, w, n2, cfg, m.region, Some(m)) == (n2, Success(m));
    assert [] + [m] == [m];
  }

  /** Given one untrimmed region, a run in which nothing fails destroys its machine and reports it as deployed. */
  lemma UntrimmedReportsDestroyed(given: DeployConfig)
    requires MissingField(given).None? && |given.regions| == 1
    requires Trim(given.regions[0]) != given.regions[0] && Trim(given.regions[0]) != ""
    ensures var n := SettledMachine(given);
            var (n', res) := DeployStep(false, CalmWorld(), n, given);
            res.Success? && res.value.machines == [n.remote.machines[1]] && n'.remote.machines == map[]
  {
    var w, n, cfg := CalmWorld(), SettledMachine(given), WithDefaults(given);
    var m := n.remote.machines[1];
    PrepareReads(w, n, cfg);
    assert cfg.regions == [given.regions[0]];
    OnlyMachineIsDoomed(m, cfg.regions);
    var n1 := Net(n.remote, n.calls + multiset{GetApp, ListIPs} + multiset{ListMachines});
    var n2 := SweepStep(w, n1, {1});
    assert n2.remote.machines == map[];
    DestroyedIsReported(w, n2, cfg, m);
    assert ConvergeStep(false, w, PrepareStep(false, w, n, cfg).0, cfg) == (n2, Success([m]));
  }

  // ----- the exact condition -----

  lemma WhyNotClean(regions: seq<string>) returns (x: string)
    requires !CleanRegions(regions)
    ensures x in Wanted(regions)
    ensures (if x == "" then Count(regions, 0, x) >= 1 else Count(regions, 0, x) >= 2) || (x != "" && x !in regions)
  {
    if i :| 0 <= i < |regions| && (regions[i] == "" || !Trimmed(regions[i])) {
      TrimIsTrimmed(regions[i]);
      x := Trim(regions[i]);
      assert regions[i] in regions;
      if x == "" {
        CountAtLeast(regions, 0, i, x);
      } else if x in regions {
        var j :| 0 <= j < |regions| && regions[j] == x;
        CountTwo(regions, if i < j then i else j, if i < j then j else i, x);
      }
    } else {
      var i, j :| 0 <= i < j < |regions| && regions[i] == regions[j];
      TrimIsTrimmed(regions[i]);
      x := regions[i];
      assert Trim(regions[i]) == x && regions[i] in regions;
      CountTwo(regions, i, j, x);
    }
  }

  lemma CountTwo(regions: seq<string>, i: nat, j: nat, x: string)
    requires i < j < |regions| && Trim(regions[i]) == x == Trim(regions[j])
    ensures Count(regions, 0, x) >= 2
  {
    CountAtLeast(regions, 0, i, x);
    CountAtLeast(regions, i + 1, j, x);
  }

  /** `Deploy` always converges if and only if its regions are trimmed, not blank, and all different. */
  lemma AlwaysConvergesIff(given: DeployConfig)
    requires MissingField(given).None?
    ensures AlwaysConverges(given) <==> CleanRegions(given.regions)
  {
    if CleanRegions(given.regions) {
      forall w: World, n: Net |
        FailureFree(w) && WellFormed(n.remote) && OnePerRegion(n.remote.machines) && Lists(w.listing, n.remote.machines)
        ensures Converged(given, DeployStep(false, w, n, given).0.remote)
      {
        DeployConverges(w, n, given);
      }
    } else {
      var x := WhyNotClean(given.regions);
      if x != "" && x !in given.regions {
        UntrimmedBreaks(given, x);
      } else {
        BlankOrRepeatedBreaks(given, x);
      }
    }
  }

  /** Fed by the region flag, `Deploy` always converges if and only if the flag names no region twice. */
  lemma FlagConvergesIff(flag: string, given: DeployConfig)
    requires RegionsOf(flag) == Success(given.regions) && MissingField(given).None?
    ensures AlwaysConverges(given)
       <==> forall i, j :: 0 <= i < j < |given.regions| ==> given.regions[i] != given.regions[j]
  {
    RegionsAreTrimmed(flag);
    forall i | 0 <= i < |given.regions|
      ensures given.regions[i] != "" && Trimmed(given.regions[i])
    {
      assert given.regions[i] in RegionsOf(flag).value;
    }
    AlwaysConvergesIff(given);
  }

  /** Fed by the environment flags, a repeated deploy is quiet if and only if there is at least one flag. */
  lemma FlagsRepeatQuietIff(flags: seq<string>, w: World, n: Net, given: DeployConfig)
    requires EnvOf(flags).Success? && given.env == Entries(EnvOf(flags).value)
    requires Consistent(n.remote) && Lists(w.listing, n.remote.machines) && FailureFree(w)
    requires CleanRegions(given.regions) && MissingField(given).None? && Converged(given, n.remote)
    ensures DeployStep(false, w, n, given).0 == Net(n.remote, n.calls + READS) <==> flags != []
  {
    EnvEmptyIff(flags);
    RepeatIsQuietIff(w, n, given);
  }

  /** The deployment that a run converges to, told from the given configuration alone. */
  lemma ConvergedIsGiven(given: DeployConfig, r: Remote, x: string)
    requires CleanRegions(given.regions) && Converged(given, r) && x in given.regions
    ensures exists id :: InRegion(r.machines, x) == {id} && AsGiven(given, r.machines[id].config)
              && !EqualFold(r.machines[id].state, "stopped")
  {
    var cfg := WithDefaults(given);
    CleanIsWanted(cfg.regions);
    assert RegionConverged(cfg, r.machines, x);
    var id :| InRegion(r.machines, x) == {id} && AsDesired(cfg, r.machines[id].config) && !Stopped(r.machines[id]);
    AsDesiredIsGiven(given, r.machines[id].config);
  }

  // ----- dry runs -----

  /** What a dry run reports for a region: the machine a real run would ask for. */
  ghost predicate DryAnswer(given: DeployConfig, region: string, m: Machine) {
    && m.id == NO_ID && m.state == "dry-run" && m.region == Trim(region)
    && m.name == MachineName(given, Trim(region))
    && AsGiven(given, m.config) && m.config.env == given.env
  }

  lemma {:induction false} DryLoop(w: World, n: Net, given: DeployConfig, k: nat, done: seq<Machine>)
    requires k == |done| <= |given.regions|
    ensures var (n', ms) := EnsureFrom(true, w, n, WithDefaults(given), map[], k, done);
            && n' == n && ms.Success? && |ms.value| == |given.regions| && done <= ms.value
            && forall j :: k <= j < |given.regions| ==> DryAnswer(given, given.regions[j], ms.value[j])
    decreases |given.regions| - k
  {
    if k < |given.regions| {
      var cfg, region := WithDefaults(given), Trim(given.regions[k]);
      var m := EnsureMachineStep(true, w, n, cfg, region, None).1.value;
      DesiredIsGiven(given, m.config);
      DryLoop(w, n, given, k + 1, done + [m]);
      assert EnsureFrom(true, w, n, cfg, map[], k + 1, done + [m]).1.value[k] == m;
    }
  }

  /**
   A dry run sends nothing; unless a field is missing, it reports an app of the given name,
   a v4 address, and for every region in order the machine that a real run would ask for.
   */
  lemma DryRunIsHarmless(w: World, n: Net, given: DeployConfig)
    requires Lists(w.listing, n.remote.machines)
    ensures var (n', res) := DeployStep(true, w, n, given);
            && n' == n
            && (res.Failure? <==>
                  given.appName == "" || given.orgSlug == "" || given.regions == [] || given.image == "")
            && (res.Success? ==>
                  && res.value.dryRun && res.value.regions == given.regions
                  && res.value.app == App(given.appName, "", "")
                  && |res.value.ips| == 1 && res.value.ips[0].kind == "v4"
                  && |res.value.machines| == |given.regions|
                  && forall j :: 0 <= j < |given.regions| ==>
                       DryAnswer(given, given.regions[j], res.value.machines[j]))
  {
    if MissingField(given).None? {
      SweepOfNone(w, n);
      assert Doomed(map[], WithDefaults(given).regions) == {};
      DryLoop(w, n, given, 0, []);
    }
  }
}
