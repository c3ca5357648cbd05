/** The promises of `Deploy`: safe retries, convergence, quiet repeats, draining, and their exact conditions. */
module DeployLaws {
  import opened Integers
  import opened Text
  import opened FlyTypes
  import opened FlyApi
  import opened Deploy
  import opened DeployEffects
  import opened DeployRuns

  ghost predicate OnePerRegion(machines: Machines) {
    forall x :: x != "" ==> |InRegion(machines, x)| <= 1
  }

  /** The regions a configuration asks for, as the create loop reads them. */
  ghost function Wanted(regions: seq<string>): set<string> {
    set r | r in regions :: Trim(r)
  }

  /** Region `x` has exactly one machine, and it is as the configuration wants it. */
  ghost predicate HasOneSettled(cfg: DeployConfig, machines: Machines, x: string) {
    exists id :: InRegion(machines, x) == {id} && AsDesired(cfg, machines[id].config) && !Stopped(machines[id])
  }

  /** The deployment the configuration describes: an app with an address, one settled machine per region, no others. */
  ghost predicate Converged(given: DeployConfig, r: Remote) {
    && r.app.Some? && r.ips != []
    && forall x :: RegionConverged(WithDefaults(given), r.machines, x)
  }

  ghost predicate RegionConverged(cfg: DeployConfig, machines: Machines, x: string) {
    if x in Wanted(cfg.regions) then HasOneSettled(cfg, machines, x)
    else x != "" ==> InRegion(machines, x) == {}
  }

  lemma CleanIsWanted(regions: seq<string>)
    requires CleanRegions(regions)
    ensures forall x :: x in Wanted(regions) <==> x in regions
  {
    forall i | 0 <= i < |regions|
      ensures Trim(regions[i]) == regions[i]
    {
      TrimIsTrimmed(regions[i]);
    }
    forall x | x in regions
      ensures x in Wanted(regions)
    {
      assert Trim(x) == x;
    }
  }

  // ----- convergence -----

  lemma VictimOfOne(w: World, r: Remote, x: string)
    requires WellFormed(r) && Lists(w.listing, r.machines) && x != ""
    ensures Victim(w, r.machines, x) <= InRegion(r.machines, x)
    ensures InRegion(r.machines, x) != {} ==> |Victim(w, r.machines, x)| == 1
  {
    ExistingIsFiled(w.listing, r);
    if InRegion(r.machines, x) != {} {
      var id :| id in InRegion(r.machines, x);
      assert r.machines[id].region in LastPerRegion(Listed(w.listing, r.machines));
    }
  }

  lemma SmallSet<T>(s: set<T>, a: T)
    requires a in s && |s| <= 1
    ensures s == {a}
  {
    assert |s - {a}| == 0;
  }

  lemma SettledAlone(cfg: DeployConfig, ms: seq<Machine>, machines: Machines, x: string)
    requires CleanRegions(cfg.regions) && Reports(cfg, ms, machines) && x in cfg.regions
    ensures RegionConverged(cfg, machines, x) <==> |InRegion(machines, x)| <= 1
  {
    CleanIsWanted(cfg.regions);
    var j :| 0 <= j < |cfg.regions| && cfg.regions[j] == x;
    assert Settled(cfg, x, ms[j], machines);
    assert ms[j].id in InRegion(machines, x);
    if |InRegion(machines, x)| <= 1 {
      SmallSet(InRegion(machines, x), ms[j].id);
    }
  }

  lemma RegionConverges(w: World, cfg: DeployConfig, r: Remote, ms: seq<Machine>, after: Machines, x: string)
    requires WellFormed(r) && Lists(w.listing, r.machines) && CleanRegions(cfg.regions)
    requires x != "" ==> |InRegion(r.machines, x)| <= 1
    requires Reports(cfg, ms, after) && ExactChange(w, cfg.regions, r.machines, after, x)
    ensures RegionConverged(cfg, after, x)
  {
    CleanIsWanted(cfg.regions);
    if x in cfg.regions {
      SettledAlone(cfg, ms, after, x);
      assert |InRegion(after, x)| <= 1;
    } else if x != "" {
      VictimOfOne(w, r, x);
      if InRegion(r.machines, x) != {} {
        var id :| id in InRegion(r.machines, x);
        SmallSet(InRegion(r.machines, x), id);
      }
    }
  }

  lemma AllRegionsConverge(w: World, cfg: DeployConfig, r: Remote, ms: seq<Machine>, after: Machines)
    requires WellFormed(r) && OnePerRegion(r.machines) && Lists(w.listing, r.machines) && CleanRegions(cfg.regions)
    requires Reports(cfg, ms, after) && forall x :: ExactChange(w, cfg.regions, r.machines, after, x)
    ensures forall x :: RegionConverged(cfg, after, x)
    ensures forall x :: x in cfg.regions && InRegion(r.machines, x) != {} ==>
              InRegion(after, x) == InRegion(r.machines, x)
    ensures Untouched(r.machines, after, "")
  {
    forall x
      ensures RegionConverged(cfg, after, x)
    {
      assert ExactChange(w, cfg.regions, r.machines, after, x);
      RegionConverges(w, cfg, r, ms, after, x);
    }
    forall x | x in cfg.regions && InRegion(r.machines, x) != {}
      ensures InRegion(after, x) == InRegion(r.machines, x)
    {
      assert ExactChange(w, cfg.regions, r.machines, after, x);
    }
    assert ExactChange(w, cfg.regions, r.machines, after, "");
  }

  /**
   From any remote with at most one machine per region, one run in which nothing fails
   reaches the described deployment, keeps the machines of kept regions, and leaves
   machines without a region alone.
   */
  lemma DeployConverges(w: World, n: Net, given: DeployConfig)
    requires WellFormed(n.remote) && OnePerRegion(n.remote.machines) && Lists(w.listing, n.remote.machines)
    requires CleanRegions(given.regions) && MissingField(given).None? && FailureFree(w)
    ensures var (n', res) := DeployStep(false, w, n, given);
            && res.Success? && Converged(given, n'.remote) && Upheld(n.remote, n'.remote)
            && Reports(WithDefaults(given), res.value.machines, n'.remote.machines)
            && (forall x :: x in given.regions && InRegion(n.remote.machines, x) != {} ==>
                  InRegion(n'.remote.machines, x) == InRegion(n.remote.machines, x))
            && Untouched(n.remote.machines, n'.remote.machines, "")
  {
    RunFailureFree(w, n, given);
    RunAnyFaults(w, n, given);
    var (n', res) := DeployStep(false, w, n, given);
    AllRegionsConverge(w, WithDefaults(given), n.remote, res.value.machines, n'.remote.machines);
  }

  // ----- retries -----

  /** A run of some configuration under some faults, after which machines may change state on their own. */
  datatype Attempt = Attempt(given: DeployConfig, w: World, states: map<MachineID, string>)

  function Drifted(r: Remote, states: map<MachineID, string>): Remote {
    r.(machines := map id | id in r.machines ::
                     if id in states then r.machines[id].(state := states[id]) else r.machines[id])
  }

  function AfterAttempt(n: Net, a: Attempt): Net
    requires Lists(a.w.listing, n.remote.machines)
  {
    var n' := DeployStep(false, a.w, n, a.given).0;
    n'.(remote := Drifted(n'.remote, a.states))
  }

  /** Every attempt names clean regions, and sees the machines that there are. */
  ghost predicate Plausible(n: Net, attempts: seq<Attempt>)
    decreases |attempts|
  {
    attempts == [] ||
    (&& CleanRegions(attempts[0].given.regions)
     && Lists(attempts[0].w.listing, n.remote.machines)
     && Plausible(AfterAttempt(n, attempts[0]), attempts[1..]))
  }

  function AfterAttempts(n: Net, attempts: seq<Attempt>): Net
    requires Plausible(n, attempts)
    decreases |attempts|
  {
    if attempts == [] then n else AfterAttempts(AfterAttempt(n, attempts[0]), attempts[1..])
  }

  lemma DriftKeepsRegions(r: Remote, states: map<MachineID, string>)
    requires WellFormed(r)
    ensures var d := Drifted(r, states);
            Upheld(r, d) && forall x :: InRegion(d.machines, x) == InRegion(r.machines, x)
  {
    var d := Drifted(r, states);
    forall x
      ensures InRegion(d.machines, x) == InRegion(r.machines, x)
    {
    }
  }

  lemma AttemptIsSafe(n: Net, a: Attempt)
    requires WellFormed(n.remote) && OnePerRegion(n.remote.machines)
    requires Lists(a.w.listing, n.remote.machines) && CleanRegions(a.given.regions)
    ensures var r' := AfterAttempt(n, a).remote;
            && Upheld(n.remote, r') && OnePerRegion(r'.machines) && SafePreparation(n.remote, r')
            && InRegion(r'.machines, "") == InRegion(n.remote.machines, "")
  {
    RunAnyFaults(a.w, n, a.given);
    var r1 := DeployStep(false, a.w, n, a.given).0.remote;
    DriftKeepsRegions(r1, a.states);
    forall x | x != ""
      ensures |InRegion(r1.machines, x)| <= 1
    {
      if x in a.given.regions {
        assert AtMostFilled(n.remote.machines, r1.machines, x);
      } else {
        Smaller(InRegion(r1.machines, x), InRegion(n.remote.machines, x));
      }
    }
  }

  lemma {:induction false} Smaller<T>(a: set<T>, b: set<T>)
    requires a <= b
    ensures |a| <= |b|
  {
    if a != {} {
      var x :| x in a;
      Smaller(a - {x}, b - {x});
    }
  }

  /**
   However many runs are attempted, with whatever failures and with any configurations whose
   regions are trimmed, not blank and different from one another, no region ever gets a
   second machine, an app never gets a second address or owner, and machines without a
   region stay.
   */
  lemma {:induction false} RetriesAreSafe(n: Net, attempts: seq<Attempt>)
    requires WellFormed(n.remote) && OnePerRegion(n.remote.machines) && Plausible(n, attempts)
    ensures var r' := AfterAttempts(n, attempts).remote;
            && Upheld(n.remote, r') && OnePerRegion(r'.machines) && SafePreparation(n.remote, r')
            && InRegion(r'.machines, "") == InRegion(n.remote.machines, "")
    decreases |attempts|
  {
    if attempts != [] {
      AttemptIsSafe(n, attempts[0]);
      RetriesAreSafe(AfterAttempt(n, attempts[0]), attempts[1..]);
    }
  }

  /** One run without failures repairs whatever any earlier attempts left. */
  lemma RetryConverges(n: Net, attempts: seq<Attempt>, w: World, given: DeployConfig)
    requires WellFormed(n.remote) && OnePerRegion(n.remote.machines) && Plausible(n, attempts)
    requires Lists(w.listing, AfterAttempts(n, attempts).remote.machines)
    requires CleanRegions(given.regions) && MissingField(given).None? && FailureFree(w)
    ensures var (n', res) := DeployStep(false, w, AfterAttempts(n, attempts), given);
            && res.Success? && Converged(given, n'.remote) && Upheld(n.remote, n'.remote)
            && InRegion(n'.remote.machines, "") == InRegion(n.remote.machines, "")
  {
    RetriesAreSafe(n, attempts);
    DeployConverges(w, AfterAttempts(n, attempts), given);
  }

  // ----- draining duplicates -----

  /** One failure-free run per world, each seeing the machines that there are. */
  ghost predicate FailureFreeRuns(n: Net, ws: seq<World>, given: DeployConfig)
    decreases |ws|, 0
  {
    ws == [] ||
    var k := |ws| - 1;
    (FailureFreeRuns(n, ws[..k], given) && FailureFree(ws[k])
     && Lists(ws[k].listing, AfterRuns(n, ws[..k], given).remote.machines))
  }

  function AfterRuns(n: Net, ws: seq<World>, given: DeployConfig): Net
    requires FailureFreeRuns(n, ws, given)
    decreases |ws|, 1
  {
    if ws == [] then n
    else var k := |ws| - 1; DeployStep(false, ws[k], AfterRuns(n, ws[..k], given), given).0
  }

  lemma RunDrains(w: World, r: Remote, regions: seq<string>, after: Machines, x: string)
    requires WellFormed(r) && Lists(w.listing, r.machines) && ExactChange(w, regions, r.machines, after, x) && x != ""
    ensures x !in regions ==> |InRegion(after, x)| == Minus(|InRegion(r.machines, x)|, 1)
    ensures x in regions ==> InRegion(r.machines, x) <= InRegion(after, x)
    ensures x in regions ==>
              |InRegion(after, x)| == (if |InRegion(r.machines, x)| == 0 then 1 else |InRegion(r.machines, x)|)
  {
    VictimOfOne(w, r, x);
  }

  /** What any number of failure-free runs leaves of region `x`. */
  ghost predicate Drained(regions: seq<string>, before: Machines, after: Machines, x: string, runs: nat) {
    if x in regions then
      && InRegion(before, x) <= InRegion(after, x)
      && (runs == 0 ==> InRegion(after, x) == InRegion(before, x))
      && (runs > 0 ==> |InRegion(after, x)| == if |InRegion(before, x)| == 0 then 1 else |InRegion(before, x)|)
    else |InRegion(after, x)| == Minus(|InRegion(before, x)|, runs)
  }

  lemma {:induction false} RunsUphold(n: Net, ws: seq<World>, given: DeployConfig)
    requires WellFormed(n.remote) && FailureFreeRuns(n, ws, given) && CleanRegions(given.regions)
    ensures Upheld(n.remote, AfterRuns(n, ws, given).remote)
    decreases |ws|
  {
    if ws != [] {
      var k := |ws| - 1;
      RunsUphold(n, ws[..k], given);
      RunAnyFaults(ws[k], AfterRuns(n, ws[..k], given), given);
    }
  }

  lemma DrainsAgain(w: World, r: Remote, regions: seq<string>, before: Machines, after: Machines, x: string, runs: nat)
    requires WellFormed(r) && Lists(w.listing, r.machines) && x != ""
    requires Drained(regions, before, r.machines, x, runs) && ExactChange(w, regions, r.machines, after, x)
    ensures Drained(regions, before, after, x, runs + 1)
  {
    RunDrains(w, r, regions, after, x);
  }

  lemma DrainOnce(w: World, n: Net, given: DeployConfig, before: Machines, x: string, runs: nat)
    requires WellFormed(n.remote) && Lists(w.listing, n.remote.machines) && FailureFree(w)
    requires CleanRegions(given.regions) && MissingField(given).None? && x != ""
    requires Drained(given.regions, before, n.remote.machines, x, runs)
    ensures Drained(given.regions, before, DeployStep(false, w, n, given).0.remote.machines, x, runs + 1)
  {
    RunFailureFree(w, n, given);
    var after := DeployStep(false, w, n, given).0.remote.machines;
    assert ExactChange(w, given.regions, n.remote.machines, after, x);
    DrainsAgain(w, n.remote, given.regions, before, after, x, runs);
  }

  /**
   Every failure-free run takes exactly one machine from each undesired region that has
   one, so a region is empty after as many runs as it had machines; machines of desired
   regions are never destroyed, not even surplus ones.
   */
  lemma {:induction false} RunsDrain(n: Net, ws: seq<World>, given: DeployConfig, x: string)
    requires WellFormed(n.remote) && FailureFreeRuns(n, ws, given)
    requires CleanRegions(given.regions) && MissingField(given).None? && x != ""
    ensures Drained(given.regions, n.remote.machines, AfterRuns(n, ws, given).remote.machines, x, |ws|)
    decreases |ws|
  {
    if ws != [] {
      var k := |ws| - 1;
      RunsDrain(n, ws[..k], given, x);
      RunsUphold(n, ws[..k], given);
      DrainOnce(ws[k], AfterRuns(n, ws[..k], given), given, n.remote.machines, x, k);
    }
  }

  /** Repeated deploys get from any remote to the described deployment in `runs` runs under exactly this condition. */
  ghost predicate Drainable(regions: seq<string>, machines: Machines, runs: nat) {
    forall x :: x != "" ==> |InRegion(machines, x)| <= (if x in regions then 1 else runs)
  }

  /**
   From any remote, duplicates included, failure-free runs reach the described deployment
   if and only if no desired region started with two machines and no other region with
   more machines than there were runs.
   */
  lemma RunsConvergeIff(n: Net, ws: seq<World>, given: DeployConfig)
    requires WellFormed(n.remote) && FailureFreeRuns(n, ws, given) && ws != []
    requires CleanRegions(given.regions) && MissingField(given).None?
    ensures Converged(given, AfterRuns(n, ws, given).remote) <==> Drainable(given.regions, n.remote.machines, |ws|)
  {
    var k := |ws| - 1;
    var last := AfterRuns(n, ws[..k], given);
    RunsUphold(n, ws[..k], given);
    RunFailureFree(ws[k], last, given);
    var (n', res) := DeployStep(false, ws[k], last, given);
    var cfg, before, after := WithDefaults(given), n.remote.machines, n'.remote.machines;
    forall x | x != ""
      ensures RegionConverged(cfg, after, x) <==> |InRegion(before, x)| <= (if x in given.regions then 1 else |ws|)
    {
      RunsDrain(n, ws, given, x);
      RegionConvergesIff(cfg, res.value.machines, before, after, x, |ws|);
    }
    CleanIsWanted(cfg.regions);
    assert RegionConverged(cfg, after, "");
  }

  lemma RegionConvergesIff(cfg: DeployConfig, ms: seq<Machine>, before: Machines, after: Machines, x: string, runs: nat)
    requires CleanRegions(cfg.regions) && Reports(cfg, ms, after) && x != "" && runs > 0
    requires Drained(cfg.regions, before, after, x, runs)
    ensures RegionConverged(cfg, after, x) <==> |InRegion(before, x)| <= (if x in cfg.regions then 1 else runs)
  {
    CleanIsWanted(cfg.regions);
    if x in cfg.regions {
      SettledAlone(cfg, ms, after, x);
    }
  }
}
