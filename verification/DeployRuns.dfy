/** One whole run of `Deploy`: what it may change when calls fail, and what it reaches when none does. */
module DeployRuns {
  import opened Wrappers
  import opened FlyTypes
  import opened FlyApi
  import opened Deploy
  import opened DeployEffects

  // ----- any faults -----

  /**
   What a run may do to the machines: a desired region keeps its machines or gains its
   first, other regions only lose machines, and machines without a region are untouched.
   */
  ghost predicate SafeChange(regions: seq<string>, before: Machines, after: Machines) {
    forall x ::
      if x in regions then AtMostFilled(before, after, x)
      else if x == "" then Untouched(before, after, x)
      else InRegion(after, x) <= InRegion(before, x)
  }

  /** The machine listed last in a region. */
  ghost function Victim(w: World, machines: Machines, region: string): set<MachineID>
    requires Lists(w.listing, machines)
  {
    var existing := LastPerRegion(Listed(w.listing, machines));
    if region in existing then {existing[region].id} else {}
  }

  /** The sweep takes at most the last listed machine of an undesired region, and exactly that if no call fails. */
  ghost predicate SweptRegion(w: World, regions: seq<string>, before: Machines, after: Machines, x: string)
    requires Lists(w.listing, before)
  {
    if x in regions || x == "" then Untouched(before, after, x)
    else
      && InRegion(before, x) - Victim(w, before, x) <= InRegion(after, x) <= InRegion(before, x)
      && (FailureFree(w) ==> InRegion(after, x) == InRegion(before, x) - Victim(w, before, x))
  }

  lemma SweepRegion(w: World, n: Net, regions: seq<string>, existing: map<string, Machine>, x: string)
    requires WellFormed(n.remote) && Lists(w.listing, n.remote.machines)
    requires existing == LastPerRegion(Listed(w.listing, n.remote.machines)) && Filed(existing, n.remote.machines)
    ensures SweptRegion(w, regions, n.remote.machines, SweepStep(w, n, Doomed(existing, regions)).remote.machines, x)
  {
    var before, after := n.remote.machines, SweepStep(w, n, Doomed(existing, regions)).remote.machines;
    var doomed := Doomed(existing, regions);
    if x in regions || x == "" {
      forall id | id in InRegion(before, x)
        ensures id !in doomed
      {
      }
    } else {
      forall id | id in InRegion(before, x) && id in doomed
        ensures x in existing && id == existing[x].id
      {
      }
      if x in existing {
        assert existing[x].id in doomed;
      }
    }
  }

  lemma SweptRegionIsCurrent(w: World, r: Remote, after: Machines, region: string)
    requires WellFormed(r) && Lists(w.listing, r.machines) && region != "" && Untouched(r.machines, after, region)
    ensures Current(after, region, Lookup(LastPerRegion(Listed(w.listing, r.machines)), region))
  {
    var existing := LastPerRegion(Listed(w.listing, r.machines));
    ExistingIsFiled(w.listing, r);
    if region in existing {
      assert existing[region].id in InRegion(r.machines, region);
    }
  }

  lemma SweepEffect(w: World, n: Net, regions: seq<string>)
    requires WellFormed(n.remote) && Lists(w.listing, n.remote.machines) && "" !in regions
    ensures var existing := LastPerRegion(Listed(w.listing, n.remote.machines));
            var r' := SweepStep(w, n, Doomed(existing, regions)).remote;
            && Upheld(n.remote, r') && r' == n.remote.(machines := r'.machines)
            && (forall x :: SweptRegion(w, regions, n.remote.machines, r'.machines, x))
            && Ready(regions, 0, existing, r'.machines)
  {
    var existing := LastPerRegion(Listed(w.listing, n.remote.machines));
    ExistingIsFiled(w.listing, n.remote);
    var r' := SweepStep(w, n, Doomed(existing, regions)).remote;
    forall x
      ensures SweptRegion(w, regions, n.remote.machines, r'.machines, x)
    {
      SweepRegion(w, n, regions, existing, x);
    }
    forall j | 0 <= j < |regions|
      ensures Current(r'.machines, regions[j], Lookup(existing, regions[j]))
    {
      assert SweptRegion(w, regions, n.remote.machines, r'.machines, regions[j]);
      SweptRegionIsCurrent(w, n.remote, r'.machines, regions[j]);
    }
  }

  lemma SafeAfterSweep(w: World, regions: seq<string>, before: Machines, middle: Machines, after: Machines, x: string)
    requires Lists(w.listing, before) && SweptRegion(w, regions, before, middle, x) && Filled(regions, 0, middle, after)
    ensures if x in regions then AtMostFilled(before, after, x)
            else if x == "" then Untouched(before, after, x)
            else InRegion(after, x) <= InRegion(before, x)
  {
    assert regions[0..] == regions;
    if x !in regions {
      assert Untouched(middle, after, x);
    }
  }

  lemma ConvergeAnyFaults(w: World, n: Net, cfg: DeployConfig)
    requires WellFormed(n.remote) && Lists(w.listing, n.remote.machines) && CleanRegions(cfg.regions)
    ensures var r' := ConvergeStep(false, w, n, cfg).0.remote;
            && Upheld(n.remote, r') && r'.app == n.remote.app && r'.ips == n.remote.ips
            && SafeChange(cfg.regions, n.remote.machines, r'.machines)
  {
    var (n1, listed) := ListMachinesStep(false, w, n);
    if listed.Success? {
      var existing := LastPerRegion(listed.value);
      SweepEffect(w, n1, cfg.regions);
      var n2 := SweepStep(w, n1, Doomed(existing, cfg.regions));
      EnsureFromEffect(w, n2, cfg, existing, 0, []);
      var after := EnsureFrom(false, w, n2, cfg, existing, 0, []).0.remote.machines;
      forall x
        ensures if x in cfg.regions then AtMostFilled(n.remote.machines, after, x)
                else if x == "" then Untouched(n.remote.machines, after, x)
                else InRegion(after, x) <= InRegion(n.remote.machines, x)
      {
        SafeAfterSweep(w, cfg.regions, n.remote.machines, n2.remote.machines, after, x);
      }
    }
  }

  /** The app is created once, and an address is allocated only to an app that has none. */
  ghost predicate SafePreparation(r: Remote, r': Remote) {
    && (r.app.Some? ==> r'.app == r.app)
    && (r'.ips == r.ips || (r.ips == [] && |r'.ips| == 1))
  }

  lemma PrepareEffect(w: World, n: Net, cfg: DeployConfig)
    ensures var (n', p) := PrepareStep(false, w, n, cfg);
            && SafePreparation(n.remote, n'.remote)
            && n'.remote.machines == n.remote.machines && n'.remote.nextId == n.remote.nextId
            && (FailureFree(w) ==> p.Success? && n'.remote.app.Some? && n'.remote.ips != [])
  {
  }

  /** An address is asked for at most once, only when the app has none, and in the organization that owns the app. */
  lemma AddressGoesToOwner(w: World, n: Net, cfg: DeployConfig, orgSlug: string)
    ensures var n' := PrepareStep(false, w, n, cfg).0;
            var owner := if n.remote.app.Some? then EffectiveOrgSlug(n.remote.app.value) else cfg.orgSlug;
            n'.calls[AllocateIP(orgSlug)] <= n.calls[AllocateIP(orgSlug)]
              + (if n.remote.ips == [] && orgSlug == (if owner != "" then owner else cfg.orgSlug) then 1 else 0)
  {
  }

  /** Whatever calls fail, before or after their effect, one run only makes safe changes. */
  lemma RunAnyFaults(w: World, n: Net, given: DeployConfig)
    requires WellFormed(n.remote) && Lists(w.listing, n.remote.machines) && CleanRegions(given.regions)
    ensures var r' := DeployStep(false, w, n, given).0.remote;
            && Upheld(n.remote, r') && SafePreparation(n.remote, r')
            && SafeChange(given.regions, n.remote.machines, r'.machines)
  {
    if MissingField(given).None? {
      var cfg := WithDefaults(given);
      PrepareEffect(w, n, cfg);
      var (n1, p) := PrepareStep(false, w, n, cfg);
      if p.Success? {
        ConvergeAnyFaults(w, n1, cfg);
      }
    }
  }

  // ----- no faults -----

  /** What a failure-free run makes of region `x`. */
  ghost predicate ExactChange(w: World, regions: seq<string>, before: Machines, after: Machines, x: string)
    requires Lists(w.listing, before)
  {
    if x in regions then
      if InRegion(before, x) == {} then exists id :: InRegion(after, x) == {id}
      else InRegion(after, x) == InRegion(before, x)
    else if x == "" then Untouched(before, after, x)
    else InRegion(after, x) == InRegion(before, x) - Victim(w, before, x)
  }

  /** The run's result: one settled machine per region, in the order of the regions. */
  ghost predicate Reports(cfg: DeployConfig, ms: seq<Machine>, after: Machines) {
    |ms| == |cfg.regions| && forall j :: 0 <= j < |ms| ==> Settled(cfg, cfg.regions[j], ms[j], after)
  }

  lemma ExactAfterSweep(w: World, cfg: DeployConfig, existing: map<string, Machine>, r: Remote, middle: Machines,
                        ms: seq<Machine>, after: Machines, x: string)
    requires WellFormed(r) && Lists(w.listing, r.machines) && FailureFree(w) && CleanRegions(cfg.regions)
    requires existing == LastPerRegion(Listed(w.listing, r.machines))
    requires SweptRegion(w, cfg.regions, r.machines, middle, x)
    requires Filled(cfg.regions, 0, middle, after) && AllSettled(cfg, 0, existing, ms, middle, after)
    ensures ExactChange(w, cfg.regions, r.machines, after, x)
  {
    assert cfg.regions[0..] == cfg.regions;
    if x in cfg.regions {
      var j :| 0 <= j < |cfg.regions| && cfg.regions[j] == x;
      assert OneSettled(cfg, x, Lookup(existing, x), ms[j], middle, after);
      SweptRegionIsCurrent(w, r, middle, x);
    } else {
      assert Untouched(middle, after, x);
    }
  }

  lemma ConvergeFailureFree(w: World, n: Net, cfg: DeployConfig)
    requires WellFormed(n.remote) && Lists(w.listing, n.remote.machines) && CleanRegions(cfg.regions)
    requires FailureFree(w) && n.remote.app.Some?
    ensures var (n', ms) := ConvergeStep(false, w, n, cfg);
            && ms.Success? && Reports(cfg, ms.value, n'.remote.machines)
            && forall x :: ExactChange(w, cfg.regions, n.remote.machines, n'.remote.machines, x)
  {
    var (n1, listed) := ListMachinesStep(false, w, n);
    var existing := LastPerRegion(listed.value);
    SweepEffect(w, n1, cfg.regions);
    var n2 := SweepStep(w, n1, Doomed(existing, cfg.regions));
    EnsureFromEffect(w, n2, cfg, existing, 0, []);
    var (n3, ms) := EnsureFrom(false, w, n2, cfg, existing, 0, []);
    assert AllSettled(cfg, 0, existing, ms.value, n2.remote.machines, n3.remote.machines);
    forall x
      ensures ExactChange(w, cfg.regions, n.remote.machines, n3.remote.machines, x)
    {
      ExactAfterSweep(w, cfg, existing, n.remote, n2.remote.machines, ms.value, n3.remote.machines, x);
    }
  }

  /**
   A run in which no call fails succeeds; it reports a settled machine for each region in
   order, and changes each region exactly as `ExactChange` says.
   */
  lemma RunFailureFree(w: World, n: Net, given: DeployConfig)
    requires WellFormed(n.remote) && Lists(w.listing, n.remote.machines) && CleanRegions(given.regions)
    requires FailureFree(w) && MissingField(given).None?
    ensures var (n', res) := DeployStep(false, w, n, given);
            && res.Success? && res.value.regions == given.regions
            && n'.remote.app == Some(res.value.app) && n'.remote.ips == res.value.ips != []
            && Reports(WithDefaults(given), res.value.machines, n'.remote.machines)
            && forall x :: ExactChange(w, given.regions, n.remote.machines, n'.remote.machines, x)
  {
    var cfg := WithDefaults(given);
    PrepareEffect(w, n, cfg);
    var (n1, p) := PrepareStep(false, w, n, cfg);
    ConvergeFailureFree(w, n1, cfg);
    ConvergeAnyFaults(w, n1, cfg);
    PreparedIsReported(w, n, cfg);
  }

  lemma PreparedIsReported(w: World, n: Net, cfg: DeployConfig)
    requires FailureFree(w)
    ensures var (n', p) := PrepareStep(false, w, n, cfg);
            p.Success? && n'.remote.app == Some(p.value.app) && n'.remote.ips == p.value.ips != []
  {
  }
}
