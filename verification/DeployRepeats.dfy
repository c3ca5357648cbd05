/** Deploying again what is already deployed: which requests a repeated run makes, and when it makes none. */
module DeployRepeats {
  import opened Wrappers
  import opened Text
  import opened FlyTypes
  import opened FlyJson
  import opened FlyApi
  import opened Deploy
  import opened DeployEffects
  import opened DeployLaws

  const READS := multiset{GetApp, ListIPs, ListMachines}

  /** Every desired region's machine, as the run finds it: configured over the wire, and running. */
  ghost predicate Deployed(cfg: DeployConfig, existing: map<string, Machine>, machines: Machines) {
    && Filed(existing, machines)
    && forall j :: 0 <= j < |cfg.regions| ==>
         (cfg.regions[j] in existing && existing[cfg.regions[j]].config == Wire(DesiredConfig(cfg))
          && !Stopped(existing[cfg.regions[j]]))
  }

  lemma RegionIsDeployed(w: World, cfg: DeployConfig, r: Remote, existing: map<string, Machine>, x: string)
    requires Consistent(r) && Lists(w.listing, r.machines) && existing == LastPerRegion(Listed(w.listing, r.machines))
    requires x != "" && HasOneSettled(cfg, r.machines, x)
    ensures x in existing && existing[x].config == Wire(DesiredConfig(cfg)) && !Stopped(existing[x])
  {
    ExistingIsFiled(w.listing, r);
    var id :| InRegion(r.machines, x) == {id} && AsDesired(cfg, r.machines[id].config) && !Stopped(r.machines[id]);
    assert id in InRegion(r.machines, x);
    PortableIsWire(cfg, r.machines[id].config);
    assert existing[x].id in InRegion(r.machines, x);
  }

  lemma ConvergedIsDeployed(w: World, given: DeployConfig, r: Remote)
    requires Consistent(r) && Lists(w.listing, r.machines) && CleanRegions(given.regions) && Converged(given, r)
    ensures var existing := LastPerRegion(Listed(w.listing, r.machines));
            Deployed(WithDefaults(given), existing, r.machines) && Doomed(existing, given.regions) == {}
  {
    var cfg, existing := WithDefaults(given), LastPerRegion(Listed(w.listing, r.machines));
    ExistingIsFiled(w.listing, r);
    CleanIsWanted(given.regions);
    forall j | 0 <= j < |cfg.regions|
      ensures cfg.regions[j] in existing && existing[cfg.regions[j]].config == Wire(DesiredConfig(cfg))
              && !Stopped(existing[cfg.regions[j]])
    {
      assert RegionConverged(cfg, r.machines, cfg.regions[j]);
      RegionIsDeployed(w, cfg, r, existing, cfg.regions[j]);
    }
    forall x | x in existing
      ensures x in given.regions
    {
      assert RegionConverged(cfg, r.machines, x);
      assert existing[x].id in InRegion(r.machines, x);
    }
  }

  lemma PrepareReads(w: World, n: Net, cfg: DeployConfig)
    requires FailureFree(w) && n.remote.app.Some? && n.remote.ips != []
    ensures var (n', p) := PrepareStep(false, w, n, cfg);
            p.Success? && n' == Net(n.remote, n.calls + multiset{GetApp, ListIPs})
  {
  }

  /** A repeated run lists, destroys nothing, and goes through the regions. */
  lemma RepeatIsLoop(w: World, n: Net, given: DeployConfig)
    requires Consistent(n.remote) && Lists(w.listing, n.remote.machines) && FailureFree(w)
    requires CleanRegions(given.regions) && MissingField(given).None? && Converged(given, n.remote)
    ensures var cfg, existing := WithDefaults(given), LastPerRegion(Listed(w.listing, n.remote.machines));
            DeployStep(false, w, n, given).0
            == EnsureFrom(false, w, Net(n.remote, n.calls + READS), cfg, existing, 0, []).0
  {
    var cfg, existing := WithDefaults(given), LastPerRegion(Listed(w.listing, n.remote.machines));
    PrepareReads(w, n, cfg);
    ConvergedIsDeployed(w, given, n.remote);
    var n1 := PrepareStep(false, w, n, cfg).0;
    var (n2, listed) := ListMachinesStep(false, w, n1);
    assert n2 == Net(n.remote, n.calls + READS);
    SweepOfNone(w, n2);
  }

  // ----- a configuration that survives the wire -----

  lemma {:induction false} LoopIsQuiet(w: World, n: Net, cfg: DeployConfig, existing: map<string, Machine>, k: nat,
                                       done: seq<Machine>)
    requires k <= |cfg.regions| && CleanRegions(cfg.regions) && Deployed(cfg, existing, n.remote.machines)
    requires Wire(DesiredConfig(cfg)) == DesiredConfig(cfg)
    ensures EnsureFrom(false, w, n, cfg, existing, k, done).0 == n
    decreases |cfg.regions| - k
  {
    if k < |cfg.regions| {
      var x := cfg.regions[k];
      TrimIsTrimmed(x);
      assert EnsureMachineStep(false, w, n, cfg, x, Some(existing[x])) == (n, Success(existing[x]));
      LoopIsQuiet(w, n, cfg, existing, k + 1, done + [existing[x]]);
    }
  }

  // ----- a configuration that does not -----

  /** How often a refresh of the machines `ids` makes the request `c`. */
  function RefreshCount(w: World, ids: set<MachineID>, c: Call): nat {
    match c
    case UpdateMachine(id) => if id in ids then 1 else 0
    case StartMachine(id) => if id in ids && EqualFold(w.stateAfterUpdate(id), "stopped") then 1 else 0
    case _ => 0
  }

  /** Same machines, same regions, same configurations. */
  ghost predicate SameContent(before: Machines, after: Machines) {
    && before.Keys == after.Keys
    && forall id :: id in before ==> after[id].region == before[id].region && after[id].config == before[id].config
  }

  /** `n'` is `n` after a refresh of `ids`. */
  ghost predicate Refreshed(w: World, n: Net, n': Net, ids: set<MachineID>) {
    && SameContent(n.remote.machines, n'.remote.machines)
    && forall c :: n'.calls[c] == n.calls[c] + RefreshCount(w, ids, c)
  }

  lemma UpdateKeepsContent(w: World, n: Net, id: MachineID, req: CreateMachineRequest)
    requires FailureFree(w) && id in n.remote.machines
    requires n.remote.machines[id].region == req.region && n.remote.machines[id].config == Wire(req.config)
    ensures UpdateMachineStep(false, w, n, id, req)
         == (Net(WithUpdated(w, n.remote, id, req), n.calls + multiset{UpdateMachine(id)}),
             Success(Updated(w, id, req)))
    ensures SameContent(n.remote.machines, WithUpdated(w, n.remote, id, req).machines)
  {
  }

  lemma StartKeepsContent(w: World, n: Net, id: MachineID)
    requires FailureFree(w) && id in n.remote.machines
    ensures StartMachineStep(false, w, n, id)
         == (Net(WithStarted(n.remote, id), n.calls + multiset{StartMachine(id)}), true)
    ensures SameContent(n.remote.machines, WithStarted(n.remote, id).machines)
  {
  }

  lemma UpdateAndStartCounted(w: World, calls: multiset<Call>, id: MachineID)
    requires EqualFold(w.stateAfterUpdate(id), "stopped")
    ensures forall c ::
              (calls + multiset{UpdateMachine(id)} + multiset{StartMachine(id)})[c]
                == calls[c] + RefreshCount(w, {id}, c)
  {
  }

  /** The update comes back stopped, so the machine is started: the same content again. */
  lemma RefreshStopped(w: World, n: Net, id: MachineID, req: CreateMachineRequest)
    requires FailureFree(w) && id in n.remote.machines && EqualFold(w.stateAfterUpdate(id), "stopped")
    requires n.remote.machines[id].region == req.region && n.remote.machines[id].config == Wire(req.config)
    ensures var n1 := UpdateMachineStep(false, w, n, id, req).0;
            Refreshed(w, n, StartMachineStep(false, w, n1, id).0, {id})
  {
    UpdateKeepsContent(w, n, id, req);
    var n1 := UpdateMachineStep(false, w, n, id, req).0;
    StartKeepsContent(w, n1, id);
    UpdateAndStartCounted(w, n.calls, id);
  }

  lemma RefreshRunning(w: World, n: Net, id: MachineID, req: CreateMachineRequest)
    requires FailureFree(w) && id in n.remote.machines && !EqualFold(w.stateAfterUpdate(id), "stopped")
    requires n.remote.machines[id].region == req.region && n.remote.machines[id].config == Wire(req.config)
    ensures Refreshed(w, n, UpdateMachineStep(false, w, n, id, req).0, {id})
  {
    UpdateKeepsContent(w, n, id, req);
  }

  lemma RefreshOne(w: World, n: Net, cfg: DeployConfig, existing: Machine)
    requires FailureFree(w) && existing.id in n.remote.machines && existing.config != DesiredConfig(cfg)
    requires n.remote.machines[existing.id].region == existing.region
    requires n.remote.machines[existing.id].config == Wire(DesiredConfig(cfg))
    ensures var (n', m) := EnsureMachineStep(false, w, n, cfg, existing.region, Some(existing));
            m.Success? && Refreshed(w, n, n', {existing.id})
  {
    var id, req := existing.id, Request(cfg, existing.region);
    if EqualFold(w.stateAfterUpdate(id), "stopped") {
      RefreshStopped(w, n, id, req);
    } else {
      RefreshRunning(w, n, id, req);
    }
  }

  ghost function IdsFrom(regions: seq<string>, existing: map<string, Machine>, k: nat): set<MachineID> {
    set j | k <= j < |regions| && regions[j] in existing :: existing[regions[j]].id
  }

  lemma FirstIdOnce(regions: seq<string>, existing: map<string, Machine>, machines: Machines, k: nat)
    requires k < |regions| && CleanRegions(regions) && Filed(existing, machines) && regions[k] in existing
    ensures var id := existing[regions[k]].id;
            && IdsFrom(regions, existing, k) == {id} + IdsFrom(regions, existing, k + 1)
            && id !in IdsFrom(regions, existing, k + 1)
  {
    forall j | k + 1 <= j < |regions| && regions[j] in existing
      ensures existing[regions[j]].id != existing[regions[k]].id
    {
      assert existing[regions[j]].region != existing[regions[k]].region;
    }
  }

  /** The machines still hold what the run read. */
  ghost predicate ContentAsRead(existing: map<string, Machine>, machines: Machines) {
    forall x :: x in existing ==>
      (existing[x].id in machines && machines[existing[x].id].region == x
       && machines[existing[x].id].config == existing[x].config)
  }

  lemma {:induction false} LoopRefreshes(w: World, n: Net, cfg: DeployConfig, existing: map<string, Machine>,
                                         read: Machines, k: nat, done: seq<Machine>)
    requires k <= |cfg.regions| && CleanRegions(cfg.regions) && FailureFree(w)
    requires Deployed(cfg, existing, read) && ContentAsRead(existing, n.remote.machines)
    requires Wire(DesiredConfig(cfg)) != DesiredConfig(cfg)
    ensures Refreshed(w, n, EnsureFrom(false, w, n, cfg, existing, k, done).0, IdsFrom(cfg.regions, existing, k))
    decreases |cfg.regions| - k, 1
  {
    if k < |cfg.regions| {
      var x := cfg.regions[k];
      TrimIsTrimmed(x);
      RefreshOne(w, n, cfg, existing[x]);
      var (n1, m) := EnsureMachineStep(false, w, n, cfg, x, Some(existing[x]));
      RestRefreshes(w, n, n1, cfg, existing, read, k, done + [m.value]);
    } else {
      assert IdsFrom(cfg.regions, existing, k) == {};
    }
  }

  lemma {:induction false} RestRefreshes(w: World, n: Net, n1: Net, cfg: DeployConfig, existing: map<string, Machine>,
                                         read: Machines, k: nat, done: seq<Machine>)
    requires k < |cfg.regions| && CleanRegions(cfg.regions) && FailureFree(w)
    requires Deployed(cfg, existing, read) && ContentAsRead(existing, n.remote.machines)
    requires Wire(DesiredConfig(cfg)) != DesiredConfig(cfg)
    requires Refreshed(w, n, n1, {existing[cfg.regions[k]].id})
    ensures Refreshed(w, n, EnsureFrom(false, w, n1, cfg, existing, k + 1, done).0, IdsFrom(cfg.regions, existing, k))
    decreases |cfg.regions| - k, 0
  {
    FirstIdOnce(cfg.regions, existing, read, k);
    LoopRefreshes(w, n1, cfg, existing, read, k + 1, done);
    var n' := EnsureFrom(false, w, n1, cfg, existing, k + 1, done).0;
    RefreshesAdd(w, n, n1, n', existing[cfg.regions[k]].id, IdsFrom(cfg.regions, existing, k + 1));
  }

  lemma RefreshesAdd(w: World, n: Net, n1: Net, n': Net, id: MachineID, ids: set<MachineID>)
    requires id !in ids && Refreshed(w, n, n1, {id}) && Refreshed(w, n1, n', ids)
    ensures Refreshed(w, n, n', {id} + ids)
  {
  }

  // ----- the two cases together -----

  /** The machines of the regions that are deployed. */
  ghost function IdsIn(regions: seq<string>, machines: Machines): set<MachineID> {
    set id | id in machines && machines[id].region in regions
  }

  lemma OnlyMachine(cfg: DeployConfig, existing: map<string, Machine>, machines: Machines, id: MachineID)
    requires Filed(existing, machines) && CleanRegions(cfg.regions) && id in IdsIn(cfg.regions, machines)
    requires machines[id].region in existing && RegionConverged(cfg, machines, machines[id].region)
    ensures id in IdsFrom(cfg.regions, existing, 0)
  {
    CleanIsWanted(cfg.regions);
    var x := machines[id].region;
    var j :| 0 <= j < |cfg.regions| && cfg.regions[j] == x;
    var only :| InRegion(machines, x) == {only};
    assert id in InRegion(machines, x) && existing[x].id in InRegion(machines, x);
  }

  lemma IdsAreDeployed(w: World, given: DeployConfig, r: Remote)
    requires Consistent(r) && Lists(w.listing, r.machines) && CleanRegions(given.regions) && Converged(given, r)
    ensures IdsFrom(given.regions, LastPerRegion(Listed(w.listing, r.machines)), 0) == IdsIn(given.regions, r.machines)
    ensures given.regions != [] ==> IdsIn(given.regions, r.machines) != {}
  {
    var cfg, existing := WithDefaults(given), LastPerRegion(Listed(w.listing, r.machines));
    ConvergedIsDeployed(w, given, r);
    forall id | id in IdsIn(given.regions, r.machines)
      ensures id in IdsFrom(given.regions, existing, 0)
    {
      var j :| 0 <= j < |given.regions| && given.regions[j] == r.machines[id].region;
      OnlyMachine(cfg, existing, r.machines, id);
    }
    if given.regions != [] {
      assert existing[given.regions[0]].id in IdsFrom(given.regions, existing, 0);
    }
  }

  /** A repeated run updates every machine once with what it already has. */
  lemma RepeatRefreshes(w: World, n: Net, given: DeployConfig)
    requires Consistent(n.remote) && Lists(w.listing, n.remote.machines) && FailureFree(w)
    requires CleanRegions(given.regions) && MissingField(given).None? && Converged(given, n.remote)
    requires given.env == Entries(map[])
    ensures var n' := DeployStep(false, w, n, given).0;
            Refreshed(w, Net(n.remote, n.calls + READS), n', IdsIn(given.regions, n.remote.machines))
  {
    var cfg, existing := WithDefaults(given), LastPerRegion(Listed(w.listing, n.remote.machines));
    RepeatIsLoop(w, n, given);
    ConvergedIsDeployed(w, given, n.remote);
    IdsAreDeployed(w, given, n.remote);
    DesiredOnWire(cfg);
    LoopRefreshes(w, Net(n.remote, n.calls + READS), cfg, existing, n.remote.machines, 0, []);
  }

  lemma RefreshIsNoticed(w: World, n: Net, n': Net, ids: set<MachineID>)
    requires Refreshed(w, n, n', ids) && ids != {}
    ensures n' != n
  {
    var id :| id in ids;
    assert n'.calls[UpdateMachine(id)] == n.calls[UpdateMachine(id)] + 1;
  }

  lemma RepeatIsQuiet(w: World, n: Net, given: DeployConfig)
    requires Consistent(n.remote) && Lists(w.listing, n.remote.machines) && FailureFree(w)
    requires CleanRegions(given.regions) && MissingField(given).None? && Converged(given, n.remote)
    requires given.env != Entries(map[])
    ensures DeployStep(false, w, n, given).0 == Net(n.remote, n.calls + READS)
  {
    var cfg, existing := WithDefaults(given), LastPerRegion(Listed(w.listing, n.remote.machines));
    RepeatIsLoop(w, n, given);
    ConvergedIsDeployed(w, given, n.remote);
    DesiredOnWire(cfg);
    LoopIsQuiet(w, Net(n.remote, n.calls + READS), cfg, existing, 0, []);
  }

  /**
   Deploying what is already deployed makes no request but its three reads, and leaves the
   remote as it is, if and only if the environment is not an empty map that is not nil.
   */
  lemma RepeatIsQuietIff(w: World, n: Net, given: DeployConfig)
    requires Consistent(n.remote) && Lists(w.listing, n.remote.machines) && FailureFree(w)
    requires CleanRegions(given.regions) && MissingField(given).None? && Converged(given, n.remote)
    ensures DeployStep(false, w, n, given).0 == Net(n.remote, n.calls + READS) <==> given.env != Entries(map[])
  {
    if given.env == Entries(map[]) {
      RepeatRefreshes(w, n, given);
      IdsAreDeployed(w, given, n.remote);
      RefreshIsNoticed(w, Net(n.remote, n.calls + READS), DeployStep(false, w, n, given).0,
                       IdsIn(given.regions, n.remote.machines));
    } else {
      RepeatIsQuiet(w, n, given);
    }
  }
}
