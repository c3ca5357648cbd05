/**
 The deployment engine of internal/flydeploy/deployer.go.

 `DeployStep` is the specification of one run against a remote and a world; class
 `Deployer` is the code, proved against it.  Waiting for health is not part of the
 model: it changes nothing on the remote and its errors are only logged.
 */
module Deploy {
  import opened Wrappers
  import opened Text
  import opened FlyTypes
  import opened FlyApi

  datatype DeployConfig = DeployConfig(
    appName: string, orgSlug: string, regions: seq<string>, image: string, env: Env,
    machineName: string, guest: MachineGuest, healthPort: int)

  datatype DeployResult = DeployResult(
    app: App, machines: seq<Machine>, ips: seq<IPAddress>, dryRun: bool, regions: seq<string>)

  // ----- specification -----

  function MissingField(cfg: DeployConfig): Option<string> {
    if cfg.appName == "" then Some("app name")
    else if cfg.orgSlug == "" then Some("org slug")
    else if cfg.regions == [] then Some("region")
    else if cfg.image == "" then Some("image")
    else None
  }

  function WithDefaults(cfg: DeployConfig): DeployConfig {
    cfg.(healthPort := if cfg.healthPort == 0 then 8080 else cfg.healthPort,
         machineName := if cfg.machineName == "" then "turnfly" else cfg.machineName)
  }

  function DesiredConfig(cfg: DeployConfig): MachineConfig {
    var turn := Items([MachinePort(3478, NilSlice)]);
    MachineConfig(cfg.image, cfg.env,
                  Items([MachineService("udp", 3478, turn, None),
                         MachineService("tcp", 3478, turn, None),
                         MachineService("tcp", cfg.healthPort, Items([MachinePort(80, Items(["http"]))]),
                                        Some(ServiceConcurrency("connections", 1000, 800)))]),
                  Some(cfg.guest), NilMap)
  }

  function Request(cfg: DeployConfig, region: string): CreateMachineRequest {
    CreateMachineRequest(cfg.machineName + "-" + region, region, DesiredConfig(cfg))
  }

  predicate Stopped(m: Machine) {
    EqualFold(m.state, "stopped")
  }

  function EnsureAppStep(dry: bool, w: World, n: Net, cfg: DeployConfig): (Net, Result<App, Error>) {
    var (n1, got) := GetAppStep(dry, w, n, cfg.appName);
    if got.Success? then (n1, got) else CreateAppStep(dry, w, n1, cfg.appName, cfg.orgSlug)
  }

  function EnsureIPsStep(dry: bool, w: World, n: Net, orgSlug: string): (Net, Result<seq<IPAddress>, Error>) {
    var (n1, listed) := ListIPsStep(dry, w, n);
    if listed.Failure? || listed.value != [] then (n1, listed)
    else
      var (n2, v4) := AllocateIPStep(dry, w, n1, "v4", orgSlug);
      (n2, if v4.Success? then Success([v4.value]) else Failure(v4.error))
  }

  datatype Prepared = Prepared(app: App, ips: seq<IPAddress>)

  /** Steps 1 and 2 of a run: the app and its address, in the organization that owns the app. */
  function PrepareStep(dry: bool, w: World, n: Net, cfg: DeployConfig): (Net, Result<Prepared, Error>) {
    var (n1, app) := EnsureAppStep(dry, w, n, cfg);
    if app.Failure? then (n1, Failure(app.error))
    else
      var owner := EffectiveOrgSlug(app.value);
      var (n2, ips) := EnsureIPsStep(dry, w, n1, if owner != "" then owner else cfg.orgSlug);
      (n2, if ips.Failure? then Failure(ips.error) else Success(Prepared(app.value, ips.value)))
  }

  /** The machines that the run takes for each region: the last one listed. */
  function LastPerRegion(listed: seq<Machine>): map<string, Machine> {
    if listed == [] then map[]
    else
      var m, before := listed[|listed| - 1], LastPerRegion(listed[..|listed| - 1]);
      if m.region != "" then before[m.region := m] else before
  }

  /** The machines that the run tries to destroy. */
  function Doomed(existing: map<string, Machine>, regions: seq<string>): set<MachineID> {
    set r | r in existing && r !in regions :: existing[r].id
  }

  function SweepStep(w: World, n: Net, doomed: set<MachineID>): Net {
    Net(n.remote.(machines :=
          n.remote.machines - (set id | id in doomed && w.fault(DestroyMachine(id)) != FailsBefore)),
        n.calls + multiset(set id | id in doomed :: DestroyMachine(id)))
  }

  function EnsureMachineStep(dry: bool, w: World, n: Net, cfg: DeployConfig, region: string,
                             existing: Option<Machine>): (Net, Result<Machine, Error>) {
    if existing.None? then CreateMachineStep(dry, w, n, Request(cfg, region))
    else
      var id := existing.value.id;
      var (n1, current) :=
        if existing.value.config == DesiredConfig(cfg) then (n, Success(existing.value))
        else UpdateMachineStep(dry, w, n, id, Request(cfg, region));
      if current.Failure? || !Stopped(current.value) then (n1, current)
      else
        var (n2, ok) := StartMachineStep(dry, w, n1, id);
        (n2, if ok then current else Failure(CallFailed(StartMachine(id))))
  }

  function Lookup(existing: map<string, Machine>, region: string): Option<Machine> {
    if region in existing then Some(existing[region]) else None
  }

  /** The create-or-update loop from region `k` on, with the machines ensured so far. */
  function EnsureFrom(dry: bool, w: World, n: Net, cfg: DeployConfig, existing: map<string, Machine>, k: nat,
                      done: seq<Machine>): (Net, Result<seq<Machine>, Error>)
    requires k <= |cfg.regions|
    decreases |cfg.regions| - k
  {
    if k == |cfg.regions| then (n, Success(done))
    else
      var region := Trim(cfg.regions[k]);
      var (n1, m) := EnsureMachineStep(dry, w, n, cfg, region, Lookup(existing, region));
      if m.Failure? then (n1, Failure(m.error))
      else EnsureFrom(dry, w, n1, cfg, existing, k + 1, done + [m.value])
  }

  /** Steps 3 and 4 of a run: list, destroy, create or update. */
  function ConvergeStep(dry: bool, w: World, n: Net, cfg: DeployConfig): (Net, Result<seq<Machine>, Error>)
    requires Lists(w.listing, n.remote.machines)
  {
    var (n1, listed) := ListMachinesStep(dry, w, n);
    if listed.Failure? then (n1, Failure(listed.error))
    else
      var existing := LastPerRegion(listed.value);
      EnsureFrom(dry, w, SweepStep(w, n1, Doomed(existing, cfg.regions)), cfg, existing, 0, [])
  }

  lemma PrepareKeepsMachines(dry: bool, w: World, n: Net, cfg: DeployConfig)
    ensures var r := PrepareStep(dry, w, n, cfg).0.remote;
            r.machines == n.remote.machines && r.nextId == n.remote.nextId
  {
  }

  lemma {:induction false} LastPerRegionIsListed(listed: seq<Machine>)
    ensures var last := LastPerRegion(listed);
            && (forall r :: r in last ==> r != "" && last[r].region == r && last[r] in listed)
            && (forall m :: m in listed && m.region != "" ==> m.region in last)
  {
    if listed != [] {
      var n := |listed| - 1;
      LastPerRegionIsListed(listed[..n]);
      assert listed == listed[..n] + [listed[n]];
    }
  }

  /** Each region's entry is a machine of that region that the remote holds. */
  ghost predicate Filed(existing: map<string, Machine>, machines: map<MachineID, Machine>) {
    forall x :: x in existing ==>
      (x != "" && existing[x].region == x && existing[x].id in machines && machines[existing[x].id] == existing[x])
  }

  lemma ExistingIsFiled(ids: seq<MachineID>, r: Remote)
    requires Lists(ids, r.machines) && WellFormed(r)
    ensures var existing := LastPerRegion(Listed(ids, r.machines));
            && Filed(existing, r.machines)
            && (forall id :: id in r.machines && r.machines[id].region != "" ==> r.machines[id].region in existing)
  {
    var listed := Listed(ids, r.machines);
    LastPerRegionIsListed(listed);
    forall id | id in r.machines
      ensures r.machines[id] in listed
    {
      var i :| 0 <= i < |ids| && ids[i] == id;
      assert listed[i] == r.machines[id];
    }
  }

  /** The undesired machines among the regions already visited. */
  ghost function Visited(existing: map<string, Machine>, unseen: set<string>, desired: set<string>): set<MachineID> {
    set r | r in existing && r !in unseen && r !in desired :: existing[r].id
  }

  lemma VisitOneMore(existing: map<string, Machine>, machines: map<MachineID, Machine>, unseen: set<string>,
                     desired: set<string>, region: string)
    requires Filed(existing, machines) && region in unseen && region in existing
    ensures var before, after := Visited(existing, unseen, desired), Visited(existing, unseen - {region}, desired);
            if region in desired then after == before
            else existing[region].id !in before && after == before + {existing[region].id}
  {
    var before, after := Visited(existing, unseen, desired), Visited(existing, unseen - {region}, desired);
    if region !in desired {
      assert existing[region].id in after;
    }
  }

  lemma AllVisited(existing: map<string, Machine>, regions: seq<string>)
    ensures Visited(existing, {}, set r | r in regions) == Doomed(existing, regions)
  {
  }

  lemma SweepOfNone(w: World, n: Net)
    ensures SweepStep(w, n, {}) == n
  {
    assert n.remote.machines - {} == n.remote.machines;
  }

  /** Destroying one more machine extends the sweep by it, whatever the order. */
  lemma SweepOneMore(w: World, n: Net, done: set<MachineID>, id: MachineID)
    requires id !in done && id in n.remote.machines
    ensures DestroyMachineStep(false, w, SweepStep(w, n, done), id).0 == SweepStep(w, n, done + {id})
  {
    var s, t := SweepStep(w, n, done), SweepStep(w, n, done + {id});
    var issued := set d | d in done :: DestroyMachine(d);
    assert (set d | d in done + {id} :: DestroyMachine(d)) == issued + {DestroyMachine(id)};
    assert DestroyMachine(id) !in issued;
    assert t.calls == s.calls + multiset{DestroyMachine(id)};
    if w.fault(DestroyMachine(id)) == FailsBefore {
      assert t.remote.machines == s.remote.machines;
    } else {
      assert t.remote.machines == s.remote.machines - {id};
    }
  }

  /** One run of `Deploy`. */
  function DeployStep(dry: bool, w: World, n: Net, given: DeployConfig): (Net, Result<DeployResult, Error>)
    requires Lists(w.listing, n.remote.machines)
  {
    var missing := MissingField(given);
    if missing.Some? then (n, Failure(Required(missing.value)))
    else
      var cfg := WithDefaults(given);
      PrepareKeepsMachines(dry, w, n, cfg);
      var (n1, p) := PrepareStep(dry, w, n, cfg);
      if p.Failure? then (n1, Failure(p.error))
      else
        var (n2, ms) := ConvergeStep(dry, w, n1, cfg);
        (n2, if ms.Failure? then Failure(ms.error)
             else Success(DeployResult(p.value.app, ms.value, p.value.ips, dry, cfg.regions)))
  }

  // ----- the code -----

  class Deployer {
    const client: Client

    constructor (client: Client)
      ensures this.client == client
    {
      this.client := client;
    }

    method EnsureApp(w: World, cfg: DeployConfig) returns (r: Result<App, Error>)
      modifies client
      ensures (client.View(), r) == EnsureAppStep(client.dryRun, w, old(client.View()), cfg)
    {
      r := client.GetApp(w, cfg.appName);
      if r.Failure? {
        r := client.CreateApp(w, cfg.appName, cfg.orgSlug);
      }
    }

    method EnsureIPs(w: World, orgSlug: string) returns (r: Result<seq<IPAddress>, Error>)
      modifies client
      ensures (client.View(), r) == EnsureIPsStep(client.dryRun, w, old(client.View()), orgSlug)
    {
      r := client.ListIPs(w);
      if r.Failure? || r.value != [] {
        return;
      }
      var v4 := client.AllocateIP(w, "v4", orgSlug);
      r := if v4.Success? then Success([v4.value]) else Failure(v4.error);
    }

    method EnsureMachine(w: World, cfg: DeployConfig, region: string, existing: Option<Machine>)
      returns (r: Result<Machine, Error>)
      modifies client
      ensures (client.View(), r) == EnsureMachineStep(client.dryRun, w, old(client.View()), cfg, region, existing)
    {
      if existing.Some? {
        var machine := existing.value;
        if machine.config != DesiredConfig(cfg) {
          r := client.UpdateMachine(w, existing.value.id, Request(cfg, region));
          if r.Failure? {
            return;
          }
          machine := r.value;
        }
        if Stopped(machine) {
          var ok := client.StartMachine(w, existing.value.id);
          if !ok {
            return Failure(CallFailed(StartMachine(existing.value.id)));
          }
        }
        return Success(machine);
      }
      r := client.CreateMachine(w, Request(cfg, region));
    }

    method Deploy(w: World, given: DeployConfig) returns (r: Result<DeployResult, Error>)
      requires Lists(w.listing, client.remote.machines) && WellFormed(client.remote)
      modifies client
      ensures (client.View(), r) == DeployStep(client.dryRun, w, old(client.View()), given)
    {
      if given.appName == "" {
        return Failure(Required("app name"));
      }
      if given.orgSlug == "" {
        return Failure(Required("org slug"));
      }
      if |given.regions| == 0 {
        return Failure(Required("region"));
      }
      if given.image == "" {
        return Failure(Required("image"));
      }
      var cfg := WithDefaults(given);
      PrepareKeepsMachines(client.dryRun, w, client.View(), cfg);
      var p := Prepare(w, cfg);
      if p.Failure? {
        return Failure(p.error);
      }
      var machines := Converge(w, cfg);
      if machines.Failure? {
        return Failure(machines.error);
      }
      return Success(DeployResult(p.value.app, machines.value, p.value.ips, client.dryRun, cfg.regions));
    }

    method Prepare(w: World, cfg: DeployConfig) returns (r: Result<Prepared, Error>)
      modifies client
      ensures (client.View(), r) == PrepareStep(client.dryRun, w, old(client.View()), cfg)
    {
      var app := EnsureApp(w, cfg);
      if app.Failure? {
        return Failure(app.error);
      }
      var ipOrgSlug := cfg.orgSlug;
      if EffectiveOrgSlug(app.value) != "" {
        ipOrgSlug := EffectiveOrgSlug(app.value);
      }
      var ips := EnsureIPs(w, ipOrgSlug);
      return if ips.Failure? then Failure(ips.error) else Success(Prepared(app.value, ips.value));
    }

    method Converge(w: World, cfg: DeployConfig) returns (r: Result<seq<Machine>, Error>)
      requires Lists(w.listing, client.remote.machines) && WellFormed(client.remote)
      modifies client
      ensures (client.View(), r) == ConvergeStep(client.dryRun, w, old(client.View()), cfg)
    {
      var listed := client.ListMachines(w);
      if listed.Failure? {
        return Failure(listed.error);
      }
      var desired := DesiredRegions(cfg.regions);
      var existing := GroupByRegion(listed.value);
      if !client.dryRun {
        ExistingIsFiled(w.listing, client.remote);
      }
      AllVisited(existing, cfg.regions);
      Sweep(w, existing, desired);
      r := EnsureMachines(w, cfg, existing);
    }

    method EnsureMachines(w: World, cfg: DeployConfig, existing: map<string, Machine>)
      returns (r: Result<seq<Machine>, Error>)
      modifies client
      ensures (client.View(), r) == EnsureFrom(client.dryRun, w, old(client.View()), cfg, existing, 0, [])
    {
      var machines: seq<Machine> := [];
      for k := 0 to |cfg.regions|
        invariant EnsureFrom(client.dryRun, w, client.View(), cfg, existing, k, machines)
               == EnsureFrom(client.dryRun, w, old(client.View()), cfg, existing, 0, [])
      {
        var region := Trim(cfg.regions[k]);
        var machine := EnsureMachine(w, cfg, region, Lookup(existing, region));
        if machine.Failure? {
          return Failure(machine.error);
        }
        machines := machines + [machine.value];
      }
      return Success(machines);
    }

    /** Removes every machine of the app; errors are only logged. */
    method Destroy(w: World) returns (r: Option<Error>)
      requires Lists(w.listing, client.remote.machines) && WellFormed(client.remote)
      modifies client
      ensures r.Some? <==> !client.dryRun && (w.fault(ListMachines) != Works || old(client.remote).app.None?)
      ensures r.Some? ==> r == Some(CallFailed(ListMachines)) && client.remote == old(client.remote)
      ensures r.None? && !client.dryRun ==>
                client.remote == old(client.remote).(machines :=
                  map id | id in old(client.remote).machines && w.fault(DestroyMachine(id)) == FailsBefore ::
                    old(client.remote).machines[id])
      ensures client.dryRun ==> r.None? && client.View() == old(client.View())
    {
      var listed := client.ListMachines(w);
      if listed.Failure? {
        return Some(listed.error);
      }
      for i := 0 to |listed.value|
        invariant client.dryRun ==> client.View() == old(client.View())
        invariant client.remote == old(client.remote).(machines := client.remote.machines)
        invariant client.remote.machines.Keys <= old(client.remote).machines.Keys
        invariant forall id :: id in client.remote.machines ==>
                    client.remote.machines[id] == old(client.remote).machines[id]
        invariant !client.dryRun ==> forall j :: 0 <= j < |w.listing| ==>
                    (w.listing[j] in client.remote.machines
                     <==> i <= j || w.fault(DestroyMachine(w.listing[j])) == FailsBefore)
      {
        var _ := client.DestroyMachine(w, listed.value[i].id);
      }
      return None;
    }

    method DesiredRegions(regions: seq<string>) returns (desired: set<string>)
      ensures desired == set r | r in regions
    {
      desired := {};
      for k := 0 to |regions|
        invariant desired == set r | r in regions[..k]
      {
        desired := desired + {regions[k]};
        assert regions[..k + 1] == regions[..k] + [regions[k]];
      }
      assert regions[..|regions|] == regions;
    }

    method GroupByRegion(listed: seq<Machine>) returns (existing: map<string, Machine>)
      ensures existing == LastPerRegion(listed)
    {
      existing := map[];
      for i := 0 to |listed|
        invariant existing == LastPerRegion(listed[..i])
      {
        var m := listed[i];
        if m.region != "" {
          existing := existing[m.region := m];
        }
        assert listed[..i + 1][..i] == listed[..i];
      }
      assert listed[..|listed|] == listed;
    }

    method Sweep(w: World, existing: map<string, Machine>, desired: set<string>)
      requires Filed(existing, client.remote.machines)
      requires existing != map[] ==> !client.dryRun
      modifies client
      ensures client.View() == SweepStep(w, old(client.View()), Visited(existing, {}, desired))
    {
      var unseen := existing.Keys;
      SweepOfNone(w, client.View());
      while unseen != {}
        invariant unseen <= existing.Keys
        invariant client.View() == SweepStep(w, old(client.View()), Visited(existing, unseen, desired))
        decreases unseen
      {
        var region :| region in unseen;
        VisitOneMore(existing, old(client.remote).machines, unseen, desired, region);
        ghost var done := Visited(existing, unseen, desired);
        unseen := unseen - {region};
        if region !in desired {
          SweepOneMore(w, old(client.View()), done, existing[region].id);
          var _ := client.DestroyMachine(w, existing[region].id);
        }
      }
    }
  }
}
