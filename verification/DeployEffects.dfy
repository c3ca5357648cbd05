/**
 What one run of `Deploy` does to the machines of each region: under any faults, and
 exactly when nothing fails.
 */
module DeployEffects {
  import opened Wrappers
  import opened Text
  import opened FlyTypes
  import opened FlyJson
  import opened FlyApi
  import opened Deploy

  type Machines = map<MachineID, Machine>

  /** What `parseRegionList` guarantees, and no region twice. */
  ghost predicate CleanRegions(regions: seq<string>) {
    && (forall i :: 0 <= i < |regions| ==> regions[i] != "" && Trimmed(regions[i]))
    && (forall i, j :: 0 <= i < j < |regions| ==> regions[i] != regions[j])
  }

  /** The machines of one region. */
  ghost function InRegion(machines: Machines, region: string): set<MachineID> {
    set id | id in machines && machines[id].region == region
  }

  /** Every configuration Fly holds arrived with no empty collection in it. */
  ghost predicate Consistent(r: Remote) {
    WellFormed(r) && forall id :: id in r.machines ==> Portable(r.machines[id].config)
  }

  /** No step breaks the remote's bookkeeping, nor puts an empty collection into a configuration it holds. */
  ghost predicate Upheld(r: Remote, r': Remote) {
    WellFormed(r') && (Consistent(r) ==> Consistent(r'))
  }

  // ----- the desired configuration on the wire -----

  /**
   The desired configuration as it arrives at Fly, or the desired configuration itself,
   which `ensureMachine` leaves alone.  They differ only if it does not survive JSON.
   */
  ghost predicate AsDesired(cfg: DeployConfig, config: MachineConfig) {
    config == Wire(DesiredConfig(cfg)) || config == DesiredConfig(cfg)
  }

  /** What Fly holds with no empty collection in it, and is as desired, is exactly what arrives. */
  lemma PortableIsWire(cfg: DeployConfig, config: MachineConfig)
    requires AsDesired(cfg, config) && Portable(config)
    ensures config == Wire(DesiredConfig(cfg))
  {
    ConfigRoundTrip(config);
  }

  lemma DesiredOnWire(cfg: DeployConfig)
    ensures var d := DesiredConfig(cfg);
            && Wire(d) == d.(env := Wire(d).env)
            && Portable(Wire(d))
            && (Wire(d) == d <==> cfg.env != Entries(map[]))
  {
    var d := DesiredConfig(cfg);
    WireFields(d);
    EnvRoundTrip(d.env);
    EnvRoundTrip(d.metadata);
    ServicesRoundTrip(d.services.items);
  }

  lemma FreshStates(m: Machine)
    ensures m.state == "created" || m.state == "started" ==> !Stopped(m)
  {
    if m.state == "created" {
      assert Fold(m.state[0]) != Fold("stopped"[0]);
    } else if m.state == "started" {
      assert Fold(m.state[2]) != Fold("stopped"[2]);
    }
  }

  // ----- one region -----

  /** `existing` is a machine of the region that Fly holds, if there is one. */
  ghost predicate Current(machines: Machines, region: string, existing: Option<Machine>) {
    if existing.Some? then
      existing.value.region == region && existing.value.id in machines && machines[existing.value.id] == existing.value
    else InRegion(machines, region) == {}
  }

  /** At most the machines of `region` differ, and those that were there still are. */
  ghost predicate OnlyRegion(before: Machines, after: Machines, region: string) {
    && before.Keys <= after.Keys
    && (forall id :: id in before && before[id].region != region ==> after[id] == before[id])
    && (forall id :: id in before && before[id].region == region ==> after[id].region == region)
    && (forall id :: id in after && id !in before ==> after[id].region == region)
  }

  /** The region keeps its machines; an empty one may gain one machine. */
  ghost predicate AtMostFilled(before: Machines, after: Machines, region: string) {
    || InRegion(after, region) == InRegion(before, region)
    || (InRegion(before, region) == {} && exists id :: InRegion(after, region) == {id})
  }

  /** Machine `m` is on the remote as the configuration wants it. */
  ghost predicate Settled(cfg: DeployConfig, region: string, m: Machine, machines: Machines) {
    && m.id in machines
    && m.region == region == machines[m.id].region
    && AsDesired(cfg, machines[m.id].config)
    && !Stopped(machines[m.id])
  }

  lemma UpdateEffect(w: World, n: Net, cfg: DeployConfig, region: string, id: MachineID)
    requires WellFormed(n.remote) && id in n.remote.machines && n.remote.machines[id].region == region
    ensures var (n', m) := UpdateMachineStep(false, w, n, id, Request(cfg, region));
            && Upheld(n.remote, n'.remote) && n'.remote == n.remote.(machines := n'.remote.machines)
            && OnlyRegion(n.remote.machines, n'.remote.machines, region)
            && n'.remote.machines.Keys == n.remote.machines.Keys
            && (m.Success? ==> n'.remote.machines[id] == m.value == Updated(w, id, Request(cfg, region)))
            && (FailureFree(w) ==> m.Success?)
  {
    DesiredOnWire(cfg);
  }

  lemma StartEffect(w: World, n: Net, region: string, id: MachineID)
    requires WellFormed(n.remote) && id in n.remote.machines && n.remote.machines[id].region == region
    ensures var (n', ok) := StartMachineStep(false, w, n, id);
            && Upheld(n.remote, n'.remote) && n'.remote == n.remote.(machines := n'.remote.machines)
            && OnlyRegion(n.remote.machines, n'.remote.machines, region)
            && n'.remote.machines.Keys == n.remote.machines.Keys
            && n'.remote.machines[id].config == n.remote.machines[id].config
            && (ok ==> !Stopped(n'.remote.machines[id]))
            && (FailureFree(w) ==> ok)
  {
    FreshStates(n.remote.machines[id].(state := "started"));
  }

  /** A run leaves an existing machine of the region under its id. */
  ghost predicate Kept(w: World, cfg: DeployConfig, region: string, id: MachineID, r: Remote, r': Remote,
                       m: Result<Machine, Error>) {
    && Upheld(r, r') && r' == r.(machines := r'.machines)
    && OnlyRegion(r.machines, r'.machines, region)
    && r'.machines.Keys == r.machines.Keys
    && (m.Success? ==> m.value.id == id && Settled(cfg, region, m.value, r'.machines))
    && (FailureFree(w) ==> m.Success?)
  }

  lemma EnsureUnchangedEffect(w: World, n: Net, cfg: DeployConfig, region: string, existing: Machine)
    requires WellFormed(n.remote) && Current(n.remote.machines, region, Some(existing))
             && existing.config == DesiredConfig(cfg)
    ensures var (n', m) := EnsureMachineStep(false, w, n, cfg, region, Some(existing));
            Kept(w, cfg, region, existing.id, n.remote, n'.remote, m)
  {
    StartEffect(w, n, region, existing.id);
  }

  /** After an update that came back as `m`, starting it if needed leaves it settled. */
  lemma StartUpdatedEffect(w: World, n1: Net, cfg: DeployConfig, region: string, m: Machine)
    requires WellFormed(n1.remote) && m.id in n1.remote.machines && n1.remote.machines[m.id] == m && m.region == region
    requires AsDesired(cfg, m.config)
    ensures var (n2, ok) := if Stopped(m) then StartMachineStep(false, w, n1, m.id) else (n1, true);
            Kept(w, cfg, region, m.id, n1.remote, n2.remote,
                 if ok then Success(m) else Failure(CallFailed(StartMachine(m.id))))
  {
    StartEffect(w, n1, region, m.id);
  }

  lemma EnsureChangedEffect(w: World, n: Net, cfg: DeployConfig, region: string, existing: Machine)
    requires WellFormed(n.remote) && Current(n.remote.machines, region, Some(existing))
             && existing.config != DesiredConfig(cfg)
    ensures var (n', m) := EnsureMachineStep(false, w, n, cfg, region, Some(existing));
            Kept(w, cfg, region, existing.id, n.remote, n'.remote, m)
  {
    var id := existing.id;
    UpdateEffect(w, n, cfg, region, id);
    var (n1, updated) := UpdateMachineStep(false, w, n, id, Request(cfg, region));
    if updated.Success? {
      StartUpdatedEffect(w, n1, cfg, region, updated.value);
    }
  }

  /** Ensuring a region that has a machine changes that machine only, and keeps its id. */
  lemma EnsureExistingEffect(w: World, n: Net, cfg: DeployConfig, region: string, existing: Machine)
    requires WellFormed(n.remote) && Current(n.remote.machines, region, Some(existing))
    ensures var (n', m) := EnsureMachineStep(false, w, n, cfg, region, Some(existing));
            Kept(w, cfg, region, existing.id, n.remote, n'.remote, m)
  {
    if existing.config == DesiredConfig(cfg) {
      EnsureUnchangedEffect(w, n, cfg, region, existing);
    } else {
      EnsureChangedEffect(w, n, cfg, region, existing);
    }
  }

  lemma EnsureMissingEffect(w: World, n: Net, cfg: DeployConfig, region: string)
    requires WellFormed(n.remote) && Current(n.remote.machines, region, None)
    ensures var (n', m) := EnsureMachineStep(false, w, n, cfg, region, None);
            && Upheld(n.remote, n'.remote)
            && n'.remote == n.remote.(machines := n'.remote.machines, nextId := n'.remote.nextId)
            && OnlyRegion(n.remote.machines, n'.remote.machines, region)
            && (n'.remote == n.remote || InRegion(n'.remote.machines, region) == {n.remote.nextId})
            && (m.Success? ==>
                  && InRegion(n'.remote.machines, region) == {m.value.id}
                  && Settled(cfg, region, m.value, n'.remote.machines))
            && (FailureFree(w) && n.remote.app.Some? ==> m.Success?)
  {
    DesiredOnWire(cfg);
    var req := Request(cfg, region);
    FreshStates(Created(n.remote, req));
    assert InRegion(WithCreated(n.remote, req).machines, region) == {n.remote.nextId};
  }

  /** The region is settled on its existing machine, or on the only machine it now has. */
  ghost predicate OneSettled(cfg: DeployConfig, region: string, existing: Option<Machine>, m: Machine, before: Machines,
                             after: Machines) {
    && Settled(cfg, region, m, after)
    && InRegion(after, region) == (if existing.Some? then InRegion(before, region) else {m.id})
    && (existing.Some? ==> m.id == existing.value.id)
  }

  lemma EnsureEffect(w: World, n: Net, cfg: DeployConfig, region: string, existing: Option<Machine>)
    requires WellFormed(n.remote) && Current(n.remote.machines, region, existing)
    ensures var (n', m) := EnsureMachineStep(false, w, n, cfg, region, existing);
            var before, after := n.remote.machines, n'.remote.machines;
            && Upheld(n.remote, n'.remote)
            && n'.remote == n.remote.(machines := n'.remote.machines, nextId := n'.remote.nextId)
            && OnlyRegion(before, after, region) && AtMostFilled(before, after, region)
            && (m.Success? ==> OneSettled(cfg, region, existing, m.value, before, after))
            && (FailureFree(w) && n.remote.app.Some? ==> m.Success?)
  {
    var n' := EnsureMachineStep(false, w, n, cfg, region, existing).0;
    if existing.Some? {
      EnsureExistingEffect(w, n, cfg, region, existing.value);
      assert InRegion(n'.remote.machines, region) == InRegion(n.remote.machines, region);
    } else {
      EnsureMissingEffect(w, n, cfg, region);
    }
  }

  // ----- all regions -----

  /** The regions from `k` on are as they were listed. */
  ghost predicate Ready(regions: seq<string>, k: nat, existing: map<string, Machine>, machines: Machines) {
    forall j :: k <= j < |regions| ==> Current(machines, regions[j], Lookup(existing, regions[j]))
  }

  lemma OtherRegionsStayCurrent(before: Machines, after: Machines, region: string, other: string,
                                existing: Option<Machine>)
    requires OnlyRegion(before, after, region) && other != region && Current(before, other, existing)
    ensures Current(after, other, existing)
  {
  }

  lemma OtherRegionsStay(before: Machines, after: Machines, region: string, other: string)
    requires OnlyRegion(before, after, region) && other != region
    ensures InRegion(after, other) == InRegion(before, other)
    ensures forall id :: id in InRegion(before, other) ==> after[id] == before[id]
  {
  }

  /** The regions of `regions[k..]` keep their machines or gain their first; the others do not change. */
  ghost predicate Filled(regions: seq<string>, k: nat, before: Machines, after: Machines)
    requires k <= |regions|
  {
    forall x :: if x in regions[k..] then AtMostFilled(before, after, x) else Untouched(before, after, x)
  }

  ghost predicate Untouched(before: Machines, after: Machines, region: string) {
    && InRegion(after, region) == InRegion(before, region)
    && forall id :: id in InRegion(before, region) ==> after[id] == before[id]
  }

  /** Result `ms[k..]` names, for each region from `k` on, the settled machine that the region now has. */
  ghost predicate AllSettled(cfg: DeployConfig, k: nat, existing: map<string, Machine>, ms: seq<Machine>,
                             before: Machines, after: Machines) {
    && |ms| == |cfg.regions|
    && forall j :: k <= j < |ms| ==>
         OneSettled(cfg, cfg.regions[j], Lookup(existing, cfg.regions[j]), ms[j], before, after)
  }

  lemma ReadyAfterFirst(regions: seq<string>, k: nat, existing: map<string, Machine>, before: Machines, after: Machines)
    requires CleanRegions(regions) && k < |regions| && OnlyRegion(before, after, regions[k])
             && Ready(regions, k, existing, before)
    ensures Ready(regions, k + 1, existing, after)
  {
    forall j | k + 1 <= j < |regions|
      ensures Current(after, regions[j], Lookup(existing, regions[j]))
    {
      OtherRegionsStayCurrent(before, after, regions[k], regions[j], Lookup(existing, regions[j]));
    }
  }

  /** What the loop from region `k` on has done by the time it returns. */
  ghost predicate Ensured(w: World, cfg: DeployConfig, existing: map<string, Machine>, k: nat, done: seq<Machine>,
                          r: Remote, r': Remote, ms: Result<seq<Machine>, Error>)
    requires k <= |cfg.regions|
  {
    && Upheld(r, r') && r' == r.(machines := r'.machines, nextId := r'.nextId)
    && Filled(cfg.regions, k, r.machines, r'.machines)
    && (ms.Success? ==> done <= ms.value && AllSettled(cfg, k, existing, ms.value, r.machines, r'.machines))
    && (FailureFree(w) && r.app.Some? ==> ms.Success?)
  }

  lemma EnsuredFirst(w: World, cfg: DeployConfig, existing: map<string, Machine>, k: nat, done: seq<Machine>,
                     m: Machine, r: Remote, r1: Remote, r': Remote, ms: Result<seq<Machine>, Error>)
    requires CleanRegions(cfg.regions) && k == |done| < |cfg.regions|
    requires Upheld(r, r1) && r1 == r.(machines := r1.machines, nextId := r1.nextId)
    requires OnlyRegion(r.machines, r1.machines, cfg.regions[k])
             && AtMostFilled(r.machines, r1.machines, cfg.regions[k])
    requires OneSettled(cfg, cfg.regions[k], Lookup(existing, cfg.regions[k]), m, r.machines, r1.machines)
    requires Ensured(w, cfg, existing, k + 1, done + [m], r1, r', ms)
    ensures Ensured(w, cfg, existing, k, done, r, r', ms)
  {
    FillRest(cfg.regions, k, r.machines, r1.machines, r'.machines);
    if ms.Success? {
      assert ms.value[k] == (done + [m])[k] == m;
      assert done <= ms.value;
      SettleFirst(cfg, k, existing, ms.value, r.machines, r1.machines, r'.machines);
    }
  }

  lemma {:induction false} EnsureFromEffect(w: World, n: Net, cfg: DeployConfig, existing: map<string, Machine>, k: nat,
                                            done: seq<Machine>)
    requires CleanRegions(cfg.regions) && k == |done| <= |cfg.regions|
    requires WellFormed(n.remote) && Ready(cfg.regions, k, existing, n.remote.machines)
    ensures var (n', ms) := EnsureFrom(false, w, n, cfg, existing, k, done);
            Ensured(w, cfg, existing, k, done, n.remote, n'.remote, ms)
    decreases |cfg.regions| - k, 1
  {
    if k < |cfg.regions| {
      var region := cfg.regions[k];
      TrimIsTrimmed(region);
      EnsureEffect(w, n, cfg, region, Lookup(existing, region));
      var (n1, m) := EnsureMachineStep(false, w, n, cfg, region, Lookup(existing, region));
      if m.Failure? {
        FillFirst(cfg.regions, k, n.remote.machines, n1.remote.machines);
      } else {
        EnsureRestEffect(w, n.remote, n1, m.value, cfg, existing, k, done);
      }
    }
  }

  /** After region `k` is settled on `m`, the rest of the loop keeps it so. */
  lemma {:induction false} EnsureRestEffect(w: World, r: Remote, n1: Net, m: Machine, cfg: DeployConfig,
                                            existing: map<string, Machine>, k: nat, done: seq<Machine>)
    requires CleanRegions(cfg.regions) && k == |done| < |cfg.regions|
    requires Upheld(r, n1.remote) && n1.remote == r.(machines := n1.remote.machines, nextId := n1.remote.nextId)
    requires Ready(cfg.regions, k, existing, r.machines)
    requires OnlyRegion(r.machines, n1.remote.machines, cfg.regions[k])
             && AtMostFilled(r.machines, n1.remote.machines, cfg.regions[k])
    requires OneSettled(cfg, cfg.regions[k], Lookup(existing, cfg.regions[k]), m, r.machines, n1.remote.machines)
    ensures var (n', ms) := EnsureFrom(false, w, n1, cfg, existing, k + 1, done + [m]);
            Ensured(w, cfg, existing, k, done, r, n'.remote, ms)
    decreases |cfg.regions| - k, 0
  {
    ReadyAfterFirst(cfg.regions, k, existing, r.machines, n1.remote.machines);
    EnsureFromEffect(w, n1, cfg, existing, k + 1, done + [m]);
    var (n', ms) := EnsureFrom(false, w, n1, cfg, existing, k + 1, done + [m]);
    EnsuredFirst(w, cfg, existing, k, done, m, r, n1.remote, n'.remote, ms);
  }

  lemma FillFirst(regions: seq<string>, k: nat, before: Machines, after: Machines)
    requires k < |regions| && OnlyRegion(before, after, regions[k]) && AtMostFilled(before, after, regions[k])
    ensures Filled(regions, k, before, after)
  {
    forall x
      ensures if x in regions[k..] then AtMostFilled(before, after, x) else Untouched(before, after, x)
    {
      assert regions[k] in regions[k..];
      if x != regions[k] {
        OtherRegionsStay(before, after, regions[k], x);
      }
    }
  }

  lemma FillRest(regions: seq<string>, k: nat, before: Machines, middle: Machines, after: Machines)
    requires CleanRegions(regions) && k < |regions|
    requires OnlyRegion(before, middle, regions[k]) && AtMostFilled(before, middle, regions[k])
    requires Filled(regions, k + 1, middle, after)
    ensures Filled(regions, k, before, after)
  {
    assert regions[k..] == [regions[k]] + regions[k + 1..];
    forall x
      ensures if x in regions[k..] then AtMostFilled(before, after, x) else Untouched(before, after, x)
    {
      if x == regions[k] {
        assert x !in regions[k + 1..];
        assert Untouched(middle, after, x);
      } else {
        OtherRegionsStay(before, middle, regions[k], x);
      }
    }
  }

  lemma SettleFirst(cfg: DeployConfig, k: nat, existing: map<string, Machine>, ms: seq<Machine>, before: Machines,
                    middle: Machines, after: Machines)
    requires CleanRegions(cfg.regions) && k < |cfg.regions| == |ms|
    requires OnlyRegion(before, middle, cfg.regions[k])
             && OneSettled(cfg, cfg.regions[k], Lookup(existing, cfg.regions[k]), ms[k], before, middle)
    requires Filled(cfg.regions, k + 1, middle, after) && AllSettled(cfg, k + 1, existing, ms, middle, after)
    ensures AllSettled(cfg, k, existing, ms, before, after)
  {
    var region := cfg.regions[k];
    assert region !in cfg.regions[k + 1..];
    assert Untouched(middle, after, region);
    assert ms[k].id in InRegion(middle, region);
    forall j | k + 1 <= j < |ms|
      ensures OneSettled(cfg, cfg.regions[j], Lookup(existing, cfg.regions[j]), ms[j], before, after)
    {
      OtherRegionsStay(before, middle, region, cfg.regions[j]);
    }
  }
}
