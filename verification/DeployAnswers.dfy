/**
 What a run deploys and reports, told from the given configuration and the listing alone:
 the machine of each region, its name and its configuration, field by field.
 */
module DeployAnswers {
  import opened Wrappers
  import opened Text
  import opened FlyTypes
  import opened FlyJson
  import opened FlyApi
  import opened Deploy
  import opened DeployEffects
  import opened DeployRuns

  // ----- the given configuration -----

  function HealthPort(given: DeployConfig): int {
    if given.healthPort == 0 then 8080 else given.healthPort
  }

  function MachineName(given: DeployConfig, region: string): string {
    (if given.machineName == "" then "turnfly" else given.machineName) + "-" + region
  }

  /** TURN over UDP and TCP, and the health endpoint over HTTP. */
  function GivenServices(given: DeployConfig): seq<MachineService> {
    [MachineService("udp", 3478, Items([MachinePort(3478, NilSlice)]), None),
     MachineService("tcp", 3478, Items([MachinePort(3478, NilSlice)]), None),
     MachineService("tcp", HealthPort(given), Items([MachinePort(80, Items(["http"]))]),
                    Some(ServiceConcurrency("connections", 1000, 800)))]
  }

  /** An empty map read as nil, as it comes back from JSON. */
  function NilIfEmpty(env: Env): Env {
    if env == Entries(map[]) then NilMap else env
  }

  /** The configuration is the given one; whether its environment is nil or empty does not matter. */
  ghost predicate AsGiven(given: DeployConfig, c: MachineConfig) {
    && c.image == given.image
    && NilIfEmpty(c.env) == NilIfEmpty(given.env)
    && c.services == Items(GivenServices(given))
    && c.guest == Some(given.guest)
    && c.metadata == NilMap
  }

  /** The configuration that `ensureMachine` compares with is the given one, environment included. */
  lemma DesiredIsGiven(given: DeployConfig, c: MachineConfig)
    ensures c == DesiredConfig(WithDefaults(given)) <==> AsGiven(given, c) && c.env == given.env
  {
  }

  lemma AsDesiredIsGiven(given: DeployConfig, c: MachineConfig)
    requires AsDesired(WithDefaults(given), c)
    ensures AsGiven(given, c)
  {
    var d := DesiredConfig(WithDefaults(given));
    DesiredOnWire(WithDefaults(given));
    ConfigRoundTrip(d);
    DesiredIsGiven(given, d);
  }

  /** The request body: the fields of the given configuration under the names of the Machines API. */
  lemma GivenAsJson(given: DeployConfig, c: MachineConfig)
    requires AsGiven(given, c)
    ensures var j := EncodeConfig(c);
            && Get(j, "image") == Some(JString(given.image))
            && Get(j, "metadata") == None
            && Get(j, "guest") == Some(JObject(map["cpu_kind" := JString(given.guest.cpuKind),
                                                   "cpus" := JNumber(given.guest.cpus),
                                                   "memory_mb" := JNumber(given.guest.memoryMB)]))
            && (NilIfEmpty(given.env) == NilMap ==> Get(j, "env") == None)
            && (forall e :: NilIfEmpty(given.env) == Entries(e) ==>
                  Get(j, "env") == Some(JObject(map k | k in e :: JString(e[k]))))
            && Get(j, "services") == Some(JArray(EncodeServices(GivenServices(given))))
  {
    EncodedFields(c);
  }

  /** The three services in the request body. */
  lemma ServicesAsJson(given: DeployConfig)
    ensures var turn := JArray([JObject(map["port" := JNumber(3478)])]);
            EncodeServices(GivenServices(given)) ==
            [JObject(map["protocol" := JString("udp"), "internal_port" := JNumber(3478), "ports" := turn]),
             JObject(map["protocol" := JString("tcp"), "internal_port" := JNumber(3478), "ports" := turn]),
             JObject(map["protocol" := JString("tcp"), "internal_port" := JNumber(HealthPort(given)),
                         "ports" := JArray([JObject(map["port" := JNumber(80),
                                                        "handlers" := JArray([JString("http")])])]),
                         "concurrency" := JObject(map["type" := JString("connections"),
                                                      "hard_limit" := JNumber(1000),
                                                      "soft_limit" := JNumber(800)])])]
  {
    TurnAsJson("udp");
    TurnAsJson("tcp");
    HealthAsJson(HealthPort(given));
  }

  lemma TurnAsJson(protocol: string)
    ensures EncodeService(MachineService(protocol, 3478, Items([MachinePort(3478, NilSlice)]), None))
         == JObject(map["protocol" := JString(protocol), "internal_port" := JNumber(3478),
                        "ports" := JArray([JObject(map["port" := JNumber(3478)])])])
  {
    assert EncodePorts([MachinePort(3478, NilSlice)]) == [EncodePort(MachinePort(3478, NilSlice))];
    assert EncodePort(MachinePort(3478, NilSlice)) == JObject(map["port" := JNumber(3478)]);
  }

  lemma HealthAsJson(port: int)
    ensures EncodeService(MachineService("tcp", port, Items([MachinePort(80, Items(["http"]))]),
                                         Some(ServiceConcurrency("connections", 1000, 800))))
         == JObject(map["protocol" := JString("tcp"), "internal_port" := JNumber(port),
                        "ports" := JArray([JObject(map["port" := JNumber(80),
                                                       "handlers" := JArray([JString("http")])])]),
                        "concurrency" := JObject(map["type" := JString("connections"),
                                                     "hard_limit" := JNumber(1000),
                                                     "soft_limit" := JNumber(800)])])
  {
    var p := MachinePort(80, Items(["http"]));
    assert EncodeStrings(["http"]) == [JString("http")];
    assert EncodePort(p) == JObject(map["port" := JNumber(80), "handlers" := JArray([JString("http")])]);
    assert EncodePorts([p]) == [EncodePort(p)];
  }

  // ----- the machine that a run takes for a region -----

  /** Machine `id` is the last of its region in the listing. */
  ghost predicate LastListed(listing: seq<MachineID>, machines: Machines, region: string, id: MachineID)
    requires Lists(listing, machines)
  {
    exists i :: 0 <= i < |listing| && listing[i] == id && LastAt(listing, machines, region, i)
  }

  ghost predicate LastAt(listing: seq<MachineID>, machines: Machines, region: string, i: nat)
    requires Lists(listing, machines) && i < |listing|
  {
    machines[listing[i]].region == region && forall j :: i < j < |listing| ==> machines[listing[j]].region != region
  }

  lemma {:induction false} LastPerRegionIsLast(listed: seq<Machine>, region: string) returns (i: nat)
    requires region in LastPerRegion(listed)
    ensures i < |listed| && listed[i] == LastPerRegion(listed)[region] && listed[i].region == region
    ensures forall j :: i < j < |listed| ==> listed[j].region != region
  {
    i := |listed| - 1;
    LastPerRegionIsListed(listed);
    if listed[i].region != region {
      i := LastPerRegionIsLast(listed[..i], region);
    }
  }

  /** The run takes for a region the machine of it that Fly lists last. */
  lemma ExistingIsLast(w: World, r: Remote, region: string)
    requires WellFormed(r) && Lists(w.listing, r.machines) && region != ""
    ensures var existing := LastPerRegion(Listed(w.listing, r.machines));
            && (region in existing <==> InRegion(r.machines, region) != {})
            && (region in existing ==> LastListed(w.listing, r.machines, region, existing[region].id)
                                       && r.machines[existing[region].id] == existing[region])
  {
    var listed := Listed(w.listing, r.machines);
    var existing := LastPerRegion(listed);
    ExistingIsFiled(w.listing, r);
    if region in existing {
      var i := LastPerRegionIsLast(listed, region);
      assert forall j :: 0 <= j < |listed| ==> listed[j] == r.machines[w.listing[j]];
      assert w.listing[i] == existing[region].id && LastAt(w.listing, r.machines, region, i);
      assert existing[region].id in InRegion(r.machines, region);
    }
    if InRegion(r.machines, region) != {} {
      var id :| id in InRegion(r.machines, region);
      assert r.machines[id].region in existing;
    }
  }

  lemma OnlyOneLast(listing: seq<MachineID>, machines: Machines, region: string, a: MachineID, b: MachineID)
    requires Lists(listing, machines)
    requires LastListed(listing, machines, region, a) && LastListed(listing, machines, region, b)
    ensures a == b
  {
  }

  // ----- what a run reports, and what it leaves on the remote -----

  /** The existing machine already has the given configuration, environment included. */
  ghost predicate UpToDate(given: DeployConfig, existing: Option<Machine>) {
    existing.Some? && AsGiven(given, existing.value.config) && existing.value.config.env == given.env
  }

  /** The name and state that a region's machine is reported with. */
  ghost predicate NameAndState(w: World, given: DeployConfig, existing: Option<Machine>, m: Machine) {
    if existing.None? then m.name == MachineName(given, m.region) && m.state == "created"
    else if UpToDate(given, existing) then m == existing.value
    else m.id == existing.value.id && m.name == MachineName(given, m.region) && m.state == w.stateAfterUpdate(m.id)
  }

  /** Machine `m` is reported for the region; the remote holds it as given, and started if it was stopped. */
  ghost predicate Reported(w: World, given: DeployConfig, region: string, existing: Option<Machine>, m: Machine,
                           machines: Machines) {
    && m.id in machines && m.region == region
    && machines[m.id] == (if EqualFold(m.state, "stopped") then m.(state := "started") else m)
    && AsGiven(given, m.config)
    && NameAndState(w, given, existing, m)
  }

  lemma CreateReports(w: World, n: Net, given: DeployConfig, region: string)
    requires WellFormed(n.remote)
    ensures var (n', m) := EnsureMachineStep(false, w, n, WithDefaults(given), region, None);
            m.Success? ==>
              m.value.id !in n.remote.machines && Reported(w, given, region, None, m.value, n'.remote.machines)
  {
    var m := Created(n.remote, Request(WithDefaults(given), region));
    AsDesiredIsGiven(given, m.config);
    FreshStates(m);
  }

  lemma UpdateReports(w: World, n: Net, given: DeployConfig, region: string, e: Machine)
    requires WellFormed(n.remote) && Current(n.remote.machines, region, Some(e)) && !UpToDate(given, Some(e))
    ensures var (n', m) := EnsureMachineStep(false, w, n, WithDefaults(given), region, Some(e));
            m.Success? ==> Reported(w, given, region, Some(e), m.value, n'.remote.machines)
  {
    var m := Updated(w, e.id, Request(WithDefaults(given), region));
    DesiredIsGiven(given, e.config);
    AsDesiredIsGiven(given, m.config);
  }

  lemma KeepReports(w: World, n: Net, given: DeployConfig, region: string, e: Machine)
    requires WellFormed(n.remote) && Current(n.remote.machines, region, Some(e)) && UpToDate(given, Some(e))
    ensures var (n', m) := EnsureMachineStep(false, w, n, WithDefaults(given), region, Some(e));
            m.Success? ==> Reported(w, given, region, Some(e), m.value, n'.remote.machines)
  {
    DesiredIsGiven(given, e.config);
  }

  lemma EnsureReports(w: World, n: Net, given: DeployConfig, region: string, existing: Option<Machine>)
    requires WellFormed(n.remote) && Current(n.remote.machines, region, existing)
    ensures var (n', m) := EnsureMachineStep(false, w, n, WithDefaults(given), region, existing);
            m.Success? ==> Reported(w, given, region, existing, m.value, n'.remote.machines)
  {
    if existing.None? {
      CreateReports(w, n, given, region);
    } else if UpToDate(given, existing) {
      KeepReports(w, n, given, region, existing.value);
    } else {
      UpdateReports(w, n, given, region, existing.value);
    }
  }

  lemma FirstReports(w: World, n: Net, given: DeployConfig, region: string, existing: Option<Machine>)
    requires WellFormed(n.remote) && Current(n.remote.machines, region, existing)
    ensures var (n', m) := EnsureMachineStep(false, w, n, WithDefaults(given), region, existing);
            && WellFormed(n'.remote) && OnlyRegion(n.remote.machines, n'.remote.machines, region)
            && (m.Success? ==> Reported(w, given, region, existing, m.value, n'.remote.machines))
  {
    EnsureReports(w, n, given, region, existing);
    EnsureEffect(w, n, WithDefaults(given), region, existing);
  }

  /** The machines reported for the regions from `k` on, if the loop succeeded. */
  ghost predicate AllReported(w: World, given: DeployConfig, existing: map<string, Machine>, k: nat,
                              ms: Result<seq<Machine>, Error>, machines: Machines) {
    ms.Success? ==>
      && |ms.value| == |given.regions|
      && forall j :: k <= j < |ms.value| ==>
           Reported(w, given, given.regions[j], Lookup(existing, given.regions[j]), ms.value[j], machines)
  }

  lemma ReportStays(w: World, given: DeployConfig, region: string, existing: Option<Machine>, m: Machine,
                    before: Machines, after: Machines)
    requires Reported(w, given, region, existing, m, before) && Untouched(before, after, region)
    ensures Reported(w, given, region, existing, m, after)
  {
    assert m.id in InRegion(before, region);
  }

  lemma {:induction false} LoopReports(w: World, n: Net, given: DeployConfig, existing: map<string, Machine>, k: nat,
                                       done: seq<Machine>)
    requires CleanRegions(given.regions) && k == |done| <= |given.regions|
    requires WellFormed(n.remote) && Ready(given.regions, k, existing, n.remote.machines)
    ensures var (n', ms) := EnsureFrom(false, w, n, WithDefaults(given), existing, k, done);
            AllReported(w, given, existing, k, ms, n'.remote.machines)
    decreases |given.regions| - k, 1
  {
    if k < |given.regions| {
      var x, cfg := given.regions[k], WithDefaults(given);
      TrimIsTrimmed(x);
      FirstReports(w, n, given, x, Lookup(existing, x));
      var (n1, m) := EnsureMachineStep(false, w, n, cfg, x, Lookup(existing, x));
      if m.Success? {
        RestReports(w, n, n1, m.value, given, existing, k, done);
      }
    }
  }

  lemma {:induction false} RestReports(w: World, n: Net, n1: Net, m: Machine, given: DeployConfig,
                                       existing: map<string, Machine>, k: nat, done: seq<Machine>)
    requires CleanRegions(given.regions) && k == |done| < |given.regions|
    requires WellFormed(n1.remote) && Ready(given.regions, k, existing, n.remote.machines)
    requires OnlyRegion(n.remote.machines, n1.remote.machines, given.regions[k])
    requires Reported(w, given, given.regions[k], Lookup(existing, given.regions[k]), m, n1.remote.machines)
    ensures var (n', ms) := EnsureFrom(false, w, n1, WithDefaults(given), existing, k + 1, done + [m]);
            AllReported(w, given, existing, k, ms, n'.remote.machines)
    decreases |given.regions| - k, 0
  {
    var cfg, x := WithDefaults(given), given.regions[k];
    ReadyAfterFirst(given.regions, k, existing, n.remote.machines, n1.remote.machines);
    LoopReports(w, n1, given, existing, k + 1, done + [m]);
    EnsureFromEffect(w, n1, cfg, existing, k + 1, done + [m]);
    var (n', ms) := EnsureFrom(false, w, n1, cfg, existing, k + 1, done + [m]);
    if ms.Success? {
      assert ms.value[k] == (done + [m])[k] == m;
      assert x !in given.regions[k + 1..];
      assert Untouched(n1.remote.machines, n'.remote.machines, x);
      ReportStays(w, given, x, Lookup(existing, x), m, n1.remote.machines, n'.remote.machines);
    }
  }

  /** A region is answered for by its last listed machine, or by a new one if it had none. */
  ghost predicate Answered(w: World, given: DeployConfig, before: Machines, region: string, m: Machine, after: Machines)
    requires Lists(w.listing, before)
  {
    if InRegion(before, region) == {} then Reported(w, given, region, None, m, after)
    else
      LastListed(w.listing, before, region, m.id) && m.id in before
      && Reported(w, given, region, Some(before[m.id]), m, after)
  }

  ghost predicate AllAnswered(w: World, given: DeployConfig, before: Machines, ms: seq<Machine>, after: Machines)
    requires Lists(w.listing, before)
  {
    && |ms| == |given.regions|
    && forall j :: 0 <= j < |ms| ==> Answered(w, given, before, given.regions[j], ms[j], after)
  }

  lemma ConvergeAnswers(w: World, n: Net, given: DeployConfig)
    requires WellFormed(n.remote) && Lists(w.listing, n.remote.machines) && CleanRegions(given.regions)
    ensures var (n', ms) := ConvergeStep(false, w, n, WithDefaults(given));
            ms.Success? ==> AllAnswered(w, given, n.remote.machines, ms.value, n'.remote.machines)
  {
    var cfg := WithDefaults(given);
    var (n1, listed) := ListMachinesStep(false, w, n);
    if listed.Success? {
      var existing := LastPerRegion(listed.value);
      SweepEffect(w, n1, cfg.regions);
      var n2 := SweepStep(w, n1, Doomed(existing, cfg.regions));
      LoopReports(w, n2, given, existing, 0, []);
      var (n3, ms) := EnsureFrom(false, w, n2, cfg, existing, 0, []);
      if ms.Success? {
        ReportsAnswer(w, n.remote, given, ms.value, n3.remote.machines);
      }
    }
  }

  lemma ReportsAnswer(w: World, r: Remote, given: DeployConfig, ms: seq<Machine>, after: Machines)
    requires WellFormed(r) && Lists(w.listing, r.machines) && CleanRegions(given.regions)
    requires AllReported(w, given, LastPerRegion(Listed(w.listing, r.machines)), 0, Success(ms), after)
    ensures AllAnswered(w, given, r.machines, ms, after)
  {
    forall j | 0 <= j < |given.regions|
      ensures Answered(w, given, r.machines, given.regions[j], ms[j], after)
    {
      ExistingIsLast(w, r, given.regions[j]);
    }
  }

  /**
   Whatever calls fail, a run that succeeds answers for each given region, in order: with a
   new machine named after it where there was none, and else with the machine of the region
   that Fly lists last, as it was if it had the given configuration, renamed and updated
   otherwise, and started if it is then stopped.
   */
  lemma DeployAnswersGiven(w: World, n: Net, given: DeployConfig)
    requires WellFormed(n.remote) && Lists(w.listing, n.remote.machines) && CleanRegions(given.regions)
    ensures var (n', res) := DeployStep(false, w, n, given);
            res.Success? ==>
              && !res.value.dryRun && res.value.regions == given.regions
              && AllAnswered(w, given, n.remote.machines, res.value.machines, n'.remote.machines)
  {
    if MissingField(given).None? {
      var cfg := WithDefaults(given);
      PrepareEffect(w, n, cfg);
      var (n1, p) := PrepareStep(false, w, n, cfg);
      if p.Success? {
        var (n2, ms) := ConvergeStep(false, w, n1, cfg);
        ConvergeAnswers(w, n1, given);
        if ms.Success? {
          RunIsConverge(w, n, given, p.value, n1, ms.value, n2);
        }
      }
    }
  }

  /** The result of a run whose preparation gave `p`, and whose machines are `ms`. */
  lemma RunIsConverge(w: World, n: Net, given: DeployConfig, p: Prepared, n1: Net, ms: seq<Machine>, n2: Net)
    requires Lists(w.listing, n.remote.machines) && n1.remote.machines == n.remote.machines && MissingField(given).None?
    requires PrepareStep(false, w, n, WithDefaults(given)) == (n1, Success(p))
    requires ConvergeStep(false, w, n1, WithDefaults(given)) == (n2, Success(ms))
    ensures DeployStep(false, w, n, given) == (n2, Success(DeployResult(p.app, ms, p.ips, false, given.regions)))
  {
  }

  /** A run takes from an undesired region only the machine that Fly lists last in it. */
  lemma VictimIsLastListed(w: World, r: Remote, region: string)
    requires WellFormed(r) && Lists(w.listing, r.machines) && region != ""
    ensures Victim(w, r.machines, region) == set id | id in r.machines && LastListed(w.listing, r.machines, region, id)
  {
    ExistingIsLast(w, r, region);
    forall id | id in r.machines && LastListed(w.listing, r.machines, region, id)
      ensures id in Victim(w, r.machines, region)
    {
      assert id in InRegion(r.machines, region);
      OnlyOneLast(w.listing, r.machines, region, id, LastPerRegion(Listed(w.listing, r.machines))[region].id);
    }
  }
}
