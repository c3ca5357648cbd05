/**
 The Fly Machines API client of internal/flydeploy/client.go, and what Fly holds for
 one app.

 Every API call can succeed, fail before it takes effect, or fail after it did (the
 response is lost or does not decode); a `World` says which, for each call of a run.
 Fly stores the configuration it is sent, lists every machine in an order of its own,
 and chooses the state a machine is in after an update.
 */
module FlyApi {
  import opened Wrappers
  import opened FlyTypes
  import opened FlyJson

  datatype Call =
    | GetApp | CreateApp | ListIPs | ListMachines
    | AllocateIP(orgSlug: string)
    | CreateMachine(region: string)
    | UpdateMachine(id: MachineID)
    | StartMachine(id: MachineID)
    | DestroyMachine(id: MachineID)

  datatype Outcome = Works | FailsBefore | FailsAfter

  datatype Error = Required(what: string) | CallFailed(call: Call)

  datatype World = World(fault: Call -> Outcome, listing: seq<MachineID>, stateAfterUpdate: MachineID -> string)

  datatype Remote = Remote(app: Option<App>, ips: seq<IPAddress>, machines: map<MachineID, Machine>, nextId: MachineID)

  /** The remote together with the API calls made to it. */
  datatype Net = Net(remote: Remote, calls: multiset<Call>)

  datatype CreateMachineRequest = CreateMachineRequest(name: string, region: string, config: MachineConfig)

  /** Machines are filed under their ids, and new ids are fresh. */
  ghost predicate WellFormed(r: Remote) {
    && 0 < r.nextId
    && forall id :: id in r.machines ==> r.machines[id].id == id && 0 < id < r.nextId
  }

  /** `ids` lists the machines, each once. */
  ghost predicate Lists(ids: seq<MachineID>, machines: map<MachineID, Machine>) {
    && (forall i :: 0 <= i < |ids| ==> ids[i] in machines)
    && (forall id :: id in machines ==> id in ids)
    && (forall i, j :: 0 <= i < j < |ids| ==> ids[i] != ids[j])
  }

  ghost predicate FailureFree(w: World) {
    forall c :: w.fault(c) == Works
  }

  /** One request: `accepted` is whether Fly would carry it out, `after` the remote if it does. */
  function Send(w: World, n: Net, c: Call, accepted: bool, after: Remote): (Net, bool) {
    var calls := n.calls + multiset{c};
    if w.fault(c) == FailsBefore || !accepted then (Net(n.remote, calls), false)
    else (Net(after, calls), w.fault(c) == Works)
  }

  // ----- the remote's answer to each request -----

  function WithApp(r: Remote, name: string, orgSlug: string): Remote {
    r.(app := Some(App(name, orgSlug, "")))
  }

  function WithIP(r: Remote, kind: string): Remote {
    r.(ips := r.ips + [IPAddress("assigned", kind)])
  }

  function Created(r: Remote, req: CreateMachineRequest): Machine {
    Machine(r.nextId, req.name, req.region, "created", Wire(req.config))
  }

  function WithCreated(r: Remote, req: CreateMachineRequest): Remote {
    r.(machines := r.machines[r.nextId := Created(r, req)], nextId := r.nextId + 1)
  }

  function Updated(w: World, id: MachineID, req: CreateMachineRequest): Machine {
    Machine(id, req.name, req.region, w.stateAfterUpdate(id), Wire(req.config))
  }

  function WithUpdated(w: World, r: Remote, id: MachineID, req: CreateMachineRequest): Remote {
    r.(machines := r.machines[id := Updated(w, id, req)])
  }

  function WithStarted(r: Remote, id: MachineID): Remote {
    if id in r.machines then r.(machines := r.machines[id := r.machines[id].(state := "started")]) else r
  }

  function Without(r: Remote, id: MachineID): Remote {
    r.(machines := r.machines - {id})
  }

  // ----- the client's methods, dry-run branches included -----

  function GetAppStep(dry: bool, w: World, n: Net, name: string): (Net, Result<App, Error>) {
    if dry then (n, Success(App(name, "", "")))
    else
      var (n', ok) := Send(w, n, GetApp, n.remote.app.Some?, n.remote);
      (n', if ok && n.remote.app.Some? then Success(n.remote.app.value) else Failure(CallFailed(GetApp)))
  }

  function CreateAppStep(dry: bool, w: World, n: Net, name: string, orgSlug: string): (Net, Result<App, Error>) {
    if dry then (n, Success(App(name, orgSlug, "")))
    else
      var (n', ok) := Send(w, n, CreateApp, n.remote.app.None?, WithApp(n.remote, name, orgSlug));
      (n', if ok then Success(App(name, orgSlug, "")) else Failure(CallFailed(CreateApp)))
  }

  function ListIPsStep(dry: bool, w: World, n: Net): (Net, Result<seq<IPAddress>, Error>) {
    if dry then (n, Success([]))
    else
      var (n', ok) := Send(w, n, ListIPs, n.remote.app.Some?, n.remote);
      (n', if ok then Success(n.remote.ips) else Failure(CallFailed(ListIPs)))
  }

  function AllocateIPStep(dry: bool, w: World, n: Net, kind: string, orgSlug: string): (Net, Result<IPAddress, Error>) {
    if dry then (n, Success(IPAddress("dry-run-ip", kind)))
    else
      var (n', ok) := Send(w, n, AllocateIP(orgSlug), n.remote.app.Some?, WithIP(n.remote, kind));
      (n', if ok then Success(IPAddress("assigned", kind)) else Failure(CallFailed(AllocateIP(orgSlug))))
  }

  function Listed(ids: seq<MachineID>, machines: map<MachineID, Machine>): (ms: seq<Machine>)
    requires forall i :: 0 <= i < |ids| ==> ids[i] in machines
    ensures |ms| == |ids|
  {
    seq(|ids|, i requires 0 <= i < |ids| => machines[ids[i]])
  }

  function ListMachinesStep(dry: bool, w: World, n: Net): (Net, Result<seq<Machine>, Error>)
    requires Lists(w.listing, n.remote.machines)
  {
    if dry then (n, Success([]))
    else
      var (n', ok) := Send(w, n, ListMachines, n.remote.app.Some?, n.remote);
      (n', if ok then Success(Listed(w.listing, n.remote.machines)) else Failure(CallFailed(ListMachines)))
  }

  function CreateMachineStep(dry: bool, w: World, n: Net, req: CreateMachineRequest): (Net, Result<Machine, Error>) {
    if dry then (n, Success(Machine(NO_ID, req.name, req.region, "dry-run", req.config)))
    else
      var c := CreateMachine(req.region);
      var (n', ok) := Send(w, n, c, n.remote.app.Some?, WithCreated(n.remote, req));
      (n', if ok then Success(Created(n.remote, req)) else Failure(CallFailed(c)))
  }

  function UpdateMachineStep(dry: bool, w: World, n: Net, id: MachineID,
                             req: CreateMachineRequest): (Net, Result<Machine, Error>) {
    if dry then (n, Success(Machine(id, req.name, req.region, "dry-run", req.config)))
    else
      var c := UpdateMachine(id);
      var (n', ok) := Send(w, n, c, id in n.remote.machines, WithUpdated(w, n.remote, id, req));
      (n', if ok then Success(Updated(w, id, req)) else Failure(CallFailed(c)))
  }

  function StartMachineStep(dry: bool, w: World, n: Net, id: MachineID): (Net, bool) {
    if dry then (n, true)
    else Send(w, n, StartMachine(id), id in n.remote.machines, WithStarted(n.remote, id))
  }

  function DestroyMachineStep(dry: bool, w: World, n: Net, id: MachineID): (Net, bool) {
    if dry then (n, true)
    else Send(w, n, DestroyMachine(id), id in n.remote.machines, Without(n.remote, id))
  }

  /** The client and the remote it talks to.  `calls` records the requests of its lifetime. */
  class Client {
    const dryRun: bool
    var remote: Remote
    ghost var calls: multiset<Call>

    constructor (dryRun: bool, remote: Remote)
      ensures this.dryRun == dryRun && View() == Net(remote, multiset{})
    {
      this.dryRun, this.remote, calls := dryRun, remote, multiset{};
    }

    ghost function View(): Net
      reads this
    {
      Net(remote, calls)
    }

    method DoRequest(w: World, c: Call, accepted: bool, after: Remote) returns (ok: bool)
      modifies this
      ensures (View(), ok) == Send(w, old(View()), c, accepted, after)
    {
      calls := calls + multiset{c};
      if w.fault(c) == FailsBefore || !accepted {
        return false;
      }
      remote := after;
      return w.fault(c) == Works;
    }

    method GetApp(w: World, name: string) returns (r: Result<App, Error>)
      modifies this
      ensures (View(), r) == GetAppStep(dryRun, w, old(View()), name)
    {
      if dryRun {
        return Success(App(name, "", ""));
      }
      var ok := DoRequest(w, Call.GetApp, remote.app.Some?, remote);
      return if ok && remote.app.Some? then Success(remote.app.value) else Failure(CallFailed(Call.GetApp));
    }

    method CreateApp(w: World, name: string, orgSlug: string) returns (r: Result<App, Error>)
      modifies this
      ensures (View(), r) == CreateAppStep(dryRun, w, old(View()), name, orgSlug)
    {
      if dryRun {
        return Success(App(name, orgSlug, ""));
      }
      var ok := DoRequest(w, Call.CreateApp, remote.app.None?, WithApp(remote, name, orgSlug));
      return if ok then Success(App(name, orgSlug, "")) else Failure(CallFailed(Call.CreateApp));
    }

    method ListIPs(w: World) returns (r: Result<seq<IPAddress>, Error>)
      modifies this
      ensures (View(), r) == ListIPsStep(dryRun, w, old(View()))
    {
      if dryRun {
        return Success([]);
      }
      var ok := DoRequest(w, Call.ListIPs, remote.app.Some?, remote);
      return if ok then Success(remote.ips) else Failure(CallFailed(Call.ListIPs));
    }

    method AllocateIP(w: World, kind: string, orgSlug: string) returns (r: Result<IPAddress, Error>)
      modifies this
      ensures (View(), r) == AllocateIPStep(dryRun, w, old(View()), kind, orgSlug)
    {
      if dryRun {
        return Success(IPAddress("dry-run-ip", kind));
      }
      var ok := DoRequest(w, Call.AllocateIP(orgSlug), remote.app.Some?, WithIP(remote, kind));
      return if ok then Success(IPAddress("assigned", kind)) else Failure(CallFailed(Call.AllocateIP(orgSlug)));
    }

    method ListMachines(w: World) returns (r: Result<seq<Machine>, Error>)
      requires Lists(w.listing, remote.machines)
      modifies this
      ensures (View(), r) == ListMachinesStep(dryRun, w, old(View()))
    {
      if dryRun {
        return Success([]);
      }
      var ok := DoRequest(w, Call.ListMachines, remote.app.Some?, remote);
      return if ok then Success(Listed(w.listing, remote.machines)) else Failure(CallFailed(Call.ListMachines));
    }

    method CreateMachine(w: World, req: CreateMachineRequest) returns (r: Result<Machine, Error>)
      modifies this
      ensures (View(), r) == CreateMachineStep(dryRun, w, old(View()), req)
    {
      if dryRun {
        return Success(Machine(NO_ID, req.name, req.region, "dry-run", req.config));
      }
      var c, created := Call.CreateMachine(req.region), Created(remote, req);
      var ok := DoRequest(w, c, remote.app.Some?, WithCreated(remote, req));
      return if ok then Success(created) else Failure(CallFailed(c));
    }

    method UpdateMachine(w: World, id: MachineID, req: CreateMachineRequest) returns (r: Result<Machine, Error>)
      modifies this
      ensures (View(), r) == UpdateMachineStep(dryRun, w, old(View()), id, req)
    {
      if dryRun {
        return Success(Machine(id, req.name, req.region, "dry-run", req.config));
      }
      var c := Call.UpdateMachine(id);
      var ok := DoRequest(w, c, id in remote.machines, WithUpdated(w, remote, id, req));
      return if ok then Success(Updated(w, id, req)) else Failure(CallFailed(c));
    }

    method StartMachine(w: World, id: MachineID) returns (ok: bool)
      modifies this
      ensures (View(), ok) == StartMachineStep(dryRun, w, old(View()), id)
    {
      if dryRun {
        return true;
      }
      ok := DoRequest(w, Call.StartMachine(id), id in remote.machines, WithStarted(remote, id));
    }

    method DestroyMachine(w: World, id: MachineID) returns (ok: bool)
      modifies this
      ensures (View(), ok) == DestroyMachineStep(dryRun, w, old(View()), id)
    {
      if dryRun {
        return true;
      }
      ok := DoRequest(w, Call.DestroyMachine(id), id in remote.machines, Without(remote, id));
    }
  }
}
