/**
 The Fly Machines API types of internal/flydeploy/types.go.

 Go's nil and empty collections are different values here, because `reflect.DeepEqual`
 tells them apart although JSON's `omitempty` does not.
 */
module FlyTypes {
  import opened Wrappers

  datatype Slice<+T> = NilSlice | Items(items: seq<T>)

  datatype Env = NilMap | Entries(entries: map<string, string>)

  datatype MachinePort = MachinePort(port: int, handlers: Slice<string>)

  datatype ServiceConcurrency = ServiceConcurrency(kind: string, hardLimit: int, softLimit: int)

  datatype MachineService = MachineService(
    protocol: string, internalPort: int, ports: Slice<MachinePort>, concurrency: Option<ServiceConcurrency>)

  datatype MachineGuest = MachineGuest(cpuKind: string, cpus: int, memoryMB: int)

  datatype MachineConfig = MachineConfig(
    image: string, env: Env, services: Slice<MachineService>, guest: Option<MachineGuest>, metadata: Env)

  /** Machine ids are opaque; `NO_ID` stands for the empty id of a dry run. */
  type MachineID = nat

  const NO_ID: MachineID := 0

  datatype Machine = Machine(id: MachineID, name: string, region: string, state: string, config: MachineConfig)

  datatype IPAddress = IPAddress(address: string, kind: string)

  datatype App = App(name: string, orgSlug: string, organizationSlug: string)

  /** The organization Fly reports for the app, most specific first. */
  function EffectiveOrgSlug(a: App): string {
    if a.organizationSlug != "" then a.organizationSlug else a.orgSlug
  }
}
