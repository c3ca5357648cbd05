/**
 How a machine's configuration crosses the wire: `json.Marshal` with the `omitempty`
 tags of internal/flydeploy/types.go, then `json.Decode` into a zero value.
 */
module FlyJson {
  import opened Wrappers
  import opened FlyTypes

  datatype Json = JString(s: string) | JNumber(n: int) | JArray(elems: seq<Json>) | JObject(fields: map<string, Json>)

  // ----- encoding -----

  function Field(name: string, value: Option<Json>): map<string, Json> {
    if value.Some? then map[name := value.value] else map[]
  }

  function EncodeStrings(s: seq<string>): (a: seq<Json>)
    ensures |a| == |s|
  {
    seq(|s|, i requires 0 <= i < |s| => JString(s[i]))
  }

  function EncodeEnv(env: Env): Option<Json> {
    if env.NilMap? || env.entries == map[] then None
    else Some(JObject(map k | k in env.entries :: JString(env.entries[k])))
  }

  function EncodePort(p: MachinePort): Json {
    JObject(map["port" := JNumber(p.port)] +
            Field("handlers", if p.handlers.NilSlice? || p.handlers.items == [] then None
                              else Some(JArray(EncodeStrings(p.handlers.items)))))
  }

  function EncodePorts(ps: seq<MachinePort>): (a: seq<Json>)
    ensures |a| == |ps|
  {
    seq(|ps|, i requires 0 <= i < |ps| => EncodePort(ps[i]))
  }

  function EncodeConcurrency(c: ServiceConcurrency): Json {
    JObject(map["type" := JString(c.kind), "hard_limit" := JNumber(c.hardLimit), "soft_limit" := JNumber(c.softLimit)])
  }

  function EncodeService(s: MachineService): Json {
    JObject(map["protocol" := JString(s.protocol), "internal_port" := JNumber(s.internalPort)] +
            Field("ports", if s.ports.NilSlice? || s.ports.items == [] then None
                           else Some(JArray(EncodePorts(s.ports.items)))) +
            Field("concurrency", if s.concurrency.None? then None else Some(EncodeConcurrency(s.concurrency.value))))
  }

  function EncodeServices(ss: seq<MachineService>): (a: seq<Json>)
    ensures |a| == |ss|
  {
    seq(|ss|, i requires 0 <= i < |ss| => EncodeService(ss[i]))
  }

  function EncodeGuest(g: MachineGuest): Json {
    JObject(map["cpu_kind" := JString(g.cpuKind), "cpus" := JNumber(g.cpus), "memory_mb" := JNumber(g.memoryMB)])
  }

  function EncodeConfig(c: MachineConfig): Json {
    JObject(map["image" := JString(c.image)] +
            Field("env", EncodeEnv(c.env)) +
            Field("services", if c.services.NilSlice? || c.services.items == [] then None
                              else Some(JArray(EncodeServices(c.services.items)))) +
            Field("guest", if c.guest.None? then None else Some(EncodeGuest(c.guest.value))) +
            Field("metadata", EncodeEnv(c.metadata)))
  }

  // ----- decoding: a missing or ill-typed field keeps the zero value -----

  function Get(j: Json, name: string): Option<Json> {
    if j.JObject? && name in j.fields then Some(j.fields[name]) else None
  }

  function GetString(j: Json, name: string): string {
    var f := Get(j, name);
    if f.Some? && f.value.JString? then f.value.s else ""
  }

  function GetNumber(j: Json, name: string): int {
    var f := Get(j, name);
    if f.Some? && f.value.JNumber? then f.value.n else 0
  }

  function GetArray(j: Json, name: string): Option<seq<Json>> {
    var f := Get(j, name);
    if f.Some? && f.value.JArray? then Some(f.value.elems) else None
  }

  function DecodeStrings(a: Option<seq<Json>>): Slice<string> {
    if a.None? then NilSlice
    else Items(seq(|a.value|, i requires 0 <= i < |a.value| => if a.value[i].JString? then a.value[i].s else ""))
  }

  function DecodeEnv(j: Option<Json>): Env {
    if j.None? || !j.value.JObject? then NilMap
    else
      var fields := j.value.fields;
      Entries(map k | k in fields :: if fields[k].JString? then fields[k].s else "")
  }

  function DecodePort(j: Json): MachinePort {
    MachinePort(GetNumber(j, "port"), DecodeStrings(GetArray(j, "handlers")))
  }

  function DecodePorts(a: Option<seq<Json>>): Slice<MachinePort> {
    if a.None? then NilSlice
    else Items(seq(|a.value|, i requires 0 <= i < |a.value| => DecodePort(a.value[i])))
  }

  function DecodeConcurrency(j: Json): ServiceConcurrency {
    ServiceConcurrency(GetString(j, "type"), GetNumber(j, "hard_limit"), GetNumber(j, "soft_limit"))
  }

  function DecodeService(j: Json): MachineService {
    var c := Get(j, "concurrency");
    MachineService(GetString(j, "protocol"), GetNumber(j, "internal_port"), DecodePorts(GetArray(j, "ports")),
                   if c.None? then None else Some(DecodeConcurrency(c.value)))
  }

  function DecodeServices(a: Option<seq<Json>>): Slice<MachineService> {
    if a.None? then NilSlice
    else Items(seq(|a.value|, i requires 0 <= i < |a.value| => DecodeService(a.value[i])))
  }

  function DecodeGuest(j: Json): MachineGuest {
    MachineGuest(GetString(j, "cpu_kind"), GetNumber(j, "cpus"), GetNumber(j, "memory_mb"))
  }

  function DecodeConfig(j: Json): MachineConfig {
    var g := Get(j, "guest");
    MachineConfig(GetString(j, "image"), DecodeEnv(Get(j, "env")), DecodeServices(GetArray(j, "services")),
                  if g.None? then None else Some(DecodeGuest(g.value)), DecodeEnv(Get(j, "metadata")))
  }

  /** What the other side holds after it is sent `c`, and what comes back when it is listed. */
  function Wire(c: MachineConfig): MachineConfig {
    DecodeConfig(EncodeConfig(c))
  }

  // ----- the round trip -----

  /** No collection in the configuration is empty without being nil. */
  predicate Portable(c: MachineConfig) {
    && (c.env.Entries? ==> c.env.entries != map[])
    && (c.metadata.Entries? ==> c.metadata.entries != map[])
    && (c.services.Items? ==> c.services.items != [] && forall s <- c.services.items :: PortableService(s))
  }

  predicate PortableService(s: MachineService) {
    s.ports.Items? ==> s.ports.items != [] && forall p <- s.ports.items :: PortablePort(p)
  }

  predicate PortablePort(p: MachinePort) {
    p.handlers.Items? ==> p.handlers.items != []
  }

  lemma PortRoundTrip(p: MachinePort)
    ensures DecodePort(EncodePort(p)) == p <==> PortablePort(p)
  {
    if p.handlers.Items? && p.handlers.items != [] {
      var items := p.handlers.items;
      assert DecodeStrings(Some(EncodeStrings(items))).items == items;
    }
  }

  lemma ServiceRoundTrip(s: MachineService)
    ensures DecodeService(EncodeService(s)) == s <==> PortableService(s)
  {
    var back := DecodeService(EncodeService(s));
    assert back.protocol == s.protocol && back.internalPort == s.internalPort && back.concurrency == s.concurrency;
    if s.ports.Items? && s.ports.items != [] {
      var ps := s.ports.items;
      assert back.ports == DecodePorts(Some(EncodePorts(ps)));
      forall i | 0 <= i < |ps|
        ensures back.ports.items[i] == ps[i] <==> PortablePort(ps[i])
      {
        PortRoundTrip(ps[i]);
      }
      assert back.ports.items == ps <==> forall i :: 0 <= i < |ps| ==> back.ports.items[i] == ps[i];
    }
  }

  lemma EnvRoundTrip(env: Env)
    ensures DecodeEnv(EncodeEnv(env)) == (if env.Entries? && env.entries == map[] then NilMap else env)
  {
    if env.Entries? && env.entries != map[] {
      assert DecodeEnv(EncodeEnv(env)).entries == env.entries;
    }
  }

  lemma ServicesRoundTrip(ss: seq<MachineService>)
    ensures DecodeServices(Some(EncodeServices(ss))) == Items(ss) <==> forall s <- ss :: PortableService(s)
  {
    var back := DecodeServices(Some(EncodeServices(ss))).items;
    forall i | 0 <= i < |ss|
      ensures back[i] == ss[i] <==> PortableService(ss[i])
    {
      ServiceRoundTrip(ss[i]);
    }
    assert back == ss <==> forall i :: 0 <= i < |ss| ==> back[i] == ss[i];
  }

  lemma EncodedFields(c: MachineConfig)
    ensures var j := EncodeConfig(c);
            && Get(j, "image") == Some(JString(c.image))
            && Get(j, "env") == EncodeEnv(c.env)
            && Get(j, "services") == (if c.services.NilSlice? || c.services.items == [] then None
                                      else Some(JArray(EncodeServices(c.services.items))))
            && Get(j, "guest") == (if c.guest.None? then None else Some(EncodeGuest(c.guest.value)))
            && Get(j, "metadata") == EncodeEnv(c.metadata)
  {
  }

  lemma GuestRoundTrip(g: MachineGuest)
    ensures DecodeGuest(EncodeGuest(g)) == g
  {
  }

  lemma WireFields(c: MachineConfig)
    ensures Wire(c) == MachineConfig(
              c.image, DecodeEnv(EncodeEnv(c.env)),
              if c.services.NilSlice? || c.services.items == [] then NilSlice
              else DecodeServices(Some(EncodeServices(c.services.items))),
              c.guest, DecodeEnv(EncodeEnv(c.metadata)))
  {
    EncodedFields(c);
    if c.guest.Some? {
      GuestRoundTrip(c.guest.value);
    }
  }

  /** A configuration comes back as it was sent if and only if it has no empty collection that is not nil. */
  lemma ConfigRoundTrip(c: MachineConfig)
    ensures Wire(c) == c <==> Portable(c)
    ensures Wire(c).env == if c.env.Entries? && c.env.entries == map[] then NilMap else c.env
    ensures Wire(c).image == c.image && Wire(c).guest == c.guest
  {
    WireFields(c);
    EnvRoundTrip(c.env);
    EnvRoundTrip(c.metadata);
    if c.services.Items? && c.services.items != [] {
      ServicesRoundTrip(c.services.items);
    }
  }
}
