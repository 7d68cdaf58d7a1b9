/**
 Adding an InfluxDB server to the application model
 (InfluxDBResourceBuilderExtensions.cs): the resource and its annotations,
 the subscription that captures the connection string once it is available,
 the health check that reads the captured string, and the volume and bind
 mounts for the data and configuration directories.

 The captured connection string is a cell of the running application: a
 health probe fails while the cell is Pending and reads the string once the
 availability handler has stored it.
 */
module InfluxDBHosting {
  import opened Common
  import opened InfluxDBServer
  import opened InfluxDBHealthChecks

  const InfluxDBServerPort := 8086

  /** InfluxDBContainerImageTags.cs. */
  const ImageRegistry := "docker.io"
  const ImageName := "influxdb"
  const ImageTag := "2.7.11-alpine"

  const DataDirectory := "/var/lib/influxdb2"
  const ConfigDirectory := "/etc/influxdb2"
  const DataVolumeSuffix := "influxdb2-data"
  const ConfigVolumeSuffix := "influxdb2-config"

  const AdminTokenVariable := "DOCKER_INFLUXDB_INIT_ADMIN_TOKEN"
  const UnavailableMessage := "Connection string is unavailable"

  /** The container's fixed bootstrap variables. */
  const BootstrapEnvironment: seq<(string, EnvironmentValue)> := [
    ("DOCKER_INFLUXDB_INIT_MODE", EnvText("setup")),
    ("DOCKER_INFLUXDB_INIT_USERNAME", EnvText("testuser")),
    ("DOCKER_INFLUXDB_INIT_PASSWORD", EnvText("testpass")),
    ("DOCKER_INFLUXDB_INIT_ORG", EnvText("testorg")),
    ("DOCKER_INFLUXDB_INIT_BUCKET", EnvText("testbucket")),
    ("DOCKER_INFLUXDB_INIT_RETENTION", EnvText("1w"))]

  /** The connection string a resource's handler has captured (the local
      `connectionString`, null while Pending). */
  datatype Capture = Pending | Captured(connectionString: string)

  /** The captured strings of the running application, one cell per
      subscription (see `CellsNumbered`); a cell never written is Pending. */
  type Cells = map<nat, Capture>

  function CellState(cells: Cells, cell: nat): Capture {
    if cell in cells then cells[cell] else Pending
  }

  function NullConnectionStringMessage(resourceName: string): string {
    "ConnectionStringAvailableEvent was published for the '" + resourceName
      + "' resource but the connection string was null."
  }

  /** One run of the availability handler: it stores the evaluated connection
      string, whatever was stored before, and only then fails if that string
      is null, so a null evaluation leaves the cell Pending. */
  function OnConnectionStringAvailable(resourceName: string, evaluated: Option<string>): (r: (Capture, Option<Exception>))
    ensures r.1.None? <==> evaluated.Some?
    ensures r.0.Captured? <==> evaluated.Some?
    ensures evaluated.Some? ==> r.0.connectionString == evaluated.value
    ensures evaluated.None? ==> r.1 == Some(DistributedApplication(NullConnectionStringMessage(resourceName)))
  {
    match evaluated
    case None => (Pending, Some(DistributedApplication(NullConnectionStringMessage(resourceName))))
    case Some(s) => (Captured(s), None)
  }

  /** The probe's connection-string factory, `connectionString ?? throw`, reading cell `cell`. */
  function ProbeConnectionString(cell: nat): (probe: ConnectionStringFactory<Cells>)
    ensures forall cells :: probe(cells).Err? <==> CellState(cells, cell).Pending?
    ensures forall cells :: probe(cells).Err? ==> probe(cells).error == InvalidOperation(UnavailableMessage)
    ensures forall cells :: probe(cells).Ok? ==>
              probe(cells).value.Some? && CellState(cells, cell) == Captured(probe(cells).value.value)
  {
    (cells: Cells) =>
      match CellState(cells, cell)
      case Pending => Err(InvalidOperation(UnavailableMessage))
      case Captured(s) => Ok(Some(s))
  }

  /** The two-state machine seen from the health check: building the check
      fails while the cell is Pending; after the handler ran it fails for a null
      evaluation (the cell is Pending again) or a blank string, and otherwise
      connects with exactly the captured string. */
  lemma {:induction false} ProbeFollowsCapture(cells: Cells, cell: nat, resourceName: string, evaluated: Option<string>)
    ensures CellState(cells, cell).Pending? ==>
              BuildHealthCheck(ProbeConnectionString(cell), cells) == Err(InvalidOperation(UnavailableMessage))
    ensures var after := cells[cell := OnConnectionStringAvailable(resourceName, evaluated).0];
            BuildHealthCheck(ProbeConnectionString(cell), after) ==
              if evaluated.None? then Err(InvalidOperation(UnavailableMessage))
              else if IsNullOrWhiteSpace(evaluated) then Err(InvalidOperation(InvalidConnectionStringMessage))
              else Ok(InfluxDBHealthCheck(evaluated.value))
  {
    var after := cells[cell := OnConnectionStringAvailable(resourceName, evaluated).0];
    assert CellState(after, cell) == OnConnectionStringAvailable(resourceName, evaluated).0;
    if CellState(cells, cell).Pending? {
      assert ProbeConnectionString(cell)(cells) == Err(InvalidOperation(UnavailableMessage));
    }
    if evaluated.Some? {
      assert ProbeConnectionString(cell)(after) == Ok(evaluated);
    } else {
      assert ProbeConnectionString(cell)(after) == Err(InvalidOperation(UnavailableMessage));
    }
  }

  /** A subscription to the availability event of a resource, with the cell its handler writes. */
  datatype Subscription = Subscription(resourceName: string, cell: nat)

  /** The distributed-application builder: the resources, the health-check
      registrations and the event subscriptions. */
  datatype AppBuilder = AppBuilder(
    resources: seq<InfluxDBServerResource>,
    healthChecks: seq<HealthCheckRegistration<Cells>>,
    subscriptions: seq<Subscription>)

  /** Each subscription's handler writes a cell of its own: the `i`-th
      subscription writes cell `i`. The empty builder has this property and
      `AddInfluxDB` keeps it. */
  predicate CellsNumbered(b: AppBuilder) {
    forall i :: 0 <= i < |b.subscriptions| ==> b.subscriptions[i].cell == i
  }

  /** `CreateDefaultPasswordParameter(builder, name + "-token", special: false)`. */
  function DefaultTokenParameter(name: string): ParameterResource {
    ParameterResource(name + "-token", true)
  }

  function HealthCheckKey(name: string): string {
    name + "_check"
  }

  /** `AddInfluxDB`: null checks, then subscription, health check, and the
      resource with its endpoint, image, environment and health-check key. */
  function AddInfluxDB(builder: Option<AppBuilder>, name: Option<string>, token: Option<ParameterResource>,
                       port: Option<int>): (r: Result<AppBuilder, Exception>)
    ensures builder.None? ==> r == Err(ArgumentNull("builder"))
    ensures builder.Some? && name.None? ==> r == Err(ArgumentNull("name"))
    ensures r.Ok? <==> builder.Some? && name.Some?
    ensures r.Ok? ==>
              var (b, a, n) := (builder.value, r.value, name.value);
              && |a.resources| == |b.resources| + 1 && a.resources[..|b.resources|] == b.resources
              && a.subscriptions == b.subscriptions + [Subscription(n, |b.subscriptions|)]
              && |a.healthChecks| == |b.healthChecks| + 1 && a.healthChecks[..|b.healthChecks|] == b.healthChecks
    ensures r.Ok? && CellsNumbered(builder.value) ==> CellsNumbered(r.value)
    ensures r.Ok? && CellsNumbered(builder.value) ==>
              var (b, a) := (builder.value, r.value);
              forall i :: 0 <= i < |b.subscriptions| ==>
                a.subscriptions[i].cell != a.subscriptions[|b.subscriptions|].cell
    ensures r.Ok? ==>
              var (b, res, n) := (builder.value, r.value.resources[|builder.value.resources|], name.value);
              && res.name == n
              && res.token == (if token.Some? then token.value else ParameterResource(n + "-token", true))
              && res.primaryEndpoint.None?
              && res.endpoints == [EndpointAnnotation(PrimaryEndpointName, PrimaryEndpointName, port, InfluxDBServerPort)]
              && res.images == [ContainerImage(ImageRegistry, ImageName, ImageTag)]
              && res.environment == BootstrapEnvironment + [(AdminTokenVariable, EnvParameter(res.token))]
              && res.healthCheckKeys == [n + "_check"]
              && res.mounts == []
    ensures r.Ok? ==>
              var check := r.value.healthChecks[|builder.value.healthChecks|];
              && check.name == name.value + "_check"
              && check.failureStatus.None? && check.tags.None? && check.timeoutMs.None?
              && forall cells :: check.factory(cells) ==
                   BuildHealthCheck(ProbeConnectionString(|builder.value.subscriptions|), cells)
  {
    if builder.None? then Err(ArgumentNull("builder"))
    else if name.None? then Err(ArgumentNull("name"))
    else
      var (b, n) := (builder.value, name.value);
      var tokenParameter := token.GetOr(DefaultTokenParameter(n));
      var cell := |b.subscriptions|;
      var subscriptions := b.subscriptions + [Subscription(n, cell)];
      var key := HealthCheckKey(n);
      var checks := InfluxDBHealthChecks.AddInfluxDB(b.healthChecks, ProbeConnectionString(cell), Some(key), None, None, None);
      var resource := NewResource(n, tokenParameter).(
        endpoints := [EndpointAnnotation(PrimaryEndpointName, PrimaryEndpointName, port, InfluxDBServerPort)],
        images := [ContainerImage(ImageRegistry, ImageName, ImageTag)],
        environment := BootstrapEnvironment + [(AdminTokenVariable, EnvParameter(tokenParameter))],
        healthCheckKeys := [key]);
      Ok(AppBuilder(b.resources + [resource], checks, subscriptions))
  }

  /** A resource name added to a model that lacks it names exactly one resource afterwards. */
  lemma ExactlyOneResourceNamed(b: AppBuilder, n: string, token: Option<ParameterResource>, port: Option<int>)
    requires forall i :: 0 <= i < |b.resources| ==> b.resources[i].name != n
    ensures var a := AddInfluxDB(Some(b), Some(n), token, port).value;
            var k := |b.resources|;
            && a.resources[k].name == n
            && forall j :: 0 <= j < |a.resources| && a.resources[j].name == n ==> j == k
  {
    var a := AddInfluxDB(Some(b), Some(n), token, port).value;
    forall j | 0 <= j < |b.resources|
      ensures a.resources[j].name != n
    {
      assert a.resources[j] == a.resources[..|b.resources|][j];
    }
  }

  /** The added resource's health-check key is the name of the check registered
      with it; that check fails until its resource's handler has captured a
      string, and then connects with that string. */
  lemma {:induction false} AddedHealthCheckWaitsForCapture(b: AppBuilder, n: string, token: Option<ParameterResource>,
                                                           port: Option<int>, cells: Cells, evaluated: Option<string>)
    requires !IsNullOrWhiteSpace(evaluated)
    ensures var a := AddInfluxDB(Some(b), Some(n), token, port).value;
            var check := a.healthChecks[|b.healthChecks|];
            var sub := a.subscriptions[|b.subscriptions|];
            && check.name in a.resources[|b.resources|].healthCheckKeys
            && sub.resourceName == a.resources[|b.resources|].name
            && (CellState(cells, sub.cell).Pending? ==>
                  check.factory(cells) == Err(InvalidOperation(UnavailableMessage)))
            && check.factory(cells[sub.cell := OnConnectionStringAvailable(n, evaluated).0])
                 == Ok(InfluxDBHealthCheck(evaluated.value))
  {
    var a := AddInfluxDB(Some(b), Some(n), token, port).value;
    var cell := |b.subscriptions|;
    ProbeFollowsCapture(cells, cell, n, evaluated);
    assert a.subscriptions[cell] == Subscription(n, cell);
  }

  /** In a builder whose subscriptions write cells of their own, the added
      server's check ignores what any earlier subscription captures, and a
      capture by the added server's handler leaves the cells of the earlier
      subscriptions as they were. */
  lemma {:induction false} CaptureIsolated(b: AppBuilder, n: string, token: Option<ParameterResource>, port: Option<int>,
                                           cells: Cells, i: nat, c: Capture)
    requires CellsNumbered(b) && i < |b.subscriptions|
    ensures var a := AddInfluxDB(Some(b), Some(n), token, port).value;
            var (earlier, added) := (a.subscriptions[i].cell, a.subscriptions[|b.subscriptions|].cell);
            && a.healthChecks[|b.healthChecks|].factory(cells[earlier := c]) == a.healthChecks[|b.healthChecks|].factory(cells)
            && CellState(cells[added := c], earlier) == CellState(cells, earlier)
  {
    var a := AddInfluxDB(Some(b), Some(n), token, port).value;
    var (earlier, added) := (a.subscriptions[i].cell, a.subscriptions[|b.subscriptions|].cell);
    assert earlier == i && added == |b.subscriptions|;
    assert CellState(cells[earlier := c], added) == CellState(cells, added);
  }

  /** The primary endpoint the connection string refers to is the one endpoint
      annotation of the added resource: target port 8086 and the caller's host
      port verbatim (None lets the orchestrator assign one). */
  lemma PrimaryEndpointIsAnnotated(b: AppBuilder, n: string, token: Option<ParameterResource>, port: Option<int>)
    ensures var res := AddInfluxDB(Some(b), Some(n), token, port).value.resources[|b.resources|];
            var (endpoint, _) := PrimaryEndpoint(res);
            && |res.endpoints| == 1
            && endpoint == EndpointReference(n, res.endpoints[0].name)
            && res.endpoints[0].scheme == "http"
            && res.endpoints[0].targetPort == 8086
            && res.endpoints[0].port == port
  {
  }

  /** `WithImageTag`: replaces the tag of the last image annotation; fails when there is none. */
  function WithImageTag(r: InfluxDBServerResource, tag: string): (res: Result<InfluxDBServerResource, Exception>)
    ensures res.Err? <==> |r.images| == 0
    ensures res.Ok? ==> |res.value.images| == |r.images|
    ensures res.Ok? ==> var last := |r.images| - 1;
              && res.value.images[..last] == r.images[..last]
              && res.value.images[last].tag == tag
              && res.value.images[last].registry == r.images[last].registry
              && res.value.images[last].image == r.images[last].image
    ensures res.Ok? ==> res.value.(images := r.images) == r
  {
    if |r.images| == 0 then Err(InvalidOperation("The resource does not have a container image specified."))
    else
      var last := |r.images| - 1;
      Ok(r.(images := r.images[last := r.images[last].(tag := tag)]))
  }

  /** Overriding the tag of an added server changes nothing but the tag: one
      image annotation remains, on the same registry and image. */
  lemma ImageTagOverride(b: AppBuilder, n: string, token: Option<ParameterResource>, port: Option<int>, tag: string)
    ensures var res := AddInfluxDB(Some(b), Some(n), token, port).value.resources[|b.resources|];
            WithImageTag(res, tag) == Ok(res.(images := [ContainerImage(ImageRegistry, ImageName, tag)]))
  {
    var res := AddInfluxDB(Some(b), Some(n), token, port).value.resources[|b.resources|];
    assert res.images[0 := res.images[0].(tag := tag)] == [ContainerImage(ImageRegistry, ImageName, tag)];
  }

  /** Appends a mount after the builder and source null checks. */
  function WithMount(rb: Option<InfluxDBServerResource>, kind: MountKind, source: Option<string>, target: string,
                     isReadOnly: bool): Result<InfluxDBServerResource, Exception>
  {
    if rb.None? then Err(ArgumentNull("builder"))
    else if source.None? then Err(ArgumentNull("source"))
    else Ok(rb.value.(mounts := rb.value.mounts + [ContainerMount(kind, source.value, target, isReadOnly)]))
  }

  /** The mount the call added is the last one, and nothing else changed. */
  predicate AddsMount(before: InfluxDBServerResource, after: InfluxDBServerResource, m: ContainerMount) {
    after.mounts == before.mounts + [m] && after.(mounts := before.mounts) == before
  }

  /** `WithDataVolume`: a volume on the data directory, named by the caller or
      by the generated name for the "influxdb2-data" suffix. */
  function WithDataVolume(rb: Option<InfluxDBServerResource>, name: Option<string>, isReadOnly: bool,
                          volumeName: (string, string) -> string): (r: Result<InfluxDBServerResource, Exception>)
    ensures rb.None? <==> r.Err?
    ensures rb.None? ==> r == Err(ArgumentNull("builder"))
    ensures r.Ok? ==> |r.value.mounts| == |rb.value.mounts| + 1
    ensures r.Ok? ==> var m := r.value.mounts[|rb.value.mounts|];
              && AddsMount(rb.value, r.value, m) && m.kind == Volume
              && m.target == "/var/lib/influxdb2" && m.isReadOnly == isReadOnly
              && (name.Some? ==> m.source == name.value)
              && (name.None? ==> m.source == volumeName(rb.value.name, "influxdb2-data"))
  {
    if rb.None? then Err(ArgumentNull("builder"))
    else WithMount(rb, Volume, Some(name.GetOr(volumeName(rb.value.name, DataVolumeSuffix))), DataDirectory, isReadOnly)
  }

  /** `WithDataBindMount`: the host directory `source` on the data directory. */
  function WithDataBindMount(rb: Option<InfluxDBServerResource>, source: Option<string>, isReadOnly: bool)
    : (r: Result<InfluxDBServerResource, Exception>)
    ensures r.Err? <==> rb.None? || source.None?
    ensures rb.None? ==> r == Err(ArgumentNull("builder"))
    ensures rb.Some? && source.None? ==> r == Err(ArgumentNull("source"))
    ensures r.Ok? ==> |r.value.mounts| == |rb.value.mounts| + 1
    ensures r.Ok? ==> var m := r.value.mounts[|rb.value.mounts|];
              && AddsMount(rb.value, r.value, m) && m.kind == BindMount
              && m.target == "/var/lib/influxdb2" && m.source == source.value && m.isReadOnly == isReadOnly
  {
    WithMount(rb, BindMount, source, DataDirectory, isReadOnly)
  }

  /** `WithConfigVolume`: a volume on the configuration directory, named by the
      caller or by the generated name for the "influxdb2-config" suffix. */
  function WithConfigVolume(rb: Option<InfluxDBServerResource>, name: Option<string>, isReadOnly: bool,
                            volumeName: (string, string) -> string): (r: Result<InfluxDBServerResource, Exception>)
    ensures rb.None? <==> r.Err?
    ensures rb.None? ==> r == Err(ArgumentNull("builder"))
    ensures r.Ok? ==> |r.value.mounts| == |rb.value.mounts| + 1
    ensures r.Ok? ==> var m := r.value.mounts[|rb.value.mounts|];
              && AddsMount(rb.value, r.value, m) && m.kind == Volume
              && m.target == "/etc/influxdb2" && m.isReadOnly == isReadOnly
              && (name.Some? ==> m.source == name.value)
              && (name.None? ==> m.source == volumeName(rb.value.name, "influxdb2-config"))
  {
    if rb.None? then Err(ArgumentNull("builder"))
    else WithMount(rb, Volume, Some(name.GetOr(volumeName(rb.value.name, ConfigVolumeSuffix))), ConfigDirectory, isReadOnly)
  }

  /** `WithConfigBindMount`: the host directory `source` on the configuration directory. */
  function WithConfigBindMount(rb: Option<InfluxDBServerResource>, source: Option<string>, isReadOnly: bool)
    : (r: Result<InfluxDBServerResource, Exception>)
    ensures r.Err? <==> rb.None? || source.None?
    ensures rb.None? ==> r == Err(ArgumentNull("builder"))
    ensures rb.Some? && source.None? ==> r == Err(ArgumentNull("source"))
    ensures r.Ok? ==> |r.value.mounts| == |rb.value.mounts| + 1
    ensures r.Ok? ==> var m := r.value.mounts[|rb.value.mounts|];
              && AddsMount(rb.value, r.value, m) && m.kind == BindMount
              && m.target == "/etc/influxdb2" && m.source == source.value && m.isReadOnly == isReadOnly
  {
    WithMount(rb, BindMount, source, ConfigDirectory, isReadOnly)
  }
}
