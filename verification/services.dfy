/**
 The slice of the host's service collection the client integrations write to:
 service registrations (type, lifetime, optional key), the tracing sources
 added to the OpenTelemetry builder, and the health checks. Resolution is
 modelled only as far as instance identity goes: a singleton registration
 yields one shared instance, a transient one a new instance per resolution.
 */
module Services {
  import opened Common

  datatype Lifetime = Singleton | Transient

  /** The service types the integrations register, by their interface names. */
  datatype ServiceType = IDocumentStore | IDocumentSession | IAsyncDocumentSession | IInfluxDBClient

  /** One registration; `key` is the string form of the service key, None when unkeyed. */
  datatype ServiceDescriptor = ServiceDescriptor(service: ServiceType, lifetime: Lifetime, key: Option<string>)

  /** What a client health check probes, as captured at registration time. */
  datatype Probe =
    | InfluxDBProbe(connectionString: Option<string>)
    | RavenDBProbe(databaseName: Option<string>, urls: Option<seq<string>>, certificatePath: Option<string>)

  /** A health-check registration; `timeoutMs` None means the runner's default. */
  datatype HealthCheck = HealthCheck(name: string, probe: Probe, timeoutMs: Option<int>)

  datatype ServiceCollection = ServiceCollection(
    descriptors: seq<ServiceDescriptor>,
    tracingSources: set<string>,
    healthChecks: seq<HealthCheck>)

  const EmptyServices := ServiceCollection([], {}, [])

  predicate HasHealthCheck(sc: ServiceCollection, name: string) {
    exists i :: 0 <= i < |sc.healthChecks| && sc.healthChecks[i].name == name
  }

  /** No two health checks share a name. */
  predicate UniqueHealthCheckNames(sc: ServiceCollection) {
    forall i, j :: 0 <= i < j < |sc.healthChecks| ==> sc.healthChecks[i].name != sc.healthChecks[j].name
  }

  /** `TryAddHealthCheck`: registers the check unless a check of the same name
      was registered before, so that adding an integration twice under one name
      keeps the first registration. */
  function TryAddHealthCheck(sc: ServiceCollection, check: HealthCheck): (r: ServiceCollection)
    ensures UniqueHealthCheckNames(sc) ==> UniqueHealthCheckNames(r)
    ensures HasHealthCheck(r, check.name)
    ensures HasHealthCheck(sc, check.name) ==> r == sc
    ensures !HasHealthCheck(sc, check.name) ==> r.healthChecks == sc.healthChecks + [check]
    ensures r.descriptors == sc.descriptors && r.tracingSources == sc.tracingSources
    ensures sc.healthChecks <= r.healthChecks && |r.healthChecks| <= |sc.healthChecks| + 1
  {
    if HasHealthCheck(sc, check.name) then sc
    else
      var r := sc.(healthChecks := sc.healthChecks + [check]);
      assert r.healthChecks[|sc.healthChecks|].name == check.name;
      r
  }

  /** `tracing.AddSource(name)`. */
  function AddTracingSource(sc: ServiceCollection, source: string): ServiceCollection {
    sc.(tracingSources := sc.tracingSources + {source})
  }

  /** `Add{Singleton,Transient}` and their keyed variants. */
  function AddService(sc: ServiceCollection, d: ServiceDescriptor): ServiceCollection {
    sc.(descriptors := sc.descriptors + [d])
  }

  /** A registration answers a request for `service` under `key` (unkeyed requests only see unkeyed registrations). */
  predicate Answers(d: ServiceDescriptor, service: ServiceType, key: Option<string>) {
    d.service == service && d.key == key
  }

  /** The registration a request honours: the last one that answers it. */
  function LastRegistration(ds: seq<ServiceDescriptor>, service: ServiceType, key: Option<string>): (r: Option<nat>)
    ensures r.None? <==> forall i :: 0 <= i < |ds| ==> !Answers(ds[i], service, key)
    ensures r.Some? ==> r.value < |ds| && Answers(ds[r.value], service, key)
    ensures r.Some? ==> forall j :: r.value < j < |ds| ==> !Answers(ds[j], service, key)
    decreases |ds|
  {
    if |ds| == 0 then None
    else if Answers(ds[|ds| - 1], service, key) then Some(|ds| - 1)
    else LastRegistration(ds[..|ds| - 1], service, key)
  }

  /** An instance handed out by the container: a singleton is identified by its
      registration, a transient instance also by the resolution that created it. */
  datatype Instance = Shared(registration: nat) | Created(registration: nat, resolution: nat)

  /** The `resolution`-th request for `service` under `key`; None is the
      "no service registered" failure of `GetRequiredService`. */
  function Resolve(sc: ServiceCollection, service: ServiceType, key: Option<string>, resolution: nat): (r: Option<Instance>)
    ensures r.None? <==> forall i :: 0 <= i < |sc.descriptors| ==> !Answers(sc.descriptors[i], service, key)
    ensures r.Some? ==> r.value.registration < |sc.descriptors|
                        && Answers(sc.descriptors[r.value.registration], service, key)
    ensures r.Some? ==> forall j :: r.value.registration < j < |sc.descriptors| ==>
                          !Answers(sc.descriptors[j], service, key)
    ensures r.Some? ==> (r.value.Created? <==> sc.descriptors[r.value.registration].lifetime == Transient)
    ensures r.Some? && r.value.Created? ==> r.value.resolution == resolution
  {
    match LastRegistration(sc.descriptors, service, key)
    case None => None
    case Some(i) =>
      match sc.descriptors[i].lifetime
      case Singleton => Some(Shared(i))
      case Transient => Some(Created(i, resolution))
  }

  /** Resolution through a known answering registration. */
  lemma ResolveRegistration(sc: ServiceCollection, service: ServiceType, key: Option<string>, resolution: nat, i: nat)
    requires LastRegistration(sc.descriptors, service, key) == Some(i)
    ensures Resolve(sc, service, key, resolution) ==
              Some(if sc.descriptors[i].lifetime == Singleton then Shared(i) else Created(i, resolution))
  {
  }

  /** Two requests for a singleton get the same instance; two requests for a
      transient service get different ones. */
  lemma ResolutionIdentity(sc: ServiceCollection, service: ServiceType, key: Option<string>, n1: nat, n2: nat)
    requires Resolve(sc, service, key, n1).Some?
    ensures Resolve(sc, service, key, n2).Some?
    ensures Resolve(sc, service, key, n1).value.Shared? ==> Resolve(sc, service, key, n1) == Resolve(sc, service, key, n2)
    ensures Resolve(sc, service, key, n1).value.Created? && n1 != n2 ==>
              Resolve(sc, service, key, n1) != Resolve(sc, service, key, n2)
  {
  }
}
