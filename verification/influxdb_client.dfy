/**
 The InfluxDB client integration (InfluxDBClientExtension.cs): the settings
 are bound from the default section and the named section, after which the
 "ConnectionStrings:<name>" entry overwrites the connection string
 unconditionally (null included) and the callback has the last word. The
 connection string must be present and an absolute http or https URL; a valid
 registration adds the client as a TRANSIENT service (a new client per
 resolution, although the method's documentation speaks of a singleton), the
 tracing source unless disabled and a health check unless disabled.
 */
module InfluxDBClient {
  import opened Common
  import opened Configuration
  import opened Uris
  import opened Services

  const DefaultConfigSectionName := "Aspire:InfluxDB:Client"
  const ActivityNameSource := "InfluxDB.Client.DiagnosticSources"
  const DefaultHealthCheckName := "InfluxDB.Client"
  const ClientService := IInfluxDBClient

  /** `InfluxDBClientSettings` (InfluxDBClientSettings.cs). */
  datatype InfluxDBClientSettings = InfluxDBClientSettings(
    connectionString: Option<string>,
    disableHealthChecks: bool,
    healthCheckTimeout: Option<int>,
    disableTracing: bool)

  const DefaultSettings := InfluxDBClientSettings(None, false, None, false)

  datatype Field = ConnectionString | DisableHealthChecks | HealthCheckTimeout | DisableTracing

  const BindableFields: set<Field> := {ConnectionString, DisableHealthChecks, HealthCheckTimeout, DisableTracing}

  function PropertyName(f: Field): string {
    match f
    case ConnectionString => "ConnectionString"
    case DisableHealthChecks => "DisableHealthChecks"
    case HealthCheckTimeout => "HealthCheckTimeout"
    case DisableTracing => "DisableTracing"
  }

  predicate Accepts(f: Field, v: ConfigValue) {
    match f
    case ConnectionString => v.Text?
    case HealthCheckTimeout => v.Number?
    case DisableHealthChecks => v.Flag?
    case DisableTracing => v.Flag?
  }

  /** A property of a settings object in configuration form; None for null. */
  function FieldValue(s: InfluxDBClientSettings, f: Field): Option<ConfigValue> {
    match f
    case ConnectionString => if s.connectionString.Some? then Some(Text(s.connectionString.value)) else None
    case HealthCheckTimeout => if s.healthCheckTimeout.Some? then Some(Number(s.healthCheckTimeout.value)) else None
    case DisableHealthChecks => Some(Flag(s.disableHealthChecks))
    case DisableTracing => Some(Flag(s.disableTracing))
  }

  /** A fresh settings object with the layer's fields bound into it. */
  function FromLayer(layer: Layer<Field>): (r: InfluxDBClientSettings)
    ensures forall f :: f in layer && Accepts(f, layer[f]) ==> FieldValue(r, f) == Some(layer[f])
    ensures forall f :: f !in layer ==> FieldValue(r, f) == FieldValue(DefaultSettings, f)
    ensures forall f :: f in layer && !Accepts(f, layer[f]) ==> FieldValue(r, f) == FieldValue(DefaultSettings, f)
  {
    InfluxDBClientSettings(
      connectionString :=
        if ConnectionString in layer && layer[ConnectionString].Text?
        then Some(layer[ConnectionString].text) else None,
      disableHealthChecks :=
        DisableHealthChecks in layer && layer[DisableHealthChecks].Flag? && layer[DisableHealthChecks].flag,
      healthCheckTimeout :=
        if HealthCheckTimeout in layer && layer[HealthCheckTimeout].Number?
        then Some(layer[HealthCheckTimeout].number) else None,
      disableTracing := DisableTracing in layer && layer[DisableTracing].Flag? && layer[DisableTracing].flag)
  }

  function SectionLayerAt(config: Config, path: string): Layer<Field> {
    SectionLayer(config, path, BindableFields, PropertyName, Accepts)
  }

  /** The two configuration sections in binding order. */
  function SectionLayers(config: Config, connectionName: string): seq<Layer<Field>> {
    [SectionLayerAt(config, DefaultConfigSectionName),
     SectionLayerAt(config, SectionPath(DefaultConfigSectionName, connectionName))]
  }

  /** Reference precedence: the last section that sets a property decides it. */
  function Precedence(layers: seq<Layer<Field>>, f: Field): Option<ConfigValue> {
    if LastDefined(layers, f).Some? then LastDefined(layers, f) else FieldValue(DefaultSettings, f)
  }

  /** Settings bound from configuration, before the callback: the connection
      string is the "ConnectionStrings" entry whatever the sections say, even
      when that entry is missing; every other property follows the sections. */
  function BindSettings(config: Config, connectionName: string): (r: InfluxDBClientSettings)
    ensures r.connectionString == GetConnectionString(config, connectionName)
    ensures forall f :: f != ConnectionString ==> FieldValue(r, f) == Precedence(SectionLayers(config, connectionName), f)
  {
    var bound := FromLayer(Merge(SectionLayers(config, connectionName)));
    SectionsBindByPrecedence(config, connectionName);
    OverwriteKeepsOtherFields(bound, GetConnectionString(config, connectionName));
    bound.(connectionString := GetConnectionString(config, connectionName))
  }

  /** Binding the two sections gives every property its precedence value. */
  lemma SectionsBindByPrecedence(config: Config, connectionName: string)
    ensures forall f :: FieldValue(FromLayer(Merge(SectionLayers(config, connectionName))), f)
                          == Precedence(SectionLayers(config, connectionName), f)
  {
    var layers := SectionLayers(config, connectionName);
    assert forall i :: 0 <= i < |layers| ==> WellTyped(layers[i], Accepts) by {
      SectionLayerWellTyped(config, DefaultConfigSectionName, BindableFields, PropertyName, Accepts);
      SectionLayerWellTyped(config, SectionPath(DefaultConfigSectionName, connectionName), BindableFields, PropertyName, Accepts);
    }
    MergeWellTyped(layers, Accepts);
    var merged := Merge(layers);
    forall f: Field
      ensures FieldValue(FromLayer(merged), f) == Precedence(layers, f)
    {
      if f in merged {
        assert Accepts(f, merged[f]);
      }
    }
  }

  lemma OverwriteKeepsOtherFields(s: InfluxDBClientSettings, cs: Option<string>)
    ensures forall f :: f != ConnectionString ==> FieldValue(s.(connectionString := cs), f) == FieldValue(s, f)
  {
  }

  /** `GetInfluxDBClientSettings`: the callback runs after the overwrite and its result is final. */
  function GetInfluxDBClientSettings(config: Config, connectionName: string,
                                     configure: Option<InfluxDBClientSettings -> InfluxDBClientSettings>)
    : (r: InfluxDBClientSettings)
    ensures configure.None? ==> r.connectionString == GetConnectionString(config, connectionName)
    ensures configure.None? ==> forall f :: f != ConnectionString ==>
              FieldValue(r, f) == Precedence(SectionLayers(config, connectionName), f)
    ensures configure.Some? ==> r == configure.value(BindSettings(config, connectionName))
  {
    var settings := BindSettings(config, connectionName);
    if configure.Some? then configure.value(settings) else settings
  }

  datatype InfluxError =
    | ConnectionStringMissing
    | ConnectionStringInvalid(connectionString: string)

  /** `ValidateSettings`: None when usable; a missing connection string is
      reported before a malformed one. */
  function ValidateSettings(s: InfluxDBClientSettings, parse: UriParser): (r: Option<InfluxError>)
    ensures r == Some(ConnectionStringMissing) <==> IsNullOrEmpty(s.connectionString)
    ensures r.None? <==> !IsNullOrEmpty(s.connectionString) && IsValidUrl(parse, s.connectionString.value)
    ensures r.Some? && r.value.ConnectionStringInvalid? ==> r.value.connectionString == s.connectionString.value
  {
    if IsNullOrEmpty(s.connectionString) then Some(ConnectionStringMissing)
    else if !IsValidUrl(parse, s.connectionString.value) then Some(ConnectionStringInvalid(s.connectionString.value))
    else None
  }

  /** A non-empty connection string that is not an absolute URI, or whose
      scheme is neither http nor https (such as "tcp://invalid"), is rejected
      as invalid, carrying the rejected text. */
  lemma NonHttpSchemeRejected(s: InfluxDBClientSettings, parse: UriParser)
    requires !IsNullOrEmpty(s.connectionString)
    requires parse(s.connectionString.value).None?
             || (parse(s.connectionString.value).value != UriSchemeHttp
                 && parse(s.connectionString.value).value != UriSchemeHttps)
    ensures ValidateSettings(s, parse) == Some(ConnectionStringInvalid(s.connectionString.value))
  {
  }

  function HealthCheckName(serviceKey: Option<string>): string {
    if serviceKey.None? then DefaultHealthCheckName else DefaultHealthCheckName + "_" + serviceKey.value
  }

  /** `HealthCheckTimeout > 0 ? TimeSpan.FromMilliseconds(HealthCheckTimeout.Value) : null`. */
  function TimeoutOf(healthCheckTimeout: Option<int>): Option<int> {
    if healthCheckTimeout.Some? && healthCheckTimeout.value > 0 then healthCheckTimeout else None
  }

  /** The check `AddHealthCheck` registers under `name`. */
  function HealthCheckFor(name: string, s: InfluxDBClientSettings): HealthCheck {
    HealthCheck(name, InfluxDBProbe(s.connectionString), TimeoutOf(s.healthCheckTimeout))
  }

  /** `AddHealthCheck`: nothing when health checks are disabled; otherwise a
      check under `name` on the connection string, whose timeout is set only
      for a positive `HealthCheckTimeout`. */
  function AddHealthCheck(sc: ServiceCollection, name: string, s: InfluxDBClientSettings): (r: ServiceCollection)
    ensures s.disableHealthChecks ==> r == sc
    ensures !s.disableHealthChecks ==>
              r.healthChecks == if HasHealthCheck(sc, name) then sc.healthChecks
                                else sc.healthChecks + [HealthCheckFor(name, s)]
    ensures !s.disableHealthChecks ==> HasHealthCheck(r, name)
    ensures !s.disableHealthChecks && HasHealthCheck(sc, name) ==> r == sc
    ensures !s.disableHealthChecks && !HasHealthCheck(sc, name) ==>
              && |r.healthChecks| == |sc.healthChecks| + 1
              && r.healthChecks[..|sc.healthChecks|] == sc.healthChecks
              && var last := r.healthChecks[|sc.healthChecks|];
              && last.name == name
              && last.probe == InfluxDBProbe(s.connectionString)
              && (last.timeoutMs.Some? <==> s.healthCheckTimeout.Some? && s.healthCheckTimeout.value > 0)
              && (last.timeoutMs.Some? ==> last.timeoutMs == s.healthCheckTimeout)
    ensures r.descriptors == sc.descriptors && r.tracingSources == sc.tracingSources
    ensures sc.healthChecks <= r.healthChecks
    ensures UniqueHealthCheckNames(sc) ==> UniqueHealthCheckNames(r)
  {
    if s.disableHealthChecks then sc
    else TryAddHealthCheck(sc, HealthCheckFor(name, s))
  }

  /** `AddInfluxDBClientInternal`. Validation failures leave nothing registered. */
  function AddInfluxDBClientInternal(sc: ServiceCollection, s: InfluxDBClientSettings, serviceKey: Option<string>,
                                     parse: UriParser): (r: Result<ServiceCollection, InfluxError>)
    ensures r.Err? <==> ValidateSettings(s, parse).Some?
    ensures r.Err? ==> ValidateSettings(s, parse) == Some(r.error)
    ensures r.Ok? ==> r.value.descriptors == sc.descriptors + [ServiceDescriptor(ClientService, Transient, serviceKey)]
    ensures r.Ok? ==> (ActivityNameSource in r.value.tracingSources <==>
                         !s.disableTracing || ActivityNameSource in sc.tracingSources)
    ensures r.Ok? ==> r.value.tracingSources - {ActivityNameSource} == sc.tracingSources - {ActivityNameSource}
    ensures r.Ok? && s.disableHealthChecks ==> r.value.healthChecks == sc.healthChecks
    ensures r.Ok? && !s.disableHealthChecks ==> HasHealthCheck(r.value, HealthCheckName(serviceKey))
    ensures r.Ok? && !s.disableHealthChecks ==>
              r.value.healthChecks == if HasHealthCheck(sc, HealthCheckName(serviceKey)) then sc.healthChecks
                                      else sc.healthChecks + [HealthCheckFor(HealthCheckName(serviceKey), s)]
    ensures r.Ok? && !s.disableHealthChecks && HasHealthCheck(sc, HealthCheckName(serviceKey)) ==>
              r.value.healthChecks == sc.healthChecks
    ensures r.Ok? && !s.disableHealthChecks && !HasHealthCheck(sc, HealthCheckName(serviceKey)) ==>
              && |r.value.healthChecks| == |sc.healthChecks| + 1
              && r.value.healthChecks[..|sc.healthChecks|] == sc.healthChecks
              && var last := r.value.healthChecks[|sc.healthChecks|];
              && last.name == HealthCheckName(serviceKey)
              && last.probe == InfluxDBProbe(s.connectionString)
              && (last.timeoutMs.Some? <==> s.healthCheckTimeout.Some? && s.healthCheckTimeout.value > 0)
              && (last.timeoutMs.Some? ==> last.timeoutMs == s.healthCheckTimeout)
    ensures r.Ok? ==> sc.healthChecks <= r.value.healthChecks
    ensures r.Ok? && UniqueHealthCheckNames(sc) ==> UniqueHealthCheckNames(r.value)
  {
    if ValidateSettings(s, parse).Some? then Err(ValidateSettings(s, parse).value)
    else
      var withClient := AddService(sc, ServiceDescriptor(ClientService, Transient, serviceKey));
      var traced := if s.disableTracing then withClient else AddTracingSource(withClient, ActivityNameSource);
      Ok(AddHealthCheck(traced, HealthCheckName(serviceKey), s))
  }

  /** After a registration, every request for the client under the
      registration's key gets a client of its own, and an unkeyed request finds
      nothing when only keyed clients were ever registered. */
  lemma {:induction false} EachResolutionNewClient(sc: ServiceCollection, s: InfluxDBClientSettings,
                                                   serviceKey: Option<string>, parse: UriParser, n1: nat, n2: nat)
    requires AddInfluxDBClientInternal(sc, s, serviceKey, parse).Ok?
    ensures var r := AddInfluxDBClientInternal(sc, s, serviceKey, parse).value;
            && Resolve(r, ClientService, serviceKey, n1) == Some(Created(|sc.descriptors|, n1))
            && (n1 != n2 ==> Resolve(r, ClientService, serviceKey, n1) != Resolve(r, ClientService, serviceKey, n2))
    ensures var r := AddInfluxDBClientInternal(sc, s, serviceKey, parse).value;
            serviceKey.Some? && Resolve(sc, ClientService, None, n1).None? ==> Resolve(r, ClientService, None, n1).None?
  {
    var r := AddInfluxDBClientInternal(sc, s, serviceKey, parse).value;
    var ds := r.descriptors;
    var n := |sc.descriptors|;
    assert ds[n] == ServiceDescriptor(ClientService, Transient, serviceKey) && |ds| == n + 1;
    assert LastRegistration(ds, ClientService, serviceKey) == Some(n);
    if serviceKey.Some? && Resolve(sc, ClientService, None, n1).None? {
      assert forall i :: 0 <= i < |ds| ==> !Answers(ds[i], ClientService, None) by {
        forall i | 0 <= i < |ds|
          ensures !Answers(ds[i], ClientService, None)
        {
          if i < n {
            assert ds[i] == sc.descriptors[i];
          }
        }
      }
    }
  }

  /** Clients registered under two different keys are different instances. */
  lemma DistinctKeysDistinctClients(sc: ServiceCollection, s1: InfluxDBClientSettings, s2: InfluxDBClientSettings,
                                    key1: string, key2: string, parse: UriParser, n1: nat, n2: nat)
    requires key1 != key2
    requires AddInfluxDBClientInternal(sc, s1, Some(key1), parse).Ok?
    requires AddInfluxDBClientInternal(AddInfluxDBClientInternal(sc, s1, Some(key1), parse).value,
                                       s2, Some(key2), parse).Ok?
    ensures var r := AddInfluxDBClientInternal(AddInfluxDBClientInternal(sc, s1, Some(key1), parse).value,
                                               s2, Some(key2), parse).value;
            && Resolve(r, ClientService, Some(key1), n1).Some?
            && Resolve(r, ClientService, Some(key2), n2).Some?
            && Resolve(r, ClientService, Some(key1), n1) != Resolve(r, ClientService, Some(key2), n2)
  {
    var mid := AddInfluxDBClientInternal(sc, s1, Some(key1), parse).value;
    var r := AddInfluxDBClientInternal(mid, s2, Some(key2), parse).value;
    var n := |sc.descriptors|;
    var d1 := ServiceDescriptor(ClientService, Transient, Some(key1));
    var d2 := ServiceDescriptor(ClientService, Transient, Some(key2));
    assert r.descriptors == sc.descriptors + [d1] + [d2];
    TwoKeyedClients(sc.descriptors, key1, key2);
    ResolveRegistration(r, ClientService, Some(key1), n1, n);
    ResolveRegistration(r, ClientService, Some(key2), n2, n + 1);
  }

  /** Two client registrations under different keys each answer their own key. */
  lemma TwoKeyedClients(ds0: seq<ServiceDescriptor>, key1: string, key2: string)
    requires key1 != key2
    ensures var ds := ds0 + [ServiceDescriptor(ClientService, Transient, Some(key1))]
                          + [ServiceDescriptor(ClientService, Transient, Some(key2))];
            && LastRegistration(ds, ClientService, Some(key1)) == Some(|ds0|)
            && LastRegistration(ds, ClientService, Some(key2)) == Some(|ds0| + 1)
  {
    var ds1 := ds0 + [ServiceDescriptor(ClientService, Transient, Some(key1))];
    var ds := ds1 + [ServiceDescriptor(ClientService, Transient, Some(key2))];
    assert ds[..|ds| - 1] == ds1;
    assert ds1[..|ds1| - 1] == ds0;
  }
}
