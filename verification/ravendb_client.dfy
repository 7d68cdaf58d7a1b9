/**
 The RavenDB client integration (RavenDBClientExtension.cs): the settings are
 bound from the default section, then the connection's named section, then
 the "URL" and "Database" keys of the connection string, and the caller's
 callback has the last word; the settings are validated before any document
 store exists; a valid registration adds the store (always a singleton), the
 two session services when a database is named, the tracing source unless
 disabled, and a health check unless disabled.
 */
module RavenDBClient {
  import opened Common
  import opened Configuration
  import opened Uris
  import opened Services

  const DefaultConfigSectionName := "Aspire:RavenDB:Client"
  const ActivityNameSource := "RavenDB.Client.DiagnosticSources"
  const DefaultHealthCheckName := "RavenDB.Client"

  const DocumentStoreService := IDocumentStore
  const DocumentSessionService := IDocumentSession
  const AsyncDocumentSessionService := IAsyncDocumentSession

  /** The fields of `RavenDBClientSettings` the integration reads.
      `hasCertificate` stands for `Certificate != null`. */
  datatype RavenDBClientSettings = RavenDBClientSettings(
    urls: Option<seq<string>>,
    databaseName: Option<string>,
    certificatePath: Option<string>,
    hasCertificate: bool,
    createDatabase: bool,
    disableHealthChecks: bool,
    disableTracing: bool,
    healthCheckTimeout: Option<int>)

  /** `new RavenDBClientSettings()`. */
  const DefaultSettings := RavenDBClientSettings(None, None, None, false, false, false, false, None)

  /** The settings properties configuration binding can set. */
  datatype Field =
    | Urls | DatabaseName | CertificatePath | CreateDatabase
    | DisableHealthChecks | DisableTracing | HealthCheckTimeout

  const BindableFields: set<Field> :=
    {Urls, DatabaseName, CertificatePath, CreateDatabase, DisableHealthChecks, DisableTracing, HealthCheckTimeout}

  function PropertyName(f: Field): string {
    match f
    case Urls => "Urls"
    case DatabaseName => "DatabaseName"
    case CertificatePath => "CertificatePath"
    case CreateDatabase => "CreateDatabase"
    case DisableHealthChecks => "DisableHealthChecks"
    case DisableTracing => "DisableTracing"
    case HealthCheckTimeout => "HealthCheckTimeout"
  }

  /** A value has the type of the property it is bound to. */
  predicate Accepts(f: Field, v: ConfigValue) {
    match f
    case Urls => v.TextList?
    case DatabaseName => v.Text?
    case CertificatePath => v.Text?
    case HealthCheckTimeout => v.Number?
    case CreateDatabase => v.Flag?
    case DisableHealthChecks => v.Flag?
    case DisableTracing => v.Flag?
  }

  /** A property of a settings object in configuration form; None for null. */
  function FieldValue(s: RavenDBClientSettings, f: Field): Option<ConfigValue> {
    match f
    case Urls => if s.urls.Some? then Some(TextList(s.urls.value)) else None
    case DatabaseName => if s.databaseName.Some? then Some(Text(s.databaseName.value)) else None
    case CertificatePath => if s.certificatePath.Some? then Some(Text(s.certificatePath.value)) else None
    case HealthCheckTimeout => if s.healthCheckTimeout.Some? then Some(Number(s.healthCheckTimeout.value)) else None
    case CreateDatabase => Some(Flag(s.createDatabase))
    case DisableHealthChecks => Some(Flag(s.disableHealthChecks))
    case DisableTracing => Some(Flag(s.disableTracing))
  }

  function TextOf(layer: Layer<Field>, f: Field): Option<string> {
    if f in layer && layer[f].Text? then Some(layer[f].text) else None
  }

  function FlagOf(layer: Layer<Field>, f: Field): bool {
    f in layer && layer[f].Flag? && layer[f].flag
  }

  /** A fresh settings object with the layer's fields bound into it. */
  function FromLayer(layer: Layer<Field>): (r: RavenDBClientSettings)
    ensures forall f :: f in layer && Accepts(f, layer[f]) ==> FieldValue(r, f) == Some(layer[f])
    ensures forall f :: f !in layer ==> FieldValue(r, f) == FieldValue(DefaultSettings, f)
    ensures forall f :: f in layer && !Accepts(f, layer[f]) ==> FieldValue(r, f) == FieldValue(DefaultSettings, f)
    ensures !r.hasCertificate
  {
    RavenDBClientSettings(
      urls := if Urls in layer && layer[Urls].TextList? then Some(layer[Urls].items) else None,
      databaseName := TextOf(layer, DatabaseName),
      certificatePath := TextOf(layer, CertificatePath),
      hasCertificate := false,
      createDatabase := FlagOf(layer, CreateDatabase),
      disableHealthChecks := FlagOf(layer, DisableHealthChecks),
      disableTracing := FlagOf(layer, DisableTracing),
      healthCheckTimeout :=
        if HealthCheckTimeout in layer && layer[HealthCheckTimeout].Number?
        then Some(layer[HealthCheckTimeout].number) else None)
  }

  /** `section.Bind(settings)` for the section at `path`. */
  function SectionLayerAt(config: Config, path: string): Layer<Field> {
    SectionLayer(config, path, BindableFields, PropertyName, Accepts)
  }

  /** `DbConnectionStringBuilder { ConnectionString = text }`: the key/value
      pairs of a connection string, keyed as `TryGetValue` looks them up, or
      None where assigning the text throws because it is malformed. */
  type ConnectionStringParser = string -> Option<map<string, string>>

  datatype RavenError =
    | MalformedConnectionString(connectionString: string)
    | UrlsMissing
    | DatabaseNameMissing
    | InvalidUrl(url: string)
    | CertificateMissing(url: string)

  /** The connection string, as `GetConnectionString` returns it, is malformed. */
  predicate ConnectionStringRejected(cs: Option<string>, parse: ConnectionStringParser) {
    !IsNullOrEmpty(cs) && parse(cs.value).None?
  }

  /** The connection string's "URL" and "Database" keys as a layer; an absent
      key sets nothing, and a null or empty connection string sets nothing. */
  function ConnectionStringLayer(cs: Option<string>, parse: ConnectionStringParser): (r: Result<Layer<Field>, RavenError>)
    ensures r.Err? <==> ConnectionStringRejected(cs, parse)
    ensures r.Err? ==> r.error == MalformedConnectionString(cs.value)
    ensures IsNullOrEmpty(cs) ==> r == Ok(map[])
    ensures r.Ok? ==> r.value.Keys <= {Urls, DatabaseName} && WellTyped(r.value, Accepts)
    ensures r.Ok? && !IsNullOrEmpty(cs) ==>
              && (Urls in r.value <==> "URL" in parse(cs.value).value)
              && (Urls in r.value ==> r.value[Urls] == TextList([parse(cs.value).value["URL"]]))
              && (DatabaseName in r.value <==> "Database" in parse(cs.value).value)
              && (DatabaseName in r.value ==> r.value[DatabaseName] == Text(parse(cs.value).value["Database"]))
  {
    if IsNullOrEmpty(cs) then Ok(map[])
    else match parse(cs.value)
      case None => Err(MalformedConnectionString(cs.value))
      case Some(pairs) =>
        var urls: Layer<Field> := if "URL" in pairs then map[Urls := TextList([pairs["URL"]])] else map[];
        var database: Layer<Field> := if "Database" in pairs then map[DatabaseName := Text(pairs["Database"])] else map[];
        Ok(urls + database)
  }

  /** The configuration sources in binding order: default section, named section, connection string. */
  function SettingsLayers(config: Config, connectionName: string, parse: ConnectionStringParser)
    : Result<seq<Layer<Field>>, RavenError>
  {
    var connection :- ConnectionStringLayer(GetConnectionString(config, connectionName), parse);
    Ok([SectionLayerAt(config, DefaultConfigSectionName),
        SectionLayerAt(config, SectionPath(DefaultConfigSectionName, connectionName)),
        connection])
  }

  /** Reference precedence: the last source that sets a property decides it;
      a property no source sets keeps its default. */
  function Precedence(layers: seq<Layer<Field>>, f: Field): Option<ConfigValue> {
    if LastDefined(layers, f).Some? then LastDefined(layers, f) else FieldValue(DefaultSettings, f)
  }

  /** The keys the connection string sets, when it is present and well formed. */
  function ConnectionKeys(config: Config, connectionName: string, parse: ConnectionStringParser): map<string, string> {
    var cs := GetConnectionString(config, connectionName);
    if IsNullOrEmpty(cs) || parse(cs.value).None? then map[] else parse(cs.value).value
  }

  /** The two configuration sections alone, before the connection string is read. */
  function SectionLayers(config: Config, connectionName: string): seq<Layer<Field>> {
    [SectionLayerAt(config, DefaultConfigSectionName),
     SectionLayerAt(config, SectionPath(DefaultConfigSectionName, connectionName))]
  }

  /** Settings bound from configuration, before the callback: every property
      has the value of the last source that sets it. */
  function BindSettings(config: Config, connectionName: string, parse: ConnectionStringParser)
    : (r: Result<RavenDBClientSettings, RavenError>)
    ensures r.Err? <==> ConnectionStringRejected(GetConnectionString(config, connectionName), parse)
    ensures r.Ok? ==> forall f :: FieldValue(r.value, f) == Precedence(SettingsLayers(config, connectionName, parse).value, f)
    ensures r.Ok? ==> !r.value.hasCertificate
  {
    var layers :- SettingsLayers(config, connectionName, parse);
    SettingsLayersWellTyped(config, connectionName, parse);
    BindSettingsFollowsPrecedence(layers, Merge(layers), FromLayer(Merge(layers)));
    Ok(FromLayer(Merge(layers)))
  }

  lemma SettingsLayersWellTyped(config: Config, connectionName: string, parse: ConnectionStringParser)
    requires SettingsLayers(config, connectionName, parse).Ok?
    ensures var layers := SettingsLayers(config, connectionName, parse).value;
            forall i :: 0 <= i < |layers| ==> WellTyped(layers[i], Accepts)
  {
    SectionLayerWellTyped(config, DefaultConfigSectionName, BindableFields, PropertyName, Accepts);
    SectionLayerWellTyped(config, SectionPath(DefaultConfigSectionName, connectionName), BindableFields, PropertyName, Accepts);
  }

  /** The connection string's "URL" key replaces `Urls` by exactly that one URL
      and its "Database" key sets `DatabaseName`; a key it lacks, or a null or
      empty connection string, leaves the property as the sections bound it. */
  lemma ConnectionStringOverridesSections(config: Config, connectionName: string, parse: ConnectionStringParser)
    requires BindSettings(config, connectionName, parse).Ok?
    ensures var r := BindSettings(config, connectionName, parse).value;
            var keys := ConnectionKeys(config, connectionName, parse);
            && ("URL" in keys ==> r.urls == Some([keys["URL"]]))
            && ("Database" in keys ==> r.databaseName == Some(keys["Database"]))
            && ("URL" !in keys ==> FieldValue(r, Urls) == Precedence(SectionLayers(config, connectionName), Urls))
            && ("Database" !in keys ==>
                  FieldValue(r, DatabaseName) == Precedence(SectionLayers(config, connectionName), DatabaseName))
            && (forall f :: f !in {Urls, DatabaseName} ==>
                  FieldValue(r, f) == Precedence(SectionLayers(config, connectionName), f))
  {
    var r := BindSettings(config, connectionName, parse).value;
    var layers := SettingsLayers(config, connectionName, parse).value;
    SectionsDecideUnlessConnectionStringSets(config, connectionName, parse, layers);
    assert FieldValue(r, Urls) == Precedence(layers, Urls);
    assert FieldValue(r, DatabaseName) == Precedence(layers, DatabaseName);
  }

  lemma BindSettingsFollowsPrecedence(layers: seq<Layer<Field>>, merged: Layer<Field>, r: RavenDBClientSettings)
    requires forall i :: 0 <= i < |layers| ==> WellTyped(layers[i], Accepts)
    requires merged == Merge(layers) && r == FromLayer(merged)
    ensures forall f :: FieldValue(r, f) == Precedence(layers, f)
  {
    MergeWellTyped(layers, Accepts);
    forall f: Field
      ensures FieldValue(r, f) == Precedence(layers, f)
    {
      if f in merged {
        assert Accepts(f, merged[f]);
      }
    }
  }

  lemma SectionsDecideUnlessConnectionStringSets(config: Config, connectionName: string,
                                                 parse: ConnectionStringParser, layers: seq<Layer<Field>>)
    requires SettingsLayers(config, connectionName, parse) == Ok(layers)
    ensures forall f :: f !in layers[2] ==> Precedence(layers, f) == Precedence(SectionLayers(config, connectionName), f)
    ensures "URL" in ConnectionKeys(config, connectionName, parse) ==>
              LastDefined(layers, Urls) == Some(TextList([ConnectionKeys(config, connectionName, parse)["URL"]]))
    ensures "Database" in ConnectionKeys(config, connectionName, parse) ==>
              LastDefined(layers, DatabaseName) == Some(Text(ConnectionKeys(config, connectionName, parse)["Database"]))
    ensures "URL" !in ConnectionKeys(config, connectionName, parse) ==> Urls !in layers[2]
    ensures "Database" !in ConnectionKeys(config, connectionName, parse) ==> DatabaseName !in layers[2]
    ensures layers[2].Keys <= {Urls, DatabaseName}
  {
    SettingsLayersParts(config, connectionName, parse, layers);
    ConnectionKeysSetLayer(config, connectionName, parse, layers[2]);
    forall f
      ensures f in layers[2] ==> LastDefined(layers, f) == Some(layers[2][f])
      ensures f !in layers[2] ==> LastDefined(layers, f) == LastDefined(SectionLayers(config, connectionName), f)
    {
      LastDefinedLast(layers, f);
    }
  }

  lemma SettingsLayersParts(config: Config, connectionName: string, parse: ConnectionStringParser,
                            layers: seq<Layer<Field>>)
    requires SettingsLayers(config, connectionName, parse) == Ok(layers)
    ensures |layers| == 3 && layers[..2] == SectionLayers(config, connectionName)
    ensures ConnectionStringLayer(GetConnectionString(config, connectionName), parse) == Ok(layers[2])
  {
  }

  /** The connection-string layer sets exactly the properties whose keys the connection string holds. */
  lemma ConnectionKeysSetLayer(config: Config, connectionName: string, parse: ConnectionStringParser, c: Layer<Field>)
    requires ConnectionStringLayer(GetConnectionString(config, connectionName), parse) == Ok(c)
    ensures var keys := ConnectionKeys(config, connectionName, parse);
            && (Urls in c <==> "URL" in keys) && ("URL" in keys ==> c[Urls] == TextList([keys["URL"]]))
            && (DatabaseName in c <==> "Database" in keys) && ("Database" in keys ==> c[DatabaseName] == Text(keys["Database"]))
            && c.Keys <= {Urls, DatabaseName}
  {
    var cs := GetConnectionString(config, connectionName);
    if !IsNullOrEmpty(cs) {
      assert parse(cs.value).Some?;
      assert ConnectionKeys(config, connectionName, parse) == parse(cs.value).value;
    }
  }

  /** `GetRavenDBClientSettings`: the callback runs on the fully bound settings and its result is final. */
  function GetRavenDBClientSettings(config: Config, connectionName: string, parse: ConnectionStringParser,
                                    configure: Option<RavenDBClientSettings -> RavenDBClientSettings>)
    : (r: Result<RavenDBClientSettings, RavenError>)
    ensures r.Ok? && configure.None? ==> !r.value.hasCertificate
    ensures r.Err? <==> ConnectionStringRejected(GetConnectionString(config, connectionName), parse)
    ensures r.Ok? && configure.None? ==> forall f :: FieldValue(r.value, f) == Precedence(SettingsLayers(config, connectionName, parse).value, f)
    ensures r.Ok? && configure.Some? ==> r.value == configure.value(BindSettings(config, connectionName, parse).value)
  {
    var settings :- BindSettings(config, connectionName, parse);
    Ok(if configure.Some? then configure.value(settings) else settings)
  }

  /** `Urls` is null or empty. */
  predicate NoUrls(s: RavenDBClientSettings) {
    s.urls.None? || |s.urls.value| == 0
  }

  /** `CreateDatabase` is set without a database name. */
  predicate CreateWithoutName(s: RavenDBClientSettings) {
    s.createDatabase && IsNullOrWhiteSpace(s.databaseName)
  }

  /** A URL the settings can connect to: an absolute http or https URL, and
      https only with a certificate path or a certificate. */
  predicate UrlAcceptable(s: RavenDBClientSettings, parse: UriParser, url: string) {
    && IsValidUrl(parse, url)
    && (parse(url).value == UriSchemeHttps ==> !IsNullOrEmpty(s.certificatePath) || s.hasCertificate)
  }

  /** The check the loop applies to one URL: an invalid URL is reported before a missing certificate. */
  function UrlError(s: RavenDBClientSettings, parse: UriParser, url: string): (r: Option<RavenError>)
    ensures r.None? <==> UrlAcceptable(s, parse, url)
    ensures !IsValidUrl(parse, url) ==> r == Some(InvalidUrl(url))
    ensures IsValidUrl(parse, url) && !UrlAcceptable(s, parse, url) ==> r == Some(CertificateMissing(url))
    ensures r == Some(CertificateMissing(url)) ==> IsValidUrl(parse, url) && parse(url).value == UriSchemeHttps
  {
    if !IsValidUrl(parse, url) then Some(InvalidUrl(url))
    else if parse(url).value == UriSchemeHttps && IsNullOrEmpty(s.certificatePath) && !s.hasCertificate
    then Some(CertificateMissing(url))
    else None
  }

  /** The `foreach` over the URLs: the error of the first unacceptable URL. */
  function FirstUrlError(s: RavenDBClientSettings, parse: UriParser, urls: seq<string>): (r: Option<RavenError>)
    ensures r.None? <==> forall i :: 0 <= i < |urls| ==> UrlAcceptable(s, parse, urls[i])
    ensures r.Some? ==> exists i :: 0 <= i < |urls| && !UrlAcceptable(s, parse, urls[i]) && r == UrlError(s, parse, urls[i])
                                   && forall j :: 0 <= j < i ==> UrlAcceptable(s, parse, urls[j])
    decreases |urls|
  {
    if |urls| == 0 then None
    else if UrlError(s, parse, urls[0]).Some? then UrlError(s, parse, urls[0])
    else
      var rest := FirstUrlError(s, parse, urls[1..]);
      assert forall i :: 1 <= i < |urls| ==> urls[i] == urls[1..][i - 1];
      rest
  }

  /** `ValidateSettings`: None when the settings are usable, otherwise the first error. */
  function ValidateSettings(s: RavenDBClientSettings, parse: UriParser): (r: Option<RavenError>)
    ensures r == Some(UrlsMissing) <==> NoUrls(s)
    ensures r == Some(DatabaseNameMissing) <==> !NoUrls(s) && CreateWithoutName(s)
    ensures r.None? <==> && !NoUrls(s) && !CreateWithoutName(s)
                         && forall i :: 0 <= i < |s.urls.value| ==> UrlAcceptable(s, parse, s.urls.value[i])
    ensures !NoUrls(s) && !CreateWithoutName(s) && r.Some? ==>
              exists i :: && 0 <= i < |s.urls.value| && !UrlAcceptable(s, parse, s.urls.value[i])
                          && (forall j :: 0 <= j < i ==> UrlAcceptable(s, parse, s.urls.value[j]))
                          && r == UrlError(s, parse, s.urls.value[i])
    ensures r.Some? ==> !r.value.MalformedConnectionString?
  {
    if NoUrls(s) then Some(UrlsMissing)
    else if CreateWithoutName(s) then Some(DatabaseNameMissing)
    else FirstUrlError(s, parse, s.urls.value)
  }

  /** The health check's name: "RavenDB.Client", suffixed with "_" and the key when keyed. */
  function HealthCheckName(serviceKey: Option<string>): string {
    if serviceKey.None? then DefaultHealthCheckName else DefaultHealthCheckName + "_" + serviceKey.value
  }

  /** `HealthCheckTimeout > 0 ? TimeSpan.FromMilliseconds(HealthCheckTimeout.Value) : null`. */
  function TimeoutOf(healthCheckTimeout: Option<int>): Option<int> {
    if healthCheckTimeout.Some? && healthCheckTimeout.value > 0 then healthCheckTimeout else None
  }

  function HealthCheckFor(name: string, s: RavenDBClientSettings): HealthCheck {
    HealthCheck(name, RavenDBProbe(s.databaseName, s.urls, s.certificatePath), TimeoutOf(s.healthCheckTimeout))
  }

  /** `AddRavenDocumentSession`: both session services, transient, under the
      store's key, unless the store has no database. */
  function AddRavenDocumentSession(sc: ServiceCollection, database: Option<string>, serviceKey: Option<string>)
    : (r: ServiceCollection)
    ensures r.healthChecks == sc.healthChecks && r.tracingSources == sc.tracingSources
    ensures |r.descriptors| == |sc.descriptors| + if IsNullOrWhiteSpace(database) then 0 else 2
    ensures r.descriptors[..|sc.descriptors|] == sc.descriptors
    ensures forall i :: |sc.descriptors| <= i < |r.descriptors| ==>
              r.descriptors[i].lifetime == Transient && r.descriptors[i].key == serviceKey
    ensures !IsNullOrWhiteSpace(database) ==>
              && r.descriptors[|sc.descriptors|].service == DocumentSessionService
              && r.descriptors[|sc.descriptors| + 1].service == AsyncDocumentSessionService
  {
    if IsNullOrWhiteSpace(database) then sc
    else
      var withSession := AddService(sc, ServiceDescriptor(DocumentSessionService, Transient, serviceKey));
      AddService(withSession, ServiceDescriptor(AsyncDocumentSessionService, Transient, serviceKey))
  }

  /** `AddHealthCheck`: nothing when health checks are disabled; otherwise a
      check under `name` whose timeout is set only for a positive `HealthCheckTimeout`. */
  function AddHealthCheck(sc: ServiceCollection, name: string, s: RavenDBClientSettings): (r: ServiceCollection)
    ensures s.disableHealthChecks ==> r == sc
    ensures !s.disableHealthChecks ==>
              r.healthChecks == if HasHealthCheck(sc, name) then sc.healthChecks
                                else sc.healthChecks + [HealthCheckFor(name, s)]
    ensures !s.disableHealthChecks ==> HasHealthCheck(r, name)
    ensures !s.disableHealthChecks && HasHealthCheck(sc, name) ==> r == sc
    ensures !s.disableHealthChecks && !HasHealthCheck(sc, name) ==>
              && |r.healthChecks| == |sc.healthChecks| + 1
              && r.healthChecks[..|sc.healthChecks|] == sc.healthChecks
              && var last := r.healthChecks[|sc.healthChecks|];
              && last.name == name
              && last.probe == RavenDBProbe(s.databaseName, s.urls, s.certificatePath)
              && (last.timeoutMs.Some? <==> s.healthCheckTimeout.Some? && s.healthCheckTimeout.value > 0)
              && (last.timeoutMs.Some? ==> last.timeoutMs == s.healthCheckTimeout)
    ensures r.descriptors == sc.descriptors && r.tracingSources == sc.tracingSources
    ensures sc.healthChecks <= r.healthChecks
    ensures UniqueHealthCheckNames(sc) ==> UniqueHealthCheckNames(r)
  {
    if s.disableHealthChecks then sc else TryAddHealthCheck(sc, HealthCheckFor(name, s))
  }

  /** The services a successful registration appends, in order: the store as
      a singleton, then, when a database is `named`, the synchronous and the
      asynchronous session as transients, all under the caller's key. */
  predicate PlanShape(added: seq<ServiceDescriptor>, named: bool, serviceKey: Option<string>) {
    && |added| == (if named then 3 else 1)
    && added[0] == ServiceDescriptor(DocumentStoreService, Singleton, serviceKey)
    && (forall i :: 0 < i < |added| ==> added[i].lifetime == Transient && added[i].key == serviceKey)
    && (|added| == 3 ==> added[1].service == DocumentSessionService && added[2].service == AsyncDocumentSessionService)
  }

  /** `AddRavenDBClientInternal`. The document store's database is the settings'
      database name. Validation failures leave nothing registered. */
  function AddRavenDBClientInternal(sc: ServiceCollection, s: RavenDBClientSettings, serviceKey: Option<string>,
                                    parse: UriParser): (r: Result<ServiceCollection, RavenError>)
    ensures r.Err? <==> ValidateSettings(s, parse).Some?
    ensures r.Err? ==> ValidateSettings(s, parse) == Some(r.error)
    ensures r.Ok? ==> && |sc.descriptors| <= |r.value.descriptors|
                      && r.value.descriptors[..|sc.descriptors|] == sc.descriptors
                      && PlanShape(r.value.descriptors[|sc.descriptors|..], !IsNullOrWhiteSpace(s.databaseName), serviceKey)
    ensures r.Ok? ==> (ActivityNameSource in r.value.tracingSources <==>
                         !s.disableTracing || ActivityNameSource in sc.tracingSources)
    ensures r.Ok? ==> r.value.tracingSources - {ActivityNameSource} == sc.tracingSources - {ActivityNameSource}
    ensures r.Ok? && s.disableHealthChecks ==> r.value.healthChecks == sc.healthChecks
    ensures r.Ok? && !s.disableHealthChecks ==> HasHealthCheck(r.value, HealthCheckName(serviceKey))
    ensures r.Ok? && !s.disableHealthChecks ==>
              r.value.healthChecks == if HasHealthCheck(sc, HealthCheckName(serviceKey)) then sc.healthChecks
                                      else sc.healthChecks + [HealthCheckFor(HealthCheckName(serviceKey), s)]
    ensures r.Ok? && !s.disableHealthChecks && HasHealthCheck(sc, HealthCheckName(serviceKey)) ==>
              r.value.healthChecks == sc.healthChecks
    ensures r.Ok? && !s.disableHealthChecks && !HasHealthCheck(sc, HealthCheckName(serviceKey)) ==>
              && |r.value.healthChecks| == |sc.healthChecks| + 1
              && r.value.healthChecks[..|sc.healthChecks|] == sc.healthChecks
              && var last := r.value.healthChecks[|sc.healthChecks|];
              && last.name == HealthCheckName(serviceKey)
              && last.probe == RavenDBProbe(s.databaseName, s.urls, s.certificatePath)
              && (last.timeoutMs.Some? <==> s.healthCheckTimeout.Some? && s.healthCheckTimeout.value > 0)
              && (last.timeoutMs.Some? ==> last.timeoutMs == s.healthCheckTimeout)
    ensures r.Ok? ==> sc.healthChecks <= r.value.healthChecks
    ensures r.Ok? && UniqueHealthCheckNames(sc) ==> UniqueHealthCheckNames(r.value)
  {
    if ValidateSettings(s, parse).Some? then Err(ValidateSettings(s, parse).value)
    else
      var withStore := AddService(sc, ServiceDescriptor(DocumentStoreService, Singleton, serviceKey));
      var withSessions := AddRavenDocumentSession(withStore, s.databaseName, serviceKey);
      var traced := if s.disableTracing then withSessions else AddTracingSource(withSessions, ActivityNameSource);
      SessionsExtendStore(sc, withStore, withSessions, s, serviceKey);
      Ok(AddHealthCheck(traced, HealthCheckName(serviceKey), s))
  }

  /** The store followed by what `AddRavenDocumentSession` appends has the plan's shape. */
  lemma SessionsExtendStore(sc: ServiceCollection, withStore: ServiceCollection, withSessions: ServiceCollection,
                            s: RavenDBClientSettings, serviceKey: Option<string>)
    requires withStore == AddService(sc, ServiceDescriptor(DocumentStoreService, Singleton, serviceKey))
    requires withSessions == AddRavenDocumentSession(withStore, s.databaseName, serviceKey)
    ensures |sc.descriptors| <= |withSessions.descriptors|
    ensures withSessions.descriptors[..|sc.descriptors|] == sc.descriptors
    ensures PlanShape(withSessions.descriptors[|sc.descriptors|..], !IsNullOrWhiteSpace(s.databaseName), serviceKey)
  {
    var n := |sc.descriptors|;
    var ds := withSessions.descriptors;
    assert withStore.descriptors[..n] == sc.descriptors;
    assert ds[..n] == withStore.descriptors[..n + 1][..n];
    var added := ds[n..];
    assert added[0] == ds[n] == withStore.descriptors[n];
    forall i | 0 < i < |added|
      ensures added[i].lifetime == Transient && added[i].key == serviceKey
    {
      assert added[i] == ds[n + i];
    }
    if |added| == 3 {
      assert added[1] == ds[n + 1] && added[2] == ds[n + 2];
    }
  }

  /** What the plan's shape means for a reader of the service collection:
      every added service carries the caller's key, the store is the only
      singleton, and each session service is added exactly when the database
      name is not blank. */
  lemma RegistrationPlan(sc: ServiceCollection, s: RavenDBClientSettings, serviceKey: Option<string>, parse: UriParser)
    requires AddRavenDBClientInternal(sc, s, serviceKey, parse).Ok?
    ensures var added := AddRavenDBClientInternal(sc, s, serviceKey, parse).value.descriptors[|sc.descriptors|..];
            && |added| > 0 && added[0] == ServiceDescriptor(DocumentStoreService, Singleton, serviceKey)
            && (forall i :: 0 <= i < |added| ==> added[i].key == serviceKey)
            && (forall i :: 0 <= i < |added| ==> (added[i].lifetime == Singleton <==> added[i].service == DocumentStoreService))
            && ((exists i :: 0 <= i < |added| && added[i].service == DocumentSessionService) <==> !IsNullOrWhiteSpace(s.databaseName))
            && ((exists i :: 0 <= i < |added| && added[i].service == AsyncDocumentSessionService) <==> !IsNullOrWhiteSpace(s.databaseName))
  {
    var added := AddRavenDBClientInternal(sc, s, serviceKey, parse).value.descriptors[|sc.descriptors|..];
    PlanShapeMeaning(added, !IsNullOrWhiteSpace(s.databaseName), serviceKey);
  }

  lemma PlanShapeMeaning(added: seq<ServiceDescriptor>, named: bool, serviceKey: Option<string>)
    requires PlanShape(added, named, serviceKey)
    ensures forall i :: 0 <= i < |added| ==> added[i].key == serviceKey
    ensures forall i :: 0 <= i < |added| ==> (added[i].lifetime == Singleton <==> added[i].service == DocumentStoreService)
    ensures (exists i :: 0 <= i < |added| && added[i].service == DocumentSessionService) <==> named
    ensures (exists i :: 0 <= i < |added| && added[i].service == AsyncDocumentSessionService) <==> named
  {
    if named {
      assert added[1].service == DocumentSessionService;
      assert added[2].service == AsyncDocumentSessionService;
    }
  }

  /** After a registration the store resolves to one shared instance under the
      registration's key, and each session request opens a new session exactly
      when a database is named. */
  lemma {:induction false} StoreSharedSessionsPerRequest(sc: ServiceCollection, s: RavenDBClientSettings,
                                                         serviceKey: Option<string>, parse: UriParser, n1: nat, n2: nat)
    requires AddRavenDBClientInternal(sc, s, serviceKey, parse).Ok?
    ensures var r := AddRavenDBClientInternal(sc, s, serviceKey, parse).value;
            && Resolve(r, DocumentStoreService, serviceKey, n1) == Some(Shared(|sc.descriptors|))
            && Resolve(r, DocumentStoreService, serviceKey, n2) == Some(Shared(|sc.descriptors|))
    ensures var r := AddRavenDBClientInternal(sc, s, serviceKey, parse).value;
            !IsNullOrWhiteSpace(s.databaseName) && n1 != n2 ==>
              && Resolve(r, DocumentSessionService, serviceKey, n1) == Some(Created(|sc.descriptors| + 1, n1))
              && Resolve(r, DocumentSessionService, serviceKey, n1) != Resolve(r, DocumentSessionService, serviceKey, n2)
  {
    var r := AddRavenDBClientInternal(sc, s, serviceKey, parse).value;
    RegisteredDescriptors(sc, s, serviceKey, parse);
    ResolveAfterRegistration(r, sc.descriptors, r.descriptors[|sc.descriptors|..], s, serviceKey, n1, n2);
  }

  /** A successful registration keeps the existing services and appends the plan. */
  lemma RegisteredDescriptors(sc: ServiceCollection, s: RavenDBClientSettings, serviceKey: Option<string>, parse: UriParser)
    requires AddRavenDBClientInternal(sc, s, serviceKey, parse).Ok?
    ensures var ds := AddRavenDBClientInternal(sc, s, serviceKey, parse).value.descriptors;
            && ds == sc.descriptors + ds[|sc.descriptors|..]
            && PlanShape(ds[|sc.descriptors|..], !IsNullOrWhiteSpace(s.databaseName), serviceKey)
  {
    var ds := AddRavenDBClientInternal(sc, s, serviceKey, parse).value.descriptors;
    assert ds == ds[..|sc.descriptors|] + ds[|sc.descriptors|..];
  }

  lemma ResolveAfterRegistration(r: ServiceCollection, ds0: seq<ServiceDescriptor>, added: seq<ServiceDescriptor>,
                                 s: RavenDBClientSettings, serviceKey: Option<string>, n1: nat, n2: nat)
    requires r.descriptors == ds0 + added && PlanShape(added, !IsNullOrWhiteSpace(s.databaseName), serviceKey)
    ensures && Resolve(r, DocumentStoreService, serviceKey, n1) == Some(Shared(|ds0|))
            && Resolve(r, DocumentStoreService, serviceKey, n2) == Some(Shared(|ds0|))
    ensures !IsNullOrWhiteSpace(s.databaseName) && n1 != n2 ==>
              && Resolve(r, DocumentSessionService, serviceKey, n1) == Some(Created(|ds0| + 1, n1))
              && Resolve(r, DocumentSessionService, serviceKey, n1) != Resolve(r, DocumentSessionService, serviceKey, n2)
  {
    var n := |ds0|;
    assert r.descriptors[n] == added[0];
    StoreAnswers(ds0, added, !IsNullOrWhiteSpace(s.databaseName), serviceKey);
    ResolveRegistration(r, DocumentStoreService, serviceKey, n1, n);
    ResolveRegistration(r, DocumentStoreService, serviceKey, n2, n);
    if !IsNullOrWhiteSpace(s.databaseName) {
      SessionAnswers(ds0, added, serviceKey);
      assert r.descriptors[n + 1] == added[1];
      ResolveRegistration(r, DocumentSessionService, serviceKey, n1, n + 1);
      ResolveRegistration(r, DocumentSessionService, serviceKey, n2, n + 1);
    }
  }

  /** In the registrations after a successful call, the store's own registration answers store requests. */
  lemma StoreAnswers(ds0: seq<ServiceDescriptor>, added: seq<ServiceDescriptor>, named: bool, serviceKey: Option<string>)
    requires PlanShape(added, named, serviceKey)
    ensures LastRegistration(ds0 + added, DocumentStoreService, serviceKey) == Some(|ds0|)
  {
    assert forall j :: 0 < j < |added| ==> added[j].service != DocumentStoreService by {
      PlanShapeMeaning(added, named, serviceKey);
    }
    StoreLast(ds0, added, serviceKey);
  }

  lemma StoreLast(ds0: seq<ServiceDescriptor>, added: seq<ServiceDescriptor>, serviceKey: Option<string>)
    requires |added| > 0 && added[0] == ServiceDescriptor(DocumentStoreService, Singleton, serviceKey)
    requires forall j :: 0 < j < |added| ==> added[j].service != DocumentStoreService
    ensures LastRegistration(ds0 + added, DocumentStoreService, serviceKey) == Some(|ds0|)
  {
    var ds := ds0 + added;
    assert Answers(ds[|ds0|], DocumentStoreService, serviceKey) by { assert ds[|ds0|] == added[0]; }
    assert forall j :: |ds0| < j < |ds| ==> !Answers(ds[j], DocumentStoreService, serviceKey) by {
      forall j | |ds0| < j < |ds|
        ensures !Answers(ds[j], DocumentStoreService, serviceKey)
      {
        assert ds[j] == added[j - |ds0|];
      }
    }
    LastRegistrationIs(ds, DocumentStoreService, serviceKey, |ds0|);
  }

  /** ... and the session registration answers session requests when a database is named. */
  lemma SessionAnswers(ds0: seq<ServiceDescriptor>, added: seq<ServiceDescriptor>, serviceKey: Option<string>)
    requires PlanShape(added, true, serviceKey)
    ensures LastRegistration(ds0 + added, DocumentSessionService, serviceKey) == Some(|ds0| + 1)
  {
    var ds := ds0 + added;
    var n := |ds0|;
    assert |ds| == n + 3;
    assert Answers(ds[n + 1], DocumentSessionService, serviceKey) by {
      assert ds[n + 1] == added[1];
    }
    forall j | n + 1 < j < |ds|
      ensures !Answers(ds[j], DocumentSessionService, serviceKey)
    {
      assert j == n + 2 && ds[j] == added[2];
    }
    LastRegistrationIs(ds, DocumentSessionService, serviceKey, n + 1);
  }

  /** The registration a request honours is the answering one with no answering registration after it. */
  lemma {:induction false} LastRegistrationIs(ds: seq<ServiceDescriptor>, service: ServiceType, key: Option<string>, i: nat)
    requires i < |ds| && Answers(ds[i], service, key)
    requires forall j :: i < j < |ds| ==> !Answers(ds[j], service, key)
    ensures LastRegistration(ds, service, key) == Some(i)
    decreases |ds|
  {
    if i < |ds| - 1 {
      var prefix := ds[..|ds| - 1];
      assert prefix[i] == ds[i];
      LastRegistrationIs(prefix, service, key, i);
    }
  }
}
