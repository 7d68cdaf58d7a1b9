# InfluxDB and RavenDB integrations for .NET Aspire, modelled in Dafny

This project models the deterministic layer of the CommunityToolkit Aspire
InfluxDB and RavenDB integrations:

- **Client settings resolution.** A settings object is built from the
  "Aspire:<db>:Client" section, then the named sub-section, then the
  connection string, and finally the caller's callback.
  - RavenDB reads the connection string's `URL` and `Database` keys.
  - InfluxDB overwrites `ConnectionString` unconditionally.
- **Settings validation.** Each client has a validator that returns the first
  error kind, or nothing when the settings are usable.
- **Registration plan.** For a validated settings object and an optional
  service key, this decides:
  - which services are added, and with which lifetime and key;
  - whether the tracing source is added;
  - which health check is added.
- **InfluxDB server resource and its builder.**
  - The lazily created primary endpoint.
  - The connection-string template `<scheme>://<host>:<port>?token=<token>`.
  - The resource descriptor `AddInfluxDB` builds: endpoint, image, environment,
    health-check key and mounts.
  - The two-state "connection string captured" machine behind the server's
    health check.

Foreign code is passed in as function parameters:

- `Uri.TryCreate(url, UriKind.Absolute)` becomes a `UriParser`. It returns the
  scheme of an absolute URI, or None.
- `DbConnectionStringBuilder` becomes a `ConnectionStringParser`. It returns the
  key/value pairs, or None where assigning the text throws.
- `VolumeNameGenerator.CreateVolumeName` becomes a function of the resource name
  and the suffix.

Configuration is a flat map of colon-joined key paths. Each section becomes a
typed layer, and the layers are merged in order. `Configuration.LastDefined` is
the reference meaning of binding: the last source that sets a property decides
it. Service resolution is modelled only as far as instance identity goes. A
singleton resolves to one shared instance. A transient registration creates a
new instance per resolution.

Two places where the code and its documentation disagree follow the code:

- The InfluxDB client is registered **transient**. The method's doc comment
  says singleton, but the registration code and the tests say transient.
- The availability handler of the InfluxDB server rejects only a **null**
  evaluated connection string. An empty string is captured, and it is the
  health check's own `IsNullOrWhiteSpace` test that refuses it later.

Modules, one per source file plus four shared ones:

| module | file |
|---|---|
| Common | Option, Result, exceptions, `IsNullOrEmpty`/`IsNullOrWhiteSpace`, decimal rendering and reading |
| Configuration | configuration map, section layers, ordered merge |
| Uris | the http/https URL test over an abstract URI parser |
| Services | service collection, `TryAddHealthCheck`, resolution |
| RavenDBClient | RavenDBClientExtension.cs |
| InfluxDBClient | InfluxDBClientExtension.cs, InfluxDBClientSettings.cs |
| InfluxDBHealthChecks | HealthChecksExtensions.cs (hosting) |
| InfluxDBServer | InfluxDBServerResource.cs |
| InfluxDBHosting | InfluxDBResourceBuilderExtensions.cs, InfluxDBContainerImageTags.cs |

## Model

| member | source | states |
|---|---|---|
| Configuration.GetConnectionString | src/CommunityToolkit.Aspire.RavenDB.Client/RavenDBClientExtension.cs:246 | The connection string is present exactly when "ConnectionStrings:<name>" holds a text value, and it is that text. |
| Configuration.MergeIsLastDefined | src/CommunityToolkit.Aspire.RavenDB.Client/RavenDBClientExtension.cs:239-244 | Binding sections one after another gives each property the value of the last section that sets it, and only set properties appear. |
| Configuration.MergeWellTyped | src/CommunityToolkit.Aspire.RavenDB.Client/RavenDBClientExtension.cs:239-244 | Binding sections that each hold only values of the right type for their properties gives a bound section that does too. Each of its properties takes the value of the last section that sets it. |
| RavenDBClient.BindSettings | src/CommunityToolkit.Aspire.RavenDB.Client/RavenDBClientExtension.cs:239-263 | Binding fails exactly when a non-empty connection string is malformed. Otherwise every property has the value of the last source that sets it, in the order default section, named section, connection string, and keeps its default when no source sets it. Binding never loads a certificate. |
| RavenDBClient.FromLayer | src/CommunityToolkit.Aspire.RavenDB.Client/RavenDBClientExtension.cs:242-244 | Every well-typed bound value becomes the property's value. A property that is unbound, or bound to a value of the wrong type, keeps its default, and no certificate object is set. |
| RavenDBClient.ConnectionStringLayer | src/CommunityToolkit.Aspire.RavenDB.Client/RavenDBClientExtension.cs:246-262 | A null or empty connection string sets nothing. A non-empty one fails exactly when it is malformed. Otherwise `Urls` is set exactly when the `URL` key is present, to the one-element list of it, and `DatabaseName` is set exactly when the `Database` key is present, to its value. Nothing else is set. |
| RavenDBClient.ConnectionStringOverridesSections | src/CommunityToolkit.Aspire.RavenDB.Client/RavenDBClientExtension.cs:246-262 | A `URL` key makes `Urls` exactly the one-element list holding that URL, and a `Database` key sets `DatabaseName`. An absent key, a null or empty connection string, and every other property leave the value the sections bound. |
| RavenDBClient.GetRavenDBClientSettings | src/CommunityToolkit.Aspire.RavenDB.Client/RavenDBClientExtension.cs:235-268 | The callback runs on the fully bound settings and its result is final. Without a callback the result is the precedence-bound settings, and no certificate is loaded. |
| RavenDBClient.UrlError | src/CommunityToolkit.Aspire.RavenDB.Client/RavenDBClientExtension.cs:285-292 | A URL is accepted exactly when it is an absolute http/https URL and, if https, a certificate path or a certificate is present. A URL that is not an absolute http/https URL gets the invalid-URL error. A valid https URL without either certificate source gets the missing-certificate error. |
| RavenDBClient.FirstUrlError | src/CommunityToolkit.Aspire.RavenDB.Client/RavenDBClientExtension.cs:283-294 | There is no error exactly when every URL is acceptable. Otherwise the error is the one of a URL all of whose predecessors are acceptable. |
| RavenDBClient.ValidateSettings | src/CommunityToolkit.Aspire.RavenDB.Client/RavenDBClientExtension.cs:270-301 | The missing-URLs error is reported exactly when `Urls` is null or empty. The missing-database-name error is reported exactly when `Urls` is non-empty and `CreateDatabase` is set with a blank name. Otherwise the result is the error of some URL that fails, all of whose predecessors are acceptable: invalid URL or missing certificate, as `UrlError` decides. Validation succeeds exactly when no check fails. |
| RavenDBClient.AddRavenDBClientInternal | src/CommunityToolkit.Aspire.RavenDB.Client/RavenDBClientExtension.cs:115-151 | Registration fails with the validation error exactly when validation fails, so nothing is registered for invalid settings. On success: the existing services are kept and the appended ones are the store as a keyed singleton, then, for a non-blank database name, the two sessions as keyed transients; the tracing source is present exactly when tracing is enabled (or it was there before); no health check is added when health checks are disabled. Otherwise the check list is unchanged when a check named "RavenDB.Client" or "RavenDB.Client_<key>" already exists; if not, exactly one check is appended under that name. It probes the settings' database, URLs and certificate path, and has a timeout exactly when `HealthCheckTimeout > 0`. Health-check names stay unique. |
| RavenDBClient.AddRavenDocumentSession | src/CommunityToolkit.Aspire.RavenDB.Client/RavenDBClientExtension.cs:153-179 | For a blank database nothing is appended. Otherwise exactly two services are appended, the synchronous then the asynchronous session, both transient and under the store's key. Existing services, health checks and tracing are untouched. |
| RavenDBClient.AddHealthCheck | src/CommunityToolkit.Aspire.RavenDB.Client/RavenDBClientExtension.cs:181-201 | With health checks disabled, nothing changes. Otherwise a check under the given name is present afterwards. The check list is unchanged when the name was already registered. Otherwise exactly one check is appended: it probes the settings' database, URLs and certificate path, and has a timeout exactly when `HealthCheckTimeout > 0`. Services and tracing are untouched, and names stay unique. |
| RavenDBClient.RegistrationPlan | src/CommunityToolkit.Aspire.RavenDB.Client/RavenDBClientExtension.cs:124-178 | Among the services a successful registration appends, the store comes first and is the only singleton. Every added service carries the caller's key. Each session service is added exactly when the store's database name is not blank. |
| RavenDBClient.StoreSharedSessionsPerRequest | src/CommunityToolkit.Aspire.RavenDB.Client/RavenDBClientExtension.cs:124-178 | Every request for the store under the registration's key gets the one shared store. When a database is named, every session request opens a different session. |
| Services.TryAddHealthCheck | src/CommunityToolkit.Aspire.RavenDB.Client/RavenDBClientExtension.cs:189-200 | A check under a name already registered leaves everything unchanged, so the first registration under a name is kept. A check under a new name is appended to the list, and names stay unique. Services and tracing are untouched. |
| Services.LastRegistration | src/CommunityToolkit.Aspire.InfluxDB.Client/InfluxDBClientExtension.cs:107-117 | A request is answered by the last registration of the service under exactly its key. An unkeyed request sees only unkeyed registrations. |
| Services.Resolve | src/CommunityToolkit.Aspire.InfluxDB.Client/InfluxDBClientExtension.cs:107-117 | Resolution fails exactly when no registration answers. Otherwise it yields the instance of the last registration that answers; no later one answers. The instance is created per request exactly when the registration is transient, and a created instance carries the request it was created for. |
| Services.ResolutionIdentity | tests/CommunityToolkit.Aspire.InfluxDB.Client.Tests/AspireInfluxDBExtensionsTests.cs:59-86 | Two requests for a singleton get the same instance. Two requests for a transient service get different ones. |
| InfluxDBClient.FromLayer | src/CommunityToolkit.Aspire.InfluxDB.Client/InfluxDBClientSettings.cs:8-31 | Every well-typed bound value becomes the property's value. A property that is unbound, or bound to a value of the wrong type, keeps its default (null connection string and timeout, both flags false). |
| InfluxDBClient.BindSettings | src/CommunityToolkit.Aspire.InfluxDB.Client/InfluxDBClientExtension.cs:158-167 | The connection string is the "ConnectionStrings:<name>" entry whatever the sections say, null included. Every other property follows section precedence. |
| InfluxDBClient.GetInfluxDBClientSettings | src/CommunityToolkit.Aspire.InfluxDB.Client/InfluxDBClientExtension.cs:153-172 | The callback runs after the overwrite and its result is final. Without it, the overwrite and section precedence decide. |
| InfluxDBClient.ValidateSettings | src/CommunityToolkit.Aspire.InfluxDB.Client/InfluxDBClientExtension.cs:174-195 | "Missing" is reported exactly when the connection string is null or empty. Validation succeeds exactly when it is present and an absolute http/https URL, and an "invalid" error carries the offending string. |
| InfluxDBClient.NonHttpSchemeRejected | src/CommunityToolkit.Aspire.InfluxDB.Client/InfluxDBClientExtension.cs:185-194 | A non-empty connection string that is not an absolute URI, or whose scheme is neither http nor https (such as "tcp://invalid"), is rejected as invalid and the error carries that string. |
| InfluxDBClient.AddInfluxDBClientInternal | src/CommunityToolkit.Aspire.InfluxDB.Client/InfluxDBClientExtension.cs:100-151 | Registration fails with the validation error exactly when validation fails. Otherwise it adds one transient client under the caller's key. The tracing source is present exactly when tracing is enabled (or was there before). No health check is added when health checks are disabled. Otherwise the check list is unchanged when a check named "InfluxDB.Client" or "InfluxDB.Client_<key>" already exists; if not, exactly one check is appended under that name. It probes the connection string and has a timeout exactly when `HealthCheckTimeout > 0`. |
| InfluxDBClient.AddHealthCheck | src/CommunityToolkit.Aspire.InfluxDB.Client/InfluxDBClientExtension.cs:133-151 | With health checks disabled, nothing changes. Otherwise a check under the given name is present afterwards. The check list is unchanged when the name was already registered. Otherwise exactly one check is appended: it probes the connection string and has a timeout exactly when `HealthCheckTimeout > 0`. Services and tracing are untouched, and names stay unique. |
| InfluxDBClient.EachResolutionNewClient | tests/CommunityToolkit.Aspire.InfluxDB.Client.Tests/AspireInfluxDBExtensionsTests.cs:59-98 | Every request for the client under the registration's key gets a new client. An unkeyed request finds nothing when only keyed clients were registered. |
| InfluxDBClient.DistinctKeysDistinctClients | tests/CommunityToolkit.Aspire.InfluxDB.Client.Tests/AspireInfluxDBExtensionsTests.cs:128-154 | Clients registered under two different keys both resolve, and to different instances. |
| InfluxDBHealthChecks.ValidateConnectionString | src/CommunityToolkit.Aspire.Hosting.InfluxDB/HealthChecksExtensions.cs:53-62 | An exception of the factory propagates. A null, empty or white-space result is refused with InvalidOperationException. Any other result is returned unchanged. |
| InfluxDBHealthChecks.AddInfluxDB | src/CommunityToolkit.Aspire.Hosting.InfluxDB/HealthChecksExtensions.cs:23-44 | One registration is appended, named "influxdb" when no name is given and the given name otherwise. Failure status, tags and timeout pass through unchanged. Its instance factory calls the connection-string factory only when the check is built. |
| InfluxDBHealthChecks.RegistrationIndependentOfFactory | src/CommunityToolkit.Aspire.Hosting.InfluxDB/HealthChecksExtensions.cs:31-43 | Registration does not depend on the factory: two registrations differing only in their factories agree on everything else. |
| InfluxDBHealthChecks.BuildHealthCheck | src/CommunityToolkit.Aspire.Hosting.InfluxDB/HealthChecksExtensions.cs:33-39 | Building the check succeeds exactly when the factory yields a non-blank string, and the check then connects with exactly that string. The factory's exception propagates, and a blank result raises the invalid-connection-string error. |
| InfluxDBServer.PrimaryEndpoint | src/CommunityToolkit.Aspire.Hosting.InfluxDB/InfluxDBServerResource.cs:8-15 | The reference is the cached one when a cache exists. Otherwise a new reference to the resource's "http" endpoint is created and cached, and nothing else in the resource changes. |
| InfluxDBServer.PrimaryEndpointCreatedOnce | src/CommunityToolkit.Aspire.Hosting.InfluxDB/InfluxDBServerResource.cs:15 | The endpoint reference is created at most once: a later access returns the same reference and leaves the resource unchanged. |
| InfluxDBServer.ConnectionStringExpression | src/CommunityToolkit.Aspire.Hosting.InfluxDB/InfluxDBServerResource.cs:21-22 | The expression is the fixed template over the resource's token and the endpoint `PrimaryEndpoint` reads, which is the "http" endpoint of the resource whenever the cache holds one of its own. Reading the expression caches the primary endpoint. |
| InfluxDBServer.ConnectionString | src/CommunityToolkit.Aspire.Hosting.InfluxDB/InfluxDBServerResource.cs:18-22 | The rendered template is exactly `scheme://host:port?token=<token>`. It starts with the endpoint's URL and is never empty. |
| InfluxDBServer.ConnectionStringRoundTrip | src/CommunityToolkit.Aspire.Hosting.InfluxDB/InfluxDBServerResource.cs:21-22 | When scheme and host contain no '?', splitting the connection string at its first "?token=" gives back the endpoint URL and the token, whatever characters the token holds. |
| InfluxDBServer.EndpointUrlRoundTrip | src/CommunityToolkit.Aspire.Hosting.InfluxDB/InfluxDBServerResource.cs:22 | When the scheme contains no ':', the endpoint URL reads back as exactly its scheme, host and port. The host may contain ':', as a bracketed IPv6 address does. |
| InfluxDBHosting.OnConnectionStringAvailable | src/CommunityToolkit.Aspire.Hosting.InfluxDB/InfluxDBResourceBuilderExtensions.cs:48-57 | A non-null evaluated string is captured and raises nothing. A null one resets the cell to Pending and raises the fatal DistributedApplicationException naming the resource. |
| InfluxDBHosting.ProbeConnectionString | src/CommunityToolkit.Aspire.Hosting.InfluxDB/InfluxDBResourceBuilderExtensions.cs:63 | The factory never yields null. It fails with "Connection string is unavailable" exactly while the cell is Pending, and otherwise yields the captured string. |
| InfluxDBHosting.ProbeFollowsCapture | src/CommunityToolkit.Aspire.Hosting.InfluxDB/InfluxDBResourceBuilderExtensions.cs:48-64 | While the state is Pending, building the health check fails with "Connection string is unavailable". After the handler ran it fails in that way for a null evaluation, fails as blank for a white-space string, and otherwise connects with exactly the evaluated string. |
| InfluxDBHosting.AddInfluxDB | src/CommunityToolkit.Aspire.Hosting.InfluxDB/InfluxDBResourceBuilderExtensions.cs:35-82 | A null builder, then a null name, is rejected before anything is added. Otherwise it appends one resource, one subscription and one health registration, and changes nothing else. The subscription's capture cell is the next number. When every earlier subscription writes the cell numbered by its position, the builder keeps that property, and the new cell differs from every earlier one. The resource has the supplied token or a generated "<name>-token" parameter, one "http" endpoint with target port 8086 and the caller's host port, the docker.io/influxdb:2.7.11-alpine image, the bootstrap variables plus the admin token, and the health-check key "<name>_check". The registration has that key as its name and reads the new cell. |
| InfluxDBHosting.CaptureIsolated | src/CommunityToolkit.Aspire.Hosting.InfluxDB/InfluxDBResourceBuilderExtensions.cs:48-63 | Each server's handler and health check share a capture of their own. When the earlier subscriptions write cells numbered by their positions, the added server's check gives the same result whatever an earlier subscription captures, and the added handler's capture leaves every earlier cell as it was. |
| InfluxDBHosting.ExactlyOneResourceNamed | tests/CommunityToolkit.Aspire.Hosting.InfluxDB.Tests/AddInfluxDBTests.cs:7-18 | Adding a server under a name no resource has yet leaves exactly one resource with that name. |
| InfluxDBHosting.AddedHealthCheckWaitsForCapture | src/CommunityToolkit.Aspire.Hosting.InfluxDB/InfluxDBResourceBuilderExtensions.cs:59-81 | The key attached to the resource is the name of the registered check, and the subscription belongs to the resource. The check fails while the resource's cell is Pending and connects with the captured string after a non-blank evaluation. |
| InfluxDBHosting.PrimaryEndpointIsAnnotated | tests/CommunityToolkit.Aspire.Hosting.InfluxDB.Tests/AddInfluxDBTests.cs:40-72 | The resource has one endpoint annotation; the primary endpoint refers to it; its scheme is http, its target port 8086 and its host port the caller's port. |
| InfluxDBHosting.WithImageTag | tests/CommunityToolkit.Aspire.Hosting.InfluxDB.Tests/AddInfluxDBTests.cs:20-38 | Overriding the tag fails exactly when there is no image annotation. Otherwise only the last annotation's tag changes, and the number of annotations and the rest of the resource stay the same. |
| InfluxDBHosting.ImageTagOverride | src/CommunityToolkit.Aspire.Hosting.InfluxDB/InfluxDBResourceBuilderExtensions.cs:69-70 | After `AddInfluxDB`, a tag override leaves exactly one image annotation, on docker.io/influxdb with the new tag. |
| InfluxDBHosting.WithDataVolume | src/CommunityToolkit.Aspire.Hosting.InfluxDB/InfluxDBResourceBuilderExtensions.cs:91-98 | A null builder is rejected with ArgumentNullException for "builder". Otherwise one volume is appended on "/var/lib/influxdb2", named verbatim by the caller or by the generated name for "influxdb2-data", and nothing else changes. |
| InfluxDBHosting.WithDataBindMount | src/CommunityToolkit.Aspire.Hosting.InfluxDB/InfluxDBResourceBuilderExtensions.cs:107-113 | A null builder is rejected with ArgumentNullException for "builder", and a null source, for a non-null builder, with ArgumentNullException for "source". Otherwise one bind mount from the source is appended on "/var/lib/influxdb2", and nothing else changes. |
| InfluxDBHosting.WithConfigVolume | src/CommunityToolkit.Aspire.Hosting.InfluxDB/InfluxDBResourceBuilderExtensions.cs:122-129 | A null builder is rejected with ArgumentNullException for "builder". Otherwise one volume is appended on "/etc/influxdb2", named verbatim by the caller or by the generated name for "influxdb2-config", and nothing else changes. |
| InfluxDBHosting.WithConfigBindMount | src/CommunityToolkit.Aspire.Hosting.InfluxDB/InfluxDBResourceBuilderExtensions.cs:138-144 | A null builder is rejected with ArgumentNullException for "builder", and a null source, for a non-null builder, with ArgumentNullException for "source". Otherwise one bind mount from the source is appended on "/etc/influxdb2", and nothing else changes. |

## Left out

- `Uri.TryCreate` and `DbConnectionStringBuilder` are not modelled. They are foreign library parsers, so they are parameters here, and only how their results are used is specified.
- `CreateRavenClient`, which initialises the document store and gets or creates the database record, is left out because it is network I/O against RavenDB. The store's database is taken to be the settings' `DatabaseName`.
- `ModifyDocumentStore` is left out. It is a caller callback on the store, and its effect on the store's database name is not modelled.
- `GetCertificate` and X.509 loading are not modelled. The certificate is reduced to the boolean "a certificate object is set". `RavenDBClientSettings` is not part of this model; its properties are inferred from their uses.
- The `ArgumentNullException.ThrowIfNull(builder)` guard in both client `ValidateSettings` methods is left out, because the host builder is not modelled as a value.
- Validation errors are error kinds rather than exception objects. `UrlsMissing`, `DatabaseNameMissing`, `CertificateMissing` and `ConnectionStringMissing` stand for ArgumentNullException. `InvalidUrl` and `ConnectionStringInvalid` stand for ArgumentException. `MalformedConnectionString` stands for the ArgumentException that `DbConnectionStringBuilder` throws when a malformed text is assigned to it. The messages are not modelled.
- Configuration binder type conversion is left out: values are already typed, and an ill-typed value is skipped instead of making the binder throw.
- The binder appends to an array property that is already set, whereas this model replaces `Urls`.
- Configuration keys are case-insensitive in .NET; this model compares them exactly.
- Service keys are `object?` in the source; they are modelled by their string form.
- Services.TryAddHealthCheck: the Aspire helper it stands for is not part of this model. Its add-once-per-name behaviour is assumed from its name and use.
- DI container internals, OpenTelemetry wiring, running the health checks and the InfluxDB ping are not modelled. Health checks are registration records, and resolution is modelled only as instance identity.
- The public `AddRavenDBClient`, `AddKeyedRavenDBClient`, `AddInfluxDBClient` and `AddKeyedInfluxDBClient` overloads are left out. They only choose between settings from configuration and settings from the caller, then call the internal methods modelled here.
- The asynchronous eventing of the availability event is a single sequential state transition here. Concurrent publication is not modelled.
- `ReferenceExpression.GetValueAsync` is modelled as rendering against an allocated endpoint, whose port is a natural number, and a known token value.
- `VolumeNameGenerator.CreateVolumeName` is foreign code, so it is a function parameter of the resource name and suffix.
- InfluxDBHosting.AddInfluxDB: does not reject invalid resource names. Aspire's resource and parameter constructors reject names such as "" or "a_b", and that validation is framework code that is not part of this model, so any non-null name is accepted here.
- InfluxDBHosting.WithDataBindMount: stores the source path verbatim. Aspire resolves a relative source against the AppHost directory, which is framework code that is not part of this model.
- InfluxDBHosting.WithConfigBindMount: stores the source path verbatim, for the same reason as WithDataBindMount.
- InfluxDBHosting.WithImageTag: does not reject an empty tag. Aspire's `WithImageTag` does, and that check is framework code that is not part of this model.
- The duplicate-name check in `AddResource`, and the rest of the application model, are left out. That code is not part of this model.
- `CreateDefaultPasswordParameter` is modelled only by the parameter's name and a "generated" flag. The random value it produces is left out.
- src/CommunityToolkit.Aspire.Hosting.Ollama/api/CommunityToolkit.Aspire.Hosting.Ollama.cs is left out: it is a generated API listing with no behaviour.
- InfluxDBServerSettings.cs is left out because no core operation reads it.
