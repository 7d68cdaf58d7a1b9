/**
 The hosting-side InfluxDB health check (HealthChecksExtensions.cs). The
 registration stores a factory; the connection string is produced only when
 the check instance is built, and a null, empty or white-space result is
 refused there with an InvalidOperationException.
 */
module InfluxDBHealthChecks {
  import opened Common

  const DefaultName := "influxdb"
  const InvalidConnectionStringMessage :=
    "Failed to generate a valid InfluxDB connection string. The result cannot be null or empty."

  datatype HealthStatus = Unhealthy | Degraded | Healthy

  /** The check instance: an InfluxDB health check whose client options carry the connection string. */
  datatype InfluxDBHealthCheck = InfluxDBHealthCheck(connectionString: string)

  /** A `Func<IServiceProvider, string>` over the state `W` it reads; it may return null or throw. */
  type ConnectionStringFactory<!W> = W -> Result<Option<string>, Exception>

  /** A `HealthCheckRegistration`: the instance is built by `factory` each time the check runs. */
  datatype HealthCheckRegistration<!W> = HealthCheckRegistration(
    name: string,
    factory: W -> Result<InfluxDBHealthCheck, Exception>,
    failureStatus: Option<HealthStatus>,
    tags: Option<seq<string>>,
    timeoutMs: Option<int>)

  /** `ValidateConnectionString`: the factory's result, unchanged, unless it is
      null, empty or white space; an exception of the factory propagates. */
  function ValidateConnectionString<W>(factory: ConnectionStringFactory<W>, provider: W): (r: Result<string, Exception>)
    ensures factory(provider).Err? ==> r == Err(factory(provider).error)
    ensures factory(provider).Ok? && IsNullOrWhiteSpace(factory(provider).value) ==>
              r == Err(InvalidOperation(InvalidConnectionStringMessage))
    ensures r.Ok? ==> factory(provider) == Ok(Some(r.value)) && !IsNullOrWhiteSpace(Some(r.value))
    ensures factory(provider).Ok? && !IsNullOrWhiteSpace(factory(provider).value) ==> r.Ok?
  {
    var cs :- factory(provider);
    if IsNullOrWhiteSpace(cs) then Err(InvalidOperation(InvalidConnectionStringMessage)) else Ok(cs.value)
  }

  /** The registration's instance factory: validate the connection string,
      then build the check on it. Building succeeds exactly when the factory
      yields a non-blank string, and the check then connects with that very
      string; otherwise the factory's exception or the blank-string error is
      raised. */
  function BuildHealthCheck<W>(factory: ConnectionStringFactory<W>, provider: W): (r: Result<InfluxDBHealthCheck, Exception>)
    ensures r.Ok? <==> factory(provider).Ok? && !IsNullOrWhiteSpace(factory(provider).value)
    ensures r.Ok? ==> factory(provider) == Ok(Some(r.value.connectionString))
    ensures factory(provider).Err? ==> r == Err(factory(provider).error)
    ensures factory(provider).Ok? && IsNullOrWhiteSpace(factory(provider).value) ==>
              r == Err(InvalidOperation(InvalidConnectionStringMessage))
  {
    var cs :- ValidateConnectionString(factory, provider);
    Ok(InfluxDBHealthCheck(cs))
  }

  /** `AddInfluxDB` on a health-checks builder holding `registrations`. */
  function AddInfluxDB<W(!new)>(registrations: seq<HealthCheckRegistration<W>>, connectionStringFactory: ConnectionStringFactory<W>,
                          name: Option<string>, failureStatus: Option<HealthStatus>, tags: Option<seq<string>>,
                          timeoutMs: Option<int>): (r: seq<HealthCheckRegistration<W>>)
    ensures |r| == |registrations| + 1 && r[..|registrations|] == registrations
    ensures name.None? ==> r[|registrations|].name == DefaultName
    ensures name.Some? ==> r[|registrations|].name == name.value
    ensures r[|registrations|].failureStatus == failureStatus
    ensures r[|registrations|].tags == tags
    ensures r[|registrations|].timeoutMs == timeoutMs
    ensures forall w :: r[|registrations|].factory(w) == BuildHealthCheck(connectionStringFactory, w)
  {
    registrations + [HealthCheckRegistration(
      name.GetOr(DefaultName),
      w => BuildHealthCheck(connectionStringFactory, w),
      failureStatus, tags, timeoutMs)]
  }

  /** Registration does not consult the factory: two registrations that differ
      only in their factories agree on everything but the factory. */
  lemma RegistrationIndependentOfFactory<W(!new)>(registrations: seq<HealthCheckRegistration<W>>,
                                            f1: ConnectionStringFactory<W>, f2: ConnectionStringFactory<W>,
                                            name: Option<string>, failureStatus: Option<HealthStatus>,
                                            tags: Option<seq<string>>, timeoutMs: Option<int>)
    ensures var r1 := AddInfluxDB(registrations, f1, name, failureStatus, tags, timeoutMs);
            var r2 := AddInfluxDB(registrations, f2, name, failureStatus, tags, timeoutMs);
            var n := |registrations|;
            && |r1| == |r2| && r1[..n] == r2[..n]
            && r1[n].name == r2[n].name && r1[n].failureStatus == r2[n].failureStatus
            && r1[n].tags == r2[n].tags && r1[n].timeoutMs == r2[n].timeoutMs
  {
  }
}
