/**
 The InfluxDB server resource (InfluxDBServerResource.cs): a container
 resource with a primary endpoint named "http", created on first use and
 reused afterwards, and a connection-string template
 "<scheme>://<host>:<port>?token=<token>" whose endpoint parts and token are
 only known once the application runs.
 */
module InfluxDBServer {
  import opened Common

  const PrimaryEndpointName := "http"
  const TokenSeparator := "?token="

  /** A parameter resource; a generated one gets a random value at run time. */
  datatype ParameterResource = ParameterResource(name: string, generated: bool)

  datatype EndpointReference = EndpointReference(resourceName: string, endpointName: string)

  datatype ContainerImage = ContainerImage(registry: string, image: string, tag: string)

  /** An endpoint annotation; `port` is the host port, None when the orchestrator assigns one. */
  datatype EndpointAnnotation = EndpointAnnotation(name: string, scheme: string, port: Option<int>, targetPort: int)

  datatype EnvironmentValue = EnvText(text: string) | EnvParameter(parameter: ParameterResource)

  datatype MountKind = Volume | BindMount

  datatype ContainerMount = ContainerMount(kind: MountKind, source: string, target: string, isReadOnly: bool)

  /** The resource and the annotations the builder attaches to it. */
  datatype InfluxDBServerResource = InfluxDBServerResource(
    name: string,
    token: ParameterResource,
    primaryEndpoint: Option<EndpointReference>,
    endpoints: seq<EndpointAnnotation>,
    images: seq<ContainerImage>,
    environment: seq<(string, EnvironmentValue)>,
    healthCheckKeys: seq<string>,
    mounts: seq<ContainerMount>)

  /** `new InfluxDBServerResource(name, token)`. */
  function NewResource(name: string, token: ParameterResource): InfluxDBServerResource {
    InfluxDBServerResource(name, token, None, [], [], [], [], [])
  }

  /** The cached endpoint, if any, is the resource's "http" endpoint. */
  predicate ValidCache(r: InfluxDBServerResource) {
    r.primaryEndpoint.Some? ==> r.primaryEndpoint.value == EndpointReference(r.name, PrimaryEndpointName)
  }

  /** The `PrimaryEndpoint` getter (`_primaryEndpoint ??= new(this, "http")`):
      the reference and the resource after the access. */
  function PrimaryEndpoint(r: InfluxDBServerResource): (p: (EndpointReference, InfluxDBServerResource))
    ensures p.0 == EndpointReference(r.name, PrimaryEndpointName) || (r.primaryEndpoint.Some? && p.0 == r.primaryEndpoint.value)
    ensures r.primaryEndpoint.Some? ==> p == (r.primaryEndpoint.value, r)
    ensures p.1 == r.(primaryEndpoint := Some(p.0))
    ensures ValidCache(r) ==> p.0 == EndpointReference(r.name, PrimaryEndpointName) && ValidCache(p.1)
  {
    if r.primaryEndpoint.Some? then (r.primaryEndpoint.value, r)
    else
      var e := EndpointReference(r.name, PrimaryEndpointName);
      (e, r.(primaryEndpoint := Some(e)))
  }

  /** The endpoint reference is created at most once: every later access
      returns the reference of the first and leaves the resource as it is. */
  lemma PrimaryEndpointCreatedOnce(r: InfluxDBServerResource)
    ensures var (e1, r1) := PrimaryEndpoint(r);
            var (e2, r2) := PrimaryEndpoint(r1);
            e2 == e1 && r2 == r1
  {
  }

  /** One piece of a connection-string template: literal text, or a value
      resolved when the application runs. */
  datatype TemplatePart = Literal(text: string) | EndpointScheme | EndpointHost | EndpointPort | TokenValue

  /** A `ReferenceExpression`: a template over one endpoint and one parameter. */
  datatype ReferenceExpression = ReferenceExpression(
    endpoint: EndpointReference, token: ParameterResource, parts: seq<TemplatePart>)

  /** The values the running application resolves a template against. */
  datatype Allocation = Allocation(scheme: string, host: string, port: nat, token: string)

  const ConnectionStringTemplate: seq<TemplatePart> :=
    [EndpointScheme, Literal("://"), EndpointHost, Literal(":"), EndpointPort, Literal(TokenSeparator), TokenValue]

  /** The `ConnectionStringExpression` getter; reading it also reads `PrimaryEndpoint`. */
  function ConnectionStringExpression(r: InfluxDBServerResource): (p: (ReferenceExpression, InfluxDBServerResource))
    ensures p.0.parts == ConnectionStringTemplate && p.0.token == r.token
    ensures p.0.endpoint == PrimaryEndpoint(r).0
    ensures ValidCache(r) ==> p.0.endpoint == EndpointReference(r.name, PrimaryEndpointName) && ValidCache(p.1)
    ensures p.1 == PrimaryEndpoint(r).1
  {
    var (endpoint, r1) := PrimaryEndpoint(r);
    (ReferenceExpression(endpoint, r.token, ConnectionStringTemplate), r1)
  }

  function RenderPart(part: TemplatePart, a: Allocation): string {
    match part
    case Literal(text) => text
    case EndpointScheme => a.scheme
    case EndpointHost => a.host
    case EndpointPort => NatToString(a.port)
    case TokenValue => a.token
  }

  /** `GetValueAsync` once the endpoint is allocated and the token known. */
  function Render(parts: seq<TemplatePart>, a: Allocation): string
    decreases |parts|
  {
    if |parts| == 0 then "" else Render(parts[..|parts| - 1], a) + RenderPart(parts[|parts| - 1], a)
  }

  /** The endpoint's URL as the orchestrator reports it: "<scheme>://<host>:<port>". */
  function EndpointUrl(a: Allocation): string {
    a.scheme + "://" + a.host + ":" + NatToString(a.port)
  }

  /** The evaluated connection string: exactly the endpoint URL followed by
      "?token=" and the token, so it is never empty and contains the endpoint URL. */
  function ConnectionString(a: Allocation): (r: string)
    ensures r == EndpointUrl(a) + TokenSeparator + a.token
    ensures EndpointUrl(a) <= r
    ensures |r| > 0
  {
    RenderConnectionStringTemplate(a);
    Render(ConnectionStringTemplate, a)
  }

  lemma RenderSnoc(init: seq<TemplatePart>, part: TemplatePart, a: Allocation)
    ensures Render(init + [part], a) == Render(init, a) + RenderPart(part, a)
  {
    assert (init + [part])[..|init|] == init;
  }

  /** Renders the template one part at a time, from the first part on. */
  lemma RenderConnectionStringTemplate(a: Allocation)
    ensures Render(ConnectionStringTemplate, a) == EndpointUrl(a) + TokenSeparator + a.token
  {
    var q1: seq<TemplatePart> := [EndpointScheme];
    var q2 := q1 + [Literal("://")];
    var q3 := q2 + [EndpointHost];
    var q4 := q3 + [Literal(":")];
    var q5 := q4 + [EndpointPort];
    var q6 := q5 + [Literal(TokenSeparator)];
    var q7 := q6 + [TokenValue];
    assert q7 == ConnectionStringTemplate;
    assert Render(q1, a) == a.scheme by { RenderSnoc([], EndpointScheme, a); }
    assert Render(q2, a) == a.scheme + "://" by { RenderSnoc(q1, Literal("://"), a); }
    assert Render(q3, a) == a.scheme + "://" + a.host by { RenderSnoc(q2, EndpointHost, a); }
    assert Render(q4, a) == a.scheme + "://" + a.host + ":" by { RenderSnoc(q3, Literal(":"), a); }
    assert Render(q5, a) == EndpointUrl(a) by { RenderSnoc(q4, EndpointPort, a); }
    assert Render(q6, a) == EndpointUrl(a) + TokenSeparator by { RenderSnoc(q5, Literal(TokenSeparator), a); }
    RenderSnoc(q6, TokenValue, a);
  }

  /** The position of the first occurrence of `c` in `s`. */
  function IndexOf(s: string, c: char): (r: Option<nat>)
    ensures r.None? <==> forall i :: 0 <= i < |s| ==> s[i] != c
    ensures r.Some? ==> r.value < |s| && s[r.value] == c && forall j :: 0 <= j < r.value ==> s[j] != c
    decreases |s|
  {
    if |s| == 0 then None
    else if s[0] == c then Some(0)
    else match IndexOf(s[1..], c)
      case None => None
      case Some(i) => Some(i + 1)
  }

  /** Reads an InfluxDB connection string back: the endpoint URL before the
      first '?', and the token after the "?token=" that starts there. */
  function ParseConnectionString(cs: string): Option<(string, string)> {
    match IndexOf(cs, '?')
    case None => None
    case Some(i) =>
      if i + |TokenSeparator| <= |cs| && cs[i..i + |TokenSeparator|] == TokenSeparator
      then Some((cs[..i], cs[i + |TokenSeparator|..]))
      else None
  }

  /** No character of `s` is `c`. */
  predicate Lacks(s: string, c: char) {
    forall i :: 0 <= i < |s| ==> s[i] != c
  }

  /** The port's digits hold no '?', so the endpoint URL holds none when its scheme and host hold none. */
  lemma EndpointUrlNoQuestionMark(a: Allocation)
    requires Lacks(a.scheme, '?') && Lacks(a.host, '?')
    ensures Lacks(EndpointUrl(a), '?')
  {
    var url := EndpointUrl(a);
    var port := NatToString(a.port);
    assert url == a.scheme + "://" + a.host + ":" + port;
    forall i | 0 <= i < |url|
      ensures url[i] != '?'
    {
      if i < |a.scheme| {
        assert url[i] == a.scheme[i];
      } else if i < |a.scheme| + 3 {
        assert url[i] == "://"[i - |a.scheme|];
      } else if i < |a.scheme| + 3 + |a.host| {
        assert url[i] == a.host[i - |a.scheme| - 3];
      } else if i == |a.scheme| + 3 + |a.host| {
        assert url[i] == ':';
      } else {
        assert url[i] == port[i - |a.scheme| - 4 - |a.host|];
      }
    }
  }

  /** When neither the scheme nor the host contains '?', the token is exactly
      what follows the first "?token=" and the endpoint URL what precedes it,
      whatever characters the token holds. */
  lemma ConnectionStringRoundTrip(a: Allocation)
    requires Lacks(a.scheme, '?') && Lacks(a.host, '?')
    ensures ParseConnectionString(ConnectionString(a)) == Some((EndpointUrl(a), a.token))
  {
    EndpointUrlNoQuestionMark(a);
    SplitAtTokenSeparator(EndpointUrl(a), a.token);
  }

  /** A URL without '?' followed by "?token=" and any token splits back into the two. */
  lemma SplitAtTokenSeparator(url: string, token: string)
    requires Lacks(url, '?')
    ensures ParseConnectionString(url + TokenSeparator + token) == Some((url, token))
  {
    var cs := url + TokenSeparator + token;
    assert IndexOf(cs, '?') == Some(|url|) by {
      assert cs[|url|] == '?';
      assert forall j :: 0 <= j < |url| ==> cs[j] == url[j];
    }
    assert cs[|url|..|url| + |TokenSeparator|] == TokenSeparator;
    assert cs[..|url|] == url;
    assert cs[|url| + |TokenSeparator|..] == token;
  }

  /** The position of the last occurrence of `c` in `s`. */
  function LastIndexOf(s: string, c: char): (r: Option<nat>)
    ensures r.None? <==> Lacks(s, c)
    ensures r.Some? ==> r.value < |s| && s[r.value] == c && forall j :: r.value < j < |s| ==> s[j] != c
    decreases |s|
  {
    if |s| == 0 then None
    else if s[|s| - 1] == c then Some(|s| - 1)
    else LastIndexOf(s[..|s| - 1], c)
  }

  /** Reads an endpoint URL back into scheme, host and port: the scheme runs
      up to the first ':', which must open "://"; the port is the run of
      decimal digits after the last ':'; the host is what lies between, so a
      bracketed IPv6 host keeps its colons. */
  function ParseEndpointUrl(url: string): Option<(string, string, nat)> {
    match IndexOf(url, ':')
    case None => None
    case Some(i) =>
      if !(i + 3 <= |url| && url[i..i + 3] == "://") then None
      else
        var rest := url[i + 3..];
        match LastIndexOf(rest, ':')
        case None => None
        case Some(j) =>
          var digits := rest[j + 1..];
          if |digits| > 0 && forall k :: 0 <= k < |digits| ==> IsDigit(digits[k])
          then Some((url[..i], rest[..j], ParseNat(digits)))
          else None
  }

  /** When the scheme holds no ':', the endpoint URL gives back exactly the
      scheme, the host and the port it was rendered from, whatever the host. */
  lemma EndpointUrlRoundTrip(a: Allocation)
    requires Lacks(a.scheme, ':')
    ensures ParseEndpointUrl(EndpointUrl(a)) == Some((a.scheme, a.host, a.port))
  {
    var port := NatToString(a.port);
    var rest := a.host + ":" + port;
    var url := EndpointUrl(a);
    assert url == a.scheme + "://" + rest;
    SplitAtSchemeSeparator(a.scheme, rest);
    SplitAtPortSeparator(a.host, port);
    NatToStringRoundTrip(a.port);
    ParseEndpointUrlAt(url, |a.scheme|, |a.host|);
  }

  /** How the reader splits a URL once both separators are located. */
  lemma ParseEndpointUrlAt(url: string, i: nat, j: nat)
    requires IndexOf(url, ':') == Some(i) && i + 3 <= |url| && url[i..i + 3] == "://"
    requires LastIndexOf(url[i + 3..], ':') == Some(j)
    requires var digits := url[i + 3..][j + 1..]; |digits| > 0 && forall k :: 0 <= k < |digits| ==> IsDigit(digits[k])
    ensures ParseEndpointUrl(url) == Some((url[..i], url[i + 3..][..j], ParseNat(url[i + 3..][j + 1..])))
  {
  }

  /** The first ':' of "<scheme>://<rest>" is the one that opens "://" when the scheme holds none. */
  lemma SplitAtSchemeSeparator(scheme: string, rest: string)
    requires Lacks(scheme, ':')
    ensures var url := scheme + "://" + rest;
            && IndexOf(url, ':') == Some(|scheme|)
            && url[|scheme|..|scheme| + 3] == "://"
            && url[..|scheme|] == scheme && url[|scheme| + 3..] == rest
  {
    var url := scheme + "://" + rest;
    assert url[|scheme|] == ':';
    assert forall j :: 0 <= j < |scheme| ==> url[j] == scheme[j];
    assert url[..|scheme|] == scheme;
    assert url[|scheme|..|scheme| + 3] == "://";
    assert url[|scheme| + 3..] == rest;
  }

  /** The last ':' of "<host>:<digits>" is the one before the digits, whatever the host holds. */
  lemma SplitAtPortSeparator(host: string, digits: string)
    requires forall k :: 0 <= k < |digits| ==> IsDigit(digits[k])
    ensures var rest := host + ":" + digits;
            && LastIndexOf(rest, ':') == Some(|host|)
            && rest[..|host|] == host && rest[|host| + 1..] == digits
  {
    var rest := host + ":" + digits;
    assert rest[|host|] == ':';
    forall j | |host| < j < |rest|
      ensures rest[j] != ':'
    {
      assert rest[j] == digits[j - |host| - 1];
    }
    assert rest[..|host|] == host;
    assert rest[|host| + 1..] == digits;
  }
}
