/**
 URL well-formedness as both client integrations check it. Parsing a URI is
 the base class library's business; the model receives the parser as a
 parameter and only fixes how its answer is used.
 */
module Uris {
  import opened Common

  /** `Uri.TryCreate(text, UriKind.Absolute, out uri)` reduced to what the
      integrations read from it: the scheme of an absolute URI, in the lower
      case `Uri.Scheme` reports, or None when the text is not an absolute URI. */
  type UriParser = string -> Option<string>

  const UriSchemeHttp := "http"
  const UriSchemeHttps := "https"

  /** `IsValidUrl`: an absolute URI whose scheme is http or https. */
  predicate IsValidUrl(parse: UriParser, url: string) {
    parse(url).Some? && (parse(url).value == UriSchemeHttp || parse(url).value == UriSchemeHttps)
  }
}
