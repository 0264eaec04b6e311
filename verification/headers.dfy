/**
 * The structured Content-Disposition header value of System.Net.Http.Headers.
 * Its parser and its formatter belong to the .NET library and are not part of
 * this model: they are carried as uninterpreted functions in a `HeaderSyntax`
 * value, so that nothing is assumed about them unless a member says so in its
 * `requires`.
 */
module Headers {
  import opened Wrappers

  /** One `name=value` parameter of a header; the value may be absent. */
  datatype NameValueHeaderValue = NameValueHeaderValue(name: string, value: Option<string>)

  /** `ContentDispositionHeaderValue`: a disposition type (`inline`, `attachment`, ...) and its parameters. */
  datatype ContentDispositionHeaderValue =
    ContentDispositionHeaderValue(dispositionType: string, parameters: seq<NameValueHeaderValue>)

  /**
   * The library's `ToString` (`format`) and `ContentDispositionHeaderValue.Parse`
   * (`parse`, which takes a possibly-null string and yields `None` where the
   * library throws a format error).
   */
  datatype HeaderSyntax = HeaderSyntax(
    format: ContentDispositionHeaderValue -> string,
    parse: Option<string> -> Option<ContentDispositionHeaderValue>)

  /**
   * The law a conforming header library obeys: the canonical string of any value
   * parses again, and what it parses to has that same canonical string.
   */
  ghost predicate ReparsesOwnOutput(syntax: HeaderSyntax) {
    forall v: ContentDispositionHeaderValue ::
      && syntax.parse(Some(syntax.format(v))).Some?
      && syntax.format(syntax.parse(Some(syntax.format(v))).value) == syntax.format(v)
  }
}
