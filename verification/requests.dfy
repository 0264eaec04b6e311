/**
 * `GetDownloadUrlByFileNameRequest`: the validated request for a time-limited
 * download authorization on a file-name prefix in a bucket.
 *
 * The C# constructor checks its three arguments in a fixed order and throws on
 * the first one that fails; here that is the static method `New`, which returns
 * either the new request or that error. The error is given by `CheckArguments`,
 * which names the offending parameter of an out-of-range duration correctly;
 * `CheckArgumentsAsWritten` gives the parameter name the C# constructor actually
 * reports there.
 */
module Requests {
  import opened Wrappers
  import opened Text
  import opened Headers

  /** A C# `long`. */
  type Long = x: int | -0x8000_0000_0000_0000 <= x < 0x8000_0000_0000_0000

  /** The shortest validity the service grants: one second. */
  const MinValidDurationInSeconds: Long := 1
  /** The longest validity the service grants: one week. */
  const MaxValidDurationInSeconds: Long := 604800
  /** The validity used when the caller omits it: one hour. */
  const DefaultValidDurationInSeconds: Long := 3600

  /** The text the constructor hands to `ArgumentOutOfRangeException`. */
  const OutOfRangeText: string :=
    "Argument must be a minimum of 1 second and a maximum of 604800 seconds (1000 days)"

  /** The exceptions the constructor raises, each with its `ParamName`. */
  datatype RequestError =
    | InvalidArgument(paramName: string)  // ArgumentException
    | OutOfRange(paramName: string)       // ArgumentOutOfRangeException

  predicate InRange(validDurationInSeconds: int) {
    MinValidDurationInSeconds <= validDurationInSeconds <= MaxValidDurationInSeconds
  }

  /** The invariant of every constructed request. */
  predicate ValidRequest(bucketId: string, fileName: string, validDurationInSeconds: Long) {
    && !IsNullOrWhiteSpace(Some(bucketId))
    && !IsNullOrWhiteSpace(Some(fileName))
    && InRange(validDurationInSeconds)
  }

  /** The names of the constructor's parameters. */
  predicate IsParameterName(name: string) {
    name == "bucketId" || name == "fileName" || name == "validDurationInSeconds"
  }

  /** The argument called `name` fails its own check. */
  predicate Offends(name: string, bucketId: NullableString, fileName: NullableString, validDurationInSeconds: Long) {
    || (name == "bucketId" && IsNullOrWhiteSpace(bucketId))
    || (name == "fileName" && IsNullOrWhiteSpace(fileName))
    || (name == "validDurationInSeconds" && !InRange(validDurationInSeconds))
  }

  /**
   * The error the constructor raises for these arguments, or `None` when it
   * accepts them. The checks run bucket id first, then file name, then
   * duration, and the first one that fails is reported under the name of the
   * parameter it checks.
   */
  function CheckArguments(
    bucketId: NullableString,
    fileName: NullableString,
    validDurationInSeconds: Long := DefaultValidDurationInSeconds
  ): (e: Option<RequestError>)
    ensures e == Some(InvalidArgument("bucketId")) <==> IsNullOrWhiteSpace(bucketId)
    ensures e == Some(InvalidArgument("fileName")) <==>
      !IsNullOrWhiteSpace(bucketId) && IsNullOrWhiteSpace(fileName)
    ensures e == Some(OutOfRange("validDurationInSeconds")) <==>
      !IsNullOrWhiteSpace(bucketId) && !IsNullOrWhiteSpace(fileName) && !InRange(validDurationInSeconds)
    ensures e.None? <==>
      bucketId.Some? && fileName.Some? && ValidRequest(bucketId.value, fileName.value, validDurationInSeconds)
    ensures e.Some? ==> IsParameterName(e.value.paramName)
    ensures e.Some? ==> Offends(e.value.paramName, bucketId, fileName, validDurationInSeconds)
  {
    if IsNullOrWhiteSpace(bucketId) then Some(InvalidArgument("bucketId"))
    else if IsNullOrWhiteSpace(fileName) then Some(InvalidArgument("fileName"))
    else if validDurationInSeconds < 1 || validDurationInSeconds > 604800 then
      Some(OutOfRange("validDurationInSeconds"))
    else None
  }

  /**
   * The checks as the C# constructor writes them. `ArgumentOutOfRangeException(string,
   * string)` takes the parameter name FIRST and the message second, the reverse
   * of `ArgumentException(string, string)`; the C# constructor passes the message text
   * first, so the out-of-range error names the message text as its parameter.
   */
  function CheckArgumentsAsWritten(
    bucketId: NullableString,
    fileName: NullableString,
    validDurationInSeconds: Long := DefaultValidDurationInSeconds
  ): (e: Option<RequestError>)
    ensures e.None? <==> CheckArguments(bucketId, fileName, validDurationInSeconds).None?
    ensures e.Some? && e.value.InvalidArgument? ==> e == CheckArguments(bucketId, fileName, validDurationInSeconds)
    ensures e.Some? && e.value.OutOfRange? ==> e.value.paramName == OutOfRangeText
    ensures !IsNullOrWhiteSpace(bucketId) && !IsNullOrWhiteSpace(fileName) && !InRange(validDurationInSeconds) ==>
      e.Some? && e.value.OutOfRange?
    // the corrected checks with only the out-of-range parameter name replaced
    ensures e == match CheckArguments(bucketId, fileName, validDurationInSeconds)
      case Some(OutOfRange(_)) => Some(OutOfRange(OutOfRangeText))
      case other => other
  {
    if IsNullOrWhiteSpace(bucketId) then Some(InvalidArgument("bucketId"))
    else if IsNullOrWhiteSpace(fileName) then Some(InvalidArgument("fileName"))
    else if validDurationInSeconds < 1 || validDurationInSeconds > 604800 then
      Some(OutOfRange(OutOfRangeText))
    else None
  }

  /**
   * With a valid bucket id and file name and a duration one second past the
   * week, the error as written names no parameter of the constructor.
   */
  lemma OutOfRangeNamesNoParameterAsWritten()
    ensures var e := CheckArgumentsAsWritten(Some("b"), Some("f"), 604801);
      && e == Some(OutOfRange(OutOfRangeText))
      && !IsParameterName(e.value.paramName)
      && !Offends(e.value.paramName, Some("b"), Some("f"), 604801)
  {
    assert !IsWhiteSpace("b"[0]);
    assert !IsWhiteSpace("f"[0]);
    assert |OutOfRangeText| == 82;
  }

  // An independent statement of the order of the checks: a list of checks
  // and the first one that fails.

  /** One step of validation: whether it fails, and what it raises when it does. */
  datatype Check = Check(fails: bool, error: RequestError)

  /** The constructor's checks, in the order it runs them. */
  function ArgumentChecks(bucketId: NullableString, fileName: NullableString, validDurationInSeconds: Long): seq<Check> {
    [ Check(IsNullOrWhiteSpace(bucketId), InvalidArgument("bucketId")),
      Check(IsNullOrWhiteSpace(fileName), InvalidArgument("fileName")),
      Check(!InRange(validDurationInSeconds), OutOfRange("validDurationInSeconds")) ]
  }

  /** The position of the first failing check; `|checks|` when none fails. */
  function FirstFailingIndex(checks: seq<Check>): (k: nat)
    ensures k <= |checks|
    ensures forall j | 0 <= j < k :: !checks[j].fails
    ensures k < |checks| ==> checks[k].fails
  {
    if checks == [] then 0
    else if checks[0].fails then 0
    else 1 + FirstFailingIndex(checks[1..])
  }

  /** What running the checks in order raises. */
  function FirstFailure(checks: seq<Check>): Option<RequestError> {
    var k := FirstFailingIndex(checks);
    if k < |checks| then Some(checks[k].error) else None
  }

  /** The constructor reports exactly the first failing check of its ordered list. */
  lemma CheckArgumentsRunsChecksInOrder(bucketId: NullableString, fileName: NullableString, validDurationInSeconds: Long)
    ensures CheckArguments(bucketId, fileName, validDurationInSeconds)
         == FirstFailure(ArgumentChecks(bucketId, fileName, validDurationInSeconds))
  {
    var checks := ArgumentChecks(bucketId, fileName, validDurationInSeconds);
    var k := FirstFailingIndex(checks);
    if checks[0].fails {
      assert k == 0;
    } else if checks[1].fails {
      assert k == 1;
    } else if checks[2].fails {
      assert k == 2;
    } else {
      assert k == 3;
    }
  }


  /** A bucket id and a file path with a two-hour validity are accepted. */
  lemma ExampleTwoHourRequestAccepted()
    ensures CheckArguments(Some("4a48fe8875c6214145260818"), Some("files/report.pdf"), 7200) == None
  {
    assert !IsWhiteSpace("4a48fe8875c6214145260818"[0]);
    assert !IsWhiteSpace("files/report.pdf"[0]);
  }

  /** One second past the week is out of range, and the duration is what is reported. */
  lemma ExampleOneSecondPastWeekRejected()
    ensures CheckArguments(Some("b"), Some("f"), 604801) == Some(OutOfRange("validDurationInSeconds"))
  {
    assert !IsWhiteSpace("b"[0]);
    assert !IsWhiteSpace("f"[0]);
  }

  /**
   * The request object. Its bucket id, file name and duration are set once, by
   * the constructor, so they are `const`; the raw Content-Disposition string is
   * the one field that changes afterwards.
   */
  class GetDownloadUrlByFileNameRequest {
    const bucketId: string
    const fileName: string
    const validDurationInSeconds: Long
    /** The raw Content-Disposition value sent on the wire; `None` until set. */
    var b2ContentDisposition: NullableString

    /** Every constructed request has non-blank names and a duration within [1, 604800]. */
    predicate Valid() {
      ValidRequest(bucketId, fileName, validDurationInSeconds)
    }

    /** The assignments the C# constructor makes once its checks have passed. */
    constructor (bucketId: string, fileName: string, validDurationInSeconds: Long)
      requires ValidRequest(bucketId, fileName, validDurationInSeconds)
      ensures Valid()
      ensures this.bucketId == bucketId
      ensures this.fileName == fileName
      ensures this.validDurationInSeconds == validDurationInSeconds
      ensures b2ContentDisposition == None
    {
      this.bucketId := bucketId;
      this.fileName := fileName;
      this.validDurationInSeconds := validDurationInSeconds;
      b2ContentDisposition := None;
    }

    /**
     * The C# constructor: runs the checks and either raises the first failing
     * one's error or yields a fresh request holding the arguments.
     */
    static method New(
      bucketId: NullableString,
      fileName: NullableString,
      validDurationInSeconds: Long := DefaultValidDurationInSeconds
    ) returns (r: Result<GetDownloadUrlByFileNameRequest, RequestError>)
      ensures r.Err? <==> CheckArguments(bucketId, fileName, validDurationInSeconds).Some?
      ensures r.Err? ==> CheckArguments(bucketId, fileName, validDurationInSeconds) == Some(r.error)
      ensures r.Err? && r.error.InvalidArgument? ==>
        CheckArgumentsAsWritten(bucketId, fileName, validDurationInSeconds) == Some(r.error)
      ensures r.Err? && r.error.OutOfRange? ==>
        CheckArgumentsAsWritten(bucketId, fileName, validDurationInSeconds) == Some(OutOfRange(OutOfRangeText))
      ensures r.Ok? ==> fresh(r.value) && r.value.Valid()
      ensures r.Ok? ==> bucketId == Some(r.value.bucketId) && fileName == Some(r.value.fileName)
      ensures r.Ok? ==> r.value.validDurationInSeconds == validDurationInSeconds
      ensures r.Ok? ==> r.value.b2ContentDisposition == None
    {
      var error := CheckArguments(bucketId, fileName, validDurationInSeconds);
      if error.Some? {
        return Err(error.value);
      }
      var request := new GetDownloadUrlByFileNameRequest(bucketId.value, fileName.value, validDurationInSeconds);
      return Ok(request);
    }

    /**
     * The `ContentDisposition` getter: re-parses the stored raw string, and
     * fails (`None`) whenever the library's parser rejects it, a null included.
     */
    method GetContentDisposition(syntax: HeaderSyntax) returns (r: Option<ContentDispositionHeaderValue>)
      ensures r == syntax.parse(b2ContentDisposition)
    {
      r := syntax.parse(b2ContentDisposition);
    }

    /**
     * The `ContentDisposition` setter: stores the value's canonical string and
     * touches no other field (the others are `const`).
     */
    method SetContentDisposition(syntax: HeaderSyntax, value: ContentDispositionHeaderValue)
      modifies this`b2ContentDisposition
      ensures b2ContentDisposition == Some(syntax.format(value))
    {
      b2ContentDisposition := Some(syntax.format(value));
    }
  }

  /**
   * Creating a request without a duration: with non-blank names it succeeds
   * and the request is valid for one hour.
   */
  method NewOmittingDuration(bucketId: string, fileName: string)
    returns (r: Result<GetDownloadUrlByFileNameRequest, RequestError>)
    requires !IsNullOrWhiteSpace(Some(bucketId)) && !IsNullOrWhiteSpace(Some(fileName))
    ensures r.Ok? && r.value.Valid()
    ensures r.value.bucketId == bucketId && r.value.fileName == fileName
    ensures r.value.validDurationInSeconds == 3600
  {
    r := GetDownloadUrlByFileNameRequest.New(Some(bucketId), Some(fileName));
  }

  /**
   * Setting the Content-Disposition and reading it back yields the parse of the
   * formatted value; with a header library that re-parses its own output, what
   * is read has the canonical string of what was set. The request's invariant
   * is kept throughout.
   */
  method SetThenGetContentDisposition(
    request: GetDownloadUrlByFileNameRequest,
    syntax: HeaderSyntax,
    value: ContentDispositionHeaderValue
  ) returns (r: Option<ContentDispositionHeaderValue>)
    requires request.Valid()
    modifies request`b2ContentDisposition
    ensures request.Valid()
    ensures request.b2ContentDisposition == Some(syntax.format(value))
    ensures r == syntax.parse(Some(syntax.format(value)))
    ensures ReparsesOwnOutput(syntax) ==> r.Some? && syntax.format(r.value) == syntax.format(value)
  {
    request.SetContentDisposition(syntax, value);
    r := request.GetContentDisposition(syntax);
  }
}
