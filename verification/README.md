# Download authorization request, modelled in Dafny

This project models the request object of a Backblaze B2 client for
`b2_get_download_authorization`: `GetDownloadUrlByFileNameRequest`. The request
names a bucket and a file-name prefix and asks for a download authorization
that expires after a given number of seconds. It may also carry a
Content-Disposition value that the service serves with the downloaded file.

The C# constructor checks three arguments in a fixed order and throws on the
first one that fails:

1. the bucket id must not be null, empty or white space (`ArgumentException`
   naming `bucketId`);
2. the file name must not be null, empty or white space (`ArgumentException`
   naming `fileName`);
3. the duration must lie in [1, 604800] seconds (`ArgumentOutOfRangeException`).

If all three pass, it stores the three values in properties with private
setters. The duration defaults to 3600 seconds when the caller omits it. The
`ContentDisposition` property stores nothing structured. Its setter formats the
header value into the private raw string `B2ContentDisposition`, and its getter
parses that string back each time it is read.

Files:

- `wrappers.dfy` holds `Option` and `Result`. `None` stands for a null .NET
  reference.
- `text.dfy` holds `char.IsWhiteSpace` and `string.IsNullOrWhiteSpace`, written
  as predicates.
- `headers.dfy` holds the structured `ContentDispositionHeaderValue`. The
  library's formatter and parser are carried as uninterpreted functions in a
  `HeaderSyntax` value.
- `requests.dfy` holds the argument checks as a pure function
  (`CheckArguments`) and the request class. The class's `New` is the C#
  constructor. It returns either the new object or the error the constructor
  throws. One correction applies: an out-of-range duration is reported under
  the parameter name `validDurationInSeconds`, while the C# constructor reports it
  under its message text (see "## Findings"). `CheckArgumentsAsWritten` keeps
  the C# constructor's parameter name, and `New` is tied to it as well. The class's
  Dafny constructor performs only the field assignments.
- `responses.dfy` holds the response record.

The bucket id, file name and duration are `const` fields of the class. No
method can change them after construction. So the invariant `Valid()`, which
says both names are non-blank and the duration is in range, holds for the
whole life of every object that `New` returns. The only field the
Content-Disposition setter may modify is `b2ContentDisposition`.

## Model

| member | source | states |
|---|---|---|
| `Requests.CheckArguments` | src/Client/Models/Requests/GetDownloadUrlByFileNameRequest.cs:20-30 | A blank or null bucket id is rejected naming `bucketId`, whatever the other arguments are. Otherwise a blank or null file name is rejected naming `fileName`. Otherwise a duration below 1 or above 604800 is out of range, naming `validDurationInSeconds`. The arguments are accepted exactly when both names are non-null and non-blank and the duration is in [1, 604800], so both bounds are accepted. Every reported error names a constructor parameter, and that argument fails its own check. |
| `Requests.CheckArgumentsRunsChecksInOrder` | src/Client/Models/Requests/GetDownloadUrlByFileNameRequest.cs:23-30 | The reported error is the error of the first failing check in the ordered list (bucket id, file name, duration). No error is reported when none fails. |
| `Requests.NewOmittingDuration` | src/Client/Models/Requests/GetDownloadUrlByFileNameRequest.cs:20-35 | Creating a request with non-blank names and no duration succeeds. The object built holds those names, satisfies the invariant and has a duration of 3600 seconds. |
| `Requests.ExampleTwoHourRequestAccepted` | src/Client/Models/Requests/GetDownloadUrlByFileNameRequest.cs:20-35 | Bucket `4a48fe8875c6214145260818`, file `files/report.pdf` and 7200 seconds pass every check. |
| `Requests.ExampleOneSecondPastWeekRejected` | src/Client/Models/Requests/GetDownloadUrlByFileNameRequest.cs:29-30 | Valid names with 604801 seconds fail with the out-of-range error. |
| `Requests.CheckArgumentsAsWritten` | src/Client/Models/Requests/GetDownloadUrlByFileNameRequest.cs:23-30 | The checks with the arguments passed to the exceptions exactly as written. The result is exactly the result of `CheckArguments` with the out-of-range parameter name replaced by the message text, so acceptance and the two `ArgumentException` cases coincide in both directions. |
| `Requests.OutOfRangeNamesNoParameterAsWritten` | src/Client/Models/Requests/GetDownloadUrlByFileNameRequest.cs:30 | With bucket `b`, file `f` and 604801 seconds, the as-written error names no parameter of the constructor. |
| `Requests.GetDownloadUrlByFileNameRequest.constructor` | src/Client/Models/Requests/GetDownloadUrlByFileNameRequest.cs:33-35 | Once the checks have passed, the three properties equal the arguments, the raw Content-Disposition is unset (null) and the invariant holds. |
| `Requests.GetDownloadUrlByFileNameRequest.New` | src/Client/Models/Requests/GetDownloadUrlByFileNameRequest.cs:20-36 | Construction fails exactly when `CheckArguments` reports an error, and it fails with that error. An `ArgumentException` is the same error the C# constructor's checks raise as written. An out-of-range error corresponds to the as-written out-of-range error, whose parameter name is the message text. On success it yields a fresh object whose bucket id, file name and duration equal the arguments, whose invariant holds and whose raw Content-Disposition is unset. |
| `Requests.GetDownloadUrlByFileNameRequest.GetContentDisposition` | src/Client/Models/Requests/GetDownloadUrlByFileNameRequest.cs:68 | Reading the property yields what the library parser makes of the stored raw string. It fails exactly when the parser rejects that string, a null one included. |
| `Requests.GetDownloadUrlByFileNameRequest.SetContentDisposition` | src/Client/Models/Requests/GetDownloadUrlByFileNameRequest.cs:69 | Writing the property stores the library's string form of the value as the raw field. It may modify no other field. |
| `Requests.SetThenGetContentDisposition` | src/Client/Models/Requests/GetDownloadUrlByFileNameRequest.cs:66-73 | For any header library, setting then getting returns the parse of the formatted value, and the invariant is kept. If the header library re-parses its own output, the value read back has the same string form as the value set. |

## Left out

- JSON serialisation: the required-always wire fields, the ignored
  `ContentDisposition` property and the private-setter access used by the
  deserialiser. The JSON library enforces these outside the class.
- `ContentDispositionHeaderValue.Parse` and `ToString` belong to the .NET
  library. They are uninterpreted functions here. The round-trip is proved only
  under the law `ReparsesOwnOutput`, the premise of an implication in the
  ensures of `SetThenGetContentDisposition`, and nothing else
  is assumed about them.
- The documented rule that Content-Disposition parameters must not use
  continuations (names with `*`) is not checked by the C# class, so it is not a
  check here either.
- `Requests.GetDownloadUrlByFileNameRequest.SetContentDisposition`: a null
  value makes `value.ToString()` throw a `NullReferenceException`. That case is
  not modelled, because the Dafny parameter cannot be null.
- The exception message texts are not modelled. The exception is the exception
  kind plus its parameter name. The out-of-range text is kept only because the
  C# constructor passes it as the parameter name.
- The debugger display strings of both classes.
- `GetDownloadUrlByFileNameResponse` is only a record datatype. It has no logic,
  and its required fields are enforced by the JSON deserialiser.
- A .NET `string` is a sequence of UTF-16 code units, while a Dafny `string`
  holds Unicode scalar values. .NET strings that contain a lone surrogate
  therefore have no counterpart in the model. On every string that both can
  represent, `IsNullOrWhiteSpace` gives the same answer, because no surrogate
  code unit is white space.
- `char.IsWhiteSpace` is modelled with the current Unicode white-space set
  (categories Zs, Zl, Zp, U+0009 to U+000D and U+0085). Older .NET Framework
  releases also counted U+180E.

## Findings

| source | as written | input that shows it | evidently intended | confidence | as-written member | corrected member |
|---|---|---|---|---|---|---|
| src/Client/Models/Requests/GetDownloadUrlByFileNameRequest.cs:30 | `new ArgumentOutOfRangeException(message, nameof(validDurationInSeconds))`. That overload takes `(paramName, message)`, so `ParamName` becomes the message text and the message passed is "validDurationInSeconds". | `bucketId = "b"`, `fileName = "f"`, `validDurationInSeconds = 604801` | `ParamName == "validDurationInSeconds"`, as in the two `ArgumentException` cases, whose `(message, paramName)` order is correct | high (not executed) | `Requests.OutOfRangeNamesNoParameterAsWritten` | `Requests.CheckArguments` |

The same message also says "(1000 days)", but 604800 seconds is one week, as
the property's documentation at lines 51-52 says. Only the numeric bounds are
modelled.
