# influx2lp in Dafny

A model of `influxwrite.go` from influx2lp, a small Go package that writes
metrics to InfluxDB over its v2 HTTP write API. The model has two parts, and
properties are proved about each.

- **The line-protocol serialiser**, `LPMetric.String()`. It turns a metric into
  one line:

  `measurement[,tag=value...][ field=value[,field=value...]] timestamp`

  `LineProtocol.Format` follows the Go code step by step. It appends the tags
  in iteration order, collects the field keys into an array, sorts that array
  in place (`StringOrder.Sort`, for `sort.Strings`), and then appends the
  fields with a counter that picks the separator. Its postcondition ties the
  result to the specification function `LineProtocol.Line`.

  Field values are written by their Go kind:
  - `int`, `int16`, `int32` and `int64` as `%d` followed by `i`;
  - floats as `%f`;
  - strings as `%q`;
  - everything else as `%v`.

  The formatting verbs are modelled in `GoFmt`, each together with a reader
  for what it writes. `LineParse` is a reader for whole lines. The main
  results: a readable line parses back to its parts (`LineParse.LineRoundTrip`),
  and its fields come out once each, in ascending key order.

- **The write path**, in `Writer`. It covers:
  - `NewConfig`, with its defaults;
  - the validation in `WriteLP` (bucket checked first, then org, before
    anything is formatted or sent);
  - the URI and headers `WriteLPString` builds;
  - how the client's answer becomes `(status, body, error)`.

  The HTTP client, `http.NewRequest` and `os.Hostname` are inputs: a
  `Transport` value and an `Option<string>` host name.

Modules:
- `Wrappers`: `Option`.
- `GoFmt`: `%d`, `%f` and `%q`, and their readers.
- `StringOrder`: Go's `<` on strings and `sort.Strings`.
- `LineProtocol`: the serialiser.
- `LineParse`: the line reader.
- `Writer`: the write path.

Two behaviours of the code that are easy to miss:
- Text fields are written with `%q`, which escapes `"`, `\` and
  non-printable characters. They are not simply wrapped in quotes.
- A transport failure returns the body `"failed to write"`, not an empty body.

## Model

| member | source | states |
|---|---|---|
| `LineProtocol.Format` | influxwrite.go:44-83 | The line built by reassignment in loops equals the specification `Line(m, p)`: measurement, tags, fields in sorted key order, a space and the timestamp |
| `LineProtocol.AppendTags` | influxwrite.go:46-50 | Appending the tags adds exactly one `,key=value` per tag, in iteration order; no tags adds nothing |
| `LineProtocol.AppendTagStep` | influxwrite.go:47-49 | Each iteration of the tag loop extends the text by that tag's `,key=%v` |
| `LineProtocol.CollectKeys` | influxwrite.go:52-55 | The key array is new and holds each key of the field map exactly once (as a multiset) |
| `StringOrder.Sort` | influxwrite.go:56 | `sort.Strings` leaves the array in non-decreasing order and a permutation of what it held |
| `StringOrder.InsertLast` | influxwrite.go:56 | One insertion step: the first `i + 1` strings are in order, the strings after position `i` are untouched, and the array is a permutation of what it was |
| `StringOrder.LessIrreflexive` | influxwrite.go:56 | No string is below itself under Go's `<` |
| `StringOrder.LessTransitive` | influxwrite.go:56 | Go's `<` on strings is transitive |
| `StringOrder.LessTotal` | influxwrite.go:56 | Of two different strings, one is below the other |
| `StringOrder.SortedKeys` | influxwrite.go:52-56 | The order the keys are written in: strictly ascending, as many as there are keys, and exactly the map's keys |
| `StringOrder.AscendingUnique` | influxwrite.go:52-56 | Two strictly ascending sequences with the same elements are equal, so the field order does not depend on the order keys were collected in |
| `StringOrder.SortedIsSortedKeys` | influxwrite.go:52-56 | A sorted permutation of the collected keys is exactly `SortedKeys` of the key set |
| `LineProtocol.AppendFields` | influxwrite.go:58-80 | The field loop appends `key=value` for each sorted key, after a space for the first (counter 0) and after a comma for each later one |
| `LineProtocol.AppendFieldStep` | influxwrite.go:74-79 | Iteration `j` extends the text by `" "` when `j == 0` and by `","` otherwise, then `key=` and the rendered value |
| `LineProtocol.IntegerFieldSuffix` | influxwrite.go:64-73 | An integer field ends in `i` exactly when its kind is `int`, `int16`, `int32` or `int64` (not `int8` or unsigned), and what precedes the `i` is its `%d` text |
| `LineProtocol.TextFieldQuoted` | influxwrite.go:69-70 | A string field starts and ends with `"`, unquotes to the original string, and is exactly `"` + text + `"` for printable ASCII without `"` or `\` |
| `LineProtocol.Line` | influxwrite.go:44-83 | The line begins with the measurement verbatim followed by the tag segments, and ends with one space and the timestamp in decimal |
| `LineProtocol.Show` | influxwrite.go:48 | `%v` of a tag value: integers in decimal (reading back to the number), strings as they are, booleans as `true`/`false`, floats as their shortest text, other kinds as their stored text |
| `LineProtocol.VerbOf` | influxwrite.go:64-73 | The type switch: `%di` exactly for `int`, `int16`, `int32` and `int64`; `%f` exactly for floats; `%q` exactly for strings; `%v` for everything else, `int8` and the unsigned kinds included |
| `LineProtocol.Render` | influxwrite.go:64-78 | A field value written with its verb: under `%di` it ends in `i` and the rest reads back to the integer; under `%f` a finite value reads back within half a millionth; under `%q` it unquotes to the string; otherwise it is the `%v` text |
| `LineProtocol.NoFieldsNoClause` | influxwrite.go:51-82 | With an empty field map the field clause is absent: `measurement[,tags] timestamp` |
| `LineProtocol.MeasurementNotEscaped` | influxwrite.go:45-48 | Names are not escaped: a measurement holding `,host=a` and a measurement with a tag `host=a` give the same line |
| `LineProtocol.TagOrderShows` | influxwrite.go:47-49 | Two iteration orders of the same tags give different lines, so the output depends on map iteration order |
| `LineProtocol.SortedExampleKeys` | influxwrite_test.go:17-22 | The keys `field1`, `field2`, `field3` are written in that order |
| `LineProtocol.ExampleRenders` | influxwrite_test.go:17-22 | The test's field values render as `1.230000`, `4i` and `"abcABC"` |
| `LineProtocol.ExampleTagsText` | influxwrite_test.go:16-22 | The test's tags, visited `mytag1` first, give `,mytag1=myvalue1,mytag2=myvalue2` |
| `LineProtocol.ExampleLine` | influxwrite_test.go:14-22 | The test metric serialises to the expected line, for every timestamp |
| `GoFmt.DecimalRoundTrip` | influxwrite.go:82 | Reading back `%d` of any integer gives that integer |
| `GoFmt.Decimal` | influxwrite.go:65-66 | `%d` is non-empty, starts with `-` exactly for negative numbers, and is otherwise digits |
| `GoFmt.Quote` | influxwrite.go:69-70 | `%q` output starts and ends with a double quote |
| `GoFmt.UnquoteQuote` | influxwrite.go:69-70 | Unquoting `%q` output gives back the original string, for every string |
| `GoFmt.QuotePlain` | influxwrite.go:69-70 | Printable ASCII text without `"` or `\` is simply wrapped in double quotes |
| `GoFmt.FormatFixed` | influxwrite.go:67-68 | `%f` is never empty and starts with `-` exactly for negative values, negative zero and negative infinity, including negatives that round to zero |
| `GoFmt.RoundHalfEven` | influxwrite.go:67-68 | The integer nearest the value, ties going to the even neighbour |
| `GoFmt.FixedIsNearest` | influxwrite.go:67-68 | `%f` of a finite value has exactly six digits after the point and reads back within half a millionth of the value |
| `GoFmt.ParseFixedDigits` | influxwrite.go:67-68 | The six-place text of `n` millionths, with or without a sign, reads back as exactly that number |
| `GoFmt.FixedOfOnePointTwoThree` | influxwrite_test.go:17-22 | The float64 nearest 1.23 prints under `%f` as `1.230000` |
| `LineParse.LineRoundTrip` | influxwrite.go:44-83 | For names and values that hold no separators, parsing the line gives back the measurement, each tag in order, each field in key order, and the timestamp |
| `LineParse.FieldsReadInOrder` | influxwrite.go:51-80 | The parsed line names every field exactly once, in strictly ascending key order, each with its rendered value |
| `LineParse.FieldClauseRoundTrip` | influxwrite.go:58-80 | The field clause (space, then comma-separated pairs) parses back to its pairs |
| `LineParse.ParsePairsOf` | influxwrite.go:46-50 | The tag segments parse back to the tag pairs in order |
| `LineParse.DecodeRendered` | influxwrite.go:64-73 | A field value reads back by kind: listed integer kinds as the integer, strings as the string, `int8`, unsigned, floats and booleans as bare text |
| `LineParse.RenderReadable` | influxwrite.go:64-73 | Every value of a listed kind renders to text that the reader takes back whole |
| `LineParse.QuotedLengthEscaped` | influxwrite.go:69-70 | Inside a `%q` literal the closing quote is found after exactly the escaped text, stepping over every escape |
| `Writer.NewConfig` | influxwrite.go:30-41 | Defaults: no bucket, host, org or token; path `/api/v2/write`; timeout 3 s; User-Agent `influx2lp-` followed by the host name, or by `unknown-host` when the lookup fails |
| `Writer.FreshConfigSendsAgent` | influxwrite.go:30-41 | A fresh config always sends a `User-Agent` header starting `influx2lp-` |
| `Writer.FreshConfigNeedsBucket` | influxwrite.go:86-89 | Writing with a fresh config fails with "no bucket configured" |
| `Writer.Headers` | influxwrite.go:108-114 | Exactly `Authorization: Token <token>`, the fixed Content-Type and Accept, and `User-Agent` only when one is configured |
| `Writer.TokenReadsBack` | influxwrite.go:108 | The token can be read back from the Authorization header |
| `Writer.Uri` | influxwrite.go:101 | The URI is host and path verbatim, then `?&org=`, the org, `&bucket=` and the bucket: nothing escaped, 14 characters added, ending with the bucket as given |
| `Writer.UriNamesOrgAndBucket` | influxwrite.go:101 | When host and path hold no `?` or `#`, and org and bucket hold nothing a query splits or decodes, the URI's query gives back the configured org and bucket |
| `Writer.OrgNamesBucket` | influxwrite.go:101 | Nothing is escaped: an org holding `&bucket=x` makes the query name bucket `x` |
| `Writer.Post` | influxwrite.go:103-114 | The request is a `POST` to `Uri(c)` whose body is the line unchanged, whose Authorization header reads back to the token, with the fixed Content-Type, and with a `User-Agent` header exactly when one is configured |
| `Writer.Message` | influxwrite.go:88-122 | The error texts: "no bucket configured" (line 88), "no org configured" (line 91), the request and client errors passed through unchanged (lines 105 and 118), and for a status error the fixed prefix through the closing `)` (line 122) |
| `Writer.Classify` | influxwrite.go:116-124 | No error exactly when the answer is 204, and then body `""`; transport failure gives `(0, "failed to write", err)`; any other status gives that status, its body and a status error naming the URI |
| `Writer.WriteLPString` | influxwrite.go:98-125 | A rejected URI gives `(0, "", err)`; an accepted URI gives the classification of the client's answer to `Post(c, line)`; so success exactly when the URI is accepted and the POST is answered with 204, and a status error carries the request URI |
| `Writer.OneRequest` | influxwrite.go:103-116 | Exactly one call to the client is made: the result depends on the world only through the URI check and the answer to that one POST |
| `Writer.StatusMessageReadsBack` | influxwrite.go:120-123 | The status error text is the fixed prefix, the status in decimal and the quoted URI, and both parts read back to the status and the URI |
| `Writer.StatusPrefixNames204` | influxwrite.go:122 | The status error text names the expected status 204 |
| `Writer.WriteLP` | influxwrite.go:86-95 | An empty bucket fails with NoBucket whatever the org; otherwise an empty org fails with NoOrg; otherwise the metric's line is written |
| `Writer.ChecksSendNothing` | influxwrite.go:86-92 | A failed check returns status 0 and an empty body, with the same result whatever the transport and the metric, so nothing is sent |
| `Writer.MissingOrg` | influxwrite_test.go:60-68 | A fresh config with host and bucket but no org fails with "no org configured" |
| `Writer.MissingBucket` | influxwrite_test.go:70-78 | A fresh config with host and org but no bucket fails with "no bucket configured" |
| `Writer.GoodConfig` | influxwrite_test.go:80-96 | Against a server answering 204, a complete config gives `(204, "", nil)` |

## Left out

- Network I/O. `http.Client.Do` and `http.NewRequest` are the `Transport` functions `exchange` and `urlError`. `io.ReadAll` is part of the answer, and a read error is ignored as the code ignores it.
- `os.Hostname` is the `Option<string>` argument of `NewConfig`.
- Map iteration order. The tags are a sequence in the order iteration visits them. The fields are a map, and their keys are collected in an unspecified order (`:|`), as Go's iteration is.
- `%v` of floats (the shortest text that reads back) is the `Printer.shortest` parameter.
- Unicode printability above U+00FF, which `%q` consults, is the `Printer.widePrint` parameter. Below that the table is spelled out.
- `%v` of values of no listed kind (structs, maps, slices and so on) is the text stored in `Other`.
- Text is a sequence of Unicode scalar values. Invalid UTF-8 in Go strings, which `%q` writes as `\x` escapes, is not modelled.
- The value ranges of the integer kinds are not enforced on `Signed` and `Unsigned` values. The timestamp is an `int64`.
- Floats are reals plus the special values `NegZero`, `PosInf`, `NegInf` and `NaN`. Binary rounding of float32 and float64 is not modelled. `%f` rounds the exact value half-to-even at six places.
- `StringOrder.Sort`: `sort.Strings` is pattern-defeating quicksort; the model is an insertion sort. For distinct keys both give the same result, proved as `SortedIsSortedKeys`.
- `LineParse.LineRoundTrip`: holds only for names free of `,`, ` ` and `=`, a measurement free of `,` and ` `, and values whose text the reader can take back. The serialiser escapes none of these, and `MeasurementNotEscaped` shows the ambiguity.
- `Writer.Param` does not percent-decode. `UriNamesOrgAndBucket` therefore requires org and bucket to be free of `%`, `+`, `;`, `&` and `#`, and host and path to be free of `?` and `#`, which would end the path early.
- `Config.Timeout` is kept as nanoseconds; the package never reads it.
- `Writer.OneRequest`: "one request" means one call to the client. `cli.Do` follows redirects itself, so the HTTP requests on the wire may be more; the client's whole exchange is the one `Transport.exchange` answer.
- Closing the response body is not modelled. The code never closes `resp.Body` on either path, and the model has no resources to leak.
- Header names are given in canonical form, so `Header.Set`'s canonicalisation is not modelled.
