# Random-integer aggregation service, modelled in Dafny

The service answers `GET /random/mean?length=L&requests=R`. It validates the
two query parameters, then calls a third-party random-number API `R` times
in sequence. Each call asks for `L` integers. For each reply it parses the
plain-text body (one integer per line) into a batch and builds one entry
`{stddev, data}` per batch. It then appends one aggregate entry whose data is
every batch's data concatenated in call order. The first failed call aborts
the whole request, and no partial list is returned.

This project models the three pieces of sequential logic in `main.go`:

- **Parameter validation** (`parametersHandler`): module `Parameters`, a pure
  function from the two raw query strings to `Valid(length, requests)` or one
  of three errors. It relies on `GoStrconv.Atoi`, a model of Go's
  `strconv.Atoi` on a 64-bit platform: an optional sign, then one or more
  decimal digits, with a value that fits a 64-bit `int`.
- **Upstream body parsing** (the 200 branch of `calculations`): module
  `Upstream`. The method `ParseBody` is the source's loop. It splits on
  `"\n"` (`GoStrings.Split`), trims each line (`GoStrings.TrimSpace`, with
  Go's `unicode.IsSpace` table), skips blank lines and `Atoi`s the rest. It
  is proved equal to the specification function `ParseLines`. `FetchBatch`
  adds the transport and status checks that come before the parse.
- **Batch loop and aggregation** (`calculations`, `sumCalculations`): module
  `Aggregate`. The methods `Calculations` and `SumCalculations` are the
  source's loops. They are proved equal to `CalculationsResult` and
  `ConcatData`. The lemmas state what the output is: entry count, order,
  concatenation and all-or-nothing failure.

The network is a parameter: `upstream(i)` is the reply to the i-th GET, which
is either `Unreachable` or `Response(status, body)`. The float64 standard
deviation `stdDev` is a parameter too (`seq<int> -> real`). The model states
which data each entry's deviation is computed from. It does not state the
deviation's value.

Two behaviours of the code are worth noting:

- A non-200 reply fails with an error whose text is the response body
  (`Rejected(body)`). The status code goes only into the HTTP error response.
- After a transport error or a non-200 reply, `calculations` has already
  written an error response (502, or the upstream's status). The handler
  then calls `http.Error` a second time. Go ignores the second status code,
  so only the text "Service internal error" is added to the response body.
  That response I/O is not modelled.

## Model

| member | source | states |
|---|---|---|
| `GoStrconv.Atoi` | main.go:145 | an accepted string yields a value within the 64-bit `int` range, and it is an optional sign followed by digits only, ending in a digit; the empty string, a lone sign and any non-digit after the first character are rejected |
| `GoStrconv.AtoiCanonical` | main.go:145 | whatever is accepted is the canonical decimal of its value's magnitude, up to the sign and redundant leading zeros; a negative value needs a `-` and a positive one never has it |
| `GoStrconv.AtoiItoa` | main.go:151 | every 64-bit integer written in decimal is read back as itself |
| `GoStrconv.AtoiOverflow` | main.go:151 | a well-formed decimal outside the 64-bit range is rejected |
| `GoStrconv.AtoiAccepts` | main.go:145 | every optional sign (`+`, `-` or none), followed by any number of leading zeros and a decimal numeral, is accepted with the signed value whenever that value fits the 64-bit range |
| `Parameters.ValidateParams` | main.go:139-157 | the missing-parameter error happens exactly when either string is empty; on success `requests` is in 1..10 and `length` in 1..10000, each exactly `Atoi` of its own string, returned as (length, requests) |
| `Parameters.ValidIff` | main.go:145-156 | a pair is accepted if and only if `requests` reads as 1..10 and `length` reads as 1..10000 |
| `Parameters.RequestsCheckedFirst` | main.go:145-149 | when both are present and `requests` is bad, the error is the `requests` one whatever `length` holds |
| `Parameters.BadLengthIff` | main.go:151-155 | the `length` error happens if and only if `length` is present, `requests` is good and `length` is bad |
| `Parameters.UnparsableLikeOutOfRange` | main.go:146 | a `requests` value `Atoi` rejects gets the same answer as an in-format value out of range |
| `Parameters.ValidateCanonical` | main.go:139-157 | every in-range pair written in decimal is accepted and read back in the order (length, requests) |
| `Parameters.Examples` | main.go:140-156 | no parameters, `length=0`, `requests=11`, a word and a lone `-` are rejected with their errors; `length=5&requests=2` is accepted |
| `GoStrings.TrimLeft` | main.go:88 | the result is a suffix without leading white space, and everything dropped is white space |
| `GoStrings.TrimRight` | main.go:88 | the result is a prefix without trailing white space, and everything dropped is white space |
| `GoStrings.TrimSpace` | main.go:88-89 | the trimmed line is empty if and only if the line is blank; otherwise it starts and ends with a non-space |
| `GoStrings.TrimSpaceInfix` | main.go:88 | trimming removes white space at the two ends only, and keeps the rest as one contiguous piece |
| `GoStrings.SplitPiecesHaveNoSeparator` | main.go:84 | no line produced by the split contains `"\n"` |
| `GoStrings.JoinSplit` | main.go:84 | joining the lines with `"\n"` gives back the body |
| `GoStrings.SplitAppend` | main.go:84 | the lines of `a + "\n" + b` are the lines of `a` followed by the lines of `b` |
| `GoStrings.SplitJoin` | main.go:84 | splitting lines joined with `"\n"` gives the lines back, when none contains `"\n"` |
| `Upstream.ParseBody` | main.go:83-100 | the loop's result equals `ParseLines` of the split body: the numbers, or the first rejected line |
| `Upstream.FetchBatch` | main.go:69-100 | one call: a transport error gives `Unavailable`, a status other than 200 gives `Rejected(body)`, otherwise the body is parsed |
| `Upstream.ParseLinesErrPersists` | main.go:93-97 | once a line fails, the whole body fails with that line |
| `Upstream.ParseLinesWords` | main.go:87-99 | parsing the lines equals parsing their non-blank trimmed words |
| `Upstream.ParseWordsOk` | main.go:93-99 | word parsing succeeds if and only if `Atoi` accepts every word; it gives one number per word, in order |
| `Upstream.ParseWordsErr` | main.go:93-97 | a failure reports the first word `Atoi` rejects |
| `Upstream.ParseLinesMeaning` | main.go:84-99 | a body parses if and only if every non-blank trimmed line is an integer; then there is exactly one number per such line, in body order, each the line's value; otherwise the error is the first bad line |
| `Upstream.BlankLastLineIgnored` | main.go:89-91 | a blank or whitespace-only final line changes neither the result nor the list of words |
| `Upstream.BlankLineIgnored` | main.go:89-91 | a blank or whitespace-only line at any position changes neither the result nor the list of words |
| `Upstream.TrailingNewlineIgnored` | main.go:84-91 | a final `"\n"` after the last line changes nothing |
| `Upstream.ItoaIsWord` | main.go:88 | a decimal numeral has no newline and is unchanged by trimming |
| `Upstream.FormatLinesHaveNoNewline` | main.go:84 | the lines of a well-formed body contain no newline |
| `Upstream.ParseLinesSnocItoa` | main.go:87-99 | one more line holding a 64-bit integer in decimal appends exactly that integer |
| `Upstream.ParseFormatLines` | main.go:87-99 | lines holding 64-bit integers in decimal parse back to exactly those integers |
| `Upstream.FetchFormattedBody` | main.go:77-100 | a 200 reply listing integers one per line, each followed by `"\n"`, yields exactly those integers in order |
| `Upstream.FetchOkIff` | main.go:72-100 | a call succeeds if and only if the reply arrived with status 200 and its body parses; the numbers are the parsed ones |
| `Upstream.FetchErrors` | main.go:70-97 | a call fails with `Unavailable` exactly when no reply arrived, with `Rejected` carrying the body exactly when the status is not 200, and otherwise with `Malformed` carrying the first non-blank trimmed line that `Atoi` rejects |
| `Aggregate.SumCalculations` | main.go:129-137 | the aggregate's data is every entry's data concatenated in order, and its deviation is computed from that data |
| `Aggregate.ConcatDataAppend` | main.go:130-133 | concatenating the data of `vs + ws` is the concatenation for `vs` followed by that for `ws` |
| `Aggregate.ConcatDataLength` | main.go:130-133 | the aggregate holds as many items as all entries together |
| `Aggregate.ConcatDataAround` | main.go:130-133 | the aggregate around one entry is the data of the entries before it, then its data, then the data of the entries after it |
| `Aggregate.ConcatDataPosition` | main.go:130-133 | item `j` of entry `i` sits in the aggregate at the offset of all earlier entries' items plus `j` |
| `Aggregate.Calculations` | main.go:64-111 | the loop's result equals `CalculationsResult`: the first failure, or the per-call entries followed by the aggregate |
| `Aggregate.BatchesErrPersists` | main.go:68-81 | a failure ends the loop: later calls never change the result |
| `Aggregate.BatchesAllOk` | main.go:68-105 | when the first `n` calls succeed there are `n` entries, entry `i` built from reply `i` |
| `Aggregate.BatchesFirstFailure` | main.go:72-97 | the loop's result is the error of the first failed call |
| `Aggregate.BatchesOkIff` | main.go:68-105 | the loop gets through `n` calls if and only if each of them succeeds |
| `Aggregate.CalculationsAllOk` | main.go:64-111 | when all `request` calls succeed there are `request + 1` entries; entry `i` comes from reply `i`; the last is the in-order concatenation of the others' data, with as many items as they hold together |
| `Aggregate.CalculationsOkIff` | main.go:68-110 | the result is a list if and only if every one of the `request` calls succeeds |
| `Aggregate.CalculationsFailFast` | main.go:72-97 | on the first failed call the result is that call's error, and it does not depend on the replies later calls would have had |
| `Aggregate.TwoBatchesOfFive` | main.go:64-111 | two calls of five numbers each give three entries, holding 5, 5 and 10 items |

## Left out

- `main`, the route registration and the listener (main.go:25-33): process setup.
- `getParameters` (main.go:35-62): the method check, the content-type header, the response writes, and the wiring of validation into `calculations` and `json.Marshal`. It is HTTP plumbing.
- Every `http.Error` and `w.Write` call, including the second error write after an upstream failure. Errors are datatype values instead.
- `http.Get` and reading the response body. They are the parameter `upstream`, whose i-th value is the reply to the i-th call.
- The request URL built from `length` (main.go:66). It only feeds the network call, so `Aggregate.Calculations` has no `length` parameter.
- The text of a transport error. `Unavailable` carries no payload.
- Whether `Atoi` failed on syntax or on range, which Go's `*strconv.NumError` records. `Malformed` keeps only the line, and the caller discards the error anyway.
- `stdDev` (main.go:113-127). It is float64 arithmetic with `math.Sqrt` and `math.Round`, so it is a function parameter. Its NaN on an empty batch, and `json.Marshal` refusing NaN, are left out with it.
- `json.Marshal` (main.go:54), including its rendering of a nil `sum` slice as `null`.
- Logging with `fmt.Print` and `fmt.Println`.
- Strings are sequences of Unicode scalar values. Bodies and query strings that are not valid UTF-8 are not modelled.
- `Parameters.ValidateParams`: a pure function cannot show that `Atoi` is never called when a parameter is missing. It states only that the answer is then `MissingParam`, whatever the other string holds.
