# opsgenie-cli core, modelled in Dafny

This project models the core of `opsgenie-cli`, a command-line client for
the OpsGenie REST API. It covers three areas.

- **The API client** (`pkg/api`).
  - The rate-limit retry loop `do`: up to three retries, sleeping 1, 2 and 4 seconds.
  - The poller for asynchronous `202 Accepted` requests: one poll a second for at most 30 seconds.
  - The normalisation of error responses into `ErrorResponse` or a generic status error.
  - The pagination walk `ListAll`, which follows `paging.next` links and concatenates every page's `data`.
- **The output pipeline** (`pkg/output`).
  - The `--fields` filter, applied one level deep.
  - The `--jq` step. Zero outputs give `null`, one output gives itself, several give an array.
  - The choice between JSON, plaintext and table rendering.
  - The plaintext layout, and the `Error:`/`OK:` messages.
- **The command helpers** (`cmd`).
  - Comma splitting and trimming (`splitComma`, `trimSpace`, `splitFields`, `splitAndTrim`).
  - `parseResponders`.
  - The translation of flags into output options.
  - The table-cell readers `stringVal`, `nestedStringVal` and `joinStrings`.

The HTTP server is a script, `Server = nat -> Reply`: `server(i)` is what the
i-th `doRequest` of one operation returns. Every operation returns a `Run`,
which holds the outcome, the requests made in order and the seconds slept, so
the properties talk about how many requests go out and how long the client
waits. The jq engine (`gojq.Parse`/`Compile`/`Run`), `url.Values.Encode`,
`url.Parse`, Go's `%q` and the `%v` text of floats and maps are parameters of
the functions that use them.

Modules follow the source files.
- `Results`, `Text`, `JsonValues`: shared helpers (Go's `strings`, `strconv` and `encoding/json` as used here).
- `ApiTypes`: `pkg/api/types.go`.
- `ApiClient`, `ClientLemmas`: `do`, `doRequest`'s outcomes, the poller and `parseErrorResponse`.
- `ApiList`, `ListLemmas`: `ListAll`.
- `OutputFields`, `OutputJq`, `OutputRender`: `pkg/output/fields.go`, `jq.go` and `output.go`.
- `CmdRoot`, `CmdAlerts`, `CmdValues`: the helpers of `cmd/root.go`, `cmd/alerts.go`, `cmd/maintenance.go`, `cmd/forwarding_rules.go` and `cmd/custom_roles.go`.

Some behaviours of the code are easy to misread; the model follows the code:
- A list page whose `data` is `null` contributes one `null` element. The raw message `null` is not empty and does not start with `[`.
- A walk that collects no elements decodes `null` into the target, not `[]`, because a nil slice marshals to `null`.
- `ListAll` with a nil target always fails with "decode combined results".
- `splitFields` trims only spaces and tabs. `splitAndTrim` trims all Unicode white space.

## Model

| member | source | states |
|---|---|---|
| `ApiTypes.RenderRoundTrip` | pkg/api/types.go:35-37 | The text of `ErrorResponse.Error()` can be parsed back into the same code and message. |
| `ApiTypes.RenderInjective` | pkg/api/types.go:35-37 | Two API errors print alike exactly when their code and message are equal. |
| `ApiTypes.RenderMentions` | pkg/api/types.go:35-37 | The printed error contains the decimal code and the message. |
| `ApiTypes.DecodeErrorResponse` | pkg/api/types.go:29-33 | An object decodes exactly when its `message` member is a string or null and its `code` member an int64 numeral or null, and then the result holds those values. `null` gives an empty message and code 0. Any other value does not decode. |
| `ApiTypes.DecodePaging` | pkg/api/types.go:21-27 | An absent or `null` `paging` member leaves the pointer nil. A decoded block comes from an object, and its `next` is that object's `next` string. A `paging` member that is neither an object nor `null` is a type error. |
| `ApiTypes.DecodePagingLinks` | pkg/api/types.go:21-27 | A paging object decodes exactly when each of its four links is a string or null, and then every link is the member's text. |
| `JsonValues.StringMember` | pkg/api/types.go:30-31 | A Go string field is "" when its key is absent and the string when one is present. It is a type error exactly when the member is neither a string nor null. |
| `JsonValues.BoolMember` | pkg/api/client.go:283-285 | A Go bool field is false when its key is absent or null, and it is the member's own value when the member is a bool. It is a type error exactly when the member is neither a bool nor null. |
| `JsonValues.IntMember` | pkg/api/types.go:32 | A Go int field is 0 when its key is absent or null, and it is the value of an integer numeral that fits 64 bits. It is a type error exactly when the member is present, not null, and not such a numeral. |
| `JsonValues.IntMemberDecimal` | pkg/api/types.go:32 | The `%d` text of an integer decodes to that integer when it fits 64 bits, and is a type error when it does not. |
| `JsonValues.IntMemberRejectsFractions` | pkg/api/types.go:32 | Numerals with a fraction or an exponent, such as `1.5` and `1e2`, do not decode into an int. |
| `Text.Truncate` | pkg/api/client.go:347-352 | Text of at most `max` characters is kept whole. Longer text keeps its first `max` characters, followed by "...". |
| `Text.DecimalRoundTrip` | pkg/api/types.go:36 | The `%d` rendering of an integer parses back to that integer. |
| `Text.FirstIndex` | cmd/alerts.go:531 | The result is the position of the first occurrence of the character. None means the character does not occur. |
| `Text.SplitJoin` | cmd/alerts.go:514 | Splitting separator-free parts joined by a one-character separator gives the parts back. |
| `Text.JoinSplit` | cmd/alerts.go:514 | Joining the pieces of a split with the separator gives the original text. |
| `Text.TrimShape` | cmd/root.go:146-154 | Trimming keeps one contiguous block of the text, removes only trimmed characters, and leaves none at either end. |
| `Text.TrimIdempotent` | cmd/alerts.go:517 | Trimming twice is trimming once. |
| `Text.TrimEmpty` | cmd/root.go:146-154 | Text trims to "" exactly when all of its characters are trimmed ones. |
| `ApiClient.Decoded` | pkg/api/client.go:145-151 | A body decodes exactly when it is non-empty and parses as JSON, and then it decodes to the parsed value. |
| `ApiClient.MessageKeepsCause` | pkg/api/client.go:74-326 | Every error text keeps what its error carries. A retry failure keeps the retry count and the last error's whole text. An API error prints an `ErrorResponse` that parses back exactly. A generic status error names the status. A failed poll names the id and the complaint. A marshal failure keeps the encoder's complaint, and a transport failure is its own text. |
| `ApiClient.OfferedMessage` | pkg/api/client.go:320-322 | The offered message is non-empty only when the body decodes into an `ErrorResponse`, and it is that response's message. Whenever the body decodes into one, it is that message. |
| `ApiClient.BestEffort` | pkg/api/client.go:267-273 | The ignored-error decode leaves a value only in a real target that accepts the body's JSON. Whenever a real target accepts a decodable body, it leaves exactly the body's value. |
| `ApiClient.ParseErrorResponse` | pkg/api/client.go:320-327 | The result is an `ErrorResponse` exactly when the body offers a non-empty message, and it carries the HTTP status instead of the body's code. Otherwise it is the generic status error over the raw body. |
| `ApiClient.ParseErrorResponseNamesStatus` | pkg/api/client.go:320-327 | Whichever branch is taken, the error text names the HTTP status. |
| `ApiClient.GenericErrorBounded` | pkg/api/client.go:326 | The generic error quotes at most 500 characters of the body, plus "...". |
| `ApiClient.AsyncRequestId` | pkg/api/client.go:262-273 | The id is the body's `requestId` string, and it is given exactly when the body is an object, `requestId` and `result` both decode as strings, and the id is non-empty. |
| `ApiClient.PollStatus` | pkg/api/client.go:283-296 | A body that does not decode, or decodes to neither an object nor null, is a parse error. When `data` is an object, the status decodes exactly when `isSuccess` is a bool or null and `status` a string or null, and it holds those values. A decoded `null` body, a missing `data` member or a `null` one gives the zero status, so polling goes on; a `data` member that is neither an object nor `null` is a parse error. |
| `ApiClient.PollStep` | pkg/api/client.go:280-314 | A poll continues exactly when the reply is 2xx, decodes, is not successful and is not "failed" or "cancelled". A transport failure is wrapped with the request id, a non-2xx status is normalised, and an undecodable reply is a parse error. A successful status ends with the ignored-error decode of the body. A "failed" or "cancelled" state ends with an async failure naming the id and the state. |
| `ApiClient.PollLoop` | pkg/api/client.go:277-316 | The poller sends at most 30 polls, all GETs to `/v2/alerts/requests/<id>`, and sleeps one second per poll. A timeout happens only after every remaining poll was sent. |
| `ApiClient.Poll` | pkg/api/client.go:262-316 | A 202 body without a request id succeeds at once with no request. Otherwise every request is a poll of that id, at most 30 of them. |
| `ApiClient.Respond` | pkg/api/client.go:123-152 | A transport failure or a non-2xx status ends the call after one request. A 2xx other than 202 makes one request. Without a target or body it succeeds empty. With both, it succeeds exactly when the body decodes and the target accepts it, and then it holds the body's value. Otherwise it is "parse response". |
| `ApiClient.RespondAccepted` | pkg/api/client.go:134-137 | A 202 hands the request to the poller. The outcome is the poller's, and its polls, on the following replies, come after the one request. |
| `ApiClient.Attempt` | pkg/api/client.go:112-156 | The loop gives up exactly when every remaining attempt is rate limited. It then reports "exceeded 3 retries" after resubmitting the same request each time. |
| `ApiClient.Do` | pkg/api/client.go:67-156 | An unencodable body fails before any request. Otherwise the first request is the caller's, there are at most 4 + 30 requests, and the call gives up exactly when replies 0 to 3 are all 429. |
| `ClientLemmas.SleepSumFrom` | pkg/api/client.go:114-121 | The pauses before attempts a to k add up to 2^k - 2^(a-1) seconds. |
| `ClientLemmas.BackoffTotal` | pkg/api/client.go:114-121 | Before attempt k the client has slept 2^k - 1 seconds. |
| `ClientLemmas.BackoffDoubles` | pkg/api/client.go:114-121 | The first attempt does not wait, the second waits 1 second, and each later pause doubles the previous one. |
| `ClientLemmas.AttemptRetries` | pkg/api/client.go:128-132 | A rate-limited attempt resubmits the same request after its back-off, and the later attempts decide the rest. |
| `ClientLemmas.ChainedRuns` | pkg/api/client.go:114-132 | Any run in which each of steps a to k - 1 resubmits the request after its back-off ends like step k. It adds k - a copies of the request in front, and sleeps the back-offs of steps a to k - 1 more. |
| `ClientLemmas.AttemptResponds` | pkg/api/client.go:123-152 | An attempt that is not rate limited is decided by its own reply, with no extra request. |
| `ClientLemmas.AttemptAfterRateLimits` | pkg/api/client.go:116-153 | After rate limits on replies a to k - 1, attempt a has the outcome of attempt k. Its requests are k - a copies of the request followed by attempt k's, and it sleeps the back-offs of attempts a to k - 1 more. |
| `ClientLemmas.DoRetriesThenResponds` | pkg/api/client.go:112-156 | After k <= 3 rate limits, `do` has sent the request k times and slept 2^k - 1 seconds, and reply k alone decides the outcome. |
| `ClientLemmas.RateLimitedThenSuccess` | pkg/api/client.go:128-147 | k rate limits followed by a plain 2xx give success after k + 1 identical requests. |
| `ClientLemmas.DoGivesUp` | pkg/api/client.go:116-155 | Four 429s in a row give four requests, 7 seconds of sleep and "exceeded 3 retries: rate limited (429)". |
| `ClientLemmas.TransportFailureStops` | pkg/api/client.go:123-126 | A transport failure is returned at once, without a retry. |
| `ClientLemmas.ErrorStatusStops` | pkg/api/client.go:139-142 | A non-2xx status other than 429 is normalised and returned at once, without a retry. |
| `ClientLemmas.AcceptedIsFinal` | pkg/api/client.go:134-137 | After a 202 the poller's outcome is final, and every later request is a bodiless GET. |
| `ClientLemmas.AcceptedWithoutRequestId` | pkg/api/client.go:267-273 | A 202 naming no request id is a success after one request, holding whatever the body decodes to. |
| `ClientLemmas.PollLoopPending` | pkg/api/client.go:280-314 | A pending reply sends one poll after a one-second pause and carries on with the next poll. |
| `ClientLemmas.PollLoopStops` | pkg/api/client.go:280-314 | A reply that is not pending ends the loop after that one poll, with the poll's own outcome. |
| `ClientLemmas.PollLoopSkipsPending` | pkg/api/client.go:280-314 | Pending replies from poll p up to reply j put j - p polls, one second apart, in front of the loop from poll j, and the outcome is that loop's. |
| `ClientLemmas.PollLoopConcludes` | pkg/api/client.go:280-314 | Pending replies up to reply j and a conclusive reply j give j - p + 1 polls, one second apart, ending with reply j's outcome. |
| `ClientLemmas.PollLoopTimesOut` | pkg/api/client.go:277-316 | Thirty pending replies give thirty polls, thirty seconds of sleep and the timeout error. |
| `ClientLemmas.PollLoopTimeoutAllPending` | pkg/api/client.go:277-316 | A timeout happens only when every remaining reply was pending. |
| `ClientLemmas.TimeoutMessage` | pkg/api/client.go:316 | The timeout error names the request id and "30s". |
| `ClientLemmas.AsyncFailureMessage` | pkg/api/client.go:310-313 | A terminal failure's message names the request id and the final state. |
| `ClientLemmas.ProcessingThenSucceeded` | pkg/api/client.go:280-307 | One pending poll followed by a successful one gives two polls and success. |
| `ApiList.WithDefaultLimit` | pkg/api/client.go:188-195 | `limit` becomes "100" only when it is unset or empty. A set limit leaves the parameters unchanged, and every other key is kept. |
| `ApiList.DecodePage` | pkg/api/client.go:197-223 | A decoded page comes from a JSON body, and its `data` is the body's `data` member exactly, `null` included. |
| `ApiList.DecodePageMembers` | pkg/api/client.go:197-223 | `null` is the empty page. An object is a page exactly when its `paging` member decodes. The page's paging block is that member's, and it has `data` exactly when the object has a `data` member. An empty, malformed or other body is no page. |
| `ApiList.Flatten` | pkg/api/client.go:225-237 | An absent `data` contributes nothing, an array contributes its elements in order, and any other value contributes itself. |
| `ApiList.NextPath` | pkg/api/client.go:239-247 | The next path comes from a non-empty `next` link that parses. It is the parsed path, "?" and the raw query. |
| `ApiList.Combine` | pkg/api/client.go:250-258 | Decoding the combined elements succeeds exactly when a target accepts them. It yields `null` for no elements and otherwise their array. |
| `ApiList.PageError` | pkg/api/client.go:208-223 | A page reply ends the walk exactly when it is a transport failure, a non-2xx status, or a 2xx body that is no page. A transport failure is returned as it is. The walk reports "rate limited during pagination" exactly on a 429, normalises any other error status, and reports "parse page" for an undecodable 2xx body. |
| `ApiList.Walk` | pkg/api/client.go:205-248 | Every pagination request is a bodiless GET, the first one to the starting path, and the walk never sleeps. Rate limiting is reported only when the last reply was a 429. |
| `ApiList.FromPage` | pkg/api/client.go:225-248 | After a served page, the walk has the same guarantees as `Walk`. It collects the page's elements, then stops or follows the `next` link. |
| `ApiList.ListAll` | pkg/api/client.go:187-259 | The first request goes to the path plus the encoded parameters with `limit` defaulted. |
| `ListLemmas.WalkLastPage` | pkg/api/client.go:239-258 | A page without a next link ends the walk after one request, decoding everything collected so far. |
| `ListLemmas.WalkStopPage` | pkg/api/client.go:208-223 | A reply that ends the walk does so after one request, with that reply's error. |
| `ListLemmas.WalkCollects` | pkg/api/client.go:205-248 | A linked chain of pages makes one GET per page along the links, and the result is all pages' elements in page order. |
| `ListLemmas.WalkStopsEarly` | pkg/api/client.go:205-223 | A reply that ends the walk, after any chain of linked pages, stops it there with that reply's error. There is one GET per page along the links, plus the failed one. |
| `ListLemmas.WalkParsePage` | pkg/api/client.go:220-223 | A 2xx page that does not decode, after any chain of linked pages, stops the walk with "parse page" after one request per page reached. |
| `ListLemmas.WalkTransportFailure` | pkg/api/client.go:208-211 | A transport failure, after any chain of linked pages, is returned as it is after one request per page reached. |
| `ListLemmas.ListAllCollects` | pkg/api/client.go:187-259 | `ListAll` over a chain of pages sends one request per page, the first with the defaulted parameters, and returns every element in order. |
| `ListLemmas.TwoPageWalk` | pkg/api/client.go:225-247 | A page `[a, b]` linking to a page `[c]` gives `[a, b, c]` after two requests, the second to the link's path and query. |
| `ListLemmas.NonArrayDataIsOneElement` | pkg/api/client.go:226-236 | Non-array `data` is one element, `null` included. |
| `ListLemmas.NextPathOnlyNext` | pkg/api/client.go:239-247 | Pages whose paging blocks agree on `next` lead to the same next request. No other paging field matters. |
| `ListLemmas.DefaultLimitIdempotent` | pkg/api/client.go:193-195 | Defaulting the limit twice is defaulting it once. |
| `OutputFields.ToJsonValue` | pkg/output/fields.go:53-70 | Plain JSON values pass through unchanged. Other values become their JSON encoding. Normalisation fails exactly when the encoding fails. |
| `OutputFields.ApplyFieldFilter` | pkg/output/fields.go:28-49 | An object keeps exactly the requested keys it has, with their values unchanged. An array keeps its length. Scalars are returned as they are. |
| `OutputFields.FilterArrayElement` | pkg/output/fields.go:39-44 | Element i of a filtered array is element i of the input, filtered. |
| `OutputFields.FilterFields` | pkg/output/fields.go:13-25 | No fields leaves the value untouched. Otherwise the result succeeds exactly when normalisation does, and a failure carries the "normalize for field filter: " prefix. |
| `OutputFields.FilterIdempotent` | pkg/output/fields.go:28-49 | Filtering twice with the same fields is filtering once. |
| `OutputFields.FilterUsesFieldSet` | pkg/output/fields.go:31-36 | Only the set of requested fields matters, not their order or repetition. |
| `OutputFields.KeptValuesUnfiltered` | pkg/output/fields.go:30-37 | A kept member's value is not filtered itself, so the filter reaches one level deep. |
| `OutputFields.ArrayOfObjectsFiltered` | pkg/output/fields.go:39-44 | In an array of objects, each object keeps exactly its requested keys. |
| `OutputJq.Collect` | pkg/output/jq.go:34-45 | Draining the iterator succeeds exactly when no item is an error, and then it yields every value in order. Otherwise it reports the first error. |
| `OutputJq.ApplyJq` | pkg/output/jq.go:14-55 | Normalisation errors come first, then parse errors, then compile errors. A success is the collapsed stream of the compiled program run on the normalised value. |
| `OutputJq.ApplyJqEmits` | pkg/output/jq.go:34-54 | Zero outputs give `null`, one output gives itself, and several give their array. |
| `OutputJq.ApplyJqRaises` | pkg/output/jq.go:41-43 | An error anywhere in the stream fails the evaluation, whatever came before it. |
| `OutputJq.CollapseConflates` | pkg/output/jq.go:47-54 | One array output and the same values emitted one by one give the same result, and so do one `null` and no output. |
| `OutputJq.CollapseKeepsOrder` | pkg/output/jq.go:47-54 | With two or more outputs, position i holds output i. |
| `OutputRender.RenderJsonTo` | pkg/output/output.go:51-76 | With fields requested, a normalisation failure is a fields error. Jq errors arise only with an expression, and fields errors only with fields. With jq and no fields, the result fails exactly when jq on the data fails, with that failure as a "jq expression" error, and otherwise it is jq's output. Without either, plain data is printed as it is. |
| `OutputRender.FieldsBeforeJq` | pkg/output/output.go:51-68 | The fields filter runs before jq. |
| `OutputRender.JqSeesFilteredValue` | pkg/output/output.go:51-68 | The jq program receives the filtered value, and its outputs decide what is printed. |
| `OutputRender.FieldsOnly` | pkg/output/output.go:52-59 | With fields and no jq, the printed value is the filtered normalised value. |
| `OutputRender.JqOnly` | pkg/output/output.go:51-68 | With jq and no fields, jq runs on the data as it is. A jq failure is a "jq expression" error, and otherwise jq's collapsed output is printed. |
| `OutputRender.NeitherFieldsNorJq` | pkg/output/output.go:51-73 | With neither fields nor jq, the data is printed as it is, and it fails exactly when the value cannot be encoded. |
| `OutputRender.FilterFailureSkipsJq` | pkg/output/output.go:53-57 | A failed filter returns before jq runs, whatever the engine. |
| `OutputRender.PlaintextLines` | pkg/output/output.go:78-86 | There is one line per row, plus one for the headers when there are any. |
| `OutputRender.PlaintextLayout` | pkg/output/output.go:78-86 | The header line is the tab-joined headers, and line i after it is row i tab-joined. |
| `OutputRender.PlaintextRowRoundTrip` | pkg/output/output.go:82-84 | A row of cells without tabs or newlines can be recovered by splitting its line on tabs. |
| `OutputRender.EmptyRowsConflate` | pkg/output/output.go:82-84 | An empty row and a row of one empty cell print alike. |
| `OutputRender.TerminatedCount` | pkg/output/output.go:80-83 | Printing newline-free lines with `Fprintln` writes exactly one newline per line. |
| `OutputRender.PlaintextLineCount` | pkg/output/output.go:78-86 | Plaintext output has as many newlines as rows, plus one for the headers. |
| `OutputRender.RenderTable` | pkg/output/output.go:34-43 | JSON mode prints the raw data through the JSON path, plaintext prints the lines, and table mode prints the headers and rows. Headers are coloured exactly when `--no-color` is off, `NO_COLOR` is unset and stdout is a terminal. |
| `OutputRender.JsonModeIgnoresRows` | pkg/output/output.go:34-37 | In JSON mode the headers and rows make no difference. |
| `OutputRender.TextModesIgnoreData` | pkg/output/output.go:38-42 | In text modes the raw data makes no difference. |
| `OutputRender.ErrorText` | pkg/output/output.go:132-142 | Without colour the line is "Error: " and the message. Otherwise it is the painted label, a space and the message. Both are built by `OutputRender.Labelled`. |
| `OutputRender.SuccessText` | pkg/output/output.go:145-155 | Without colour the line is "OK: " and the message. Otherwise it is the painted label, a space and the message. |
| `OutputRender.UncoloredMessages` | pkg/output/output.go:132-155 | Uncoloured messages carry the message verbatim. Error and success lines never coincide, and two error lines are equal exactly when their messages are. |
| `CmdRoot.SplitComma` | cmd/root.go:131-144 | The one-pass splitter returns the comma-free pieces, one more than there are commas, and joining them with commas gives the input back. |
| `CmdRoot.TrimSpace` | cmd/root.go:146-154 | The result is the input with leading and trailing spaces and tabs removed, and it neither starts nor ends with either. |
| `CmdRoot.NonEmptyTrimmed` | cmd/root.go:120-129 | Every kept piece is non-empty and trimmed at both ends. There are never more pieces than the input has. |
| `CmdRoot.NonEmptyTrimmedMembers` | cmd/root.go:120-129 | A value is kept exactly when it is non-empty and is the trimmed form of some piece. |
| `CmdRoot.NonEmptyTrimmedKeeps` | cmd/root.go:120-129 | Pieces that are already trimmed and non-empty come back unchanged. |
| `CmdRoot.NonEmptyTrimmedBlank` | cmd/root.go:120-129 | Pieces made only of trimmed characters all vanish. |
| `CmdRoot.SplitTrimmedRoundTrip` | cmd/root.go:120-129 | Trimmed, non-empty, comma-free items joined with commas are parsed back as they were. |
| `CmdRoot.SplitTrimmedBlank` | cmd/root.go:120-129 | Text of commas and trimmed characters only yields no items. |
| `CmdRoot.SplitFields` | cmd/root.go:120-129 | Every field name is non-empty and already free of surrounding spaces and tabs. |
| `CmdRoot.GetOutputOptions` | cmd/root.go:43-57 | The mode is JSON exactly when `--json` is set, plaintext exactly when only `--plaintext` is set, and table otherwise. Colour and debug are copied. |
| `CmdRoot.GetOutputOpts` | cmd/root.go:109-118 | The mode, colour and debug are as above, the jq expression is taken verbatim, and the fields are the parsed `--fields` value. |
| `CmdRoot.JsonWins` | cmd/root.go:48-55 | `--json` overrides `--plaintext`. |
| `CmdRoot.FieldsFlagRoundTrip` | cmd/root.go:109-129 | Field names written with commas come back as the options' fields, in order. |
| `CmdAlerts.SplitAndTrim` | cmd/alerts.go:513-523 | Items are non-empty and free of surrounding white space. There are never more items than commas plus one. |
| `CmdAlerts.SplitAndTrimBlank` | cmd/alerts.go:513-523 | Text of commas and white space only gives no items. |
| `CmdAlerts.SplitAndTrimRoundTrip` | cmd/alerts.go:513-523 | Trimmed, non-empty, comma-free items joined with commas are parsed back as they were. |
| `CmdAlerts.ParseResponder` | cmd/alerts.go:530-540 | Without ':' the item names a team. Otherwise the type is the colon-free text before the first ':', and the name is the rest. |
| `CmdAlerts.ParseResponders` | cmd/alerts.go:527-542 | There is one responder per item, in order. |
| `CmdAlerts.ParseResponderRoundTrip` | cmd/alerts.go:531-539 | `type:name` with a colon-free type parses back to that responder, even when the name holds colons. |
| `CmdAlerts.ParseRespondersRoundTrip` | cmd/alerts.go:527-542 | Responders written as `type:name` and joined with commas are parsed back as they were. |
| `CmdValues.StringVal` | cmd/maintenance.go:227-235 | A missing key gives "". A present member reads as its `%v` text, because the string shortcut agrees with `%v`. |
| `CmdValues.NullIsNotMissing` | cmd/maintenance.go:227-235 | A present `null` reads "<nil>", unlike a missing key, while a present "" reads like a missing key. |
| `CmdValues.StringValLocal` | cmd/maintenance.go:227-235 | Only the member under the key matters. |
| `CmdValues.NestedStringVal` | cmd/forwarding_rules.go:213-220 | The result is "" unless the outer member is an object. Otherwise it is the `%v` of the inner member, or "" when the inner member is missing. |
| `CmdValues.NestedMissingConflated` | cmd/forwarding_rules.go:213-220 | A null outer member, a missing outer member and a missing inner key all read "". A null inner member reads "<nil>". |
| `CmdValues.JoinStrings` | cmd/custom_roles.go:196-205 | A non-array gives "". A one-element array gives its element's `%v`. |
| `CmdValues.JoinStringsOfStrings` | cmd/custom_roles.go:198-202 | An array of strings gives the strings in order, separated by `sep`. |
| `CmdValues.JoinStringsRoundTrip` | cmd/custom_roles.go:196-205 | An array of strings free of a one-character separator is recovered by splitting its joined text. |
| `CmdValues.JoinStringsConflates` | cmd/custom_roles.go:196-205 | An empty array and an array of one empty string both give "". |
| `CmdValues.JoinStringsScalars` | cmd/custom_roles.go:199-201 | Nil elements read "<nil>" and bools read as their names. |

## Left out

- Real HTTP, TLS, headers (`Authorization`, `User-Agent`, `Content-Type`), `buildURL`, `NewClient` and the region and base-URL override. The server is a script of `doRequest` outcomes.
- Time. Sleeps are counted in seconds rather than performed. The 30 s poll deadline is modelled as 30 polls, which assumes a server that answers instantly.
- `debugLog` and every `--debug` trace, `ParseRateLimit` and the `X-RateLimit-*` headers. They influence no outcome.
- `ApiList.ListAll`: a page budget `fuel` bounds the walk, and None means the budget ran out. The source follows links for as long as the server supplies them.
- `url.Values.Encode` and `url.Parse` are parameters. Their escaping and parse errors are not modelled.
- The `%v` text of float64 numbers and of maps, Go's `%q` quoting, and the text of encoding/json's and gojq's own error messages. Those errors are modelled by kind, or with their text as a parameter.
- gojq itself. The engine is a parameter mapping an expression to a parse failure, a compile failure or a program producing a stream of values and errors.
- `OutputJq.ApplyJq`: a gojq program may run forever, such as `repeat(.)`, and then the drain loop of `applyJQ` (pkg/output/jq.go:34-45) never returns. Model programs produce finite streams, so divergence is not modelled.
- tablewriter's layout and ANSI colouring. Table mode is modelled by which headers, rows and colour choice reach the table writer. `shouldColor`'s TTY check is a parameter.
- `json.MarshalIndent`'s indentation and `Fprintln`'s write errors. The JSON path ends with the value that would be printed.
- The "unmarshal:" branch of `toJSONValue` (pkg/output/fields.go:66-67). Re-decoding into `interface{}` fails only for a numeral outside float64's range, such as `1e400` written by a `json.Number`, `json.RawMessage` or `*big.Int`. Model numbers are literals with no range, so the model never takes this branch.
- The "marshal combined results" and "unmarshal page data" branches of `ListAll`. They re-encode and re-decode raw messages that encoding/json already accepted.
- Case-insensitive matching of JSON keys onto Go struct fields, and duplicate keys in objects, since objects are maps.
- Byte-level string handling. Command helper strings are sequences of code points, so invalid UTF-8 is not modelled.
- `OutputFields.ToJsonValue`: the source's encode-and-decode turns every number into a float64, so integers beyond 2^53 and long fractions come out rounded and re-printed in shortest form. The model keeps each number's literal text unchanged.
- `OutputRender.PrintStep`: `json.MarshalIndent` fails with "json marshal" (pkg/output/output.go:70-73) on a NaN or infinite number that jq produced. Model JSON values hold no such numbers, so printing a plain value never fails.
- `ApiList.WithDefaultLimit`: it returns a new set of values. The source's `params.Set` also writes `limit` into the caller's own `url.Values` (pkg/api/client.go:193-195), a side effect the model does not show.
- `ApiClient.BestEffort`: encoding/json skips a mistyped field and keeps decoding, so every well-typed field, before or after it, stays set in the target. The model leaves the target empty for any body the target does not accept whole.
- `ApiClient.PollStatus`: the declaration of `RequestResult` is not part of this model. It is taken to hold a bool `isSuccess` and a string `status`, and every other member of `data` is ignored.
- `ApiClient.Message`: the `: %w` suffix that carries encoding/json's own complaint is dropped from "parse response", "parse poll response", "parse page" and "decode combined results".
- `Text.Truncate`: it counts characters. The source's `len(s)` and `s[:max]` count bytes, so text with multi-byte characters is cut at a different place, possibly inside a character.
- Responders are records with a name and a type rather than `map[string]string`.
- `CmdAlerts.SplitAndTrim`: the membership property of the kept items is stated once, for any trimming predicate, by `CmdRoot.NonEmptyTrimmedMembers`.
- The Cobra command definitions, flag registration, the per-resource commands and the authentication package. They only wire the modelled helpers to the API.
