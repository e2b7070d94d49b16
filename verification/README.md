# caddy-modules: the chrome and auth_request handlers in Dafny

This project models the two HTTP middleware handlers of the caddy-modules repository.

**chrome** (`chrome/chrome.go`) renders pages server-side in a headless browser.
- The downstream handler's response is captured when its Content-Type contains an entry of the MIME allow-list. The list defaults to `text/html`.
- A browser session then loads `http://` + host + request URI.
- Every request the browser pauses is answered in one of two ways:
  - from the captured response, when it is the navigation itself;
  - otherwise by re-entering the server with the pause's method, URL and headers.
- The answer's headers are flattened into one entry per value, and its body is sent in standard padded base64.
- Once the page has loaded, its `outerHTML` replaces the captured body behind a `<!doctype html>` line. Four headers that no longer describe the body are deleted.

**auth_request** (`auth_request/auth_request.go`) delegates authorisation.
- It sends a GET sub-request to a configured URI, resolved against the request URL. The sub-request carries the request's headers minus Content-Type and Content-Length.
- The sub-response status decides the outcome:
  - 401 and 403 become HTTP errors with those statuses;
  - any other status outside 2xx is a plain error naming the code;
  - a 2xx status hands the request to the next handler.

Modules:
- `Wrappers`: Option and Result.
- `Http`:
  - the header multimap with Get/Set/Add/Del;
  - error values and requests;
  - the trace of calls a handler makes on its response writer (`WriterOp`), with the status, header and body that a trace leaves.
- `Base64`: the encoding of section 4 of RFC 4648, with a decoder and the round trip proved.
- `Decimal`: the `%d` text of an integer, with a parser and the round trip proved.
- `Chrome` and `AuthRequest`: the two handlers.

State that the Go code changes in place is modelled as Dafny classes with fields and `modifies` clauses:
- the handler configuration;
- both `subResponseWriter`s;
- the captured response that is rewritten.

Loops over maps and slices are methods with loop invariants. Each is proved against a specification function or predicate:
- the header copy;
- the header flattening;
- the MIME scan;
- the replay of a handler's calls;
- the relay over paused requests;
- the Caddyfile token loops.

The parts the model does not execute are parameters:
- the browser, whose calls become given outcomes (`BrowserSteps`);
- the server re-entry, a function from a request to the writer calls it makes;
- the next handler;
- URL parsing and resolution;
- request validation.

Behaviour worth knowing, as the code has it:
- The target and browser context are closed only on the path that renders: there is no deferred CloseTarget or DisposeBrowserContext. Every error return after CreateTarget and before CloseTarget (a later setup step, navigation, evaluation or the decoding of its result) leaves the target and the context open; a failed setup step after CreateBrowserContext leaves the context open (`TeardownOnlyAfterRender`, `SetupFailureLeavesOpen`).
- The navigation URL always uses `http`. A document loaded over https is never recognised as the navigation (`HttpsDocumentIsSubResource`).
- The auth sub-response status starts at 0 and changes only through `WriteHeader`. An auth endpoint that writes a body without calling `WriteHeader` is therefore refused as "unexpected error code [0]" (`NoWriteHeaderIsUnexpected`).
- An empty entry in the MIME list matches every Content-Type, including a missing one (`EmptyEntryCapturesAll`).
- In the auth_request Caddyfile block, `d.Next()` after `uri` also yields the block's closing brace. A bare `uri` as the last entry therefore stores `}` as the URI with no error (`BareUriTakesBrace`); the argument error for a missing value is returned only when `uri` is the very last token of all.
- The chrome Caddyfile reader keeps the last token it sees. For a bare `chrome` directive, that token is the directive name itself.

## Model

| member | source | states |
|---|---|---|
| Chrome.ProvisionIdempotent | chrome/chrome.go:39-61 | a nil list becomes `["text/html"]`; provisioning always leaves a list, keeps a configured one (even an empty one), and a second provisioning changes nothing |
| Chrome.Chrome.Provision | chrome/chrome.go:56-61 | the MIMETypes field becomes the default only when it was nil; the URL is untouched |
| Chrome.Chrome.UnmarshalCaddyfile | chrome/chrome.go:273-278 | the URL ends as the last token the dispenser yields, is unchanged when there is none, and the MIME list is untouched |
| Chrome.Chrome.ShouldBuffer | chrome/chrome.go:67-75 | the scan returns true exactly when some list entry is a substring of the response's Content-Type value |
| Chrome.DefaultCapturesHtml | chrome/chrome.go:39 | with the default list a response is captured iff its Content-Type contains `text/html`; `text/html; charset=utf-8` is captured, `application/json` is not |
| Chrome.EmptyEntryCapturesAll | chrome/chrome.go:69-71 | a list holding the empty string captures every response, whatever its Content-Type |
| Chrome.Chrome.ServeHTTP | chrome/chrome.go:63-261 | a downstream error is returned unchanged with no browser call; an uncaptured response returns no error with no browser call and no rewrite; a captured one follows the browser steps (`Render`) with the browser sent to `http://` + host + request URI, which it is iff the response was captured and setup succeeded; the relay then runs against that same URL and the captured response (`Relayed`); a rewrite happens iff the response was captured and every browser step succeeded |
| Chrome.RewriteOnlyAfterSuccess | chrome/chrome.go:214-261 | the rewrite is reached iff navigation, evaluation, target closing and context disposal all succeeded; it is then the rewrite of the captured response, and the error returned is WriteResponse's; on any other path an error is returned |
| Chrome.NavigationFollowsSetup | chrome/chrome.go:214 | the browser is navigated once, to the given URL and no other, right after the complete setup, and not at all when a setup step failed |
| Chrome.NavigationErrorTextFails | chrome/chrome.go:219-221 | a navigation that reports error text fails with that text and nothing is rewritten |
| Chrome.SetupFailureLeavesOpen | chrome/chrome.go:87-146 | a failed setup step closes nothing; the context stays open when the failure comes after CreateBrowserContext, the target too when it comes after CreateTarget |
| Chrome.TeardownOnlyAfterRender | chrome/chrome.go:239-250 | CloseTarget is called only after navigation and evaluation succeeded, DisposeBrowserContext only after a successful close; when navigation or evaluation fails, the created context and target are left open |
| Chrome.HttpsDocumentIsSubResource | chrome/chrome.go:148 | the navigation URL is always `http://` + host + request URI, so a paused https URL never counts as the navigation |
| Chrome.NavigationIsPrimary | chrome/chrome.go:169-170 | a paused Document load of exactly the navigation URL is the primary navigation |
| Chrome.OthersAreSubResources | chrome/chrome.go:169-171 | a pause of another resource type, or of any other URL, goes to a sub-request |
| Chrome.NavigationReusesCapture | chrome/chrome.go:169-170 | the navigation is answered with the captured response itself, without re-entering the server |
| Chrome.SubRequestCarriesPause | chrome/chrome.go:172-189 | a sub-resource is answered by serving a request with the pause's method and URL whose headers are exactly the decoded keys, one value each |
| Chrome.CopyHeaders | chrome/chrome.go:181-183 | the Set loop yields a header with exactly the decoded keys, each holding exactly its one decoded value |
| Chrome.SubResponseWriter.Write | chrome/chrome.go:304-306 | the data is appended to the buffer and its length returned with no error; status and header unchanged |
| Chrome.SubResponseWriter.WriteHeader | chrome/chrome.go:308-310 | the status becomes the argument; header and buffer unchanged |
| Chrome.SubResponseWriter.Perform | chrome/chrome.go:296-310 | one handler call changes only what it names: status, the header map Header() returns, or the buffer |
| Chrome.SubResponseWriter.Replay | chrome/chrome.go:286-310 | after a handler's calls, the status is the last WriteHeader argument, the header map has every header change applied in order, and the buffer has every write appended in order |
| Chrome.SubResponseStatus | chrome/chrome.go:292-294 | a sub-response reports the last status set, or 0 when none was set |
| Chrome.FlattenHeaders | chrome/chrome.go:193-202 | the entries list every value of every header name once: each name's values in their order, as many entries as values in total |
| Chrome.AppendEntries | chrome/chrome.go:195-200 | the inner loop appends one entry per value of the header name, in value order |
| Chrome.EntryNamesAreHeaderNames | chrome/chrome.go:194-199 | every entry's name is a header of the response and its value one of that header's values |
| Chrome.FlattenRoundTrip | chrome/chrome.go:193-202 | adding the entries back into a header map gives the response header, less any name that holds no value |
| Chrome.Exchange | chrome/chrome.go:167-203 | one relay step fails exactly when the route fails (request refused or header JSON malformed) and with that fault; otherwise the fulfillment carries the pause's id, the chosen response's status, its flattened headers and its base64 body |
| Chrome.FulfillmentBodyRoundTrip | chrome/chrome.go:203 | the fulfillment body decodes back to exactly the response's bytes |
| Chrome.Relay | chrome/chrome.go:150-212 | paused requests are fulfilled one at a time in arrival order; every fulfilled one had no fault; the loop stops at the first fault, which is the fault of the next pause |
| Chrome.NavigationServedFromOrigin | chrome/chrome.go:148-203 | in the relay the handler runs, every fulfilled document load of the navigation URL carries the pause's id, the origin's status, every value of the origin's headers, and a body that decodes to the origin's bytes |
| Chrome.Rewritten | chrome/chrome.go:252-259 | the rewritten response keeps the status, drops Content-Length, Accept-Ranges, Etag and Last-Modified, keeps every other header with its values, and its body is `<!doctype html>\n` followed by the markup |
| Chrome.CapturedResponse.Rewrite | chrome/chrome.go:252-259 | the four Del calls and the buffer Reset and WriteString calls leave the recorder holding the rewritten response |
| Base64.Encode | chrome/chrome.go:203 | the encoding has four characters per started group of three bytes |
| Base64.DecodeSextet | chrome/chrome.go:203 | a decoded character is a 6-bit value that encodes back to it; `=` decodes to nothing |
| Base64.DecodeEncode | chrome/chrome.go:203 | decoding the encoding of any byte sequence gives it back |
| Http.StatusIsLastWriteHeader | chrome/chrome.go:308-310 | the recorded status is the argument of the last WriteHeader call |
| Http.StatusWithoutWriteHeader | auth_request/auth_request.go:114-116 | without a WriteHeader call the recorded status stays what it was |
| Http.WrittenConcat | chrome/chrome.go:304-306 | the bytes written by two call sequences in turn are the concatenation of each one's bytes |
| AuthRequest.AuthRequest.Provision | auth_request/auth_request.go:34-41 | provisioning returns the parse error of the configured URI and keeps the parsed URI only when there is none |
| AuthRequest.AuthRequest.ServeHTTP | auth_request/auth_request.go:43-73 | a request-construction error is returned with no sub-request; otherwise the sub-request is a GET to the URI resolved against the request URL, with every header but Content-Type and Content-Length and their values; next runs iff the sub-status is 2xx and its result is returned, otherwise the status's error is returned |
| AuthRequest.SubResponseWriter.Write | auth_request/auth_request.go:110-112 | writing returns the data's length and no error, and changes nothing |
| AuthRequest.SubResponseWriter.WriteHeader | auth_request/auth_request.go:114-116 | the status becomes the argument; the header is unchanged |
| AuthRequest.SubResponseWriter.Perform | auth_request/auth_request.go:106-116 | one handler call changes only what it names: the status, or the header map Header() returns; a write changes nothing |
| AuthRequest.SubResponseWriter.Replay | auth_request/auth_request.go:101-116 | after a handler's calls, the status is the last WriteHeader argument (0 if none) and the header map has every header change applied |
| AuthRequest.Judge | auth_request/auth_request.go:64-70 | Allow iff the status is 2xx; Unauthorized iff 401; Forbidden iff 403; Unexpected, carrying the status, iff it is outside 2xx and neither 401 nor 403 |
| AuthRequest.VerdictError | auth_request/auth_request.go:64-70 | no error iff allowed; 401 and 403 are HTTP errors with those statuses; any other refusal is a plain error |
| AuthRequest.UnexpectedMessageNamesCode | auth_request/auth_request.go:69 | the plain error's message is the fixed text with the status in brackets, and the bracketed text reads back as that status |
| AuthRequest.NoWriteHeaderIsUnexpected | auth_request/auth_request.go:101-116 | an auth endpoint that never calls WriteHeader gets the request refused as unexpected code 0 |
| AuthRequest.TestTable | auth_request/auth_request_test.go:15-119 | sub-statuses 200, 401, 403, 400 and 500 in front of a 200 handler give the client 200, 401, 403, 500 and 500 |
| AuthRequest.AuthRequest.UnmarshalCaddyfile | auth_request/auth_request.go:84-99 | reading the blocks leaves the URI and error that the block grammar gives, stopping at the first error |
| AuthRequest.BlockAccepts | auth_request/auth_request.go:86-95 | a block followed by its closing brace is accepted iff every key in it is `uri`; the URI is then unchanged for an empty block, the last value when every `uri` has one, and `}` when the last `uri` has none |
| AuthRequest.BareUriTakesBrace | auth_request/auth_request.go:88-92 | a bare `uri` just before the closing brace is accepted and stores `}` as the URI |
| AuthRequest.UnknownKeyRejected | auth_request/auth_request.go:93-94 | the first key other than `uri` (and other than the closing brace) is refused by name with an argument error |
| AuthRequest.ParseBlocksAccepts | auth_request/auth_request.go:84-99 | the configuration is accepted iff every block is; the URI is then the one the last non-empty block leaves (`LastUri`), the starting one when all blocks are empty, and a trailing empty block changes nothing |

## Left out

- The DevTools session is not executed. Each of its calls (Version, dialling, session manager, browser context, target, Page and Fetch enabling, the event clients, Navigate, Evaluate, CloseTarget, DisposeBrowserContext) is a given outcome in `BrowserSteps`. The JSON decoding of the evaluation result is one of those outcomes.
- Chrome.Chrome.ServeHTTP runs the relay to its end once setup is complete, before navigating. In the code the relay goroutine runs concurrently with navigation, evaluation and teardown; that interleaving is not modelled, and neither are the `select` on cancellation and readiness, `Recv` (the relay's input is a given stream of deliveries) and the wait for the load event.
- A panic in the relay is the `Fault` that ends `Relay` and is returned beside the handler's result. The model does not capture that the panic takes down the whole process.
- The deferred Close calls on the connections and the session manager are not modelled. They are I/O.
- `caddyhttp.NewResponseRecorder`, `Buffered` and `WriteResponse` are library code. The downstream handler's run is a given `OriginRun`, and WriteResponse's error is a given outcome. The model takes `Buffered()` to be the `ShouldBuffer` result for the status and header the downstream handler declared; a recorder that was never written to is not distinguished.
- `json.Unmarshal` of the paused request's headers is a given result: `None` when the JSON is malformed.
- `http.NewRequestWithContext`'s validation is a parameter in both handlers.
- `url.Parse` and `ResolveReference` (section 5.2 of RFC 3986) are parameters.
- Header-name canonicalisation (`CanonicalMIMEHeaderKey`) is not modelled. Header names are taken to be canonical already.
- Map iteration order is not modelled. The header copy and the flattening pick names in an unspecified order, and their contracts hold for every order.
- The Caddyfile dispenser's line handling is not modelled. A block is given as the list of tokens between its braces, without a bare `}`, and the dispenser yields them followed by the closing brace. When that brace is taken as the value of `uri`, the real dispenser would go on reading whatever tokens follow the block; the model ends the block there, which agrees with a dispenser that holds one directive. Tokens on the directive's own line and nested braces are not modelled.
- `sync.Pool` buffer pooling, module registration, the `parseCaddyfile` wrappers, zap logging and the `fmt.Println` debug output are not modelled. None of them changes a result.
- Request contexts and cancellation are not modelled, except as the end of the relay's stream.
- AuthRequest.AuthRequest.ServeHTTP requires a provisioned handler, as the server guarantees. An unprovisioned handler would dereference a nil URL.
- Caddy's mapping from a returned error to a client status appears only as `ClientStatus`, used by `TestTable`.
- chrome/x/app.js is not part of this model. It runs inside the browser.
