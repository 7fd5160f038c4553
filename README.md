# Binance proxy request pipeline in Dafny

This project models the request handler of a small reverse proxy that sits in front of the
Binance REST API (`ProxyServer.ProxyRequest` in `main.go`). For each inbound request the
handler does the following:

- It answers a CORS preflight (`OPTIONS`) itself.
- It strips a leading `/api` from the path and makes sure the path starts with `/`.
- It turns a comma-separated `symbols` query parameter into the JSON array the upstream expects.
- It copies the inbound headers, except for the host and connection-management headers. It pins `Accept-Encoding` and supplies a `User-Agent`.
- It calls the HTTP client once.
- It relays the answer: the body is decoded when gzip was declared and decoding succeeds, the upstream headers are copied, a `Content-Type` is chosen, the CORS headers are asserted, and `Content-Length` is rewritten when needed.

Every failure of the proxy itself becomes a JSON error envelope with its own status and code.

The modules follow the handler's stages:

- `Text`: the pieces of Go's `strings` and `fmt` packages the handler relies on. These are `HasPrefix`, `TrimPrefix`, `ToLower`, `TrimSpace`, `Split` and `%d`, together with their inverses and properties.
- `Json`: `json.Marshal` of a list of strings, with the escaping rules of Go 1.22 and later (HTML escaping on; backspace and form feed written as `\b` and `\f`). It comes with a reader for the arrays it writes, which gives the round trip.
- `Http`: header and query multimaps (`http.Header`, `url.Values`). It also holds gin's response writer as a class whose methods update its status, headers and body, and the uninterpreted collaborators in `World`. Those are request construction, the HTTP round trip, gzip decoding, the JSON validity test and `url.Values.Encode`.
- `PathRewrite`, `QueryRewrite`, `RequestHeaders`, `ResponseRelay`: the stages of the handler. Each stage has a specification function. `QueryRewrite`, `RequestHeaders` and `ResponseRelay` also hold the imperative code proved against it. `PathRewrite` is functions only: the handler's step-by-step reassignment of the path and the target URL is in `Proxy.ProxyRequest`, proved against `TargetUrl` and `OutboundFor`. Go map iteration order is arbitrary, so the loops over maps pick any remaining key, and every order is verified.
- `Proxy`: the whole handler. `Handle` is the specification function and `ProxyRequest` the method on the response writer. The lemmas beside them cover each outcome.

The model follows the code where the code and its own comments part ways. The comment at main.go:239 says Content-Encoding is dropped because the body was decompressed. The comment at main.go:243 says Content-Length is dropped because decompression may change it. The conditions under them (main.go:240 and main.go:244) only test that gzip was declared. So a declared gzip body that cannot be decoded is relayed still compressed, with no `Content-Encoding`, and with `Content-Length` set to the length of the compressed bytes. `ResponseRelay.UndecodableGzipRelayed` states this behaviour.

## Model

| member | source | states |
|---|---|---|
| Text.HasPrefixPointwise | main.go:75 | a text has a prefix exactly when the prefix is no longer than the text and agrees with it character by character |
| Text.HasPrefixConcat | main.go:80 | a prefix followed by anything starts with that prefix, and a text with a prefix is the prefix followed by the rest |
| Text.ToLower | main.go:143 | every ASCII upper-case letter becomes its lower-case letter, every other character is kept, and no upper-case letter remains |
| Text.TrimPrefix | main.go:75-77 | with the prefix present, prefix + result is the input; otherwise the input is returned unchanged |
| Text.TrimSpace | main.go:99-101 | the result neither starts nor ends with white space, and sits inside the input with only white space before and after it |
| Text.TrimPadded | main.go:99-101 | a piece padded with at most one space on each side trims back to the piece |
| Text.TrimSpaceAbsent | main.go:99-101 | trimming only removes characters: a character absent from the input is absent from the result |
| Text.Split | main.go:97 | one piece more than there are separators, and no piece contains the separator |
| Text.JoinSplit | main.go:97 | joining the pieces of a split with the separator gives back the original value |
| Text.SplitJoin | main.go:97 | splitting a join of separator-free pieces gives back the pieces |
| Text.SplitPair | main.go:97 | two separator-free pieces around one separator split into exactly those two pieces |
| Text.Decimal | main.go:276 | `%d` of a length is a non-empty string of digits with no leading zero |
| Text.DecimalRoundTrip | main.go:276 | the digits written for a length read back as that length |
| Json.EscapeChar | main.go:103 | a character is written as itself exactly when it is not a control character, quote, backslash, `<`, `>`, `&`, U+2028 or U+2029; otherwise as a two- or six-character escape starting with a backslash; no control, HTML-sensitive or line-separator character ever appears in the output |
| Json.EscapePlain | main.go:103 | letters and digits are written by json.Marshal without escapes |
| Json.EscapeCharRead | main.go:103 | each escape json.Marshal writes for one character is read back as that character |
| Json.EscapeRoundTrip | main.go:103 | an escaped string followed by its closing quote reads back as the string |
| Json.MarshalStrings | main.go:103 | the marshalled list is a JSON array: it starts with `[` and ends with `]` |
| Json.MarshalRoundTrip | main.go:103-106 | whatever list is marshalled, reading the JSON array back gives exactly that list |
| Http.Get | main.go:159 | the first value stored under the key whenever the key has one; "" for a missing key or an empty list |
| Http.Add | main.go:153-155 | the value is appended to the key's list, and every other key is unchanged |
| Http.Set | main.go:106 | the key holds exactly the one value, and every other key is unchanged |
| Http.Lookup | main.go:275 | the response header's value, or "" when the key is absent |
| Http.LookupAfterPut | main.go:275 | after a Context.Header write, the key reads as the value written and every other key as before |
| Http.Put | main.go:248 | gin's Context.Header sets the key, or deletes it when the value is empty, and leaves every other key alone |
| Http.PutIfAbsent | main.go:280 | Content-Type is written by the render step only when the response has none |
| Http.ResponseWriter.constructor | main.go:60 | the handler starts from status 200, no body and whatever headers earlier middleware set |
| Http.ResponseWriter.Header | main.go:63-66 | a header write changes only the headers, as Put does |
| Http.ResponseWriter.Status | main.go:67 | only the status changes |
| Http.ResponseWriter.Data | main.go:280 | status and raw body are written; Content-Type is added only when absent |
| Http.ResponseWriter.Json | main.go:133-137 | status and error envelope are written; the JSON Content-Type is added only when absent |
| PathRewrite.NormalizePath | main.go:72-82 | the upstream path always starts with "/"; it ends with the inbound path minus one leading "/api" and adds at most that "/", and adds it exactly when that remainder does not start with "/" |
| PathRewrite.TargetUrl | main.go:85-119 | the URL is base + normalised path, followed by "?" and the encoded query exactly when the query has a key |
| PathRewrite.ExampleVersionedPath | main.go:75-77 | "/api/ticker/24hr" goes upstream as "/ticker/24hr" |
| PathRewrite.ExampleRelativePath | main.go:80-82 | "ticker/price" goes upstream as "/ticker/price" |
| PathRewrite.ExampleBarePrefix | main.go:75-82 | "/api" alone goes upstream as "/" |
| PathRewrite.ExampleTextualMatch | main.go:75-82 | the prefix match is textual: "/apix" goes upstream as "/x" |
| PathRewrite.StripsOnlyOnce | main.go:75-77 | only one "/api" is removed: "/api/api" + rest goes upstream as "/api" + rest |
| QueryRewrite.RewriteSymbols | main.go:88-112 | the set of keys is unchanged and no other key is touched; a first `symbols` value that starts with "[" leaves the query as it is; otherwise `symbols` holds exactly one value, the JSON array of the trimmed comma-separated pieces |
| QueryRewrite.RewriteIdempotent | main.go:95 | rewriting a rewritten query changes nothing more |
| QueryRewrite.RewrittenSymbolsReadBack | main.go:97-106 | the rewritten parameter has one value, and it reads back as a JSON array of exactly the trimmed pieces |
| QueryRewrite.SymbolsArePieces | main.go:97-101 | one symbol per comma-separated piece, each being the trimmed piece and free of commas; the pieces joined by commas give back the original value |
| QueryRewrite.TwoSymbolsConverted | main.go:89-106 | two plain symbols separated by a comma, with or without a space around the second, become `["A","B"]` |
| QueryRewrite.TrimEach | main.go:99-101 | every element of the slice is replaced in place by its trimmed form |
| QueryRewrite.SplitAndTrim | main.go:97-101 | the trimmed pieces built in a fresh slice are the symbols of the value |
| QueryRewrite.NormalizeSymbols | main.go:88-112 | the handler's rewrite of its copy of the query equals RewriteSymbols |
| RequestHeaders.OutboundHeaders | main.go:142-161 | no host, connection or keep-alive header goes upstream; Accept-Encoding is present, as "gzip, deflate" only, exactly when the client sent one; every other header is copied with all its values in order; User-Agent is the client's list, or "Binance-Proxy/1.0" when its first value is empty or missing |
| RequestHeaders.CopiedStep | main.go:142-156 | visiting one more key drops it, pins Accept-Encoding or adds its values, and changes nothing else |
| RequestHeaders.AddAll | main.go:153-155 | adding a header's values one at a time stores the whole list in order |
| RequestHeaders.FilterRequestHeaders | main.go:142-161 | the header copy, whatever order the map yields keys in, produces OutboundHeaders |
| ResponseRelay.SendBody | main.go:200-215 | the decoded body is sent only when gzip was declared and decoding succeeded; otherwise the bytes are sent as received |
| ResponseRelay.ContentTypeFor | main.go:253-266 | a non-empty upstream Content-Type is kept; otherwise the type is "application/json" exactly when the body is empty or valid JSON, and "text/plain; charset=utf-8" when it is not |
| ResponseRelay.CopyValues | main.go:247-249 | writing a header's values one by one leaves its last value, or no entry when that value is empty |
| ResponseRelay.CopyHeaders | main.go:237-250 | the response-header copy, whatever order the map yields keys in, produces the order-independent copy with the gzip exclusions |
| ResponseRelay.WithCors | main.go:269-272 | the three CORS headers hold the proxy's values and every other header is unchanged |
| ResponseRelay.Relay | main.go:192-280 | the response ends with the upstream status, the chosen body and exactly the relayed headers |
| ResponseRelay.CopiedStep | main.go:237-250 | copying one more upstream key changes only that key |
| ResponseRelay.LastValueWins | main.go:247-249 | a copied header ends with its last upstream value, or is absent when that value is empty |
| ResponseRelay.CorsAndTypeAsserted | main.go:253-272 | Content-Type and the CORS headers hold the proxy's values whatever the upstream sent |
| ResponseRelay.GzipDeclaredHeaders | main.go:237-277 | with gzip declared, the upstream Content-Encoding is never copied and Content-Length is the length of the body sent |
| ResponseRelay.PlainContentLength | main.go:275-277 | without gzip, a non-empty upstream Content-Length is relayed as is, and a missing one is set to the body length |
| ResponseRelay.UndecodableGzipRelayed | main.go:200-246 | an undecodable gzip body is sent compressed, with no Content-Encoding and its own length as Content-Length |
| ResponseRelay.DecodedGzipRelayed | main.go:200-246 | a decodable gzip body is sent decoded, with no Content-Encoding and the decoded length as Content-Length |
| Proxy.ProxyRequest | main.go:60-281 | the request sent upstream and the final response are exactly those of Handle, whatever order the header maps yield keys in |
| Proxy.PreflightShortCircuit | main.go:62-69 | OPTIONS sends nothing upstream and answers 200 with the CORS headers and a max-age of 3600; nothing else changes |
| Proxy.ConstructionFailure | main.go:131-139 | a request http.NewRequest refuses is never sent and is answered 500 with code -1000 |
| Proxy.TransportFailure | main.go:164-173 | a failure of the one HTTP client call is answered 502 with code -1000 |
| Proxy.BodyReadFailure | main.go:177-186 | an answer whose body cannot be read is answered 500 with code -1001 |
| Proxy.UpstreamStatusRelayed | main.go:192-280 | a readable answer is relayed with its status unchanged, including error statuses, and with the body and headers of the relay |

## Left out

- `HealthCheck`, `TestConnection`, `setupRouter`, the Swagger routes, `main` and `min` are not modelled. They are the surrounding service, not the request pipeline.
- The debug block that parses and pretty-prints the body (main.go:217-234) only feeds commented-out logging, so it is not modelled.
- The network is not modelled: the client, its 30-second timeout, connection reuse and streaming of request bodies. The one call of the HTTP client, with the body read, is the uninterpreted `World.dispatch`.
- What net/http does inside the client call is part of `World.dispatch` and is not modelled: it follows up to 10 redirects, so the status relayed is the one after them; its Transport may resend an idempotent request on a dead pooled connection; and when the request carries no `Accept-Encoding` it asks for gzip itself, decodes the body and removes `Content-Encoding` and `Content-Length`, so the handler's gzip branch (main.go:201, main.go:240, main.go:244) is reached only when the client sent an `Accept-Encoding` that main.go:150 pinned.
- `http.NewRequest`'s URL and method checks are not modelled. They are the uninterpreted `World.accepts`.
- The gzip algorithm is not modelled. Decoding is `World.gunzip`, and a failure to create the reader and a failure to read are the same `None`.
- `json.Unmarshal`'s JSON grammar is not modelled. The validity test is `World.isJson`.
- `url.Values.Encode` (key sorting and percent-encoding) is not modelled. It is `World.encode`.
- Text.ToLower: `strings.ToLower` is modelled for ASCII letters only. net/http accepts only ASCII token characters in header names, so the non-ASCII case mappings of `unicode.ToLower` never apply to them.
- Header key canonicalisation by net/http is not modelled. Keys are compared as given, which is how the handler sees them once net/http has delivered canonical keys.
- Strings are sequences of Unicode scalar values, not Go byte strings. A `symbols` value with invalid UTF-8, which json.Marshal writes as U+FFFD, is outside the model.
- Json.EscapeChar: the escapes are those of Go 1.22 and later. Earlier releases write backspace and form feed as `\u0008` and `\u000c`, and the Go version is not fixed by the source.
- QueryRewrite.NormalizeSymbols: json.Marshal of a list of strings cannot fail, so the branch for its error is not modelled.
- Http.ResponseWriter.Json: only the numeric code of the error envelope is modelled, not the `msg` and `message` texts, which embed Go error strings.
- gin's suppression of the body for 1xx, 204 and 304 statuses, and the framing of the response on the wire, are not modelled.
- The CORS middleware registered by the router (main.go:334-346) runs before this handler and is not modelled. Whatever it writes is the writer's starting headers. That middleware aborts every OPTIONS request with status 200 (main.go:340-343), so through `setupRouter` the handler's own preflight branch (main.go:62-69, `Proxy.PreflightShortCircuit`) is never reached. It is modelled as the handler's own behaviour.
