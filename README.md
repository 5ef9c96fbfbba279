# racoder decision logic, modelled in Dafny

racoder is a small Node server. It re-encodes an internet radio stream to Opus with `ffmpeg` and passes the station's ICY headers (`icy-name`, `icy-genre`, …) on to the listener. Most of the server is I/O. This project models the deterministic decisions under that I/O and proves their properties:

- **Metadata resolution** (`Metadata`, `metadata.dfy`). `fetchIcyMetadata` follows a redirect when the status is 300–399 and a truthy `location` header is present. It makes at most six requests, so it follows at most five redirects. It gives up with `null` when the count passes 5 or when a transport error occurs. Every hop sends the original inbound headers minus a truthy `host`. The network is a function `upstream(n)`: the outcome of the n-th request of the chain. `new URL(location, base).href` is a function parameter `resolve`. The model records every request it issues, so the lemmas can state what was sent where.
- **Response headers** (`ResponseHeaders`, `response_headers.dfy`). The loop over the allow-list is a method. A loop invariant proves it equal to a set-based definition: `Content-Type: audio/opus` plus every allow-listed header whose upstream value is truthy, copied unchanged. Because the result depends only on the set of names, the duplicated `icy-name` changes nothing.
- **Encoder command line** (`Encoder`, `encoder.dfy`). This is the 22-element `ffmpeg` argument list. A parser reads a list of that shape back into the radio URL and the bitrate text, and the lemmas prove the round trip in both directions. The bitrate is `String(parseInt(_bitrate ?? DEFAULT_BITRATE))`, computed exactly for decimal strings.
- **Routing** (`Routing`, `routing.dfy`). A prefix match on `OUTPUT_PATH` wins first. Otherwise the two healthcheck paths get an empty 200 and every other URL gets an empty 404. With the default output path `/`, the healthcheck route can never be taken.
- **Stream handler** (`Stream`, `stream.dfy`). The parts above combine into what `handleStream` writes before the encoder runs: the status, the headers and the encoder arguments. Two concrete scenarios are proved: a 301 chain and an unreachable host.
- **Environment defaulting** (`Env`, `env.dfy`). The environment is a class whose string map `validateEnv` fills in place with five defaults. The five conditional assignments are proved equal to a one-shot reference definition, which is idempotent.
- **Logging** (`Log`, `log.dfy`). This covers the level gate and the `YYYY-MM-DD HH:MM:SS` timestamp, built from given date fields. `JsText` (`js_text.dfy`) models the number-to-text conversions and `padStart`. `Wrappers` holds `Option`, which stands for `null`/`undefined`.

## Where the code departs from what a reader would expect (the model follows the code)

- The `host` header is deleted only when its value is truthy (`if (headers["host"])`). An empty `host` header is therefore forwarded upstream, where a reader would expect `host` never to be forwarded. `Metadata.ForwardedHeaders` states the behaviour as written.
- A request without `_radio` passes `null` to `fetchIcyMetadata`. There `radioUrl.startsWith` throws. Nothing catches the exception, so it ends the server process and every stream it serves, where a reader would expect an error reply. `Stream.HandleStream` returns `Thrown` in that case; the other inputs that throw are listed under "Left out".
- The default bitrate applies only when `_bitrate` is absent. A present but unparsable value (including the empty string) reaches `parseInt` and gives `NaNk`, where a reader would expect the default to apply to it as well.
- The healthcheck route is checked only after the output-path prefix. With the default `OUTPUT_PATH` of `/`, it is never reached (`Routing.DefaultOutputPathHidesHealthcheck`).

## Model

| member | source | states |
|---|---|---|
| `Metadata.ForwardedHeaders` | src/server.js:14-15 | the forwarded map has `host` only when the inbound value was empty; every other key is present exactly when inbound, with the inbound value |
| `Metadata.StripHost` | src/server.js:14-15 | the copy-then-delete yields exactly the forwarded headers; the caller's map is a value and stays unchanged |
| `Metadata.FetchIcyMetadata` | src/server.js:9-37 | no request and `null` once the count exceeds 5; otherwise between 1 and 6 − count requests, the first to the given URL |
| `Metadata.EveryHopForwardsInboundHeaders` | src/server.js:12-19 | every request of the chain carries the original inbound headers minus `host`, and it uses https exactly when its URL starts with `https` |
| `Metadata.ChainFollowsRedirects` | src/server.js:21-24 | each request after the first goes to the previous response's `location` resolved against the previous URL, and that response was a 3xx with `location` |
| `Metadata.LastRequestDecides` | src/server.js:10-34 | if the last response is a followed redirect, the hop budget is spent and the result is `null`; otherwise the result is that response's headers, or `null` after a transport error |
| `Metadata.RedirectLoopGivesNoMetadata` | src/server.js:10-24 | when every remaining hop redirects, the result is `null` after exactly 6 − count requests (six from the start), not an error |
| `Metadata.FirstUnfollowedOutcomeDecides` | src/server.js:21-34 | the first hop that is not a followed redirect (a 2xx, a 3xx without `location`, an error) ends the chain after one request per hop and decides the result |
| `ResponseHeaders.ResponseHeadersFor` | src/server.js:52-71 | always `Content-Type: audio/opus`; every other key is allow-listed; an allow-listed key is present iff the metadata is non-null and its value truthy, with the value unchanged; null metadata gives the content type alone |
| `ResponseHeaders.DeriveResponseHeaders` | src/server.js:52-71 | the in-place loop over the six-entry list yields exactly the set-based response headers |
| `ResponseHeaders.CopyOneMore` | src/server.js:65-71 | one iteration inserts the visited header exactly when its value is truthy; a header visited again is rewritten with the same value |
| `ResponseHeaders.AllowListHasFiveNames` | src/server.js:56-63 | the list has six entries, admits five names, and does not include `Content-Type` |
| `ResponseHeaders.NameOnlyMetadata` | src/server.js:52-71 | metadata with only `icy-name` gives exactly that header and the content type |
| `Encoder.NumberText` | src/server.js:45 | a decimal string of at most 15 digits becomes the canonical text of the same value |
| `Encoder.EncoderArgs` | src/server.js:78-93 | the command line has 22 arguments |
| `Encoder.EncoderArgsLayout` | src/server.js:78-93 | the command line is the fixed input options, the URL, the codec options, the bitrate plus `k` and the output options; it ends with `pipe:1`, the URL follows `-i`, the bitrate follows `-b:a` |
| `Encoder.ParseEncoderArgsRoundTrip` | src/server.js:78-93 | reading back a built command line gives the radio URL and bitrate it was built from |
| `Encoder.ParseEncoderArgsOnlyBuilt` | src/server.js:78-93 | every list that reads back is exactly the command line built from what it reads back to |
| `Encoder.BitrateTextCases` | src/server.js:45 | without `_bitrate` the configured default is used; a canonical decimal `_bitrate` of at most 15 digits is passed through unchanged |
| `Routing.Route` | src/server.js:157-170 | the stream handler is chosen iff the output path is a prefix of the URL; the healthcheck only on its two paths |
| `Routing.ReplyOf` | src/server.js:131-141 | the healthcheck answers 200 and the not-found handler 404, both with empty bodies |
| `Routing.PlainReplyStatus` | src/server.js:157-170 | outside the output path, exactly `/healthcheck` and `/healthcheck/` get 200 and every other URL 404 |
| `Routing.HealthcheckReachable` | src/server.js:157-166 | a healthcheck path reaches the healthcheck iff the output path is not a prefix of it |
| `Routing.DefaultOutputPathHidesHealthcheck` | src/server.js:157-166 | with output path `/`, every URL starting with `/` is streamed and no URL reaches the healthcheck |
| `Routing.UnsetOrEmptyOutputPathHidesHealthcheck` | src/utils.js:38-41 | an unset or empty `OUTPUT_PATH` leaves the healthcheck unreachable after defaulting |
| `Stream.HandleStream` | src/server.js:40-93 | throws when `_radio` is missing; otherwise status 200, the content type, only allow-listed headers, an encoder command line that reads back to the URL and bitrate, and 1 to 6 metadata requests |
| `Stream.ClientHeadersFollowChain` | src/server.js:48-71 | the client's headers are the allow-listed part of the first non-redirect response, or the content type alone after a transport error |
| `Stream.UnreachableRadioScenario` | src/server.js:31-34 | a transport error on the first request still gives status 200 with only the content type |
| `Stream.RedirectLoopScenario` | src/server.js:10-24 | when all six hops redirect, the handler still answers 200 with only the content type, after exactly six requests |
| `Stream.RedirectScenario` | src/server.js:40-93 | a 301 to a server naming the station gives `icy-name` and the content type, two requests, and an encoder at `96k` on the original URL |
| `Env.WithDefaults` | src/utils.js:33-61 | the keys are the old keys plus the five settings; set values are kept, the empty string included; unset settings get `INFO`, `/`, `128`, `UTC`, `3000` |
| `Env.WithDefaultsIdempotent` | src/utils.js:33-61 | defaulting twice equals defaulting once |
| `Env.ProcessEnv.ValidateEnv` | src/utils.js:33-61 | updates the environment in place to its defaulted form and returns the same object |
| `Env.ProcessEnv.SetIfUnset` | src/utils.js:34-36 | one step sets a setting to its default only when the key is missing |
| `Env.FillStep` | src/utils.js:34-36 | one step extends the set of defaulted settings by one key |
| `Env.FillAllDefaulted` | src/utils.js:33-59 | any sequence of steps defaults exactly the settings it names |
| `Env.FiveSteps` | src/utils.js:33-59 | the five steps in the source's order compose to full defaulting |
| `Env.ConfigOf` | src/server.js:7 | the port, output path and default bitrate are the environment's value when the key is set (even to the empty string), and otherwise `3000`, `/` and `128` |
| `Env.EmptyEnvConfig` | src/server.js:7 | from an empty environment, the configuration is port `3000`, output path `/` and bitrate `128` |
| `Log.LogMessage` | src/utils.js:16-23 | a line is written iff the level is INFO or equals the environment's `LOG_LEVEL`; INFO goes to `console.log`, others to `console.debug` with the bug marker |
| `Log.DefaultLevelHidesDebug` | src/utils.js:16-23 | with `LOG_LEVEL` at `INFO` only INFO messages are written |
| `Log.Timestamp` | src/utils.js:7-14 | the timestamp is the year's text followed by 15 characters |
| `Log.TemplateLayout` | src/utils.js:14 | the pieces of the template land at fixed offsets after the year |
| `Log.TimestampFields` | src/utils.js:8-14 | the separators sit at fixed offsets; each field is the two-digit text of month+1, day, hours, minutes, seconds |
| `JsText.TwoDigits` | src/utils.js:9-13 | `padStart(2, "0")` of a value below 100 is two decimal digits that read back as the value |
| `JsText.PadStart` | src/utils.js:9-13 | the result is the width long (or the input when longer), ends with the input, and is filled in front |
| `JsText.DecimalText` | src/server.js:88 | the text of a number is a canonical decimal string |
| `JsText.DecimalTextValue` | src/server.js:88 | reading back the text of a number gives the number |
| `JsText.CanonicalDecimalText` | src/server.js:45 | a canonical decimal string is the text of its own value |
| `JsText.IntText` | src/utils.js:14 | the year's text starts with `-` exactly when the year is negative, and the digits after it are the canonical decimal text of the year's absolute value |

## Left out

- Network I/O is not modelled: `client.request`, `res.destroy` and `req.end`. The upstream is a function from the hop number to an outcome. There is no timeout, as in the code.
- A second callback is not modelled. It would happen if the request emitted `error` after its response had already been handed over. That is event ordering, not decision logic.
- `new URL(...)` and `searchParams.get` follow the WHATWG URL Standard and are not modelled. URL resolution is the function parameter `resolve`. The query parameters are given as optional strings.
- Stream.HandleStream: models only the missing `_radio` as a throw. The other inputs that throw are not modelled, because the model knows URLs only as strings: a `_radio` whose scheme the chosen `http`/`https` module rejects (`ftp://`, or `HTTPS://` in upper case, which selects `http`), a `_radio` that `client.request` cannot parse (the empty string included), a `location` that `new URL` cannot resolve, and a resolved `location` with such a scheme at the next hop (src/server.js:12, 17, 22, 24). Each exception escapes the request handler and ends the server process with every stream on it.
- Encoder.NumberText: computes `String(parseInt(text))` only for decimal strings of at most 15 digits. Other text goes to the parameter `jsNumberText`, because it involves leading whitespace, signs, `0x` prefixes, trailing garbage, NaN and floating-point printing.
- The `ffmpeg` subprocess is not modelled: `spawn`, `stdout.pipe(res)`, stderr logging, and the `error`, `close` and `kill` handlers. It is event-driven process supervision. The code does not guard a single teardown, so the source has no exactly-once property to prove.
- Server lifecycle is not modelled: `server.listen`, `gracefulShutdown` with its timer and `process.exit`, and signal registration. These are OS and timer plumbing.
- `getTimeZone` depends on `Intl` and is not modelled. Reading the clock and writing to the console in `log` are I/O. The timestamp is built from given date fields.
- The log calls inside `validateEnv` are not modelled. They are side effects only.
- Header values are strings. Node's array values, used for repeated headers such as `set-cookie`, are not modelled.
- Strings are sequences of Unicode code points, whereas JavaScript uses UTF-16. No length or index in the model depends on the difference.
