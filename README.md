# URL shortener core in Dafny

A model of the persistence and code-assignment core of a Go URL shortener.
A bbolt database holds two buckets: `urls`, which maps a short code to a URL,
and `hits`, which maps a code to an 8-byte big-endian visit counter. Codes are
either supplied by the client or generated: six characters drawn at random
from a 62-character alphabet, redrawn until one is free. Resolving a code
bumps its counter as a best-effort side effect.

Modules, one per source concern:

- `Errors` (errors.dfy): the error kinds (`NotFound`, a failed storage transaction, a failed random draw) and a `Result` type standing for Go's `(value, error)` pairs.
- `BigEndian` (big_endian.dfy): `PutUint64` and `Uint64` as pure functions over byte sequences, with round trips in both directions and the byte order.
- `Storage` (storage.dfy): class `Store` with the two buckets as map fields. `Save` and `IncHit` change them in place. Every method takes a `fault` flag that stands for a failed bbolt transaction. A ghost `writes` log records every write transaction attempted.
- `Shortener` (shortener.dfy): the alphabet, and `GenerateCode` filling an array one draw at a time. The random source is a sequence of `Draw`s, each an index below 62 or a failure. `Render` is the function that specifies `GenerateCode`.
- `Strings` (strings.dfy): Go's `strings.TrimSpace` (with `unicode.IsSpace`) and `strings.TrimRight`, the two library calls whose behaviour decides which code is used and what the base URL is.
- `HttpApi` (handlers.dfy): class `Server` with the store-facing part of `HandleShorten`, `HandleRedirect` and `HandleGetURL`. `Shorten` is the pure function that specifies `HandleShorten`, and lemmas prove its properties. A reply is a status code with a body, or a status code with the handler's error message.
- `Scenarios` (scenarios.dfy): client methods that derive concrete outcomes from the contracts alone.

The retry loop's randomness and store failures are inputs (`Env`): one `Attempt` per pass of the loop, holding the six draws of that pass and whether its `Exists` fails.

Two points of the code worth knowing:
- `Save` is a bbolt `Put` (internal/storage/storage.go:46). It overwrites an existing mapping. Uniqueness comes only from the `Exists` check that precedes it in the handler.
- The handler trims the custom code itself with `strings.TrimSpace` (internal/transport/httpapi/handlers.go:47-48), so a custom code that is blank after trimming takes the generated branch.

## Model

| member | source | states |
|---|---|---|
| `BigEndian.ValueOf` | internal/storage/storage.go:82 | the number a byte string denotes, read most significant byte first, is below 256^length |
| `BigEndian.PutUint64` | internal/storage/storage.go:85-86 | `binary.BigEndian.PutUint64` into a fresh buffer: the 8 low-order bytes of the counter, most significant first |
| `BigEndian.Uint64` | internal/storage/storage.go:82 | `binary.BigEndian.Uint64`: the value of the first 8 bytes read most significant first; a shorter buffer is excluded, as Go panics on it |
| `BigEndian.ValueOfBytesOf` | internal/storage/storage.go:85-86 | reading back the k low-order bytes of n gives n whenever n fits in k bytes |
| `BigEndian.BytesOfValueOf` | internal/storage/storage.go:82 | re-encoding the value of a byte string gives the same bytes |
| `BigEndian.DecodeEncode` | internal/storage/storage.go:82-86 | `Uint64(PutUint64(n)) == n` for every uint64 counter |
| `BigEndian.EncodeDecode` | internal/storage/storage.go:85-86 | `PutUint64(Uint64(b)) == b` for every 8-byte buffer, so stored counters and uint64 values correspond one to one |
| `BigEndian.ValueOfCons` | internal/storage/storage.go:96 | a leading byte adds its value times 256^(remaining length) |
| `BigEndian.MostSignificantFirst` | internal/storage/storage.go:96 | the decoded counter is byte 0 times 2^56 plus the value of bytes 1..7; byte 7 is the counter mod 256 |
| `BigEndian.PutUint64Digits` | internal/storage/storage.go:85-86 | the encoder writes the counter's top byte first (n / 2^56) and its low byte last (n mod 256) |
| `Storage.Incremented` | internal/storage/storage.go:84 | uint64 `n++`: n+1 below the maximum, 0 after it |
| `Storage.Store.constructor` | internal/storage/storage.go:21-39 | a new store has both buckets empty and an empty write log |
| `Storage.Store.Save` | internal/storage/storage.go:43-47 | a successful Save sets `urls[code] := url` whether or not the code existed. It fails on a transaction fault or an empty key, and then leaves `urls` unchanged. `hits` never changes |
| `Storage.Store.Exists` | internal/storage/storage.go:50-58 | Exists is true iff the code is a key of `urls`, or fails on a fault; it changes nothing |
| `Storage.Store.Get` | internal/storage/storage.go:60-73 | returns `urls[code]` when present, `ErrNotFound` when absent, a storage error on a fault; it changes nothing |
| `Storage.Store.IncHit` | internal/storage/storage.go:75-89 | on success the counter becomes the increment (with wrap-around) of its old value, 0 when absent, stored as its 8-byte encoding. Other counters and `urls` are unchanged. A fault changes nothing |
| `Storage.Store.Hits` | internal/storage/storage.go:91-101 | returns the decoded counter, 0 for a code never incremented, or fails on a fault; it changes nothing |
| `Shortener.AlphabetAt` | internal/shortener/shortener.go:8 | character i of the alphabet is digit i, then letter i-10 lower-case, then letter i-36 upper-case |
| `Shortener.AlphabetShape` | internal/shortener/shortener.go:8 | the alphabet has 62 pairwise distinct characters, exactly the ASCII digits and letters |
| `Shortener.Render` | internal/shortener/shortener.go:11-21 | the generator succeeds iff no draw fails. Its code then has one character per draw, and character i is `alphabet[draw i]`. Any failure is an entropy error |
| `Shortener.RenderedCodeIsBase62` | internal/shortener/shortener.go:18 | every character of a generated code is in the alphabet and is a base-62 character |
| `Shortener.GenerateCode` | internal/shortener/shortener.go:11-21 | the array loop returns exactly `Render(draws)`: n alphabet characters, or the error with no partial code |
| `Strings.IsSpace` | internal/transport/httpapi/handlers.go:47 | `unicode.IsSpace`: \t \n \v \f \r, space, U+0085, U+00A0, and the White_Space characters above Latin-1 (U+1680, U+2000-U+200A, U+2028, U+2029, U+202F, U+205F, U+3000) |
| `Strings.TrimSpace` | internal/transport/httpapi/handlers.go:47 | `strings.TrimSpace`: the input without its leading and trailing white space |
| `Strings.TrimRight` | internal/transport/httpapi/handlers.go:22 | `strings.TrimRight`: the input without its trailing characters that occur in the cutset |
| `Strings.LeadingCount` | internal/transport/httpapi/handlers.go:47 | counts the maximal prefix of characters satisfying the predicate |
| `Strings.TrailingCount` | internal/transport/httpapi/handlers.go:22 | counts the maximal suffix of characters satisfying the predicate |
| `Strings.TrimSpaceShape` | internal/transport/httpapi/handlers.go:47 | the trimmed custom code is the input minus a white-space prefix and suffix. Neither end of the result is white space. The result is empty iff the input is all white space |
| `Strings.TrimSpaceIdempotent` | internal/transport/httpapi/handlers.go:47 | trimming a trimmed code changes nothing |
| `Strings.TrimSpaceKeeps` | internal/transport/httpapi/handlers.go:47 | a code with no white space at either end is used unchanged |
| `Strings.TrimRightShape` | internal/transport/httpapi/handlers.go:22 | the trimmed base URL is a prefix of the input, only cutset characters were dropped, and it does not end in one |
| `Strings.TrimRightIdempotent` | internal/transport/httpapi/handlers.go:22 | trimming the base URL again changes nothing |
| `HttpApi.ShortURL` | internal/transport/httpapi/handlers.go:86 | the short URL is the base URL, `/`, then the code (also at line 138) |
| `HttpApi.ChooseCode` | internal/transport/httpapi/handlers.go:47-77 | the code-choosing phase: a non-blank trimmed custom code when its Exists succeeds and finds it free (500 on a fault, 409 when taken); otherwise the pass that leaves the retry loop decides (500 on a generation or Exists failure, else its code). A chosen code is non-empty and unmapped |
| `HttpApi.Shorten` | internal/transport/httpapi/handlers.go:47-89 | the whole shorten request: the aborting reply of `ChooseCode`, or for a chosen code 500 "failed to save" on a Save fault and otherwise 201 with the code, its short URL and the request URL |
| `HttpApi.SaveCalls` | internal/transport/httpapi/handlers.go:79 | the Saves a shorten request performs: at most one, and exactly one when a code was chosen, for that code and the request URL |
| `HttpApi.FirstSettling` | internal/transport/httpapi/handlers.go:61-76 | the retry loop leaves at the first pass whose generation fails, whose Exists fails, or whose code is free; every earlier pass drew a taken code |
| `HttpApi.Server.constructor` | internal/transport/httpapi/handlers.go:21-23 | NewServer keeps the store and strips every trailing `/` from the base URL |
| `HttpApi.Server.HandleShorten` | internal/transport/httpapi/handlers.go:47-89 | the reply equals `Shorten` of the old mapping. `urls` gains exactly the created code and is otherwise unchanged; `hits` is untouched. The write log gains one Save, for the chosen code, only when no earlier step failed. The counter invariant is kept |
| `HttpApi.Server.HandleRedirect` | internal/transport/httpapi/handlers.go:92-109 | redirects with the stored URL iff the code is non-empty, Get does not fail and the code is mapped. 404 for a blank or unknown code, 500 on a Get fault. Only a successful Get leads to IncHit. IncHit's failure leaves the reply unchanged and the counters untouched. `urls` never changes and counters stay limited to mapped codes |
| `HttpApi.Server.HandleGetURL` | internal/transport/httpapi/handlers.go:118-140 | 400 for a blank code, 500 on a Get fault, 404 for an unknown code. Otherwise returns the code, its URL, its short URL and its hit count (0 when Hits fails). The store is not modified |
| `HttpApi.ShortenConflictIff` | internal/transport/httpapi/handlers.go:47-58 | the reply is 409 iff the trimmed custom code is non-blank, its Exists succeeds and it is already mapped |
| `HttpApi.ShortenCreatesFreshCode` | internal/transport/httpapi/handlers.go:79-89 | a created reply has status 201, a non-empty code that was unmapped before, the request URL, and `baseURL + "/" + code` |
| `HttpApi.ShortenUsesTrimmedCustom` | internal/transport/httpapi/handlers.go:47-58 | with a non-blank custom code, the created code is the trimmed custom code |
| `HttpApi.ShortenGeneratedCode` | internal/transport/httpapi/handlers.go:59-77 | without a custom code, the created code is six base-62 characters and was free at check time. It is the output of the first pass that left the loop, and every earlier pass generated a code that Exists reported taken |
| `HttpApi.ShortenBlankCustom` | internal/transport/httpapi/handlers.go:47-48 | a custom code that is blank after trimming behaves as no custom code and never yields 409 |
| `HttpApi.CreatedCodesDistinct` | internal/transport/httpapi/handlers.go:47-82 | two successful requests in sequence get different codes |
| `HttpApi.ServerShortURL` | internal/transport/httpapi/handlers.go:22 | the short URL is the trimmed base URL, one `/`, then the code. The base URL differs from it only by trailing slashes. No `/` precedes the joining slash |
| `HttpApi.ShortURLInjective` | internal/transport/httpapi/handlers.go:86 | under one base URL, distinct codes give distinct short URLs |
| `Scenarios.SaveThenGet` | internal/storage/storage.go:43-73 | after Save(c, u), Get(c) returns u and Exists(c) is true |
| `Scenarios.SaveOverwrites` | internal/storage/storage.go:46 | saving a code twice leaves the second URL |
| `Scenarios.UnknownCode` | internal/storage/storage.go:60-101 | in a new store a code is not found, does not exist and has 0 hits |
| `Scenarios.IncrementTimes` | internal/storage/storage.go:75-101 | k increments from a new store read back as k hits (k below 2^64) |
| `Scenarios.ResolveCountsOneHit` | internal/transport/httpapi/handlers.go:98-139 | a saved code shows 0 hits, redirects to its URL, then shows 1 hit |
| `Scenarios.CustomCodeTwice` | internal/transport/httpapi/handlers.go:47-58 | the same custom code twice: 201, then 409, and the first URL stays |

## Left out

- bbolt itself: opening the file, permissions, transactions, durability and `Close`. Every transaction failure is a `fault` argument, and the only Put rule modelled is that an empty key is refused. bbolt's key and value size limits fall under the fault.
- Concurrency: the model is sequential. The window between `Exists` and `Save` in HandleShorten, which lets two concurrent requests claim one custom code, is not modelled. Neither is the per-key atomicity of IncHit.
- crypto/rand and math/big: a draw is an input that is either an index in [0, 62) or a failure. Uniformity and probability are not modelled.
- HttpApi.Server.HandleShorten: the Go retry loop has no bound. The model covers only requests where a supplied pass of the loop leaves it (`Terminates`). A request where every pass draws a taken code would loop forever and is not modelled.
- Storage.Store.Hits: a failed read is taken to fail before the counter is read, so the handler reports 0 hits.
- validateURL: it relies on net/url.Parse. The URL reaches the model already validated, as an opaque string.
- JSON decoding and encoding of requests and replies, chi routing and URL parameters, and writing headers and bodies (`httpError`, `writeJSON`, `http.Redirect`, `http.NotFound`). Replies are status codes with a body or a message.
- cmd/server/main.go: environment configuration, directory creation, middleware and the listening loop.
- Go strings are byte strings. Here they are sequences of Unicode characters. Invalid UTF-8 in a custom code and bbolt's byte-level keys are not modelled.
