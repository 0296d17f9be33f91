# URL shortener worker — a Dafny model

This project models the request handler of a Cloudflare Worker URL
shortener (`worker/src/index.ts`) and proves properties about it.

- `POST /api/shorten` takes a URL, normalises it and hashes it with SHA-256.
  It encodes the digest in lowercase, unpadded base32. The first 6 letters
  become the slug, or the first 10 when the 6-letter slot already holds
  another URL. The slug maps to the URL in a key-value namespace.
- `GET /<slug>` redirects to the stored URL.
- `/health` answers `{ok: true}`.
- Shortening needs an API key and goes through a fixed-window rate limiter.
  The limiter keeps its counters in the same namespace as the links.

The model is functional. The key-value namespace is a `map<string, string>`.
Every operation is a pure function that takes the store and returns its
result together with the store it leaves. Code the worker calls but does not
contain is passed in as function-typed fields of datatypes:
- SHA-256;
- the WHATWG URL parser and serialiser.

The clock, the window length and the limit are parameters.

Modules, by file:

- `arith.dfy` (`Arith`): powers of two and the division facts the encoder's
  proofs use.
- `text.dfy` (`Text`): `trim`, ASCII lowercasing, `startsWith`, and the two
  one-slash regex replacements.
- `decimal.dfy` (`Decimal`): `String(n)` and `Number(s)` on rate-limit
  counters, with NaN.
- `kv.dfy` (`Kv`): the store, `get`, JavaScript truthiness of a `get`
  result, and the "changes only these keys" frame predicate.
- `base32.dfy` (`Base32`):
  - a reference definition over the big-endian bit stream;
  - the worker's bit-packing loop as a method, with JavaScript's 32-bit
    `<<`, `|`, `>>>` and `& 31` written out;
  - a proof that the loop computes the reference.
- `normalize.dfy` (`Normalize`): `normalizeUrl` over a parsed URL record.
- `links.dfy` (`Links`): the shorten and collision decision.
- `ratelimit.dfy` (`RateLimit`): `rateLimitOk`.
- `router.dfy` (`Router`): `fetch` as a decision tree to an `Outcome`, with
  its guards, the redirect branch and the end-to-end properties.

The model follows the code in the places where the code differs from what
one might expect:

- `/` is 404 (there is no landing page).
- `/health` answers for every method.
- A stored value of `""` counts as absent, because `get` results are tested
  for truthiness.
- A slug starting with `api` or `health` is refused by the redirect branch.
  This includes slugs derived from a hash: such a link is stored and
  returned, but can never be followed. Any URL whose SHA-256 digest starts
  with the bytes 0x03 0xD0 is such a case (`Router.ApiDigestLinkUnreachable`).
  The hash slug `health` itself is routed to the health check
  (`Router.ResolveLinkSlug`).
- The 10-letter collision slot is written without looking at what it holds
  (`Links.CollisionOverwritesLongSlot`).

## Model

| member | source | states |
|---|---|---|
| Text.TrimStart | worker/src/index.ts:31 | The result is the suffix left after removing leading whitespace. Everything removed is whitespace, and the result does not start with whitespace. |
| Text.TrimEnd | worker/src/index.ts:31 | The result is the prefix left after removing trailing whitespace. Everything removed is whitespace, and the result does not end with whitespace. |
| Text.TrimEmptyIffBlank | worker/src/index.ts:122 | `url.trim().length === 0` holds exactly when every character of the string is whitespace. |
| Text.TrimIdempotent | worker/src/index.ts:31 | Trimming a trimmed string changes nothing. |
| Text.ToLowerAscii | worker/src/index.ts:46 | Lowercasing keeps the length and leaves no upper-case letter. Each upper-case ASCII letter becomes its own lower-case letter (code point + 32), and every other character stays in place. |
| Text.ToLowerAsciiFixpoint | worker/src/index.ts:46 | A string with no upper-case letter is its own lowercase, so lowercasing is idempotent. |
| Text.StripLeadingSlash | worker/src/index.ts:154 | `replace(/^\//, "")` removes exactly one leading slash when there is one, and otherwise returns the string unchanged. |
| Text.StripTrailingSlash | worker/src/index.ts:142 | `replace(/\/$/, "")` removes exactly one trailing slash when there is one, and otherwise returns the string unchanged. |
| Decimal.NatToString | worker/src/index.ts:89 | `String(n)` is a non-empty string of decimal digits with no leading zero. |
| Decimal.ToNumber | worker/src/index.ts:86 | `Number(s)` is NaN exactly when the string is not all digits. |
| Decimal.Increment | worker/src/index.ts:88 | `cur + 1` adds one to a finite counter and keeps NaN as NaN. |
| Decimal.NatToStringRoundTrip | worker/src/index.ts:86-89 | Reading back the decimal digits written for n gives n. |
| Decimal.NumberRoundTrip | worker/src/index.ts:86-89 | `Number(String(x))` is x for every counter value, NaN included. |
| Decimal.NatToStringInjective | worker/src/index.ts:84 | Different window indices have different decimal forms. |
| Kv.ChangesOnlyCompose | worker/src/index.ts:89 | A write confined to keys K1, followed by a write confined to keys K2, is confined to K1 ∪ K2. |
| Base32.Groups | worker/src/index.ts:63-70 | A bit stream of n bits gives ⌈n/5⌉ letters, all from the 32-letter alphabet. |
| Base32.Encode | worker/src/index.ts:55-71 | n bytes give ⌈8n/5⌉ letters, all from `abcdefghijklmnopqrstuvwxyz234567`. There is no padding. |
| Base32.EncodeLoop | worker/src/index.ts:57-71 | The bit-packing loop, with 32-bit `<<`, `\|`, `>>>` and `& 31`, returns exactly the reference encoding of its input. |
| Base32.ShiftInAndEmit | worker/src/index.ts:60-67 | One pass of the outer loop appends the byte's 8 bits to the pending bits. It then emits whole groups, and fewer than 5 bits remain pending. |
| Base32.EmitFullGroups | worker/src/index.ts:63-66 | The inner loop emits the letter of each leading 5-bit group and stops with fewer than 5 bits pending. It keeps what was already emitted and emits one letter per five bits consumed. No bit is lost or reordered. |
| Base32.EmitOne | worker/src/index.ts:64-65 | Emitting the letter of the top five pending bits moves exactly those bits from pending to emitted, and the emitted letters remain the encoding of the emitted bits. |
| Base32.FinishEncode | worker/src/index.ts:68-71 | Once every byte is read, the emitted letters plus the left-aligned remainder letter (when bits remain) are exactly the reference encoding. |
| Base32.FeedByte | worker/src/index.ts:61-62 | `(value << 8) \| b`, read as 32 bits, keeps the pending bits with the byte's bits below them. |
| Base32.EmitStep | worker/src/index.ts:64-65 | `(value >>> (bits - 5)) & 31` is the value of the top five pending bits. The bits below them stay pending. |
| Base32.FinishGroups | worker/src/index.ts:68-70 | After the loop, `(value << (5 - bits)) & 31` for a non-empty remainder completes the reference encoding. |
| Base32.NatBitsValue | worker/src/index.ts:54 | The n bits of x, most significant first, denote x mod 2^n. For a byte, these are its 8 bits. |
| Base32.GroupsAppend | worker/src/index.ts:63-66 | Encoding a whole number of 5-bit groups followed by more bits is the concatenation of the two encodings. |
| Base32.GroupsBitExact | worker/src/index.ts:60-70 | Letter i of the encoding of a bit stream is the letter of bits 5i..5i+4, zero-filled past the end. |
| Base32.EncodeBitExact | worker/src/index.ts:60-70 | Letter i of the encoding of a byte sequence is the letter of bits 5i..5i+4 of its big-endian bit stream, zero-filled past the end. |
| Base32.BitsAppend | worker/src/index.ts:60-62 | The bit stream of two byte sequences one after the other is the first's bits followed by the second's. |
| Base32.GroupLetter | worker/src/index.ts:63-65 | Letter i of the encoding is the alphabet letter numbered by bits 5i..5i+4, read as a five-bit number. |
| Base32.PrefixBits | worker/src/index.ts:60-62 | Input starting with the bytes 0x03 0xD0 has a bit stream whose first three five-bit groups are 0, 15 and 8. |
| Base32.ApiLetters | worker/src/index.ts:63-65 | Leading groups 0, 15 and 8 encode to letters starting `api`. |
| Base32.EncodeApiPrefix | worker/src/index.ts:55-71 | Every byte sequence starting 0x03 0xD0 encodes to a string starting `api`, whatever follows. |
| Base32.DigestLength | worker/src/index.ts:133-140 | A 32-byte digest encodes to exactly 52 letters, so the 6- and 10-letter slices always exist. |
| Normalize.NormalizeRecord | worker/src/index.ts:33-48 | A scheme other than http/https fails, with the worker's message. Otherwise the result has no fragment, its host is the input host ASCII-lowercased, and its scheme, credentials (user name and password), path and query are kept. Port 80 with http or 443 with https is cleared, and any other port is kept. |
| Normalize.NormalizeRecordFixpoint | worker/src/index.ts:33-48 | A record that is already normal is returned unchanged. |
| Normalize.NormalizeRecordIdempotent | worker/src/index.ts:33-48 | Normalising a normalised record gives the same record. |
| Normalize.DefaultPortExample | worker/src/index.ts:38-46 | `http://Example.com:80/x` becomes `http://example.com/x`. |
| Normalize.FragmentExample | worker/src/index.ts:38-43 | A fragment is dropped, and a non-default port is kept. |
| Normalize.CredentialsExample | worker/src/index.ts:33-49 | Credentials survive normalisation: `https://alice@a.com/` and `https://a.com/` give different records, and so can get different slugs. |
| Normalize.NormalizeUrl | worker/src/index.ts:29-50 | A parse failure is returned with the parser's message. A parsed URL fails exactly when its scheme is not http/https, and then with the scheme message. A success is the serialisation of the normalised record of the parsed, trimmed input. |
| Normalize.NormalizeUrlIgnoresSurroundingBlanks | worker/src/index.ts:31 | Whitespace around the input never changes the result. |
| Normalize.NormalizeUrlIdempotent | worker/src/index.ts:29-50 | With a URL library that reads back the serialisation of every record it normalises from a parse, normalising a normalised URL gives the same URL. |
| Links.ShortUrl | worker/src/index.ts:149 | The short URL is the base URL followed by the slug, with exactly one `/` between them whether or not the base URL ends in `/`. |
| Links.SlotSlug | worker/src/index.ts:135-140 | The slug is a prefix of the hash: its first 10 letters exactly when the 6-letter slot holds another non-empty URL, and its first 6 otherwise. |
| Links.Shorten | worker/src/index.ts:137-149 | The slug is the one `Links.SlotSlug` picks. The slug maps to the URL afterwards, the keys grow by at most the slug, and no other key changes. |
| Links.ShortenFreeSlot | worker/src/index.ts:145-149 | With a free 6-letter slot, the result is that slot, and the store gains only that mapping. |
| Links.ShortenExisting | worker/src/index.ts:137-149 | When the 6-letter slot already holds this URL, the result is that slot and the store is unchanged. |
| Links.ShortenCollision | worker/src/index.ts:137-142 | When the 6-letter slot holds another URL, the 10-letter slug is returned, extends the 6-letter one, and maps to the new URL. The other URL keeps its slot. |
| Links.CollisionOverwritesLongSlot | worker/src/index.ts:140-141 | The 10-letter slot is written without a check: a different URL stored there is replaced. |
| Links.ShortenIdempotent | worker/src/index.ts:133-149 | Shortening the same URL again returns the same link and writes nothing. |
| RateLimit.RateLimitOk | worker/src/index.ts:79-91 | The request is refused exactly when the window's counter (0 when absent or empty) has reached the limit. A refusal writes nothing. Otherwise the counter becomes count + 1, and only that key is added or changed. |
| RateLimit.RepeatAllowed | worker/src/index.ts:84-90 | From a counter at c, the next n requests in the window are all allowed while c + n ≤ max, and leave the counter at c + n. |
| RateLimit.MaxThenRefused | worker/src/index.ts:84-90 | In a fresh window, the first `max` requests are allowed and the next one is refused. |
| RateLimit.RepeatSplit | worker/src/index.ts:84-90 | n + 1 requests are n requests followed by one more. |
| RateLimit.RateKeysOfWindowsDiffer | worker/src/index.ts:84 | Different windows of one client use different counter keys. |
| RateLimit.NextWindowAllowed | worker/src/index.ts:84-87 | However many requests came in one window, the first request of a fresh later window is allowed. |
| RateLimit.RepeatKeepsOtherKeys | worker/src/index.ts:84-89 | Requests never add or change any key other than their own window's counter. |
| Router.Status | worker/src/index.ts:99-168 | Only the health answer, a shortened link and a redirect have a status below 400, and only a redirect is 302. |
| Router.ClientIp | worker/src/index.ts:74-77 | A non-empty `CF-Connecting-IP` header is the client address. A missing or empty one gives `unknown`. |
| Router.SlugHash | worker/src/index.ts:134 | The hash of a normalised URL is 52 base32 letters. |
| Router.CounterKeyShape | worker/src/index.ts:84 | Every counter key has `:` at index 2, where no base32 slug can have one. |
| Router.InvalidUrlReply | worker/src/index.ts:130 | `e?.message \|\| "Invalid URL"` is never empty and is the message itself when there is one. |
| Router.ShortenRequest | worker/src/index.ts:103-149 | At most this request's counter key and the returned slug are written. Anything is written only for an authorised POST. The request is shortened exactly when it is an authorised POST under the limit whose `url` is not blank and normalises. A `url` that does not normalise gives 400 with the normaliser's message, or "Invalid URL" when that is empty. A returned link is valid and maps to the normalised URL. Its slug is the one chosen against the store as it was before the request. A request that passes the method, key and rate-limit guards is counted: its counter afterwards reads as the count before plus one, whatever its body holds. |
| Router.CountingKeepsCollision | worker/src/index.ts:109-137 | Counting the request never changes what the 6-letter slot reads. |
| Router.ShortenedLinkValid | worker/src/index.ts:133-149 | A returned link has 6 or 10 base32 letters, carries its short URL, and is the only key written. |
| Router.ShortenBody | worker/src/index.ts:114-149 | After counting, the outcome is a 400 or a shortened link. It is a link exactly when `url` is a non-blank string that normalises. A normalisation failure is 400 with its message, or "Invalid URL". A 400 writes nothing more, and a link writes only its own slug. |
| Router.RedirectRequest | worker/src/index.ts:153-168 | The redirect branch writes nothing. It answers 404 or a redirect to a non-empty stored value. |
| Router.Handle | worker/src/index.ts:94-169 | A request changes at most its counter key and the slug it returns, and removes nothing. Only an authorised POST to `/api/shorten` changes anything. The answer is a shortened link exactly when the request passes the method, key and rate-limit guards and its `url` is a non-blank string that normalises. A guard-passing request whose `url` fails to normalise gets the normaliser's 400. A shortened link is valid, maps to the normalised URL, and has the slug chosen against the prior store. A request that passes the method, key and rate-limit guards is counted: its counter afterwards reads as the count before plus one, whatever its body holds. |
| Router.HealthAnyMethod | worker/src/index.ts:98-100 | `/health` answers ok for every method and writes nothing. |
| Router.ShortenNeedsPost | worker/src/index.ts:104 | Any method other than POST on `/api/shorten` is 405, and nothing is written. |
| Router.UnauthorizedWritesNothing | worker/src/index.ts:106-107 | With no configured key, or a missing or different header, the answer is 401 and nothing is read or written. |
| Router.RateLimitedWritesNothing | worker/src/index.ts:109-112 | An exhausted counter gives 429 before the body is read, and nothing is written. |
| Router.LimitReachedThenRateLimited | worker/src/index.ts:84-112 | A guard-passing request that finds its counter one below the limit raises it to the limit. The next authorised POST counted under the same key is then 429, whatever either body holds. |
| Router.BadBodyRejected | worker/src/index.ts:114-124 | Once counted, invalid JSON is 400 "Invalid JSON". A missing, non-string or blank `url` is 400 "Missing 'url'". Only the counter was written. |
| Router.RedirectIff | worker/src/index.ts:153-165 | A GET or HEAD redirects exactly when the slug is non-empty, not reserved, and stored with a non-empty value. The redirect is to that value, the answer is 404 otherwise, and nothing is written. |
| Router.RootIsNotFound | worker/src/index.ts:154-155 | `/` is 404 for every method. |
| Router.ReservedSlugNeverResolves | worker/src/index.ts:157-160 | A slug starting with `api` or `health` is 404 whatever the store holds. |
| Router.OtherMethodsNotFound | worker/src/index.ts:153-168 | Methods other than GET and HEAD are 404 off the two API paths. |
| Router.SlugIsNotCounterKey | worker/src/index.ts:84 | No base32 slug equals a rate-limit counter key, so links and counters never overwrite each other. |
| Router.ResolveLinkSlug | worker/src/index.ts:98-165 | Following a returned link gives the health check for slug `health`, 404 for other reserved slugs, and otherwise a redirect to the stored URL. |
| Router.ShortenedLinkResolves | worker/src/index.ts:103-165 | A request that passes the guards with a `url` that normalises to a non-empty string is shortened. A later GET or HEAD of the returned slug then redirects to the normalised URL, unless the slug is reserved. A WHATWG serialisation is never empty, so the non-empty premise only excludes a stored `""`, which would be falsy and give 404. |
| Router.ApiDigestSlug | worker/src/index.ts:133-140 | When the digest starts 0x03 0xD0, the slug chosen in either slot has 6 or 10 letters and starts with `api`, so the redirect branch reserves it. |
| Router.ReservedPathNotFound | worker/src/index.ts:153-160 | A request for a reserved 6- or 10-letter slug other than `health` is 404 for every method, and nothing is written. |
| Router.ApiDigestLinkUnreachable | worker/src/index.ts:103-160 | A request that passes the guards with a `url` that normalises to a URL whose digest starts 0x03 0xD0 is shortened, and the slug maps to that URL. A later request for the returned slug is 404 all the same. |
| Router.SlugChoiceStable | worker/src/index.ts:135-147 | Once a URL is stored under its chosen slug, with at most a counter written besides, the same slug is chosen again. |
| Router.SecondShortenSameLink | worker/src/index.ts:103-149 | From what the handler promises about two requests for one URL, both return the same link. |
| Router.SameSlugSameLink | worker/src/index.ts:149 | A valid link is determined by its slug. |
| Router.RepeatShortenSameLink | worker/src/index.ts:103-149 | Two identical shorten requests in a row, each passing the guards with a `url` that normalises, are both shortened and return the same link. |

## Left out

- `extension/popup.js` is not part of this model. It is browser UI glue with no logic of its own.
- SHA-256 (`crypto.subtle.digest`) is an uninterpreted function from a string to 32 bytes (`Platform.sha256`). So is the UTF-8 encoding before it.
- WHATWG URL parsing and serialisation (`new URL`, `toString`) are the `parse` and `serialize` fields of `UrlLibrary`.
  - `Normalize.NormalizeUrlIdempotent` assumes the library reads back what it serialises. This is assumed only for records that normalisation makes from something the library parsed, not for every record of normal shape.
  - The setters' own re-validation is not modelled. For example, `url.port = ""` and `url.hostname = ...` are treated as plain field updates.
- The request URL's pathname, `request.json()` and `body?.url` are reduced to a path string and a three-way `Body`: invalid JSON, no string `url`, or a string `url`.
- Response construction, headers and JSON serialisation are outcome constructors. `Response.redirect` throws when the stored target is not a valid URL; that error path is not modelled.
- `Number()` parsing of `RATE_LIMIT_WINDOW_SEC` and `RATE_LIMIT_MAX`, and the `?? "60"` and `?? "30"` defaults, are left out. The window and limit are naturals in `Env`.
- RateLimit.RateLimitOk: requires a window of at least one second. A window of 0 would give JavaScript the key `rl:<ip>:Infinity`, and that case is not modelled. Router.Handle and every Router lemma inherit this requirement, even for `/health` and the redirect branch, which never read the window.
- `Date.now()` is the `nowMs` parameter.
- `expirationTtl` is not modelled: counters never expire in the model.
- Decimal.ToNumber: models `Number(s)` only for the strings the worker writes. The empty string and decimal digit strings give their value; every other string gives NaN. JavaScript also accepts surrounding whitespace, signs, `0x` prefixes, fractions and exponents.
- Decimal.NatToString: does not model the exponent form `String` uses from 10^21 upwards.
- Text.ToLowerAscii: lowercases ASCII letters only. WHATWG hostnames are already ASCII (IDNA gives punycode), and the parser has already lowercased them.
- The store is a total map: a KV `get` or `put` that throws, leaving the request as an uncaught 500 (`worker/src/index.ts` lines 85, 89, 137, 141, 146 and 162), is not modelled.
- KV eventual consistency and the read-then-write races in the rate limiter and in shorten are not modelled. Requests are handled one at a time, and each sees the store the previous one left.
