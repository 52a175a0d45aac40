# A verified model of the `posts` request handler

The repository is one Cloudflare Pages function, `onRequest` in `functions/posts.js`. It
dispatches on the HTTP method over a key-value namespace (`context.env.KV`):

- **POST** refuses a body longer than 5 MiB with 413. Any other body is stored verbatim under
  `entry:<Date.now()>` with a TTL of 86400 seconds, and the answer is 200.
- **GET** lists every key and reads a timestamp from each with `Number(name.split(':')[1])`. It
  fetches each value. Absent and empty values are skipped; the rest are parsed as JSON. The
  pairs are sorted newest first, and each value is printed as JSON again. The answer is those
  strings as a JSON array.
- **OPTIONS** answers 204 with CORS headers and no body.
- **Every other method** gets 405 `Method Not Allowed`.
- **Anything thrown** (by the store or by `JSON.parse`) becomes a 500 whose body is
  `Internal Server Error\n` followed by the JSON text of the error message.

The model:

- `wrappers.dfy`: `Option` (for `null`/`undefined`) and `Result` (for a thrown error and its message).
- `decimal.dfy`: how a template literal prints `Date.now()` and how `Number` reads a digit string back.
- `entry_keys.dfy`: the key format and `split(':')[1]`.
- `kv_store.dfy`: the namespace as a class `Store`. It holds a `map<string, string>` of entries,
  the TTL given with each put, and the store's faults: a whole-store `outage` that makes every
  call throw, and `unreadable` keys that make `get` throw.
- `json.dfy`: `JSON.parse`/`JSON.stringify` as the fields of an abstract `Codec`, where parsing
  may fail. It also spells out the text of a JSON array of strings.
- `listing.dfy`: the GET loop's meaning (`Collect`, `Survivors`) and its lemmas, plus the
  in-place newest-first sort of the `entries` array.
- `posts.dfy`: the responses, the two storing/listing branches, and `OnRequest`.
- `scenarios.dfy`: clients that post and then list, on a fresh store and on any store.

The clock is the parameter `now`. The request is its method string and its body text. A
response is its status, the headers given to its constructor, and its body.

In four places the code behaves differently than a reader of the handler might expect, and the model follows the code:

- The size guard compares the string's `.length` with `5 * 1024 * 1024`, not a byte count.
- The timestamp is the second `:`-separated field of the key, not everything after the first `:`.
- A stored value that is not valid JSON is not skipped. `JSON.parse` throws, and the whole GET
  answers 500.
- The 413 response carries no CORS headers, just like the 500 response.

## Model

| member | source | states |
|---|---|---|
| Decimal.Show | functions/posts.js:11 | `${now}` is a non-empty string of decimal digits with no leading zero |
| Decimal.ValueOfShow | functions/posts.js:32 | `Number` of the printed digits of n is n |
| EntryKeys.Field | functions/posts.js:32 | `split(':')[0]` is the longest prefix without `:`; what follows it, if anything, is a `:` |
| EntryKeys.EntryKeyShape | functions/posts.js:11 | the key `entry:${now}` is the prefix `entry:` followed by a non-empty string of decimal digits |
| EntryKeys.SecondField | functions/posts.js:32 | `split(':')[1]` is undefined exactly when the key holds no `:` |
| EntryKeys.SecondFieldOf | functions/posts.js:32 | the second field of `a:b` (a without `:`) is the first field of b |
| EntryKeys.TimestampOfCases | functions/posts.js:32 | `Number(name.split(':')[1])` is read only when the second field exists and is all digits, and then it is that field's decimal value; any other key gets None |
| EntryKeys.KeyRoundTrip | functions/posts.js:32 | the timestamp GET reads from the key `entry:<now>` that POST writes (line 11) is exactly now |
| EntryKeys.EntryKeyInjective | functions/posts.js:11 | POSTs at different times write different keys |
| KvStore.Store.Put | functions/posts.js:12-14 | a put sets exactly this key to the value and records the TTL; when the store is down it throws and changes nothing |
| KvStore.Store.Get | functions/posts.js:33 | get returns the stored value, or null for a missing key; it throws when the store is down or the key is unreadable |
| KvStore.Store.List | functions/posts.js:28 | list throws exactly when the store is down; otherwise it returns every live key exactly once |
| Listing.CollectThrows | functions/posts.js:31-37 | the loop throws exactly when some listed key's get or parse throws, and its message is that of the first such key in listing order |
| Listing.StepForCases | functions/posts.js:32-35 | one turn of the loop throws exactly when the key's get throws or its non-empty value does not parse; it skips exactly when the value is null or empty; otherwise it keeps the pair of the key's timestamp and the parsed value |
| Listing.CollectListed | functions/posts.js:31-37 | the loop pushes no more entries than there are listed keys, and each entry it pushes is the one some listed key keeps |
| Listing.FailurePersists | functions/posts.js:31-37 | once the loop has thrown, the remaining keys do not change its outcome |
| Listing.CollectCounts | functions/posts.js:31-37 | after the loop, each entry occurs as many times as there are listed keys that keep it, so each distinct surviving key contributes exactly once |
| Listing.SortNewestFirst | functions/posts.js:39 | after the in-place sort the entries are ordered by timestamp, newest first, and they are a permutation of the entries before |
| Listing.Sink | functions/posts.js:39 | one insertion step makes the prefix up to the new entry newest first, holding the same entries as before, and leaves the rest of the array as it was |
| Posts.Dispatch | functions/posts.js:3-65 | each method string selects exactly one of the four branches, by exact comparison with POST, GET and OPTIONS |
| Json.ArrayText | functions/posts.js:43 | `JSON.stringify` of an array of strings is bracketed, is `[]` for no strings, and is the one quoted string in brackets for one |
| Posts.ListResponseShape | functions/posts.js:41-51 | the GET answer is 200 with the three CORS headers and `application/json`; with nothing listed its body is `[]`, and with one entry it is that entry's printed value, quoted, in brackets |
| Posts.InternalError | functions/posts.js:76-81 | the catch answers 500 with no CORS headers, and its body starts with `Internal Server Error\n` |
| Posts.PostKeepsListable | functions/posts.js:11-14 | storing under `entry:<now>` keeps every key one whose timestamp GET can read |
| Posts.Create | functions/posts.js:3-25 | an oversized body gives 413 and leaves the store unchanged; otherwise the body is stored verbatim at `entry:<now>` with TTL 86400 (overwriting, nothing else changes) and the answer is 200; a failing put throws and writes nothing |
| Posts.CollectEntries | functions/posts.js:29-37 | the for loop yields exactly the outcome `Collect` gives for the listed keys |
| Posts.List | functions/posts.js:27-52 | GET only reads the store. A store outage gives its error. Otherwise GET throws iff some live key's get or parse throws, and then with that key's message. On success the answer is the printed values of a newest-first sequence holding each surviving entry exactly once |
| Posts.OnRequest | functions/posts.js:1-83 | the four branches and the catch. Only POST changes the store. OPTIONS answers 204 and other methods 405. Thrown errors become 500 with the prefixed message. CORS headers appear exactly on 200, 204 and 405. POST keeps every key timestamp-readable |
| Scenarios.PostThenList | functions/posts.js:3-52 | a body posted to an empty store is, at the next GET, the only listed entry, stamped with the POST's time |
| Scenarios.PostedIsListed | functions/posts.js:11-37 | whatever else the store holds, a complete listing after a POST of a non-empty, parseable body holds that body with the POST's time, provided its key is readable |
| Scenarios.PostThenListAny | functions/posts.js:3-52 | on any store, a POST followed by a GET that answers 200 lists the posted body with the POST's time |
| Scenarios.TwoPostsThenList | functions/posts.js:39 | two bodies posted at times t1 < t2 are listed second first |
| Scenarios.OversizeThenList | functions/posts.js:7-9 | an oversized POST answers 413 and the next GET lists nothing |

## Left out

- Asynchrony (`await`), the `Response` objects themselves (the runtime adds a `Content-Type` to string bodies) and `console.error` logging: runtime plumbing. A response is a value.
- TTL expiry: the store enforces it over wall-clock time. The TTL given with each put is recorded and nothing expires.
- `Date.now()`: the time is the parameter `now`. `Show` prints plain decimal digits for every natural number. JavaScript switches to exponent notation from 10^21, which `Date.now()` never reaches: it stays at or below 8.64·10^15.
- The internals of `JSON.parse` and `JSON.stringify`: foreign library code, passed in as the `Codec` fields.
- Errors thrown that are not `Error` objects: every error modelled carries a message.
- Reading the request body (`request.text()`), which could itself throw: the body is given as a string.
- Concurrent requests: each request runs alone on the store. Two POSTs in the same millisecond are modelled only in sequence, where the later overwrites the earlier.
- Posts.List: requires every stored key's second field to be a plain digit string. For other keys `Number` gives NaN or a floating-point value, and with NaN the comparator `b[0] - a[0]` gives no defined order. POST writes only such keys (Posts.PostKeepsListable). Floating-point precision of timestamps above 2^53 is not modelled either.
- Posts.OnRequest: requires the same of the store for a GET, for the same reason.
- Posts.List: does not state that entries with equal timestamps keep their listing order. The JavaScript sort is stable (and so is the insertion sort here), but the contract states only order and permutation.
- Listing.SortNewestFirst: does not state stability, for the same reason.
- Posts.Create: the size guard counts characters, not the UTF-16 code units that JavaScript's `.length` counts. A body with characters outside the Basic Multilingual Plane reaches the 5 MiB limit later in the model than in JavaScript.
- KvStore.Store.List and KvStore.Store.Get: in this store `list` and `get` always agree, so a listed key is never absent when it is fetched. The `null` half of `if (json)` is modelled (Listing.StepFor skips a key missing from the store, and Posts.CollectEntries accepts any keys with a readable timestamp) but the handler never reaches it. In the real namespace an entry can expire between `list` and `get`.
- KvStore.Store.List: returns every key in one call. The real namespace returns at most 1000 keys per call with a cursor, which the handler ignores.
- The method string is compared as given. Any case normalisation the runtime applies to request methods is not modelled.
- A put that fails writes nothing. The real store might have written the value before the error reached the handler.
