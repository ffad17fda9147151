# Price-tag image endpoint — a Dafny model

`index.php` serves a PNG price tag for a product. It reads the `id`, `w` and
`h` query parameters and validates them. It looks the product up in an XML
feed, then serves a cached image or renders, caches and serves a new one.
This project models that request path as pure functions over immutable data:

- `Settings` — the configuration constants and the five error messages
  (index.php:7-22). Errors are a datatype `Error`; `Message` maps each one to
  its fixed text.
- `Validation` — PHP's `trim` and `empty` as the main flow applies them to
  `id`. Also the product-ID whitelist (`preg_replace` used only as an equality
  test), and the `filter_var` integer range filter behind `validateWidth` and
  `validateHeight`.
- `Feed` — the parsed feed as a sequence of `Entry(id, price)` records, and
  `loadProductData`'s first-match linear scan with exact (`===`) comparison.
- `Cache` — the cache directory as a map from path to `(bytes, mtime)`. The
  cache key is a digest of `productId-price`, and the path is
  `cache/<key>.png`. A file is fresh when its mtime is strictly greater than
  `now - 604800`. Writes stamp the file with the current time.
- `Request` — `generateProductImage`'s cache decision and the main flow at
  index.php:179-204. The flow is staged as in the source:
  - `Dispatch` runs the no-ID check, then `validateProductId`.
  - `LookupAndGenerate` runs the feed lookup.
  - `CheckSizesAndGenerate` checks width, then height, then reaches
    `GenerateProductImage`.

  `HandleRequest` states the whole precedence order on the query itself.
- `Scenarios` — concrete requests against a one-product feed.

Things outside the script are fields of an `Env` record: the `md5` digest,
the GD renderer (price, width, height to bytes), the clock (`time()`) and
whether the cache directory accepts the write. The digest is an arbitrary
function, so no lemma assumes it is collision-free.

Behaviour of the code as written that the model proves:

- **A request without `h` never gets an image.** `FALLBACK_HEIGHT` is 1415 and
  `MAX_HEIGHT` is 1000, so the default height is always rejected
  (`Request.MissingHeightAlwaysFails`, `Scenarios.DefaultSizeRequestFails`).
  A request whose only parameter is the id of a listed product (other than
  "0", see below) therefore gets
  "Invalid height value.", not a 1000 x 1415 image. An id that is missing,
  malformed or unlisted gets its own earlier error instead.
- **The width is checked after the feed lookup.** An unknown product with
  `w=5000` gets "Product not found.", not the width error
  (`Request.LookupPrecedesSizeChecks`, `Scenarios.OversizedWidthUnlisted`).
- **The size is not part of the cache key.** Take a second request for the
  same product inside the expiration window. It serves the bytes rendered at
  the first request's width and height, whatever size it asks for
  (`Request.RepeatServesFirstRendering`).
- **The id "0" cannot be served.** PHP's `empty("0")` is true, so this
  well-formed id gets the no-ID message (`Scenarios.ZeroIdReadsAsMissing`).
  For the same reason `validateProductId` accepts exactly the non-empty
  whitelisted ids other than "0". It is not "every non-empty whitelisted id".
- **An empty price gets none of the script's five messages.** The font-size
  division at index.php:140 raises PHP 8's `DivisionByZeroError`. The
  `catch (Exception $e)` at index.php:201 does not catch it, so the script
  dies with a fatal error. index.php:3-4 enables display of fatal errors, so
  the client gets PHP's own "Uncaught DivisionByZeroError" text and no image.
  The model records this as the outcome `DivisionByZero`, with the cache
  unchanged; it does not model PHP's error text. On a cache hit the division
  is never reached (`Request.EmptyPriceNeverCached`).
- **Different products can share a cache file.** The separator `-` may occur
  inside an id. So product `a-b` at price `c` and product `a` at price `b-c`
  hash the same string (`Cache.HashInputAmbiguousAcrossProducts`). For one
  product, different prices always give different hash inputs
  (`Cache.HashInputDistinguishesPrices`).

## Model

| member | source | states |
|---|---|---|
| `Settings.Message` | index.php:18-22 | the fixed message text of each of the five errors |
| `Settings.MessagesDistinct` | index.php:17-22 | the five error messages are pairwise different, so the echoed text identifies the error |
| `Validation.Trim` | index.php:179 | the result is an infix of the input with only trim characters (space, tab, LF, CR, NUL, VT) around it, and it neither starts nor ends with one |
| `Validation.TrimUnique` | index.php:179 | any infix with only trim characters around it and none at its own ends is the trim result, so `Trim` is exactly PHP's `trim` |
| `Validation.TrimIdempotent` | index.php:179 | trimming a trimmed id changes nothing |
| `Validation.Whitelist` | index.php:49 | the filter keeps exactly the characters of `[a-zA-Z0-9\-_]`, never lengthens the string, and returns it unchanged iff every character is allowed |
| `Validation.WhitelistAppend` | index.php:49 | the filter works character by character: filtering a concatenation is concatenating the filtered parts |
| `Validation.WhitelistOne` | index.php:49 | a single character is kept iff it is in the whitelist; with `WhitelistAppend` this fixes the result as the allowed characters, each as often as it occurs, in input order |
| `Validation.WhitelistIdempotent` | index.php:49 | filtering a filtered string removes nothing more |
| `Validation.IsPhpEmpty` | index.php:51 | PHP's `empty` on a string, as used at index.php:51 and index.php:180: true exactly for "" and "0" |
| `Validation.ValidateProductId` | index.php:46-56 | succeeds iff the id is neither "" nor "0" (PHP `empty`) and every character is whitelisted; on success returns the id unchanged, otherwise the invalid-ID error |
| `Validation.FilterValidateInt` | index.php:62-67 | an integer passes the range filter iff it lies in the inclusive range, and passes unchanged |
| `Validation.ValidateWidth` | index.php:59-74 | accepts exactly the widths 1..2000, unchanged; anything else gives the invalid-width error |
| `Validation.ValidateHeight` | index.php:77-92 | accepts exactly the heights 1..1000, unchanged; anything else gives the invalid-height error |
| `Validation.FallbackHeightRejected` | index.php:9-11 | the fallback height 1415 is itself rejected by the height validator |
| `Validation.FallbackWidthAccepted` | index.php:8-10 | the fallback width 1000 is accepted by the width validator |
| `Feed.FirstMatch` | index.php:35-42 | returns the position of an entry with exactly the queried id with no such entry before it, and none iff no entry carries the id |
| `Feed.LoadProductData` | index.php:25-43 | returns none iff no entry carries the id; otherwise an entry with that id that occurs in the feed with no earlier entry carrying the id |
| `Feed.LoadProductDataAppend` | index.php:35-40 | first-match semantics: on a concatenated feed the front part's match wins, and only a front part without the id defers to the back part |
| `Cache.HashInput` | index.php:102 | the digest input is the product id, one `-`, then the price, each recoverable by position |
| `Cache.CacheKey` | index.php:102 | the cache key is the digest of the hash input alone; width and height are not arguments |
| `Cache.CachePath` | index.php:105 | the path is the cache directory, then the key, then `.png` |
| `Cache.CachePathInjective` | index.php:105 | distinct keys give distinct cache paths |
| `Cache.HashInputDistinguishesPrices` | index.php:101-102 | for one product id, different prices give different digest inputs |
| `Cache.HashInputAmbiguousAcrossProducts` | index.php:102 | different (id, price) pairs can give the same digest input when an id contains `-` |
| `Cache.IsFresh` | index.php:106-108 | the hit test: a file exists at the path and its mtime is strictly greater than the current time minus 604800 |
| `Cache.Lookup` | index.php:106-112 | a stored file is returned iff it exists and its age is strictly below 604800 seconds; missing and expired files are the same miss |
| `Cache.Store` | index.php:166 | after the write the path holds the new bytes stamped with the current time, and every other file is unchanged |
| `Cache.StoreThenLookup` | index.php:106-108 | a file written at time t is returned unchanged by a lookup at any time before t + 604800 |
| `Cache.StoreThenExpire` | index.php:15 | a file written at time t is a miss at any time from t + 604800 on |
| `Request.GenerateProductImage` | index.php:95-176 | a fresh cached file is served as stored with the cache unchanged; on a miss with an empty price the script stops at the division; otherwise the rendered image is served and written to the product's cache path, and only there |
| `Request.CheckSizesAndGenerate` | index.php:194-200 | width error iff the width (default 1000) is outside 1..2000; height error iff the width is fine and the height (default 1415) is outside 1..1000; image generation iff both are fine |
| `Request.LookupAndGenerate` | index.php:188-192 | product-not-found iff no feed entry carries the id; otherwise the size checks run on the first matching entry |
| `Request.Dispatch` | index.php:180-186 | no-ID error iff the trimmed id is PHP-empty; invalid-ID error iff it is not empty but has a non-whitelisted character; otherwise the lookup runs on the id |
| `Request.HandleRequest` | index.php:179-204 | the five errors in their fixed order, each exactly when all earlier checks pass and its own fails; errors never change the cache; image generation is reached iff every check passes, using the first matching feed entry |
| `Request.MissingHeightAlwaysFails` | index.php:197-198 | without `h` a request never yields an image or changes the cache, and past the width check it always gets the height error |
| `Request.LookupPrecedesSizeChecks` | index.php:188-195 | for a well-formed id the feed lacks, the answer is product-not-found whatever `w` and `h` are |
| `Request.SurroundingWhitespaceIgnored` | index.php:179 | a request behaves exactly like the one whose id is already trimmed |
| `Request.RequestWritesOnlyItsProductFile` | index.php:98-105 | a request either leaves the cache unchanged or is an admitted miss that writes the served bytes only to the path keyed by the requested id and the feed price |
| `Request.RepeatServesFirstRendering` | index.php:102-114 | when the first request for a product with a non-empty price finds no fresh file, it renders and caches; a second request for the same id within the window, at any valid size, is a hit that serves those bytes, rendered at the first request's size, and writes nothing |
| `Request.CacheHitIgnoresRenderer` | index.php:106-114 | when the product's file is fresh, the response comes from the cache alone and neither the renderer nor the directory's writability affects it |
| `Request.EmptyPriceNeverCached` | index.php:138-140 | a product with an empty price never changes the cache, and any image served for it comes from the cache |
| `Scenarios.DefaultSizeRequestFails` | index.php:194-198 | `id=sku-123` with no `w` or `h` gets the height error and the cache is unchanged |
| `Scenarios.PathTraversalRefused` | index.php:46-56 | `id=../etc/passwd` gets the invalid-ID error before any lookup, and the cache is unchanged |
| `Scenarios.OversizedWidthListed` | index.php:194-195 | a listed product requested with `w=5000` gets the width error |
| `Scenarios.OversizedWidthUnlisted` | index.php:188-192 | an unlisted product requested with `w=5000` gets product-not-found |
| `Scenarios.ZeroIdReadsAsMissing` | index.php:179-183 | the whitelisted id "0" gets the no-ID error |
| `Scenarios.FirstRequestRendersAndCaches` | index.php:102-172 | a first request for a listed product renders the price at the requested size, serves it, and caches it under the digest of `sku-123-$19.99` stamped with the current time |

## Left out

- Validation.Whitelist: its own contract states which characters are kept, not their order or count; `Validation.WhitelistAppend` and `Validation.WhitelistOne` state those.
- GD rendering (index.php:116-163, 172-175): canvas allocation, colour parsing, `imagettfbbox` metrics and centering. This is a foreign library with floating-point arithmetic. Rendering is the opaque `Env.render(price, width, height)`.
- The font-size value (index.php:140): float division. Only its division by zero on an empty price is kept, as the `DivisionByZero` outcome. That outcome assumes PHP 8 semantics. Under PHP 7 the division only emits a warning, and what GD then does is not modelled.
- `md5` (index.php:102): an arbitrary `Env.md5`. Collision-freedom is not assumed.
- Reading and parsing the XML feed (index.php:27-33): the feed is a sequence of `(id, price)` records. An unreadable or unparsable feed is not modelled.
- The truthiness test `!$product` (index.php:189): a found entry is always treated as truthy. SimpleXML's rule for childless elements is not modelled.
- Headers, `readfile`, `echo` and `exit` (index.php:111-113, 169-172, 181-182, 190-191, 202-203): the outcome datatype carries the served bytes (with a hit/miss flag), the error, or the division failure.
- A failing cache write (index.php:166): modelled only as `Env.cacheWritable`. When it is false the image is still served and the cache is unchanged. Partially written files are not modelled.
- PHP coercion: `w` and `h` are integers as `intval` returned them. `intval`'s parsing and saturation are not modelled. Non-string `id` values (arrays) are not modelled.
- The whitelist works per character here. `preg_replace` without the `u` modifier works per byte. Both reject any id with a non-ASCII character.
- The clock does not advance during a request: the written file's mtime is the `now` of the freshness test.
- Concurrency, atomic publication of cache files, and eviction: the source has none of these.
- `Request.RepeatServesFirstRendering` assumes the first request was a cache miss. After a hit, the file may be old enough to expire before the second request, so nothing is claimed for that case.
