/**
 * One request to the price-tag endpoint: the main flow of index.php, which
 * checks its parameters in a fixed order and then either serves the cached
 * PNG or renders, caches and serves a new one.
 */
module Request {
  import opened Wrappers
  import Settings
  import opened Validation
  import opened Feed
  import opened Cache

  /** The query string as the script reads it: `id` as sent, and `w`, `h` as
      `intval` has already turned them into integers. */
  datatype Query = Query(id: Option<string>, w: Option<int>, h: Option<int>)

  /** What the script takes from outside itself: the digest function (`md5`),
      the GD renderer (price, width, height to PNG bytes), the clock (`time()`),
      and whether the cache directory accepts the write. */
  datatype Env = Env(md5: string -> string, render: (string, int, int) -> Bytes,
                     now: int, cacheWritable: bool)

  /** What reaches the client. */
  datatype Outcome =
    | Failed(error: Settings.Error)         // its message, echoed as plain text
    | Png(bytes: Bytes, fromCache: bool)   // a `Content-Type: image/png` body
    | DivisionByZero                       // the uncaught error of an empty price at index.php:140

  /** The outcome, and the cache directory as the request leaves it. */
  datatype Response = Response(outcome: Outcome, cache: Directory)

  /** The cache file for a product: named after the digest of its id and price. */
  function ProductCachePath(env: Env, productId: string, price: string): string {
    CachePath(CacheKey(env.md5, productId, price))
  }

  // ---------------------------------------------------------------------------
  // generateProductImage
  // ---------------------------------------------------------------------------

  /** `generateProductImage`: a fresh cached file is served as stored, with
      nothing rendered or written; otherwise the price is rendered at the
      requested size, written to the cache file (when the directory accepts
      it) and the same bytes are served. An empty price on a miss stops the
      script at the font-size division. */
  function GenerateProductImage(product: Entry, width: int, height: int,
                                cache: Directory, env: Env): (resp: Response)
    ensures !resp.outcome.Failed?
    ensures var path := ProductCachePath(env, product.id, product.price);
            var stored := Lookup(cache, path, env.now);
            && ((resp.outcome.Png? && resp.outcome.fromCache) <==> stored.Some?)
            && (stored.Some? ==> resp == Response(Png(stored.value, true), cache))
            && (stored.None? && product.price == [] ==> resp == Response(DivisionByZero, cache))
            && (stored.None? && product.price != [] ==>
                  && resp.outcome == Png(env.render(product.price, width, height), false)
                  && resp.cache == if env.cacheWritable
                                   then Store(cache, path, resp.outcome.bytes, env.now)
                                   else cache)
  {
    var path := ProductCachePath(env, product.id, product.price);
    if IsFresh(cache, path, env.now) then
      Response(Png(cache[path].bytes, true), cache)
    else if |product.price| == 0 then
      Response(DivisionByZero, cache)
    else
      var image := env.render(product.price, width, height);
      Response(Png(image, false), if env.cacheWritable then Store(cache, path, image, env.now) else cache)
  }

  // ---------------------------------------------------------------------------
  // The checks of the main flow, stated on the query itself
  // ---------------------------------------------------------------------------

  /** The `id` parameter after `trim`; empty when it is absent. */
  function RequestedId(q: Query): string {
    if q.id.Some? then Trim(q.id.value) else ""
  }

  /** `id` is present and its trimmed value is not PHP-empty. */
  predicate HasId(q: Query) {
    !IsPhpEmpty(RequestedId(q))
  }

  /** ... and consists of whitelisted characters only. */
  predicate IdWellFormed(q: Query) {
    HasId(q) && AllAllowed(RequestedId(q))
  }

  /** ... and some feed entry carries exactly that id. */
  predicate ProductListed(feed: seq<Entry>, q: Query) {
    IdWellFormed(q) && exists e :: e in feed && e.id == RequestedId(q)
  }

  /** The width the request asks for, 1000 when `w` is absent. */
  function RequestedWidth(q: Query): int {
    q.w.GetOr(Settings.FallbackWidth)
  }

  /** The height the request asks for, 1415 when `h` is absent. */
  function RequestedHeight(q: Query): int {
    q.h.GetOr(Settings.FallbackHeight)
  }

  predicate WidthInRange(q: Query) {
    1 <= RequestedWidth(q) <= Settings.MaxWidth
  }

  predicate HeightInRange(q: Query) {
    1 <= RequestedHeight(q) <= Settings.MaxHeight
  }

  /** Every check passes: the request reaches image generation. */
  predicate Admitted(feed: seq<Entry>, q: Query) {
    ProductListed(feed, q) && WidthInRange(q) && HeightInRange(q)
  }

  // ---------------------------------------------------------------------------
  // Main flow
  // ---------------------------------------------------------------------------

  /** `$width` and `$height` (index.php:194-200): the width is checked first,
      then the height, and only a request passing both reaches image
      generation. */
  function CheckSizesAndGenerate(product: Entry, w: Option<int>, h: Option<int>,
                                 cache: Directory, env: Env): (resp: Response)
    ensures var width := w.GetOr(Settings.FallbackWidth);
            var height := h.GetOr(Settings.FallbackHeight);
            && (resp.outcome == Failed(Settings.InvalidWidth) <==> !(1 <= width <= Settings.MaxWidth))
            && (resp.outcome == Failed(Settings.InvalidHeight)
                <==> 1 <= width <= Settings.MaxWidth && !(1 <= height <= Settings.MaxHeight))
            && (resp.outcome.Failed? ==>
                  resp.outcome.error in {Settings.InvalidWidth, Settings.InvalidHeight})
            && (resp.outcome.Failed? ==> resp.cache == cache)
            && (1 <= width <= Settings.MaxWidth && 1 <= height <= Settings.MaxHeight
                ==> resp == GenerateProductImage(product, width, height, cache, env))
  {
    match ValidateWidth(w.GetOr(Settings.FallbackWidth))
    case Failure(e) => Response(Failed(e), cache)
    case Success(width) =>
      match ValidateHeight(h.GetOr(Settings.FallbackHeight))
      case Failure(e) => Response(Failed(e), cache)
      case Success(height) => GenerateProductImage(product, width, height, cache, env)
  }

  /** The lookup (index.php:188-192): an id the feed does not carry is reported
      before the size parameters are looked at. */
  function LookupAndGenerate(feed: seq<Entry>, productId: string, w: Option<int>, h: Option<int>,
                             cache: Directory, env: Env): (resp: Response)
    ensures resp.outcome == Failed(Settings.ProductNotFound)
            <==> forall e :: e in feed ==> e.id != productId
    ensures resp.outcome.Failed? ==>
              resp.outcome.error in {Settings.ProductNotFound, Settings.InvalidWidth, Settings.InvalidHeight}
    ensures resp.outcome.Failed? ==> resp.cache == cache
    ensures LoadProductData(feed, productId).Some? ==>
              resp == CheckSizesAndGenerate(LoadProductData(feed, productId).value, w, h, cache, env)
  {
    match LoadProductData(feed, productId)
    case None => Response(Failed(Settings.ProductNotFound), cache)
    case Some(product) => CheckSizesAndGenerate(product, w, h, cache, env)
  }

  /** The main flow once `$id` holds the trimmed parameter ("" standing for the
      null of an absent one, which `empty` treats alike): the no-ID check, then
      `validateProductId`, then the lookup. */
  function Dispatch(feed: seq<Entry>, cache: Directory, env: Env,
                    id: string, w: Option<int>, h: Option<int>): (resp: Response)
    ensures resp.outcome == Failed(Settings.NoId) <==> IsPhpEmpty(id)
    ensures resp.outcome == Failed(Settings.InvalidId) <==> !IsPhpEmpty(id) && !AllAllowed(id)
    ensures resp.outcome.Failed? ==> resp.cache == cache
    ensures !IsPhpEmpty(id) && AllAllowed(id) ==> resp == LookupAndGenerate(feed, id, w, h, cache, env)
  {
    if IsPhpEmpty(id) then
      Response(Failed(Settings.NoId), cache)
    else
      match ValidateProductId(id)
      case Failure(e) => Response(Failed(e), cache)
      case Success(productId) => LookupAndGenerate(feed, productId, w, h, cache, env)
  }

  /** One request: no-ID, invalid-ID, product-not-found, invalid-width and
      invalid-height, in that order, each reported exactly when every earlier
      check passed and its own fails; an error never touches the cache; image
      generation is reached exactly when every check passes, with the first
      matching feed entry. */
  function HandleRequest(feed: seq<Entry>, cache: Directory, env: Env, q: Query): (resp: Response)
    ensures resp.outcome == Failed(Settings.NoId) <==> !HasId(q)
    ensures resp.outcome == Failed(Settings.InvalidId) <==> HasId(q) && !AllAllowed(RequestedId(q))
    ensures resp.outcome == Failed(Settings.ProductNotFound) <==> IdWellFormed(q) && !ProductListed(feed, q)
    ensures resp.outcome == Failed(Settings.InvalidWidth) <==> ProductListed(feed, q) && !WidthInRange(q)
    ensures resp.outcome == Failed(Settings.InvalidHeight)
            <==> ProductListed(feed, q) && WidthInRange(q) && !HeightInRange(q)
    ensures !resp.outcome.Failed? <==> Admitted(feed, q)
    ensures resp.outcome.Failed? ==> resp.cache == cache
    ensures Admitted(feed, q) ==>
              && LoadProductData(feed, RequestedId(q)).Some?
              && resp == GenerateProductImage(LoadProductData(feed, RequestedId(q)).value,
                                              RequestedWidth(q), RequestedHeight(q), cache, env)
  {
    Dispatch(feed, cache, env, RequestedId(q), q.w, q.h)
  }

  // ---------------------------------------------------------------------------
  // Properties of the flow
  // ---------------------------------------------------------------------------

  /** A request without `h` never yields an image and never writes the cache:
      the fallback height 1415 exceeds the maximum 1000, so every such request
      that gets past the width check ends in the invalid-height message. */
  lemma MissingHeightAlwaysFails(feed: seq<Entry>, cache: Directory, env: Env, q: Query)
    requires q.h.None?
    ensures HandleRequest(feed, cache, env, q).outcome.Failed?
    ensures HandleRequest(feed, cache, env, q).cache == cache
    ensures ProductListed(feed, q) && WidthInRange(q) ==>
              HandleRequest(feed, cache, env, q).outcome == Failed(Settings.InvalidHeight)
  {
    FallbackHeightRejected();
    assert !HeightInRange(q);
  }

  /** Width is examined only after the feed lookup: for an id the feed does not
      carry, the answer is product-not-found whatever `w` and `h` are, even
      out of range. */
  lemma LookupPrecedesSizeChecks(feed: seq<Entry>, cache: Directory, env: Env, q: Query,
                                 w: Option<int>, h: Option<int>)
    requires IdWellFormed(q) && !ProductListed(feed, q)
    ensures HandleRequest(feed, cache, env, q.(w := w, h := h))
         == Response(Failed(Settings.ProductNotFound), cache)
  {
    var q' := q.(w := w, h := h);
    assert RequestedId(q') == RequestedId(q);
  }

  /** Whitespace around the id is ignored: a request behaves exactly like the
      one whose id is already trimmed. */
  lemma SurroundingWhitespaceIgnored(feed: seq<Entry>, cache: Directory, env: Env, q: Query)
    requires q.id.Some?
    ensures HandleRequest(feed, cache, env, q)
         == HandleRequest(feed, cache, env, q.(id := Some(Trim(q.id.value))))
  {
    TrimIdempotent(q.id.value);
  }

  /** A request changes the cache, if at all, only by writing the file named
      after the digest of the requested id and the feed's price for it, so
      width and height never select a different file. */
  lemma RequestWritesOnlyItsProductFile(feed: seq<Entry>, cache: Directory, env: Env, q: Query)
    ensures var resp := HandleRequest(feed, cache, env, q);
            resp.cache == cache
            || (&& Admitted(feed, q)
                && resp.outcome.Png?
                && !resp.outcome.fromCache
                && var price := LoadProductData(feed, RequestedId(q)).value.price;
                   resp.cache == Store(cache, ProductCachePath(env, RequestedId(q), price),
                                       resp.outcome.bytes, env.now))
  {
  }

  /** When the first request for a product is a miss, a second request for the
      same product inside the expiration window is a cache hit that serves the
      first request's bytes unchanged and renders and writes nothing. Since the
      size is not part of the key, those bytes are the image rendered at the
      FIRST request's width and height, whatever size the second request asks
      for. */
  lemma RepeatServesFirstRendering(feed: seq<Entry>, cache: Directory, env: Env,
                                   q1: Query, q2: Query, later: int)
    requires Admitted(feed, q1) && Admitted(feed, q2)
    requires RequestedId(q1) == RequestedId(q2)
    requires env.cacheWritable
    requires var product := LoadProductData(feed, RequestedId(q1)).value;
             && product.price != []
             && !IsFresh(cache, ProductCachePath(env, product.id, product.price), env.now)
    requires later < env.now + Settings.CacheExpirationTime
    ensures var first := HandleRequest(feed, cache, env, q1);
            var second := HandleRequest(feed, first.cache, env.(now := later), q2);
            && first.outcome.Png? && !first.outcome.fromCache
            && second == Response(Png(first.outcome.bytes, true), first.cache)
            && second.outcome.bytes == env.render(LoadProductData(feed, RequestedId(q1)).value.price,
                                                  RequestedWidth(q1), RequestedHeight(q1))
  {
    var product := LoadProductData(feed, RequestedId(q1)).value;
    var path := ProductCachePath(env, product.id, product.price);
    var first := HandleRequest(feed, cache, env, q1);
    assert first == GenerateProductImage(product, RequestedWidth(q1), RequestedHeight(q1), cache, env);
    assert Lookup(cache, path, env.now).None?;
    assert product.price != [];
    assert first.cache == Store(cache, path, first.outcome.bytes, env.now);
    StoreThenLookup(cache, path, first.outcome.bytes, env.now, later);
    var env2 := env.(now := later);
    assert ProductCachePath(env2, product.id, product.price) == path;
    assert HandleRequest(feed, first.cache, env2, q2)
        == GenerateProductImage(product, RequestedWidth(q2), RequestedHeight(q2), first.cache, env2);
  }

  /** A request whose product has a fresh cached file is answered from the
      cache alone: neither the renderer nor the writability of the cache
      directory has any influence on it. */
  lemma CacheHitIgnoresRenderer(feed: seq<Entry>, cache: Directory, env: Env, q: Query,
                                otherRender: (string, int, int) -> Bytes, otherWritable: bool)
    requires Admitted(feed, q)
    requires var product := LoadProductData(feed, RequestedId(q)).value;
             IsFresh(cache, ProductCachePath(env, product.id, product.price), env.now)
    ensures var resp := HandleRequest(feed, cache, env, q);
            && resp == HandleRequest(feed, cache,
                                     env.(render := otherRender, cacheWritable := otherWritable), q)
            && resp.cache == cache
            && resp.outcome.Png? && resp.outcome.fromCache
  {
    var product := LoadProductData(feed, RequestedId(q)).value;
    var env2 := env.(render := otherRender, cacheWritable := otherWritable);
    assert ProductCachePath(env2, product.id, product.price)
        == ProductCachePath(env, product.id, product.price);
  }

  /** A product with an empty price is never written to the cache: on a miss
      the request stops at the font-size division, and on a hit it only reads. */
  lemma EmptyPriceNeverCached(feed: seq<Entry>, cache: Directory, env: Env, q: Query)
    requires ProductListed(feed, q)
    requires LoadProductData(feed, RequestedId(q)).value.price == []
    ensures HandleRequest(feed, cache, env, q).cache == cache
    ensures HandleRequest(feed, cache, env, q).outcome.Png? ==>
              HandleRequest(feed, cache, env, q).outcome.fromCache
  {
  }
}
