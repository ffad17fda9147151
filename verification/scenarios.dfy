/**
 * Concrete requests against a one-product feed, showing how the main flow
 * answers them.
 */
module Scenarios {
  import opened Wrappers
  import Settings
  import opened Validation
  import opened Feed
  import opened Cache
  import opened Request

  const Sku: string := "sku-123"
  const Catalogue: seq<Entry> := [Entry(Sku, "$19.99")]

  lemma SkuIsItsOwnTrim()
    ensures Trim(Sku) == Sku
  {
    TrimUnique(Sku, Sku, 0);
  }

  /** A request with only `id` gets the invalid-height message, not a
      1000 x 1415 image, and nothing is cached. */
  lemma DefaultSizeRequestFails(cache: Directory, env: Env)
    ensures HandleRequest(Catalogue, cache, env, Query(Some(Sku), None, None))
         == Response(Failed(Settings.InvalidHeight), cache)
  {
    SkuIsItsOwnTrim();
    var q := Query(Some(Sku), None, None);
    assert Catalogue[0].id == RequestedId(q);
    assert ProductListed(Catalogue, q);
    FallbackWidthAccepted();
    FallbackHeightRejected();
  }

  /** An id that tries to walk out of the feed directory is refused before any
      lookup, and nothing is cached. */
  lemma PathTraversalRefused(feed: seq<Entry>, cache: Directory, env: Env)
    ensures HandleRequest(feed, cache, env, Query(Some("../etc/passwd"), None, None))
         == Response(Failed(Settings.InvalidId), cache)
  {
    var raw := "../etc/passwd";
    TrimUnique(raw, raw, 0);
    assert !IsAllowedChar(raw[0]);
  }

  /** An out-of-range width is reported as such for a listed product... */
  lemma OversizedWidthListed(cache: Directory, env: Env)
    ensures HandleRequest(Catalogue, cache, env, Query(Some(Sku), Some(5000), Some(500)))
         == Response(Failed(Settings.InvalidWidth), cache)
  {
    SkuIsItsOwnTrim();
    var q := Query(Some(Sku), Some(5000), Some(500));
    assert Catalogue[0].id == RequestedId(q);
    assert ProductListed(Catalogue, q);
    assert !WidthInRange(q);
  }

  /** ... but for an unlisted one the lookup answers first. */
  lemma OversizedWidthUnlisted(cache: Directory, env: Env)
    ensures HandleRequest([], cache, env, Query(Some(Sku), Some(5000), Some(500)))
         == Response(Failed(Settings.ProductNotFound), cache)
  {
    SkuIsItsOwnTrim();
    var q := Query(Some(Sku), Some(5000), Some(500));
    assert IdWellFormed(q);
  }

  /** "0" is a well-formed product id, yet PHP's `empty` takes it for a missing
      one, so it can never be served. */
  lemma ZeroIdReadsAsMissing(feed: seq<Entry>, cache: Directory, env: Env)
    ensures AllAllowed("0")
    ensures HandleRequest(feed, cache, env, Query(Some("0"), Some(100), Some(100)))
         == Response(Failed(Settings.NoId), cache)
  {
    TrimUnique("0", "0", 0);
  }

  /** With a listed product, a size in range and an empty cache, the request
      renders the price at the requested size, serves it, and caches it under
      the digest of "sku-123-$19.99". */
  lemma FirstRequestRendersAndCaches(env: Env)
    requires env.cacheWritable
    ensures var resp := HandleRequest(Catalogue, map[], env, Query(Some(Sku), Some(800), Some(600)));
            var image := env.render("$19.99", 800, 600);
            && resp.outcome == Png(image, false)
            && resp.cache == map[CachePath(env.md5("sku-123-$19.99")) := CachedFile(image, env.now)]
  {
    SkuIsItsOwnTrim();
    var q := Query(Some(Sku), Some(800), Some(600));
    assert Catalogue[0].id == RequestedId(q);
    assert ProductListed(Catalogue, q);
    var product := Catalogue[0];
    assert LoadProductData(Catalogue, Sku) == Some(product);
    assert Admitted(Catalogue, q);
    var path := ProductCachePath(env, product.id, product.price);
    assert HashInput(Sku, "$19.99") == "sku-123-$19.99";
    assert path == CachePath(env.md5("sku-123-$19.99"));
    var resp := HandleRequest(Catalogue, map[], env, q);
    assert resp == GenerateProductImage(product, 800, 600, map[], env);
    assert Lookup(map[], path, env.now).None?;
  }
}
