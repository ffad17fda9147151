/**
 * The image cache of `generateProductImage`: a directory of PNG files named
 * after a digest of the product id and price, whose modification times decide
 * freshness.
 */
module Cache {
  import opened Wrappers
  import Settings

  newtype byte = x: int | 0 <= x < 256
  type Bytes = seq<byte>

  /** A file in the cache directory: its contents and modification time (seconds). */
  datatype CachedFile = CachedFile(bytes: Bytes, mtime: int)

  /** The cache directory, by path. */
  type Directory = map<string, CachedFile>

  /** The string the digest is taken of: the product id, a hyphen, then the
      price (index.php:102). */
  function HashInput(productId: string, price: string): (r: string)
    ensures |r| == |productId| + 1 + |price|
    ensures r[..|productId|] == productId && r[|productId|] == '-' && r[|productId| + 1..] == price
  {
    productId + "-" + price
  }

  /** The cache key: the digest (`md5` in the source, a parameter here) of the
      hash input. Width and height take no part in it. */
  function CacheKey(digest: string -> string, productId: string, price: string): string
  {
    digest(HashInput(productId, price))
  }

  /** The cache file for a key: the cache directory, the key, then the PNG
      extension (index.php:105). */
  function CachePath(key: string): (path: string)
    ensures |path| == |Settings.CacheDirectory| + |key| + 4
    ensures path[..|Settings.CacheDirectory|] == Settings.CacheDirectory
    ensures path[|Settings.CacheDirectory|..|path| - 4] == key
    ensures path[|path| - 4..] == ".png"
  {
    Settings.CacheDirectory + key + ".png"
  }

  /** The hit test of index.php:106-108: a file exists at the path and was
      modified strictly after the moment one expiration time ago. */
  predicate IsFresh(dir: Directory, path: string, now: int) {
    path in dir && dir[path].mtime > now - Settings.CacheExpirationTime
  }

  /** The stored bytes at `path` when the file there is fresh: it exists and is
      strictly younger than the expiration time. Missing and expired files are
      both a miss. */
  function Lookup(dir: Directory, path: string, now: int): (r: Option<Bytes>)
    ensures r.Some? <==> path in dir && now - dir[path].mtime < Settings.CacheExpirationTime
    ensures r.Some? ==> r.value == dir[path].bytes
  {
    if IsFresh(dir, path, now) then Some(dir[path].bytes) else None
  }

  /** The cache write of index.php:166: the file at `path` now holds `bytes`, stamped
      `now`; every other file is untouched. */
  function Store(dir: Directory, path: string, bytes: Bytes, now: int): (d: Directory)
    ensures d.Keys == dir.Keys + {path}
    ensures d[path] == CachedFile(bytes, now)
    ensures forall p :: p in dir && p != path ==> d[p] == dir[p]
  {
    dir[path := CachedFile(bytes, now)]
  }

  /** Round trip: what is stored is what a lookup inside the window returns. */
  lemma StoreThenLookup(dir: Directory, path: string, bytes: Bytes, written: int, now: int)
    requires now < written + Settings.CacheExpirationTime
    ensures Lookup(Store(dir, path, bytes, written), path, now) == Some(bytes)
  {
  }

  /** Expiration: once the expiration time has passed since the write, the
      stored file is a miss. */
  lemma StoreThenExpire(dir: Directory, path: string, bytes: Bytes, written: int, now: int)
    requires now >= written + Settings.CacheExpirationTime
    ensures Lookup(Store(dir, path, bytes, written), path, now) == None
  {
  }

  /** Distinct keys name distinct files. */
  lemma CachePathInjective(key1: string, key2: string)
    ensures CachePath(key1) == CachePath(key2) ==> key1 == key2
  {
    if CachePath(key1) == CachePath(key2) {
      var p := CachePath(key1);
      assert key1 == p[|Settings.CacheDirectory|..|p| - 4];
    }
  }

  /** For one product, different prices give different hash inputs, so only a
      digest collision could make a new price hit the old price's file. */
  lemma HashInputDistinguishesPrices(productId: string, price1: string, price2: string)
    ensures HashInput(productId, price1) == HashInput(productId, price2) ==> price1 == price2
  {
    if HashInput(productId, price1) == HashInput(productId, price2) {
      var h := HashInput(productId, price1);
      assert price1 == h[|productId| + 1..];
    }
  }

  /** Across products the hash input is ambiguous, because the separator may
      occur in an id: product "a-b" at price "c" and product "a" at price
      "b-c" share a hash input and therefore a cache file. */
  lemma HashInputAmbiguousAcrossProducts()
    ensures HashInput("a-b", "c") == HashInput("a", "b-c")
  {
  }
}
