/**
 The shorten decision: the 6-character slug of the URL's hash is used when
 it is free or already holds this URL; when it holds another URL, the
 10-character slug is written without looking at it.
 */
module Links {
  import opened Text
  import opened Kv

  const SlugLength: nat := 6
  const CollisionSlugLength: nat := 10

  datatype ShortLink = ShortLink(slug: string, shortUrl: string)

  /** `${BASE_URL.replace(/\/$/, "")}/${slug}`. */
  function ShortUrl(baseUrl: string, slug: string): (r: string)
    ensures r == if |baseUrl| > 0 && baseUrl[|baseUrl| - 1] == '/' then baseUrl + slug else baseUrl + "/" + slug
  {
    StripTrailingSlash(baseUrl) + "/" + slug
  }

  /** The 6-character slot holds a different, non-empty URL. */
  predicate Collides(store: Store, normalized: string, hash: string)
    requires |hash| >= SlugLength
  {
    var existing := Get(store, hash[..SlugLength]);
    Truthy(existing) && existing.value != normalized
  }

  /** The slug a URL gets: the 10-character prefix of its hash on a collision, else the 6-character one. */
  function SlotSlug(store: Store, normalized: string, hash: string): (r: string)
    requires |hash| >= CollisionSlugLength
    ensures StartsWith(r, hash[..SlugLength])
    ensures |r| == SlugLength || |r| == CollisionSlugLength
    ensures r == hash[..|r|]
    ensures |r| == CollisionSlugLength <==> Collides(store, normalized, hash)
  {
    if Collides(store, normalized, hash) then hash[..CollisionSlugLength] else hash[..SlugLength]
  }

  /** The shorten branch of the worker, after the URL is normalised and hashed. */
  function Shorten(store: Store, normalized: string, hash: string, baseUrl: string): (r: Step<ShortLink>)
    requires |hash| >= CollisionSlugLength
    ensures r.out.slug == SlotSlug(store, normalized, hash)
    ensures r.out.shortUrl == ShortUrl(baseUrl, r.out.slug)
    ensures r.store.Keys == store.Keys + {r.out.slug}
    ensures r.store[r.out.slug] == normalized
    ensures forall k :: k in store && k != r.out.slug ==> r.store[k] == store[k]
  {
    var slug := hash[..SlugLength];
    var existing := Get(store, slug);
    if Truthy(existing) && existing.value != normalized then
      var slug10 := hash[..CollisionSlugLength];
      Step(ShortLink(slug10, ShortUrl(baseUrl, slug10)), store[slug10 := normalized])
    else if !Truthy(existing) then
      Step(ShortLink(slug, ShortUrl(baseUrl, slug)), store[slug := normalized])
    else
      Step(ShortLink(slug, ShortUrl(baseUrl, slug)), store)
  }

  /** A free 6-character slot gets the URL; nothing else is written. */
  lemma ShortenFreeSlot(store: Store, normalized: string, hash: string, baseUrl: string)
    requires |hash| >= CollisionSlugLength
    requires hash[..SlugLength] !in store
    ensures Shorten(store, normalized, hash, baseUrl)
         == Step(ShortLink(hash[..SlugLength], ShortUrl(baseUrl, hash[..SlugLength])),
                 store[hash[..SlugLength] := normalized])
  {
  }

  /** Re-shortening a URL already stored under its 6-character slug writes nothing. */
  lemma ShortenExisting(store: Store, normalized: string, hash: string, baseUrl: string)
    requires |hash| >= CollisionSlugLength
    requires hash[..SlugLength] in store && store[hash[..SlugLength]] == normalized
    ensures Shorten(store, normalized, hash, baseUrl).store == store
    ensures Shorten(store, normalized, hash, baseUrl).out.slug == hash[..SlugLength]
  {
    var r := Shorten(store, normalized, hash, baseUrl);
    assert r.store.Keys == store.Keys;
  }

  /**
   On a collision the other URL keeps its 6-character slug and the new URL
   gets the 10-character one: afterwards both slugs resolve to their own URL.
   */
  lemma ShortenCollision(store: Store, normalized: string, hash: string, baseUrl: string)
    requires |hash| >= CollisionSlugLength
    requires Collides(store, normalized, hash)
    ensures var r := Shorten(store, normalized, hash, baseUrl);
      && r.out.slug == hash[..CollisionSlugLength]
      && r.out.slug[..SlugLength] == hash[..SlugLength]
      && r.store[hash[..SlugLength]] == store[hash[..SlugLength]]
      && r.store[hash[..CollisionSlugLength]] == normalized
  {
  }

  /**
   The 10-character slot is not checked: a third URL colliding there replaces
   the one already stored, which no longer resolves.
   */
  lemma CollisionOverwritesLongSlot(store: Store, normalized: string, hash: string, baseUrl: string)
    requires |hash| >= CollisionSlugLength
    requires Collides(store, normalized, hash)
    requires hash[..CollisionSlugLength] in store && store[hash[..CollisionSlugLength]] != normalized
    ensures Shorten(store, normalized, hash, baseUrl).store[hash[..CollisionSlugLength]]
         != store[hash[..CollisionSlugLength]]
  {
  }

  /** Shortening the same URL again returns the same link and leaves the store as it is. */
  lemma ShortenIdempotent(store: Store, normalized: string, hash: string, baseUrl: string)
    requires |hash| >= CollisionSlugLength
    ensures var r := Shorten(store, normalized, hash, baseUrl);
      Shorten(r.store, normalized, hash, baseUrl) == r
  {
    var r := Shorten(store, normalized, hash, baseUrl);
    var r2 := Shorten(r.store, normalized, hash, baseUrl);
    var s6 := hash[..SlugLength];
    assert Collides(r.store, normalized, hash) == Collides(store, normalized, hash) by {
      if r.out.slug != s6 {
        assert hash[..CollisionSlugLength] != s6;
      }
    }
    assert r2.out == r.out;
    assert r2.store == r.store;
  }
}
