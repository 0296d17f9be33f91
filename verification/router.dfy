/**
 The worker's `fetch` handler as a decision over (path, method, headers,
 body, configuration, store). Each request is handled on its own; the store
 it leaves is passed to the next.
 */
module Router {
  import opened Wrappers
  import opened Text
  import opened Kv
  import opened Normalize
  import opened Links
  import opened RateLimit
  import opened Decimal
  import Base32

  /** What `request.json()` and `body?.url` yield, reduced to the cases the worker tells apart. */
  datatype Body = InvalidJson | UrlNotString | UrlField(url: string)

  /** A request: its pathname (already parsed out of the URL), method, relevant headers and body. */
  datatype Request = Request(
    httpMethod: string,
    path: string,
    apiKeyHeader: Option<string>,
    clientIpHeader: Option<string>,
    body: Body)

  /** Configuration: API_KEY, BASE_URL, and the rate-limit window (seconds) and limit. */
  datatype Env = Env(apiKey: string, baseUrl: string, windowSec: nat, maxRequests: nat)

  /** The code the worker calls but does not contain: the URL library and SHA-256 of the UTF-8 bytes. */
  datatype Platform = Platform(urls: UrlLibrary, sha256: string -> Base32.Digest)

  datatype Outcome =
    | Health
    | MethodNotAllowed
    | Unauthorized
    | RateLimited
    | BadRequest(message: string)
    | Shortened(link: ShortLink)
    | Redirect(target: string)
    | NotFound

  const HealthPath: string := "/health"
  const ShortenPath: string := "/api/shorten"
  const InvalidJsonMessage: string := "Invalid JSON"
  const MissingUrlMessage: string := "Missing 'url'"
  const InvalidUrlMessage: string := "Invalid URL"
  const UnknownClient: string := "unknown"

  /** The HTTP status of each outcome. */
  function Status(o: Outcome): (r: nat)
    ensures r < 400 <==> o.Health? || o.Shortened? || o.Redirect?
    ensures o.Redirect? <==> r == 302
  {
    match o
    case Health => 200
    case MethodNotAllowed => 405
    case Unauthorized => 401
    case RateLimited => 429
    case BadRequest(_) => 400
    case Shortened(_) => 200
    case Redirect(_) => 302
    case NotFound => 404
  }

  /** `getClientIp`: the CF-Connecting-IP header, or "unknown" when it is missing or empty. */
  function ClientIp(req: Request): (r: string)
    ensures r != ""
    ensures req.clientIpHeader.Some? && req.clientIpHeader.value != "" ==> r == req.clientIpHeader.value
    ensures !Truthy(req.clientIpHeader) ==> r == UnknownClient
  {
    match req.clientIpHeader
    case Some(ip) => if ip != "" then ip else UnknownClient
    case None => UnknownClient
  }

  /** `request.headers.get("X-API-Key") || ""`. */
  function ProvidedKey(req: Request): string
  {
    match req.apiKeyHeader
    case Some(k) => k
    case None => ""
  }

  /** A key is configured and the request carries exactly that key. */
  predicate Authorized(env: Env, req: Request)
  {
    env.apiKey != "" && ProvidedKey(req) == env.apiKey
  }

  /** The base32 of the SHA-256 of the normalised URL. */
  function SlugHash(plat: Platform, normalized: string): (r: string)
    ensures |r| == 52
    ensures forall i :: 0 <= i < |r| ==> r[i] in Base32.Alphabet
  {
    Base32.DigestLength(plat.sha256(normalized));
    Base32.Encode(plat.sha256(normalized))
  }

  /** The rate-limit counter key a request is counted under. */
  function CounterKey(env: Env, req: Request, nowMs: nat): string
    requires env.windowSec > 0
  {
    RateKey(ClientIp(req), WindowIndex(nowMs, env.windowSec))
  }

  /**
   The slug a URL gets against a store: its 6-letter hash prefix, or the
   10-letter one when the 6-letter slot holds a different, non-empty URL.
   */
  function ChosenSlug(plat: Platform, normalized: string, store: Store): string
  {
    SlotSlug(store, normalized, SlugHash(plat, normalized))
  }

  /** A counter key has ':' at index 2, where no slug can have one. */
  lemma CounterKeyShape(env: Env, req: Request, nowMs: nat)
    requires env.windowSec > 0
    ensures |CounterKey(env, req, nowMs)| >= 3 && CounterKey(env, req, nowMs)[2] == ':'
  {
  }

  /** A POST to `/api/shorten` with the right key, whose counter has not reached the limit. */
  predicate PassesGuards(env: Env, req: Request, store: Store, nowMs: nat)
    requires env.windowSec > 0
  {
    && req.path == ShortenPath
    && req.httpMethod == "POST"
    && Authorized(env, req)
    && !Exhausted(CurrentCount(store, CounterKey(env, req, nowMs)), env.maxRequests)
  }

  /** The body carries a string `url` that is not blank. */
  predicate CarriesUrl(req: Request)
  {
    req.body.UrlField? && Trim(req.body.url) != ""
  }

  /** The body carries a `url` that normalises. */
  predicate AcceptsUrl(plat: Platform, req: Request)
  {
    CarriesUrl(req) && NormalizeUrl(plat.urls, req.body.url).Success?
  }

  /** `e?.message || "Invalid URL"`: the 400 message for a URL that does not normalise. */
  function InvalidUrlReply(message: string): (r: string)
    ensures r != ""
    ensures message != "" ==> r == message
  {
    if message == "" then InvalidUrlMessage else message
  }

  /** `/api/shorten`: method, key, rate limit, then the body. */
  function ShortenRequest(env: Env, plat: Platform, req: Request, store: Store, nowMs: nat): (r: Step<Outcome>)
    requires env.windowSec > 0
    ensures ChangesOnly(store, r.store, {CounterKey(env, req, nowMs)} + (if r.out.Shortened? then {r.out.link.slug} else {}))
    ensures r.store != store ==> req.httpMethod == "POST" && Authorized(env, req)
    ensures r.out.Shortened? ==> ValidLink(env, r.out.link, r.store)
    ensures r.out.Shortened? ==> StoresNormalized(plat, req, r.out.link.slug, r.store)
    ensures r.out.Shortened? ==> r.out.link.slug == ChosenSlug(plat, NormalizeUrl(plat.urls, req.body.url).value, store)
    ensures req.path == ShortenPath ==>
              (r.out.Shortened? <==> PassesGuards(env, req, store, nowMs) && AcceptsUrl(plat, req))
    ensures req.path == ShortenPath && PassesGuards(env, req, store, nowMs) && CarriesUrl(req)
            && NormalizeUrl(plat.urls, req.body.url).Failure?
            ==> r.out == BadRequest(InvalidUrlReply(NormalizeUrl(plat.urls, req.body.url).error))
    ensures PassesGuards(env, req, store, nowMs) ==>
              CurrentCount(r.store, CounterKey(env, req, nowMs)) == Increment(CurrentCount(store, CounterKey(env, req, nowMs)))
  {
    if req.httpMethod != "POST" then Step(MethodNotAllowed, store)
    else if !Authorized(env, req) then Step(Unauthorized, store)
    else
      var counter := CounterKey(env, req, nowMs);
      var limit := RateLimitOk(store, ClientIp(req), nowMs, env.windowSec, env.maxRequests);
      assert ChangesOnly(store, limit.store, {counter});
      if !limit.out then Step(RateLimited, limit.store)
      else
        var r := ShortenBody(env, plat, req, limit.store);
        ChangesOnlyCompose(store, limit.store, r.store, {counter}, if r.out.Shortened? then {r.out.link.slug} else {});
        if r.out.Shortened? then
          var normalized := NormalizeUrl(plat.urls, req.body.url).value;
          CounterKeyShape(env, req, nowMs);
          CountingKeepsCollision(store, limit.store, counter, normalized, SlugHash(plat, normalized));
          SlugIsNotCounterKey(r.out.link.slug, ClientIp(req), WindowIndex(nowMs, env.windowSec));
          CountUnchanged(limit.store, r.store, {r.out.link.slug}, counter);
          r
        else r
  }

  /** A key outside the changed set keeps its count. */
  lemma CountUnchanged(before: Store, after: Store, keys: set<string>, key: string)
    requires ChangesOnly(before, after, keys) && key !in keys
    ensures CurrentCount(after, key) == CurrentCount(before, key)
  {
    assert Get(after, key) == Get(before, key);
  }

  /**
   Counting the request writes only its counter key, which has ':' where a
   slug has a base32 letter, so the 6-letter slot reads as it did before.
   */
  lemma CountingKeepsCollision(store: Store, counted: Store, counter: string, normalized: string, hash: string)
    requires ChangesOnly(store, counted, {counter})
    requires |counter| >= 3 && counter[2] == ':'
    requires |hash| >= CollisionSlugLength && hash[2] in Base32.Alphabet
    ensures Collides(counted, normalized, hash) == Collides(store, normalized, hash)
  {
    var slug := hash[..SlugLength];
    assert slug[2] == hash[2];
    assert Get(counted, slug) == Get(store, slug);
  }

  /** The link `Shorten` returns for a base32 hash is valid, and only its slug was written. */
  lemma ShortenedLinkValid(env: Env, store: Store, normalized: string, hash: string)
    requires |hash| >= CollisionSlugLength
    requires forall i :: 0 <= i < |hash| ==> hash[i] in Base32.Alphabet
    ensures var s := Shorten(store, normalized, hash, env.baseUrl);
      && ValidLink(env, s.out, s.store)
      && ChangesOnly(store, s.store, {s.out.slug})
      && s.store[s.out.slug] == normalized
  {
    var s := Shorten(store, normalized, hash, env.baseUrl);
    assert forall i :: 0 <= i < |s.out.slug| ==> s.out.slug[i] == hash[i];
  }

  /** After the request is counted: the body checks, normalisation, then the shorten decision. */
  function ShortenBody(env: Env, plat: Platform, req: Request, counted: Store): (r: Step<Outcome>)
    ensures r.out.BadRequest? || r.out.Shortened?
    ensures !r.out.Shortened? ==> r.store == counted
    ensures r.out.Shortened? ==> ChangesOnly(counted, r.store, {r.out.link.slug})
    ensures r.out.Shortened? ==> ValidLink(env, r.out.link, r.store)
    ensures r.out.Shortened? ==> StoresNormalized(plat, req, r.out.link.slug, r.store)
    ensures r.out.Shortened? ==> r.out.link.slug == ChosenSlug(plat, NormalizeUrl(plat.urls, req.body.url).value, counted)
    ensures r.out.Shortened? <==> AcceptsUrl(plat, req)
    ensures CarriesUrl(req) && NormalizeUrl(plat.urls, req.body.url).Failure?
            ==> r.out == BadRequest(InvalidUrlReply(NormalizeUrl(plat.urls, req.body.url).error))
  {
    match req.body
    case InvalidJson => Step(BadRequest(InvalidJsonMessage), counted)
    case UrlNotString => Step(BadRequest(MissingUrlMessage), counted)
    case UrlField(input) =>
      if Trim(input) == "" then Step(BadRequest(MissingUrlMessage), counted)
      else
        match NormalizeUrl(plat.urls, input)
        case Failure(message) =>
          Step(BadRequest(InvalidUrlReply(message)), counted)
        case Success(normalized) =>
          var hash := SlugHash(plat, normalized);
          var s := Shorten(counted, normalized, hash, env.baseUrl);
          ShortenedLinkValid(env, counted, normalized, hash);
          Step(Shortened(s.out), s.store)
  }

  /** The request carried a URL that normalises, and the slug now maps to its normalised form. */
  predicate StoresNormalized(plat: Platform, req: Request, slug: string, store: Store)
  {
    && req.body.UrlField?
    && NormalizeUrl(plat.urls, req.body.url).Success?
    && slug in store
    && store[slug] == NormalizeUrl(plat.urls, req.body.url).value
  }

  /** What every returned link satisfies: 6 or 10 base32 letters, stored, with its short URL. */
  predicate ValidLink(env: Env, link: ShortLink, store: Store)
  {
    && (|link.slug| == SlugLength || |link.slug| == CollisionSlugLength)
    && (forall i :: 0 <= i < |link.slug| ==> link.slug[i] in Base32.Alphabet)
    && link.shortUrl == ShortUrl(env.baseUrl, link.slug)
    && link.slug in store
  }

  /** Slugs the redirect handler refuses to look up. */
  predicate IsReservedSlug(slug: string)
  {
    StartsWith(slug, "api") || StartsWith(slug, "health")
  }

  /** Any other path: GET and HEAD look the slug up, every other method is 404. */
  function RedirectRequest(req: Request, store: Store): (r: Step<Outcome>)
    ensures r.store == store
    ensures r.out == NotFound || r.out.Redirect?
    ensures r.out.Redirect? ==> r.out.target in store.Values && r.out.target != ""
  {
    if req.httpMethod == "GET" || req.httpMethod == "HEAD" then
      var slug := StripLeadingSlash(req.path);
      if slug == "" then Step(NotFound, store)
      else if IsReservedSlug(slug) then Step(NotFound, store)
      else
        var target := Get(store, slug);
        if !Truthy(target) then Step(NotFound, store) else Step(Redirect(target.value), store)
    else
      Step(NotFound, store)
  }

  /**
   `fetch`. A request changes the store at two keys at most: its own
   rate-limit counter, and the slug it was given; nothing is ever removed.
   */
  function Handle(env: Env, plat: Platform, req: Request, store: Store, nowMs: nat): (r: Step<Outcome>)
    requires env.windowSec > 0
    ensures ChangesOnly(store, r.store, {CounterKey(env, req, nowMs)} + (if r.out.Shortened? then {r.out.link.slug} else {}))
    ensures r.store != store ==> req.path == ShortenPath && req.httpMethod == "POST" && Authorized(env, req)
    ensures r.out.Shortened? ==> req.path == ShortenPath && ValidLink(env, r.out.link, r.store)
    ensures r.out.Shortened? ==> StoresNormalized(plat, req, r.out.link.slug, r.store)
    ensures r.out.Shortened? ==> r.out.link.slug == ChosenSlug(plat, NormalizeUrl(plat.urls, req.body.url).value, store)
    ensures r.out.Shortened? <==> PassesGuards(env, req, store, nowMs) && AcceptsUrl(plat, req)
    ensures PassesGuards(env, req, store, nowMs) && CarriesUrl(req) && NormalizeUrl(plat.urls, req.body.url).Failure?
            ==> r.out == BadRequest(InvalidUrlReply(NormalizeUrl(plat.urls, req.body.url).error))
    ensures PassesGuards(env, req, store, nowMs) ==>
              CurrentCount(r.store, CounterKey(env, req, nowMs)) == Increment(CurrentCount(store, CounterKey(env, req, nowMs)))
  {
    if req.path == HealthPath then Step(Health, store)
    else if req.path == ShortenPath then ShortenRequest(env, plat, req, store, nowMs)
    else RedirectRequest(req, store)
  }

  // ---------------------------------------------------------------------
  // Routing and guard order
  // ---------------------------------------------------------------------

  /** `/health` answers for every method and touches nothing. */
  lemma HealthAnyMethod(env: Env, plat: Platform, req: Request, store: Store, nowMs: nat)
    requires env.windowSec > 0
    requires req.path == HealthPath
    ensures Handle(env, plat, req, store, nowMs) == Step(Health, store)
  {
  }

  /** The first guard: `/api/shorten` takes only POST. */
  lemma ShortenNeedsPost(env: Env, plat: Platform, req: Request, store: Store, nowMs: nat)
    requires env.windowSec > 0
    requires req.path == ShortenPath && req.httpMethod != "POST"
    ensures Handle(env, plat, req, store, nowMs) == Step(MethodNotAllowed, store)
  {
  }

  /**
   The second guard: without a configured key, or with a missing or different
   header, the answer is 401 whatever the store holds, and nothing is written.
   */
  lemma UnauthorizedWritesNothing(env: Env, plat: Platform, req: Request, store: Store, nowMs: nat)
    requires env.windowSec > 0
    requires req.path == ShortenPath && req.httpMethod == "POST"
    requires env.apiKey == "" || req.apiKeyHeader.None? || req.apiKeyHeader.value != env.apiKey
    ensures Handle(env, plat, req, store, nowMs) == Step(Unauthorized, store)
  {
  }

  /** The third guard: a refused rate limit is 429 before the body is looked at, and writes nothing. */
  lemma RateLimitedWritesNothing(env: Env, plat: Platform, req: Request, store: Store, nowMs: nat)
    requires env.windowSec > 0
    requires req.path == ShortenPath && req.httpMethod == "POST" && Authorized(env, req)
    requires Exhausted(CurrentCount(store, CounterKey(env, req, nowMs)), env.maxRequests)
    ensures Handle(env, plat, req, store, nowMs) == Step(RateLimited, store)
  {
  }

  /**
   Every request past the limit is counted, so the one that brings the
   counter to the limit makes the next request of the window a 429, whatever
   either body holds.
   */
  lemma LimitReachedThenRateLimited(env: Env, plat: Platform, req: Request, store: Store, nowMs: nat,
                                    later: Request, laterMs: nat)
    requires env.windowSec > 0 && env.maxRequests > 0
    requires PassesGuards(env, req, store, nowMs)
    requires CurrentCount(store, CounterKey(env, req, nowMs)) == Finite(env.maxRequests - 1)
    requires later.path == ShortenPath && later.httpMethod == "POST" && Authorized(env, later)
    requires CounterKey(env, later, laterMs) == CounterKey(env, req, nowMs)
    ensures var r := Handle(env, plat, req, store, nowMs);
      Handle(env, plat, later, r.store, laterMs) == Step(RateLimited, r.store)
  {
    var r := Handle(env, plat, req, store, nowMs);
    assert CurrentCount(r.store, CounterKey(env, later, laterMs)) == Finite(env.maxRequests);
    RateLimitedWritesNothing(env, plat, later, r.store, laterMs);
  }

  /**
   The fourth and fifth guards: once counted, an unparsable body or a
   missing, non-string or blank `url` is 400, and only the counter changed.
   */
  lemma BadBodyRejected(env: Env, plat: Platform, req: Request, store: Store, nowMs: nat)
    requires env.windowSec > 0
    requires req.path == ShortenPath && req.httpMethod == "POST" && Authorized(env, req)
    requires !Exhausted(CurrentCount(store, CounterKey(env, req, nowMs)), env.maxRequests)
    requires req.body.InvalidJson? || req.body.UrlNotString? || (req.body.UrlField? && IsBlank(req.body.url))
    ensures var r := Handle(env, plat, req, store, nowMs);
      && r.out == BadRequest(if req.body.InvalidJson? then InvalidJsonMessage else MissingUrlMessage)
      && r.store == RateLimitOk(store, ClientIp(req), nowMs, env.windowSec, env.maxRequests).store
  {
    if req.body.UrlField? {
      TrimEmptyIffBlank(req.body.url);
    }
  }

  // ---------------------------------------------------------------------
  // Redirects
  // ---------------------------------------------------------------------

  /**
   GET and HEAD on any other path redirect exactly when the path names a
   non-reserved slug whose stored value is non-empty, and then to exactly
   that value; otherwise the answer is 404. Nothing is written.
   */
  lemma RedirectIff(env: Env, plat: Platform, req: Request, store: Store, nowMs: nat)
    requires env.windowSec > 0
    requires req.path != HealthPath && req.path != ShortenPath
    requires req.httpMethod == "GET" || req.httpMethod == "HEAD"
    ensures var r := Handle(env, plat, req, store, nowMs);
      var slug := StripLeadingSlash(req.path);
      && r.store == store
      && (r.out.Redirect? <==> slug != "" && !IsReservedSlug(slug) && slug in store && store[slug] != "")
      && (r.out.Redirect? ==> r.out.target == store[slug])
      && (!r.out.Redirect? ==> r.out == NotFound)
  {
  }

  /** There is no landing page: `/` is 404. */
  lemma RootIsNotFound(env: Env, plat: Platform, req: Request, store: Store, nowMs: nat)
    requires env.windowSec > 0
    requires req.path == "/"
    ensures Handle(env, plat, req, store, nowMs) == Step(NotFound, store)
  {
  }

  /** Reserved slugs are 404 whatever the store holds under them. */
  lemma ReservedSlugNeverResolves(env: Env, plat: Platform, req: Request, store: Store, nowMs: nat)
    requires env.windowSec > 0
    requires req.path != HealthPath && req.path != ShortenPath
    requires IsReservedSlug(StripLeadingSlash(req.path))
    ensures Handle(env, plat, req, store, nowMs) == Step(NotFound, store)
  {
  }

  /** Methods other than GET and HEAD are 404 off the two API paths. */
  lemma OtherMethodsNotFound(env: Env, plat: Platform, req: Request, store: Store, nowMs: nat)
    requires env.windowSec > 0
    requires req.path != HealthPath && req.path != ShortenPath
    requires req.httpMethod != "GET" && req.httpMethod != "HEAD"
    ensures Handle(env, plat, req, store, nowMs) == Step(NotFound, store)
  {
  }

  // ---------------------------------------------------------------------
  // Shorten, then resolve
  // ---------------------------------------------------------------------

  /** A slug made of base32 letters can never be a rate-limit counter key, which has ':' at index 2. */
  lemma SlugIsNotCounterKey(slug: string, ip: string, window: nat)
    requires |slug| >= 3
    requires forall i :: 0 <= i < |slug| ==> slug[i] in Base32.Alphabet
    ensures slug != RateKey(ip, window)
  {
    assert RateKey(ip, window)[2] == ':';
    assert slug[2] in Base32.Alphabet;
  }

  /**
   What a GET of a returned slug answers: the slug "health" (six base32
   letters) is the health check, other reserved slugs are 404, and the rest
   redirect to the stored URL.
   */
  function Resolution(slug: string, target: string): Outcome
  {
    if slug == "health" then Health
    else if IsReservedSlug(slug) then NotFound
    else Redirect(target)
  }

  /**
   A URL that is accepted is stored under the slug returned, and a later
   GET of that slug redirects to the normalised URL, unless the slug happens
   to start with "api" or "health": then the link is stored but unreachable.
   */
  lemma ShortenedLinkResolves(env: Env, plat: Platform, req: Request, store: Store, nowMs: nat,
                              later: Request, laterMs: nat)
    requires env.windowSec > 0
    requires PassesGuards(env, req, store, nowMs) && AcceptsUrl(plat, req)
    requires NormalizeUrl(plat.urls, req.body.url).value != ""
    requires later.httpMethod == "GET" || later.httpMethod == "HEAD"
    requires later.path == "/" + Handle(env, plat, req, store, nowMs).out.link.slug
    ensures var r := Handle(env, plat, req, store, nowMs);
      && r.out.Shortened?
      && Handle(env, plat, later, r.store, laterMs).out
         == Resolution(r.out.link.slug, NormalizeUrl(plat.urls, req.body.url).value)
  {
    var r := Handle(env, plat, req, store, nowMs);
    ResolveLinkSlug(env, plat, later, r.store, laterMs, r.out.link);
  }

  /** A digest starting 0x03 0xD0 gives a slug starting "api", in either slot. */
  lemma ApiDigestSlug(plat: Platform, normalized: string, store: Store)
    requires plat.sha256(normalized)[0] == 0x03 && plat.sha256(normalized)[1] == 0xD0
    ensures var slug := ChosenSlug(plat, normalized, store);
      (|slug| == SlugLength || |slug| == CollisionSlugLength) && IsReservedSlug(slug) && slug != "health"
  {
    var hash := SlugHash(plat, normalized);
    Base32.EncodeApiPrefix(plat.sha256(normalized));
    assert hash[..3] == "api";
    var slug := ChosenSlug(plat, normalized, store);
    assert slug[..3] == hash[..3];
    assert slug[0] == 'a';
  }

  /**
   A URL whose SHA-256 digest starts with the bytes 0x03 0xD0 is accepted
   and stored, yet a later request for its slug is 404: the slug encodes to
   letters starting "api", which the redirect branch refuses.
   */
  lemma ApiDigestLinkUnreachable(env: Env, plat: Platform, req: Request, store: Store, nowMs: nat,
                                 later: Request, laterMs: nat)
    requires env.windowSec > 0
    requires PassesGuards(env, req, store, nowMs) && AcceptsUrl(plat, req)
    requires var digest := plat.sha256(NormalizeUrl(plat.urls, req.body.url).value);
      digest[0] == 0x03 && digest[1] == 0xD0
    requires later.path == "/" + Handle(env, plat, req, store, nowMs).out.link.slug
    ensures var r := Handle(env, plat, req, store, nowMs);
      && r.out.Shortened?
      && r.store[r.out.link.slug] == NormalizeUrl(plat.urls, req.body.url).value
      && Handle(env, plat, later, r.store, laterMs) == Step(NotFound, r.store)
  {
    var r := Handle(env, plat, req, store, nowMs);
    var normalized := NormalizeUrl(plat.urls, req.body.url).value;
    assert r.out.link.slug == ChosenSlug(plat, normalized, store);
    ApiDigestSlug(plat, normalized, store);
    ReservedPathNotFound(env, plat, later, r.store, laterMs, r.out.link.slug);
  }

  /** A request for a reserved slug of six or ten letters is 404, whatever the method. */
  lemma ReservedPathNotFound(env: Env, plat: Platform, later: Request, store: Store, laterMs: nat, slug: string)
    requires env.windowSec > 0
    requires (|slug| == SlugLength || |slug| == CollisionSlugLength) && IsReservedSlug(slug) && slug != "health"
    requires later.path == "/" + slug
    ensures Handle(env, plat, later, store, laterMs) == Step(NotFound, store)
  {
    assert StripLeadingSlash(later.path) == slug;
    assert later.path != HealthPath by {
      assert later.path[1..] == slug;
    }
    assert later.path != ShortenPath by {
      assert |later.path| != |ShortenPath|;
    }
    ReservedSlugNeverResolves(env, plat, later, store, laterMs);
  }

  /** A GET of a returned slug: redirect to what it stores, unless the slug is reserved. */
  lemma ResolveLinkSlug(env: Env, plat: Platform, later: Request, store: Store, laterMs: nat, link: ShortLink)
    requires env.windowSec > 0
    requires ValidLink(env, link, store) && store[link.slug] != ""
    requires later.httpMethod == "GET" || later.httpMethod == "HEAD"
    requires later.path == "/" + link.slug
    ensures Handle(env, plat, later, store, laterMs)
         == Step(Resolution(link.slug, store[link.slug]), store)
  {
    var slug := link.slug;
    assert StripLeadingSlash(later.path) == slug;
    assert later.path == HealthPath <==> slug == "health";
    assert later.path != ShortenPath by {
      assert |later.path| != |ShortenPath|;
    }
  }

  /**
   Two identical shorten requests in a row that both get through return the
   same link: the first one's writes leave the second one's slot choice as
   it was.
   */
  lemma RepeatShortenSameLink(env: Env, plat: Platform, req: Request, store: Store, now1: nat, now2: nat)
    requires env.windowSec > 0
    requires PassesGuards(env, req, store, now1) && AcceptsUrl(plat, req)
    requires PassesGuards(env, req, Handle(env, plat, req, store, now1).store, now2)
    ensures Handle(env, plat, req, store, now1).out.Shortened?
    ensures Handle(env, plat, req, Handle(env, plat, req, store, now1).store, now2).out
         == Handle(env, plat, req, store, now1).out
  {
    var r1 := Handle(env, plat, req, store, now1);
    CounterKeyShape(env, req, now1);
    SecondShortenSameLink(env, plat, NormalizeUrl(plat.urls, req.body.url).value, store, CounterKey(env, req, now1),
                          r1, Handle(env, plat, req, r1.store, now2));
  }

  /** `RepeatShortenSameLink`, from what `Handle` promises about each of the two requests. */
  lemma SecondShortenSameLink(env: Env, plat: Platform, normalized: string, store: Store, counter: string,
                              r1: Step<Outcome>, r2: Step<Outcome>)
    requires |counter| >= 3 && counter[2] == ':'
    requires r1.out.Shortened? && r2.out.Shortened?
    requires ChangesOnly(store, r1.store, {counter} + {r1.out.link.slug})
    requires ValidLink(env, r1.out.link, r1.store) && ValidLink(env, r2.out.link, r2.store)
    requires r1.store[r1.out.link.slug] == normalized
    requires r1.out.link.slug == ChosenSlug(plat, normalized, store)
    requires r2.out.link.slug == ChosenSlug(plat, normalized, r1.store)
    ensures r2.out == r1.out
  {
    var slug := r1.out.link.slug;
    assert {counter} + {slug} == {counter, slug};
    SlugChoiceStable(plat, normalized, store, r1.store, counter);
    SameSlugSameLink(env, r1.out.link, r1.store, r2.out.link, r2.store);
  }

  /** A valid link is determined by its slug. */
  lemma SameSlugSameLink(env: Env, a: ShortLink, sa: Store, b: ShortLink, sb: Store)
    requires ValidLink(env, a, sa) && ValidLink(env, b, sb) && a.slug == b.slug
    ensures a == b
  {
  }

  /**
   Once a URL has been stored under the slug chosen for it, with at most a
   counter key written besides, the same slug is chosen again.
   */
  lemma SlugChoiceStable(plat: Platform, normalized: string, before: Store, after: Store, counter: string)
    requires |counter| >= 3 && counter[2] == ':'
    requires var slug := ChosenSlug(plat, normalized, before);
      && ChangesOnly(before, after, {counter, slug})
      && slug in after && after[slug] == normalized
    ensures ChosenSlug(plat, normalized, after) == ChosenSlug(plat, normalized, before)
  {
    var hash := SlugHash(plat, normalized);
    var slug6 := hash[..SlugLength];
    assert slug6[2] in Base32.Alphabet;
    if Collides(before, normalized, hash) {
      assert slug6 != hash[..CollisionSlugLength];
      assert Get(after, slug6) == Get(before, slug6);
    }
  }
}
