/**
 URL normalisation, over the record a WHATWG URL parser produces. Parsing
 and serialisation themselves belong to the URL library and are passed in
 as a `UrlLibrary`.
 */
module Normalize {
  import opened Wrappers
  import opened Text

  /**
   A parsed URL. `scheme` is the protocol without its ':'; `userinfo` is the
   `username[:password]` part before '@', empty when there is none; `port` is the
   empty string when the URL has none; `fragment` is None when the URL has
   no '#' part.
   */
  datatype Url = Url(
    scheme: string,
    userinfo: string,
    host: string,
    port: string,
    path: string,
    query: string,
    fragment: Option<string>)

  /**
   The URL library: `parse` is `new URL(s)` (failing with the message of the
   TypeError it throws), `serialize` is `url.toString()`.
   */
  datatype UrlLibrary = UrlLibrary(parse: string -> Result<Url, string>, serialize: Url -> string)

  const SchemeError: string := "Only http/https URLs are allowed"

  predicate IsHttpScheme(scheme: string)
  {
    scheme == "http" || scheme == "https"
  }

  /** An explicit port equal to the scheme's default. */
  predicate HasDefaultPort(u: Url)
  {
    (u.scheme == "http" && u.port == "80") || (u.scheme == "https" && u.port == "443")
  }

  /** The shape every normalised record has. */
  predicate IsNormal(u: Url)
  {
    && IsHttpScheme(u.scheme)
    && !HasDefaultPort(u)
    && u.fragment == None
    && forall i :: 0 <= i < |u.host| ==> !IsUpperAscii(u.host[i])
  }

  /**
   Normalises a parsed URL: only http and https are accepted; an explicit
   default port is cleared; the fragment is dropped; the host is lowercased;
   credentials, path and query are kept as they are.
   */
  function NormalizeRecord(u: Url): (r: Result<Url, string>)
    ensures r.Failure? <==> !IsHttpScheme(u.scheme)
    ensures r.Failure? ==> r.error == SchemeError
    ensures r.Success? ==> IsNormal(r.value)
    ensures r.Success? ==> r.value.scheme == u.scheme && r.value.path == u.path && r.value.query == u.query
    ensures r.Success? ==> r.value.userinfo == u.userinfo
    ensures r.Success? ==> r.value.port == (if HasDefaultPort(u) then "" else u.port)
    ensures r.Success? ==> r.value.host == ToLowerAscii(u.host)
  {
    if !IsHttpScheme(u.scheme) then
      Failure(SchemeError)
    else
      var port := if HasDefaultPort(u) then "" else u.port;
      Success(u.(port := port, fragment := None, host := ToLowerAscii(u.host)))
  }

  /** A normal record is left as it is, so normalising twice changes nothing. */
  lemma NormalizeRecordFixpoint(u: Url)
    requires IsNormal(u)
    ensures NormalizeRecord(u) == Success(u)
  {
    ToLowerAsciiFixpoint(u.host);
  }

  lemma NormalizeRecordIdempotent(u: Url)
    requires NormalizeRecord(u).Success?
    ensures NormalizeRecord(NormalizeRecord(u).value) == NormalizeRecord(u)
  {
    NormalizeRecordFixpoint(NormalizeRecord(u).value);
  }

  /** `http://Example.com:80/x` normalises to `http://example.com/x`. */
  lemma DefaultPortExample()
    ensures NormalizeRecord(Url("http", "", "Example.com", "80", "/x", "", None))
         == Success(Url("http", "", "example.com", "", "/x", "", None))
  {
    var r := NormalizeRecord(Url("http", "", "Example.com", "80", "/x", "", None)).value;
    assert r.host == "example.com";
  }

  /** `https://a.com/p#frag` normalises to `https://a.com/p`; a non-default port stays. */
  lemma FragmentExample()
    ensures NormalizeRecord(Url("https", "", "a.com", "8443", "/p", "", Some("frag")))
         == Success(Url("https", "", "a.com", "8443", "/p", "", None))
  {
    var r := NormalizeRecord(Url("https", "", "a.com", "8443", "/p", "", Some("frag"))).value;
    assert r.host == "a.com";
  }

  /** `https://alice@a.com/` and `https://a.com/` stay different URLs after normalisation. */
  lemma CredentialsExample()
    ensures NormalizeRecord(Url("https", "alice", "a.com", "", "/", "", None))
         != NormalizeRecord(Url("https", "", "a.com", "", "/", "", None))
  {
  }

  /**
   `normalizeUrl(input)`: trim, parse, normalise the record, serialise. The
   error is the message of whatever was thrown.
   */
  function NormalizeUrl(lib: UrlLibrary, input: string): (r: Result<string, string>)
    ensures lib.parse(Trim(input)).Failure? ==> r == Failure(lib.parse(Trim(input)).error)
    ensures lib.parse(Trim(input)).Success? ==>
              (r.Failure? <==> !IsHttpScheme(lib.parse(Trim(input)).value.scheme))
    ensures lib.parse(Trim(input)).Success? && r.Failure? ==> r.error == SchemeError
    ensures r.Success? ==>
              && lib.parse(Trim(input)).Success?
              && NormalizeRecord(lib.parse(Trim(input)).value).Success?
              && r.value == lib.serialize(NormalizeRecord(lib.parse(Trim(input)).value).value)
  {
    match lib.parse(Trim(input))
    case Failure(message) => Failure(message)
    case Success(u) =>
      match NormalizeRecord(u)
      case Failure(message) => Failure(message)
      case Success(v) => Success(lib.serialize(v))
  }

  /** Surrounding whitespace never changes the normalised URL. */
  lemma NormalizeUrlIgnoresSurroundingBlanks(lib: UrlLibrary, input: string)
    ensures NormalizeUrl(lib, Trim(input)) == NormalizeUrl(lib, input)
  {
    TrimIdempotent(input);
  }

  /**
   The library reads back what it writes, for the records normalisation
   makes out of parsed URLs: the usual WHATWG parse/serialise round trip,
   which also means a serialised URL has no surrounding whitespace.
   */
  ghost predicate ReadsBackNormal(lib: UrlLibrary)
  {
    forall s: string :: lib.parse(s).Success? && NormalizeRecord(lib.parse(s).value).Success? ==>
      lib.parse(Trim(lib.serialize(NormalizeRecord(lib.parse(s).value).value))) == NormalizeRecord(lib.parse(s).value)
  }

  /** With such a library, normalising a normalised URL gives it back. */
  lemma NormalizeUrlIdempotent(lib: UrlLibrary, input: string)
    requires ReadsBackNormal(lib)
    requires NormalizeUrl(lib, input).Success?
    ensures NormalizeUrl(lib, NormalizeUrl(lib, input).value) == NormalizeUrl(lib, input)
  {
    var v := NormalizeRecord(lib.parse(Trim(input)).value).value;
    assert lib.parse(Trim(lib.serialize(v))) == Success(v);
    NormalizeRecordFixpoint(v);
  }
}
