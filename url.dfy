/**
 * URL canonicalisation (normalizeURL in src/inspect.go).
 *
 * Go's net/url parser and printer are not part of this model: they are the
 * two functions of a `UrlLibrary` value that every caller passes in. What is
 * modelled is the field rewrite applied between parsing and printing.
 */
module Urls {
  import opened Wrappers
  import opened Text

  /** The parts of a parsed URL the crawler touches. `host` is Go's `URL.Host`, port included. */
  datatype Url = Url(scheme: string, host: string, path: string, query: string, fragment: string)

  /** Go's url.Parse (None on error) and URL.String, left abstract. */
  datatype UrlLibrary = UrlLibrary(parse: string -> Option<Url>, render: Url -> string)

  /** What every normalised record satisfies, whatever it was before. */
  predicate Canonical(u: Url) {
    && u.scheme != "http"
    && u.scheme != ""
    && (u.path == [] || u.path[|u.path| - 1] != '/')
    && u.fragment == ""
  }

  /**
   * The four field rewrites of normalizeURL: http or missing scheme becomes
   * https, one leading "www." leaves the host, trailing slashes leave the
   * path, the fragment is dropped. The query is kept.
   */
  function NormalizeFields(u: Url): (r: Url)
    ensures Canonical(r)
    ensures u.scheme == "http" || u.scheme == "" ==> r.scheme == "https"
    ensures u.scheme != "http" && u.scheme != "" ==> r.scheme == u.scheme
    ensures HasPrefix(u.host, "www.") ==> u.host == "www." + r.host
    ensures !HasPrefix(u.host, "www.") ==> r.host == u.host
    ensures |r.path| <= |u.path| && r.path == u.path[..|r.path|]
    ensures forall j :: |r.path| <= j < |u.path| ==> u.path[j] == '/'
    ensures r.query == u.query
  {
    var scheme := if u.scheme == "http" || u.scheme == "" then "https" else u.scheme;
    u.(scheme := scheme, host := TrimPrefix(u.host, "www."), path := TrimRight(u.path, '/'), fragment := "")
  }

  /**
   * The rewrite is a fixed point exactly when the rewritten host does not
   * start with "www." again: only one "www." goes per call.
   */
  lemma NormalizeFieldsFixedPoint(u: Url)
    ensures NormalizeFields(NormalizeFields(u)) == NormalizeFields(u)
            <==> !HasPrefix(NormalizeFields(u).host, "www.")
  {
  }

  /** "www.www.a" loses one "www." per rewrite, so the host step is not idempotent. */
  lemma HostStepNotIdempotent()
    ensures var u := Url("https", "www.www.a", "", "", "");
            NormalizeFields(u).host == "www.a" && NormalizeFields(NormalizeFields(u)).host == "a"
  {
  }

  /** "http://example.com/a/" and "https://www.example.com/a" normalise to the same record. */
  lemma SchemeHostAndSlashAgree()
    ensures NormalizeFields(Url("http", "example.com", "/a/", "", ""))
         == NormalizeFields(Url("https", "www.example.com", "/a", "", ""))
         == Url("https", "example.com", "/a", "", "")
  {
    assert "example.com"[..4] != "www." by { assert "example.com"[0] != "www."[0]; }
    assert HasPrefix("www.example.com", "www.");
    assert TrimRight("/a", '/') == "/a";
    assert TrimRight("/a/", '/') == TrimRight("/a", '/');
  }

  /**
   * normalizeURL: the raw string itself when it does not parse, otherwise the
   * printed form of a canonical record that keeps the parsed query.
   */
  function Normalize(raw: string, lib: UrlLibrary): (r: string)
    ensures lib.parse(raw) == None ==> r == raw
    ensures lib.parse(raw).Some? ==>
              exists v :: r == lib.render(v) && Canonical(v) && v.query == lib.parse(raw).value.query
  {
    match lib.parse(raw)
    case None => raw
    case Some(u) => lib.render(NormalizeFields(u))
  }

  /** Go's net/url validOptionalPort: empty, or a colon followed by decimal digits. */
  predicate ValidOptionalPort(port: string) {
    port == [] || (port[0] == ':' && forall j :: 1 <= j < |port| ==> '0' <= port[j] <= '9')
  }

  /** Go's net/url splitHostPort, host half: drops a trailing ":port" when the port is numeric. */
  function StripPort(host: string): (r: string)
    ensures |r| <= |host| && r == host[..|r|]
    ensures ':' !in host ==> r == host
    ensures HasSuffix(host, "]") ==> r == host
  {
    var colon := LastIndex(host, ':');
    if colon != -1 && ValidOptionalPort(host[colon..]) then
      assert !HasSuffix(host, "]") by {
        var port := host[colon..];
        assert port[|port| - 1] == host[|host| - 1];
        assert host[|host| - 1..][0] == host[|host| - 1];
      }
      host[..colon]
    else host
  }

  /** Go's net/url splitHostPort, second step: drops the brackets around an IPv6 literal. */
  function StripBrackets(h: string): (r: string)
    ensures |r| <= |h|
    ensures !(HasPrefix(h, "[") && HasSuffix(h, "]")) ==> r == h
    ensures HasPrefix(h, "[") && HasSuffix(h, "]") ==> "[" + r + "]" == h
  {
    if HasPrefix(h, "[") && HasSuffix(h, "]") then
      assert h[0] == '[' && h[|h| - 1] == ']' by {
        assert h[..1] == "[" && h[|h| - 1..] == "]";
      }
      assert h == [h[0]] + h[1..|h| - 1] + [h[|h| - 1]];
      h[1..|h| - 1]
    else h
  }

  /**
   * URL.Hostname: the host with a trailing ":port" and enclosing IPv6
   * brackets removed.
   */
  function Hostname(u: Url): (r: string)
    ensures |r| <= |u.host|
    ensures ':' !in u.host && !(HasPrefix(u.host, "[") && HasSuffix(u.host, "]")) ==> r == u.host
    ensures HasPrefix(u.host, "[") && HasSuffix(u.host, "]") ==> "[" + r + "]" == u.host
  {
    StripBrackets(StripPort(u.host))
  }

  /** A colon followed by decimal digits is a valid port suffix, and the digits hold no colon. */
  lemma DigitsArePort(port: string)
    requires forall j :: 0 <= j < |port| ==> '0' <= port[j] <= '9'
    ensures ':' !in port && ValidOptionalPort(":" + port)
  {
  }

  /** A numeric port after any name is cut off by StripPort. */
  lemma StripPortDigits(name: string, port: string)
    requires forall j :: 0 <= j < |port| ==> '0' <= port[j] <= '9'
    ensures StripPort(name + ":" + port) == name
  {
    var host := name + ":" + port;
    DigitsArePort(port);
    assert host[|name|..] == ":" + port;
    assert host[|name| + 1..] == port;
    LastIndexAt(host, ':', |name|);
    assert host[..|name|] == name;
  }

  /**
   * A numeric port after the host does not survive Hostname: what is left
   * is the name, with IPv6 brackets removed.
   */
  lemma HostnameDropsPort(u: Url, name: string, port: string)
    requires u.host == name + ":" + port
    requires forall j :: 0 <= j < |port| ==> '0' <= port[j] <= '9'
    ensures Hostname(u) == StripBrackets(name)
  {
    StripPortDigits(name, port);
  }

  /** A bracketed IPv6 address with a port, such as "[::1]:8080", has the bare address as its host name. */
  lemma HostnameDropsIPv6Port(u: Url, addr: string, port: string)
    requires u.host == "[" + addr + "]" + ":" + port
    requires forall j :: 0 <= j < |port| ==> '0' <= port[j] <= '9'
    ensures Hostname(u) == addr
  {
    var name := "[" + addr + "]";
    HostnameDropsPort(u, name, port);
    assert HasPrefix(name, "[") && HasSuffix(name, "]");
  }
}
