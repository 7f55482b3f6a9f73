/**
 * Href resolution (handleHref and findSubpages in src/inspect.go).
 *
 * The rules are the code's, not those of section 5.2 of RFC 3986: the
 * truncation `fullURL[:idx-1]` drops the last '/' together with the character
 * before it, the parent-relative branch appends the rest of the href without
 * a separator, and the root-relative branch always uses https and never the
 * page's port. A slice with `idx == 0` panics in Go; here it is the
 * `Panic` resolution.
 */
module Href {
  import opened Wrappers
  import opened Text
  import opened Urls

  /** What one href contributes: nothing, one canonical key, or a Go runtime panic. */
  datatype Resolution = Ignore | Key(url: string) | Panic

  /** The keys a resolution adds to the subpage set: none or one. */
  function Added(res: Resolution): (keys: set<string>)
    ensures |keys| <= 1
    ensures forall key :: key in keys <==> res == Key(key)
  {
    if res.Key? then {res.url} else {}
  }

  /** Mail, SMS, telephone and javascript links are never followed. */
  predicate IgnoredScheme(val: string) {
    HasPrefix(val, "mailto:") || HasPrefix(val, "sms:") || HasPrefix(val, "tel:") || HasPrefix(val, "javascript:")
  }

  /**
   * One `fullURL = fullURL[:idx-1]` step at the last '/' (no change when there
   * is none). None is the panic of a '/' at index 0. Otherwise the result is
   * what stood before the character preceding the last '/'.
   */
  function DropLastSegment(full: string): (r: Option<string>)
    ensures r == None <==> (full != [] && full[0] == '/' && '/' !in full[1..])
    ensures '/' !in full ==> r == Some(full)
    ensures r.Some? && '/' in full ==>
              && |r.value| + 2 <= |full|
              && full[..|r.value|] == r.value
              && full[|r.value| + 1] == '/'
              && '/' !in full[|r.value| + 2..]
  {
    var idx := LastIndex(full, '/');
    if idx == -1 then Some(full)
    else if idx == 0 then None
    else Some(full[..idx - 1])
  }

  /** The `../` loop: one truncation and one stripped "../" per round, then the rest is appended. */
  function ClimbParents(full: string, path: string): Option<string>
    decreases |path|
  {
    if HasPrefix(path, "../") then
      match DropLastSegment(full)
      case None => None
      case Some(f) => ClimbParents(f, path[3..])
    else Some(full + path)
  }

  /** The number of leading "../" segments of a path. */
  function Ups(path: string): nat
    decreases |path|
  {
    if HasPrefix(path, "../") then 1 + Ups(path[3..]) else 0
  }

  /** The path with every leading "../" removed: a suffix that starts with no "../". */
  function StripUps(path: string): (r: string)
    ensures !HasPrefix(r, "../")
    ensures |r| == |path| - 3 * Ups(path) && r == path[|path| - |r|..]
    decreases |path|
  {
    if HasPrefix(path, "../") then StripUps(path[3..]) else path
  }

  /** `k` truncation steps in a row; None as soon as one panics. */
  function DropSegments(full: string, k: nat): Option<string>
    decreases k
  {
    if k == 0 then Some(full)
    else match DropLastSegment(full)
      case None => None
      case Some(f) => DropSegments(f, k - 1)
  }

  /**
   * The loop runs once per leading "../": it truncates that many times and
   * then appends the path stripped of every "../", with no separator.
   */
  lemma {:induction false} ClimbParentsDecomposes(full: string, path: string)
    ensures ClimbParents(full, path) ==
            match DropSegments(full, Ups(path))
            case None => None
            case Some(f) => Some(f + StripUps(path))
    decreases |path|
  {
    if HasPrefix(path, "../") {
      match DropLastSegment(full)
      case None =>
      case Some(f) => ClimbParentsDecomposes(f, path[3..]);
    }
  }

  /** The current-directory branch: truncate once, then append "/" and the href. */
  function CurrentDir(pageurl: string, val: string): Option<string> {
    match DropLastSegment(TrimSuffix(pageurl, "/"))
    case None => None
    case Some(f) => Some(f + "/" + TrimPrefix(val, "/"))
  }

  /** handleHref as a value: the rules are tried in the code's order. */
  function Resolve(pageurl: string, val: string, lib: UrlLibrary): Resolution {
    if IgnoredScheme(val) then Ignore
    else if HasPrefix(val, "http") then Key(Normalize(val, lib))
    else if HasPrefix(val, "/") then
      match lib.parse(pageurl)
      case None => Ignore
      case Some(u) => Key(Normalize("https://" + Hostname(u) + val, lib))
    else if HasPrefix(val, "../") then
      match ClimbParents(TrimSuffix(pageurl, "/"), val)
      case None => Panic
      case Some(full) => Key(Normalize(full, lib))
    else if HasPrefix(val, "#") then Ignore
    else
      match CurrentDir(pageurl, val)
      case None => Panic
      case Some(full) => Key(Normalize(full, lib))
  }

  /**
   * Nothing is added exactly for the ignored schemes, fragment links and
   * root-relative links on a page URL that does not parse.
   */
  lemma IgnoredExactly(pageurl: string, val: string, lib: UrlLibrary)
    ensures Resolve(pageurl, val, lib) == Ignore <==>
            || IgnoredScheme(val)
            || HasPrefix(val, "#")
            || (HasPrefix(val, "/") && lib.parse(pageurl) == None)
  {
    if HasPrefix(val, "#") {
      assert val[0] == '#';
      assert !HasPrefix(val, "http") by { assert "http"[0] != '#'; }
      assert !HasPrefix(val, "/");
      assert !HasPrefix(val, "../") by { assert "../"[0] != '#'; }
    }
  }

  /**
   * Only the two branches that truncate the page URL can panic, and then
   * only on a page URL whose sole remaining '/' is its first character.
   */
  lemma PanicOnlyWhenTruncating(pageurl: string, val: string, lib: UrlLibrary)
    ensures Resolve(pageurl, val, lib) == Panic ==>
              && !IgnoredScheme(val) && !HasPrefix(val, "http") && !HasPrefix(val, "/") && !HasPrefix(val, "#")
              && (HasPrefix(val, "../") || DropLastSegment(TrimSuffix(pageurl, "/")) == None)
  {
  }

  /** Truncating a URL that does not start with '/' never panics, however many "../" there are. */
  lemma {:induction false} ClimbNeverPanics(full: string, path: string)
    requires full == [] || full[0] != '/'
    ensures ClimbParents(full, path).Some?
    decreases |path|
  {
    if HasPrefix(path, "../") {
      var f := DropLastSegment(full);
      assert f.Some?;
      if f.value != [] {
        assert f.value[0] == full[0];
      }
      ClimbNeverPanics(f.value, path[3..]);
    }
  }

  /**
   * No href panics on a page URL that starts with something other than '/',
   * as every URL printed with a scheme does.
   */
  lemma NoPanicWithoutLeadingSlash(pageurl: string, val: string, lib: UrlLibrary)
    requires pageurl != [] && pageurl[0] != '/'
    ensures Resolve(pageurl, val, lib) != Panic
  {
    var full := TrimSuffix(pageurl, "/");
    if full != [] {
      assert full[0] == pageurl[0];
    }
    ClimbNeverPanics(full, val);
  }

  /** Hence no href of such a page panics. */
  lemma NoPanicOnPage(pageurl: string, hrefs: seq<string>, lib: UrlLibrary)
    requires pageurl != [] && pageurl[0] != '/'
    ensures Panic !in Resolutions(pageurl, hrefs, lib)
  {
    forall i | 0 <= i < |hrefs|
      ensures Resolve(pageurl, hrefs[i], lib) != Panic
    {
      NoPanicWithoutLeadingSlash(pageurl, hrefs[i], lib);
    }
  }

  /** Any href starting with "http", even "httpfoo", is taken as absolute and only normalised. */
  lemma AbsoluteFirst(pageurl: string, val: string, lib: UrlLibrary)
    requires HasPrefix(val, "http")
    ensures Resolve(pageurl, val, lib) == Key(Normalize(val, lib))
  {
    assert val[0] == 'h';
    assert !HasPrefix(val, "mailto:") by { assert "mailto:"[0] != 'h'; }
    assert !HasPrefix(val, "sms:") by { assert "sms:"[0] != 'h'; }
    assert !HasPrefix(val, "tel:") by { assert "tel:"[0] != 'h'; }
    assert !HasPrefix(val, "javascript:") by { assert "javascript:"[0] != 'h'; }
  }

  /** A root-relative href is put on https and the page's host name, without its port. */
  lemma RootRelative(pageurl: string, val: string, lib: UrlLibrary)
    requires HasPrefix(val, "/")
    ensures lib.parse(pageurl) == None ==> Resolve(pageurl, val, lib) == Ignore
    ensures lib.parse(pageurl).Some? ==>
              Resolve(pageurl, val, lib) == Key(Normalize("https://" + Hostname(lib.parse(pageurl).value) + val, lib))
  {
    assert val[0] == '/';
    assert !IgnoredScheme(val) by {
      assert "mailto:"[0] != '/' && "sms:"[0] != '/' && "tel:"[0] != '/' && "javascript:"[0] != '/';
    }
    assert !HasPrefix(val, "http") by { assert "http"[0] != '/'; }
  }

  /**
   * A parent-relative href is resolved by the `../` loop alone; a panic in
   * the loop is the only way it adds nothing.
   */
  lemma ParentRelative(pageurl: string, val: string, lib: UrlLibrary)
    requires HasPrefix(val, "../")
    ensures ClimbParents(TrimSuffix(pageurl, "/"), val) == None ==> Resolve(pageurl, val, lib) == Panic
    ensures ClimbParents(TrimSuffix(pageurl, "/"), val).Some? ==>
              Resolve(pageurl, val, lib) == Key(Normalize(ClimbParents(TrimSuffix(pageurl, "/"), val).value, lib))
  {
    assert val[0] == '.';
    assert !IgnoredScheme(val) by {
      assert "mailto:"[0] != '.' && "sms:"[0] != '.' && "tel:"[0] != '.' && "javascript:"[0] != '.';
    }
    assert !HasPrefix(val, "http") by { assert "http"[0] != '.'; }
    assert !HasPrefix(val, "/") by { assert "/"[0] != '.'; }
  }

  /**
   * In the current-directory branch the href never starts with '/', so the
   * TrimPrefix is a no-op and the key is the truncated page URL, "/" and the
   * href.
   */
  lemma CurrentDirVerbatim(pageurl: string, val: string, lib: UrlLibrary)
    requires !IgnoredScheme(val) && !HasPrefix(val, "http") && !HasPrefix(val, "/")
    requires !HasPrefix(val, "../") && !HasPrefix(val, "#")
    ensures DropLastSegment(TrimSuffix(pageurl, "/")) == None ==> Resolve(pageurl, val, lib) == Panic
    ensures DropLastSegment(TrimSuffix(pageurl, "/")).Some? ==>
              Resolve(pageurl, val, lib) == Key(Normalize(DropLastSegment(TrimSuffix(pageurl, "/")).value + "/" + val, lib))
  {
  }

  /**
   * On "https://" + host + "/dir/page" one truncation leaves
   * "https://" + host + "/di": the last '/' and the 'r' before it go.
   */
  lemma ExamplePageTruncates(host: string)
    requires '/' !in host
    ensures var page := "https://" + host + "/dir/page";
            TrimSuffix(page, "/") == page && DropLastSegment(page) == Some("https://" + host + "/di")
  {
    var page := "https://" + host + "/dir/page";
    var n := |host| + 8;
    assert page[|page| - 1] == 'e';
    assert page[n + 4] == '/';
    assert page[n + 5..] == "page";
    LastIndexAt(page, '/', n + 4);
    assert page[..n + 3] == "https://" + host + "/di";
  }

  /** A single leading "../": one truncation, then the rest of the href with no separator. */
  lemma SingleUp(full: string, rest: string, f: string)
    requires !HasPrefix(rest, "../")
    requires DropLastSegment(full) == Some(f)
    ensures ClimbParents(full, "../" + rest) == Some(f + rest)
  {
  }

  /**
   * Page "https://example.com/dir/page" with href "../other" gives
   * "https://example.com/diother" (here for any host without '/'): "/p" and
   * "r" go, and no '/' is put back.
   */
  lemma ParentExample(host: string, lib: UrlLibrary)
    requires '/' !in host
    ensures Resolve("https://" + host + "/dir/page", "../other", lib)
         == Key(Normalize("https://" + host + "/diother", lib))
  {
    var page := "https://" + host + "/dir/page";
    var f, rest := "https://" + host + "/di", "other";
    ExamplePageTruncates(host);
    assert !HasPrefix(rest, "../") by { assert rest[0] == 'o'; }
    assert "../other" == "../" + rest;
    SingleUp(page, rest, f);
    assert f + rest == "https://" + host + "/diother";
    assert HasPrefix("../other", "../");
    ParentRelative(page, "../other", lib);
  }

  /**
   * Page "https://example.com/dir/page" with href "x" gives
   * "https://example.com/di/x" (here for any host without '/').
   */
  lemma CurrentDirExample(host: string, lib: UrlLibrary)
    requires '/' !in host
    ensures Resolve("https://" + host + "/dir/page", "x", lib)
         == Key(Normalize("https://" + host + "/di/x", lib))
  {
    var page := "https://" + host + "/dir/page";
    var f := "https://" + host + "/di";
    ExamplePageTruncates(host);
    var val := "x";
    assert val[0] == 'x';
    assert !IgnoredScheme(val) by {
      assert "mailto:"[0] != 'x' && "sms:"[0] != 'x' && "tel:"[0] != 'x' && "javascript:"[0] != 'x';
    }
    assert !HasPrefix(val, "http") by { assert "http"[0] != 'x'; }
    assert !HasPrefix(val, "/") by { assert "/"[0] != 'x'; }
    assert !HasPrefix(val, "../") by { assert "../"[0] != 'x'; }
    assert !HasPrefix(val, "#") by { assert "#"[0] != 'x'; }
    assert f + "/" + val == "https://" + host + "/di/x";
    CurrentDirVerbatim(page, val, lib);
  }

  /** Go's map[string]struct{} used as a set, passed to handleHref by reference. */
  class UrlSet {
    var keys: set<string>

    constructor ()
      ensures keys == {}
    {
      keys := {};
    }

    method Insert(key: string)
      modifies this
      ensures keys == old(keys) + {key}
    {
      keys := keys + {key};
    }
  }

  /**
   * The `../` loop of handleHref run on `fullURL`: None where the Go slice
   * would panic, otherwise the truncated URL with the rest of the path
   * appended.
   */
  method ClimbLoop(fullURL: string, val: string) returns (r: Option<string>)
    ensures r == ClimbParents(fullURL, val)
  {
    var full, path := fullURL, val;
    while HasPrefix(path, "../")
      invariant ClimbParents(full, path) == ClimbParents(fullURL, val)
      decreases |path|
    {
      var idx := LastIndex(full, '/');
      if idx != -1 {
        if idx == 0 {
          return None;
        }
        full := full[..idx - 1];
      }
      path := TrimPrefix(path, "../");
    }
    r := Some(full + path);
  }

  /**
   * handleHref: adds the key of `Resolve` to `history`, adds nothing
   * otherwise, and reports whether the Go code would have panicked.
   */
  method HandleHref(pageurl: string, val: string, lib: UrlLibrary, history: UrlSet) returns (panicked: bool)
    modifies history
    ensures panicked <==> Resolve(pageurl, val, lib) == Panic
    ensures history.keys == old(history.keys) + Added(Resolve(pageurl, val, lib))
  {
    panicked := false;
    if IgnoredScheme(val) {
      return;
    } else if HasPrefix(val, "http") {
      history.Insert(Normalize(val, lib));
    } else if HasPrefix(val, "/") {
      var parsedURL := lib.parse(pageurl);
      if parsedURL.None? {
        return;
      }
      var fullURL := "https://" + Hostname(parsedURL.value) + val;
      history.Insert(Normalize(fullURL, lib));
    } else if HasPrefix(val, "../") {
      var fullURL := ClimbLoop(TrimSuffix(pageurl, "/"), val);
      if fullURL.None? {
        panicked := true;
        return;
      }
      history.Insert(Normalize(fullURL.value, lib));
    } else if HasPrefix(val, "#") {
      return;
    } else {
      var fullURL := TrimSuffix(pageurl, "/");
      var idx := LastIndex(fullURL, '/');
      if idx != -1 {
        if idx == 0 {
          panicked := true;
          return;
        }
        fullURL := fullURL[..idx - 1];
      }
      var path := TrimPrefix(val, "/");
      fullURL := fullURL + "/" + path;
      history.Insert(Normalize(fullURL, lib));
    }
  }

  /** The record built by findSubpages: the normalised page URL and its set of subpage keys. */
  datatype PageResult = PageResult(pageurl: string, subpages: set<string>)

  /** The resolution of every href of a page, in order. */
  function Resolutions(pageurl: string, hrefs: seq<string>, lib: UrlLibrary): (rs: seq<Resolution>)
    ensures |rs| == |hrefs|
    ensures forall i :: 0 <= i < |hrefs| ==> rs[i] == Resolve(pageurl, hrefs[i], lib)
  {
    seq(|hrefs|, i requires 0 <= i < |hrefs| => Resolve(pageurl, hrefs[i], lib))
  }

  /** The keys a sequence of resolutions adds to an empty set, one href after the other. */
  function KeysOf(rs: seq<Resolution>): set<string>
    decreases |rs|
  {
    if rs == [] then {} else KeysOf(rs[..|rs| - 1]) + Added(rs[|rs| - 1])
  }

  /** Taking one more resolution adds its key and possibly a panic. */
  lemma KeysOfStep(rs: seq<Resolution>, i: nat)
    requires i < |rs|
    ensures KeysOf(rs[..i + 1]) == KeysOf(rs[..i]) + Added(rs[i])
    ensures Panic in rs[..i + 1] <==> Panic in rs[..i] || rs[i] == Panic
  {
    assert rs[..i + 1] == rs[..i] + [rs[i]];
  }

  /** A key is collected exactly when some resolution yields it. */
  lemma {:induction false} KeysOfMembers(rs: seq<Resolution>, key: string)
    ensures key in KeysOf(rs) <==> Key(key) in rs
    decreases |rs|
  {
    if rs != [] {
      var n := |rs| - 1;
      KeysOfMembers(rs[..n], key);
      assert rs == rs[..n] + [rs[n]];
    }
  }

  /** Each resolution adds at most one key, so there are no more keys than hrefs. */
  lemma {:induction false} KeysOfBound(rs: seq<Resolution>)
    ensures |KeysOf(rs)| <= |rs|
    decreases |rs|
  {
    if rs != [] {
      var n := |rs| - 1;
      KeysOfBound(rs[..n]);
      var added := Added(rs[n]);
      assert |KeysOf(rs[..n]) + added| <= |KeysOf(rs[..n])| + |added|;
    }
  }

  /** A resolution that already occurred adds no new key. */
  lemma RepeatAddsNothing(rs: seq<Resolution>, res: Resolution)
    requires res in rs
    ensures KeysOf(rs + [res]) == KeysOf(rs)
  {
    var all := rs + [res];
    assert all[..|all| - 1] == rs;
    if res.Key? {
      KeysOfMembers(rs, res.url);
    }
  }

  /** An href that already occurred on the page adds no new subpage. */
  lemma RepeatedHrefAddsNothing(pageurl: string, hrefs: seq<string>, val: string, lib: UrlLibrary)
    requires val in hrefs
    ensures KeysOf(Resolutions(pageurl, hrefs + [val], lib)) == KeysOf(Resolutions(pageurl, hrefs, lib))
  {
    var rs := Resolutions(pageurl, hrefs, lib);
    var res := Resolve(pageurl, val, lib);
    assert Resolutions(pageurl, hrefs + [val], lib) == rs + [res];
    var i :| 0 <= i < |hrefs| && hrefs[i] == val;
    assert rs[i] == res;
    RepeatAddsNothing(rs, res);
  }

  /**
   * The tokeniser loop of findSubpages: every href goes through handleHref
   * in document order into one shared set. None when an href makes
   * handleHref panic, otherwise the keys of all hrefs.
   */
  method CollectKeys(pageurl: string, hrefs: seq<string>, lib: UrlLibrary) returns (keys: Option<set<string>>)
    ensures keys == None <==> Panic in Resolutions(pageurl, hrefs, lib)
    ensures keys.Some? ==> keys.value == KeysOf(Resolutions(pageurl, hrefs, lib))
  {
    ghost var rs := Resolutions(pageurl, hrefs, lib);
    var subpages := new UrlSet();
    var i := 0;
    while i < |hrefs|
      invariant 0 <= i <= |hrefs|
      invariant Panic !in rs[..i]
      invariant subpages.keys == KeysOf(rs[..i])
    {
      var panicked := HandleHref(pageurl, hrefs[i], lib, subpages);
      if panicked {
        assert rs[i] == Panic;
        return None;
      }
      KeysOfStep(rs, i);
      i := i + 1;
    }
    assert rs[..i] == rs;
    keys := Some(subpages.keys);
  }

  /**
   * findSubpages with the page fetch and the HTML tokeniser left abstract:
   * `anchors` is None when the fetch failed and otherwise the first href of
   * every anchor, in document order. The result is None when an href makes
   * handleHref panic.
   */
  method FindSubpages(orig: string, anchors: Option<seq<string>>, lib: UrlLibrary) returns (r: Option<PageResult>)
    ensures anchors == None ==> r == Some(PageResult("", {}))
    ensures anchors.Some? ==> (r == None <==> Panic in Resolutions(Normalize(orig, lib), anchors.value, lib))
    ensures anchors.Some? && r.Some? ==>
              r.value == PageResult(Normalize(orig, lib), KeysOf(Resolutions(Normalize(orig, lib), anchors.value, lib)))
  {
    var pageurl := Normalize(orig, lib);
    if anchors.None? {
      return Some(PageResult("", {}));
    }
    var keys := CollectKeys(pageurl, anchors.value, lib);
    if keys.None? {
      return None;
    }
    r := Some(PageResult(pageurl, keys.value));
  }
}
