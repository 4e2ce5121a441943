/** The active-menu test of the site header: is the menu link `path` active
    on the page whose location is `pathname`? A link other than "/" is
    active on its own page and on the pages below it, matched on whole path
    segments, so "/log" is not active on "/login". */
module Header {

  predicate StartsWith(s: string, prefix: string)
  {
    |prefix| <= |s| && s[..|prefix|] == prefix
  }

  predicate EndsWith(s: string, suffix: string)
  {
    |suffix| <= |s| && s[|s| - |suffix|..] == suffix
  }

  /** The three disjuncts of the test for a path other than "/". */
  predicate SameOrBelow(path: string, pathname: string)
  {
    var pathWithSlash := if EndsWith(path, "/") then path else path + "/";
    || pathname == path
    || StartsWith(pathname, pathWithSlash)
    || SegmentBoundary(path, pathname)
  }

  /** `pathname.startsWith(path) && (pathname.length === path.length ||
      pathname[path.length] === "/")`; an index past the end reads undefined. */
  predicate SegmentBoundary(path: string, pathname: string)
  {
    StartsWith(pathname, path) && (|pathname| == |path| || (|pathname| > |path| && pathname[|path|] == '/'))
  }

  /** `isActive`: an active link always prefixes the pathname. */
  predicate IsActive(path: string, pathname: string)
    ensures IsActive(path, pathname) ==> StartsWith(pathname, path)
    ensures path == "/" ==> (IsActive(path, pathname) <==> pathname == "/")
  {
    if path == "/" && pathname == "/" then true
    else if path != "/" then SameOrBelow(path, pathname)
    else false
  }

  /** "/" is active on the home page and nowhere else. */
  lemma RootActiveOnlyAtRoot(pathname: string)
    ensures IsActive("/", pathname) <==> pathname == "/"
  {
  }

  /** Any other link is active on its own page. */
  lemma ActiveOnOwnPage(path: string)
    requires path != "/"
    ensures IsActive(path, path)
  {
  }

  /** The segment-boundary disjunct never makes a link active that the first
      two would not. */
  lemma SegmentBoundaryRedundant(path: string, pathname: string)
    requires path != "/"
    requires SegmentBoundary(path, pathname)
    ensures pathname == path || StartsWith(pathname, if EndsWith(path, "/") then path else path + "/")
  {
    if |pathname| > |path| {
      var p := if EndsWith(path, "/") then path else path + "/";
      if !EndsWith(path, "/") {
        assert pathname[..|p|] == pathname[..|path|] + [pathname[|path|]];
      }
    }
  }

  /** For a link not ending in "/": active exactly on the page itself and on
      the pages below it. */
  lemma ActiveIffSameOrChild(path: string, pathname: string)
    requires path != "/" && !EndsWith(path, "/")
    ensures IsActive(path, pathname) <==> pathname == path || StartsWith(pathname, path + "/")
  {
    if SegmentBoundary(path, pathname) {
      SegmentBoundaryRedundant(path, pathname);
    }
  }

  /** For a link ending in "/" (other than "/"): active exactly on the pages
      it prefixes. */
  lemma ActiveIffPrefix(path: string, pathname: string)
    requires path != "/" && EndsWith(path, "/")
    ensures IsActive(path, pathname) <==> StartsWith(pathname, path)
  {
    if pathname == path {
      assert pathname[..|path|] == path;
    }
  }

  /** A link other than "/" is never active on a shorter pathname, and so,
      unless it is empty, never on the home page. */
  lemma NeverOnShorterPath(path: string, pathname: string)
    requires path != "/" && |pathname| < |path|
    ensures !IsActive(path, pathname)
  {
  }

  lemma NotActiveOnHome(path: string)
    requires path != "/" && path != ""
    ensures !IsActive(path, "/")
  {
    if |path| > 1 {
      NeverOnShorterPath(path, "/");
    } else {
      assert path != "/"[..1];
    }
  }

  /** "/log" is not active on "/login", while "/login" is active on
      "/login/reset". */
  lemma PartialSegmentIsNotActive()
    ensures !IsActive("/log", "/login")
    ensures IsActive("/login", "/login/reset")
  {
    assert "/login"[..4] == "/log";
    assert "/login"[4] == 'i';
    assert "/log"[4 - 1..] == "g";
    assert "/login/reset"[..7] == "/login/";
    assert "/login"[6 - 1..] == "n";
  }
}
