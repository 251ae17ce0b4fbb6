/**
 URL path normalisation, prefix stripping and the path of a static file
 (internal/urlprefix/urlprefix.go, the head of internal/staticpages/servefile.go).
 */
module UrlPrefix {
  import opened PathClean

  predicate EndsWithSlash(p: string) { p != "" && p[|p| - 1] == '/' }

  /** path.Clean of the rooted path, with a trailing slash put back. */
  function CleanURIPath(p: string): string {
    if p == "" then "/"
    else
      var q := if p[0] != '/' then "/" + p else p;
      var np := Clean(q);
      if EndsWithSlash(q) && np != "/" then np + "/" else np
  }

  function TrimPrefix(p: string, prefix: string): string {
    if prefix <= p then p[|prefix|..] else p
  }

  function Strip(prefix: string, path: string): string {
    CleanURIPath(TrimPrefix(path, prefix))
  }

  predicate Match(prefix: string, path: string) { prefix <= path || path + "/" == prefix }

  // ---------------------------------------------------------------------------
  // Normal form
  // ---------------------------------------------------------------------------

  /** A rooted path of normal components, with or without a slash at the end. */
  function Render(cs: seq<string>, slash: bool): string {
    PathOf(true, cs) + (if slash && cs != [] then "/" else "")
  }

  /** The components a URL path denotes; none of them is empty, "." or "..". */
  function UriComponents(p: string): seq<string> { Resolve(true, [], Split(p)) }

  predicate SafeComponents(cs: seq<string>) {
    forall c | c in cs :: c != "" && c != "." && c != ".." && '/' !in c
  }

  lemma NormalIsSafe(cs: seq<string>)
    ensures Normal(true, cs) <==> SafeComponents(cs)
  {
    if Normal(true, cs) {
      forall c | c in cs ensures c != ".." {
        var i :| 0 <= i < |cs| && cs[i] == c;
      }
    }
    if SafeComponents(cs) {
      forall i | 0 <= i < |cs| ensures cs[i] != ".." {
        assert cs[i] in cs;
      }
    }
  }

  /** CleanURIPath renders the safe components of its argument. */
  lemma CleanURIPathIs(p: string)
    ensures CleanURIPath(p) == Render(UriComponents(p), EndsWithSlash(p))
    ensures SafeComponents(UriComponents(p))
  {
    hide Resolve, Join, SafeComponents, Normal;
    ResolveIsNormal(true, [], Split(p));
    NormalIsSafe(UriComponents(p));
    PathIsRootOnlyWhenEmpty(UriComponents(p));
    if p == "" {
      ResolveEmpty(true, []);
    } else {
      hide Split;
      if p[0] != '/' {
        assert "/" + p == "" + "/" + p;
        EmptyComponent();
        SplitConcat("", p);
        ResolveConcat(true, [], [""], Split(p));
        ResolveEmpty(true, []);
        assert ("/" + p)[|p|] == p[|p| - 1];
      }
    }
  }

  lemma EmptyComponent()
    ensures Split("") == [""]
  {
  }

  lemma PathIsRootOnlyWhenEmpty(cs: seq<string>)
    requires SafeComponents(cs)
    ensures PathOf(true, cs) == "/" <==> cs == []
  {
    if cs != [] {
      assert cs[0] in cs;
      JoinStart(cs);
    } else {
      assert PathOf(true, []) == "/";
    }
  }

  lemma SplitOfRender(cs: seq<string>, slash: bool)
    requires SafeComponents(cs) && cs != []
    ensures Split(Render(cs, slash)) == [""] + cs + (if slash then [""] else [])
  {
    NormalIsSafe(cs);
    SplitOfPath(true, cs);
    if slash {
      assert Render(cs, slash) == PathOf(true, cs) + "/" + "";
      SplitConcat(PathOf(true, cs), "");
    } else {
      assert Render(cs, slash) == PathOf(true, cs);
      assert [""] + cs + [] == [""] + cs;
    }
  }

  lemma UriComponentsOfRender(cs: seq<string>, slash: bool)
    requires SafeComponents(cs)
    ensures UriComponents(Render(cs, slash)) == cs
    ensures EndsWithSlash(Render(cs, slash)) <==> slash || cs == []
  {
    NormalIsSafe(cs);
    if cs == [] {
      assert Render(cs, slash) == "/" == PathOf(true, cs);
      RootedOfPath(true, cs);
      ComponentsOfPath(true, cs);
    } else {
      SplitOfRender(cs, slash);
      ResolveSelf(true, cs);
      ResolveConcat(true, [], [""] + cs, if slash then [""] else []);
      ResolveEmpty(true, cs);
      EndOfJoin(cs);
    }
  }

  lemma {:induction false} EndOfJoin(cs: seq<string>)
    requires SafeComponents(cs) && cs != []
    ensures Join(cs) != "" && Join(cs)[|Join(cs)| - 1] != '/'
  {
    var last := cs[|cs| - 1];
    assert last in cs && last[|last| - 1] in last;
    if |cs| > 1 {
      assert cs == cs[..|cs| - 1] + [last];
      JoinConcat(cs[..|cs| - 1], [last]);
    }
  }

  /** Cleaning once is enough. */
  lemma CleanURIPathIdempotent(p: string)
    ensures CleanURIPath(CleanURIPath(p)) == CleanURIPath(p)
  {
    CleanURIPathIs(p);
    CleanURIPathIs(CleanURIPath(p));
    UriComponentsOfRender(UriComponents(p), EndsWithSlash(p));
  }

  /** The clean paths are exactly the renderings of safe components. */
  lemma CleanURIPathRange(p: string)
    ensures CleanURIPath(p) == p <==> exists cs, slash :: SafeComponents(cs) && p == Render(cs, slash)
  {
    CleanURIPathIs(p);
    if cs, slash :| SafeComponents(cs) && p == Render(cs, slash) {
      UriComponentsOfRender(cs, slash);
    }
  }

  /** A cleaned path is rooted, and apart from a slash at its end it has no component
      that is empty, "." or "..". */
  lemma CleanURIPathIsSafe(p: string)
    ensures var r, cs := CleanURIPath(p), UriComponents(p);
            && Rooted(r) && SafeComponents(cs)
            && if cs == [] then r == "/"
               else Split(r) == [""] + cs + (if EndsWithSlash(p) then [""] else [])
  {
    CleanURIPathIs(p);
    var cs, slash := UriComponents(p), EndsWithSlash(p);
    if cs == [] {
      assert Render(cs, slash) == "/";
    } else {
      SplitOfRender(cs, slash);
      assert Render(cs, slash)[0] == '/';
    }
  }

  // ---------------------------------------------------------------------------
  // Strip
  // ---------------------------------------------------------------------------

  /**
   For a prefix that ends with a slash and a clean path that starts with it, the
   prefix without its last slash and the stripped path make up the path again.
   */
  lemma StripUndoes(prefix: string, path: string)
    requires EndsWithSlash(prefix) && CleanURIPath(path) == path && prefix <= path
    ensures prefix[..|prefix| - 1] + Strip(prefix, path) == path
  {
    hide Clean;
    var pre, rest := prefix[..|prefix| - 1], path[|prefix|..];
    assert prefix == pre + "/" && path == pre + "/" + rest;
    if rest != "" {
      RestOfCleanPath(pre, rest);
    }
  }

  lemma RestOfCleanPath(pre: string, rest: string)
    requires CleanURIPath(pre + "/" + rest) == pre + "/" + rest && rest != ""
    ensures CleanURIPath(rest) == "/" + rest
  {
    var path := pre + "/" + rest;
    CleanURIPathIs(path);
    var cs, slash := UriComponents(path), EndsWithSlash(path);
    assert cs == [] ==> path == "/" && |path| == 1;
    SplitConcat(pre, rest);
    SplitOfRender(cs, slash);
    RestIsClean(cs, slash, Split(pre), rest);
  }

  /** What is left of a clean path after some of its components is clean again. */
  lemma RestIsClean(cs: seq<string>, slash: bool, front: seq<string>, rest: string)
    requires SafeComponents(cs) && cs != [] && front != [] && rest != ""
    requires front + Split(rest) == [""] + cs + (if slash then [""] else [])
    ensures CleanURIPath(rest) == "/" + rest
  {
    JoinSplit(rest);
    RestComponents(cs, slash, front, Split(rest));
    var more := cs[|front| - 1..];
    assert forall c | c in more :: c in cs;
    JoinIsClean(more, slash);
    assert rest == Join(more + (if slash then [""] else []));
  }

  lemma RestComponents(cs: seq<string>, slash: bool, front: seq<string>, rest: seq<string>)
    requires front != [] && rest != [] && rest != [""]
    requires front + rest == [""] + cs + (if slash then [""] else [])
    ensures |front| - 1 < |cs| && rest == cs[|front| - 1..] + (if slash then [""] else [])
  {
    var all := [""] + cs + (if slash then [""] else []);
    assert rest == all[|front|..];
  }

  lemma JoinIsClean(cs: seq<string>, slash: bool)
    requires SafeComponents(cs) && cs != []
    ensures var p := Join(cs + (if slash then [""] else [])); CleanURIPath(p) == "/" + p
  {
    var p := Join(cs + (if slash then [""] else []));
    EndOfJoin(cs);
    assert p == Join(cs) + (if slash then "/" else "") by {
      if slash {
        JoinConcat(cs, [""]);
      } else {
        assert cs + [] == cs;
      }
    }
    assert cs[0] in cs;
    JoinStart(cs);
    assert "/" + p == Render(cs, slash);
    CleanURIPathIs("/" + p);
    UriComponentsOfRender(cs, slash);
  }

  /** Prefixes are matched with or without their last slash. */
  lemma MatchedPathsStrip(prefix: string, path: string)
    requires EndsWithSlash(prefix) && CleanURIPath(path) == path && Match(prefix, path)
    ensures Rooted(Strip(prefix, path))
    ensures prefix <= path ==> prefix[..|prefix| - 1] + Strip(prefix, path) == path
    ensures !(prefix <= path) ==> Strip(prefix, path) == path
  {
    CleanURIPathIsSafe(TrimPrefix(path, prefix));
    if prefix <= path {
      StripUndoes(prefix, path);
    }
  }

  /** A prefix is matched by the paths below it and by its own, with or without the last
      slash: by components, not by characters. */
  lemma MatchIsByComponents(cs: seq<string>, ds: seq<string>, slash: bool)
    requires SafeComponents(cs) && SafeComponents(ds)
    ensures Match(Render(cs, true), Render(ds, slash)) <==> cs <= ds
  {
    if cs == [] {
      RootMatchesAll(ds, slash);
    } else {
      if cs <= ds {
        BelowMatches(cs, ds, slash);
      }
      if Match(Render(cs, true), Render(ds, slash)) {
        MatchedIsBelow(cs, ds, slash);
      }
    }
  }

  lemma RootMatchesAll(ds: seq<string>, slash: bool)
    ensures Match(Render([], true), Render(ds, slash))
  {
    assert Render([], true) == "/" && Render(ds, slash)[0] == '/';
  }

  lemma BelowMatches(cs: seq<string>, ds: seq<string>, slash: bool)
    requires SafeComponents(cs) && SafeComponents(ds) && cs != [] && cs <= ds
    ensures Match(Render(cs, true), Render(ds, slash))
  {
    hide SafeComponents, Join;
    if |cs| == |ds| {
      assert cs == ds;
    } else {
      var more := ds[|cs|..];
      assert ds == cs + more;
      JoinConcat(cs, more);
      assert Render(ds, slash) == Render(cs, true) + (Join(more) + (if slash then "/" else ""));
    }
  }

  lemma MatchedIsBelow(cs: seq<string>, ds: seq<string>, slash: bool)
    requires SafeComponents(cs) && SafeComponents(ds) && cs != [] && Match(Render(cs, true), Render(ds, slash))
    ensures cs <= ds
  {
    hide SafeComponents, Join, PathOf;
    var prefix, path := Render(cs, true), Render(ds, slash);
    SplitOfRender(cs, false);
    var pre := Render(cs, false);
    assert prefix == pre + "/";
    if path + "/" == prefix {
      assert path == (path + "/")[..|path|] == (pre + "/")[..|path|] == pre;
    } else {
      var rest := path[|prefix|..];
      assert path == pre + "/" + rest;
      SplitConcat(pre, rest);
    }
    if ds != [] {
      SplitOfRender(ds, slash);
      BehindTheRoot(cs, ds, slash, Split(path));
    } else {
      OnlyRoot(slash);
      BehindTheRoot(cs, ds, true, Split(path));
    }
  }

  lemma OnlyRoot(slash: bool)
    ensures Split(Render([], slash)) == ["", ""]
  {
    assert Render([], slash) == "/" && "/" == "" + "/" + "";
    SplitConcat("", "");
  }

  lemma BehindTheRoot(cs: seq<string>, ds: seq<string>, slash: bool, all: seq<string>)
    requires SafeComponents(cs) && all == [""] + ds + (if slash then [""] else []) && [""] + cs <= all
    ensures cs <= ds
  {
    if cs != [] {
      var last := |cs| - 1;
      assert cs[last] in cs && cs[last] != "" && all[|cs|] == ([""] + cs)[|cs|] == cs[last];
    }
    forall i | 0 <= i < |cs| ensures cs[i] == ds[i] {
      assert cs[i] == ([""] + cs)[i + 1] == all[i + 1];
    }
  }

  // ---------------------------------------------------------------------------
  // Static files
  // ---------------------------------------------------------------------------

  /** filepath.Join of two elements: empty ones are ignored, the result is cleaned. */
  function FileJoin(root: string, p: string): string {
    if root == "" && p == "" then ""
    else if root == "" then Clean(p)
    else if p == "" then Clean(root)
    else Clean(root + "/" + p)
  }

  /** filepath.Join by its documentation: the elements that are not empty, with slashes between
      them, cleaned; nothing at all if there are none. */
  lemma FileJoinIs(root: string, p: string)
    ensures var elements := (if root == "" then [] else [root]) + (if p == "" then [] else [p]);
            FileJoin(root, p) == if elements == [] then "" else Clean(Join(elements))
  {
    assert [root, p][1..] == [p];
    hide Clean;
  }

  function StaticFile(root: string, prefix: string, path: string): string {
    FileJoin(root, Strip(prefix, path))
  }

  /** The test that ServeExisting makes before it opens the file. */
  predicate Serves(root: string, prefix: string, path: string) {
    root <= StaticFile(root, prefix, path)
  }

  lemma StaticComponents(root: string, prefix: string, path: string)
    requires Clean(root) == root
    ensures var cs := UriComponents(TrimPrefix(path, prefix));
            && Normal(Rooted(root), Components(root)) && SafeComponents(cs)
            && StaticFile(root, prefix, path) == PathOf(Rooted(root), Components(root) + cs)
  {
    var p := Strip(prefix, path);
    var cs := UriComponents(TrimPrefix(path, prefix));
    var rooted, rs := Rooted(root), Components(root);
    CleanIsNormal(root);
    RootedOfPath(rooted, rs);
    CleanURIPathIs(TrimPrefix(path, prefix));
    CleanURIPathIsSafe(TrimPrefix(path, prefix));
    SplitConcat(root, p);
    ResolveConcat(rooted, [], Split(root), Split(p));
    assert (root + "/" + p)[0] == root[0];
    ResolveSafe(rooted, rs, cs, EndsWithSlash(TrimPrefix(path, prefix)));
  }

  /** Safe components go onto any stack unchanged. */
  lemma ResolveSafe(rooted: bool, stack: seq<string>, cs: seq<string>, slash: bool)
    requires Normal(rooted, stack) && SafeComponents(cs)
    ensures Resolve(rooted, stack, Split(Render(cs, slash))) == stack + cs
  {
    if cs == [] {
      assert Render(cs, slash) == "/" && "/" == "" + "/" + "";
      SplitConcat("", "");
      ResolveConcat(rooted, stack, [""], [""]);
      ResolveEmpty(rooted, stack);
      assert stack + cs == stack;
    } else {
      SplitOfRender(cs, slash);
      NormalAppend(rooted, stack, cs);
      ResolveEmpty(rooted, stack);
      ResolveNormal(rooted, stack, cs);
      ResolveConcat(rooted, stack, [""], cs);
      ResolveConcat(rooted, stack, [""] + cs, if slash then [""] else []);
      ResolveEmpty(rooted, stack + cs);
    }
  }

  lemma NormalAppend(rooted: bool, stack: seq<string>, cs: seq<string>)
    requires Normal(rooted, stack) && SafeComponents(cs)
    ensures Normal(rooted, stack + cs)
  {
    forall i | 0 <= i < |stack + cs| && (stack + cs)[i] == ".."
      ensures !rooted && (i == 0 || (stack + cs)[i - 1] == "..")
    {
      if i >= |stack| {
        assert cs[i - |stack|] in cs;
      }
    }
  }

  lemma PathContinues(rooted: bool, rs: seq<string>, cs: seq<string>)
    requires Normal(rooted, rs) && cs != []
    ensures PathOf(rooted, rs + cs) ==
              if rs == [] then (if rooted then "/" + Join(cs) else Join(cs))
              else PathOf(rooted, rs) + "/" + Join(cs)
  {
    if rs == [] {
      assert rs + cs == cs;
    } else {
      JoinConcat(rs, cs);
    }
  }

  /**
   The file of a request is its document root, continued by safe components only:
   it never leaves the root. For the root "." the components stand alone.
   */
  lemma StaticFileStaysBelow(root: string, prefix: string, path: string)
    requires Clean(root) == root
    ensures var cs := UriComponents(TrimPrefix(path, prefix));
            && SafeComponents(cs)
            && StaticFile(root, prefix, path) ==
                 if cs == [] then root
                 else if root == "." then Join(cs)
                 else if root == "/" then root + Join(cs)
                 else root + "/" + Join(cs)
  {
    StaticComponents(root, prefix, path);
    var cs := UriComponents(TrimPrefix(path, prefix));
    var rooted, rs := Rooted(root), Components(root);
    RootedOfPath(rooted, rs);
    if cs == [] {
      assert rs + cs == rs;
    } else {
      PathContinues(rooted, rs, cs);
      assert rs == [] ==> root == if rooted then "/" else ".";
    }
  }

  /** The file of the prefix itself is the document root, cleaned. */
  lemma RootIsCleaned(root: string, prefix: string)
    requires root != ""
    ensures StaticFile(root, prefix, prefix) == Clean(root)
  {
    assert TrimPrefix(prefix, prefix) == "" && Strip(prefix, prefix) == "/";
    SplitConcat(root, "/");
    assert "/" == "" + "/" + "" && Split("") == [""];
    SplitConcat("", "");
    var rooted := Rooted(root);
    ResolveConcat(rooted, [], Split(root), [""] + [""]);
    ResolveConcat(rooted, Components(root), [""], [""]);
    ResolveEmpty(rooted, Components(root));
    assert (root + "/" + "/")[0] == root[0];
  }

  /** For the root "." there is a request that fails. */
  lemma DotRootFails(prefix: string)
    ensures !Serves(".", prefix, prefix + "/a")
  {
    var path := prefix + "/a";
    assert TrimPrefix(path, prefix) == "/a";
    SplitPlain(".");
    assert Clean(".") == "." by { assert ["."][1..] == []; }
    StaticFileStaysBelow(".", prefix, path);
    assert "/a" == "" + "/" + "a";
    SplitConcat("", "a");
    SplitPlain("a");
    ResolveConcat(true, [], [""], ["a"]);
    ResolveEmpty(true, []);
    assert ["a"][1..] == [] && [] + ["a"] == ["a"];
    assert UriComponents("/a") == ["a"];
    assert StaticFile(".", prefix, path) == "a";
  }

  /** The test passes for every request if and only if the document root is empty, or
      clean and not ".": any other root is no prefix of its own clean form. */
  lemma PrefixTestAlwaysPasses(root: string, prefix: string)
    ensures (forall path :: Serves(root, prefix, path)) <==> root == "" || (Clean(root) == root && root != ".")
  {
    if root == "." {
      DotRootFails(prefix);
    } else if root != "" && Clean(root) == root {
      forall path ensures Serves(root, prefix, path) {
        StaticFileStaysBelow(root, prefix, path);
      }
    } else if root != "" {
      RootIsCleaned(root, prefix);
      CleanShortens(root);
      assert !Serves(root, prefix, prefix);
    }
  }
}
