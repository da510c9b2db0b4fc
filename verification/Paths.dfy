/** Route prefixes: their normal form, when a path matches one, and moving a path from one to another. */
module Paths {
  import opened Options
  import opened Text

  predicate IsSlash(c: char) { c == '/' }

  const FORBIDDEN := "?#%\\\0"

  predicate BadPrefix(value: string) {
    value == "" || !("/" <= value) || ContainsAny(value, FORBIDDEN) || Contains(value, "//")
  }

  function NormalizeProxyRoutePrefix(value: string): Option<string> {
    var t := TrimSpace(value);
    if BadPrefix(t) then None
    else if |t| > 1 then Some(TrimRight(t, IsSlash))
    else Some(t)
  }

  function NormalizeProxyUpstreamPathPrefix(value: string): Option<string> {
    if TrimSpace(value) == "" then Some("/") else NormalizeProxyRoutePrefix(value)
  }

  predicate ProxyRouteMatches(path: string, prefix: string) {
    prefix == "/" || path == prefix || prefix + "/" <= path
  }

  function RewriteWebProxyPath(path: string, pathPrefix: string, stripPrefix: bool, upstreamPathPrefix: string): string {
    if !stripPrefix then path
    else
      var remainder := TrimPrefix(path, pathPrefix);
      if remainder == "" then upstreamPathPrefix
      else if upstreamPathPrefix == "/" then remainder
      else TrimRight(upstreamPathPrefix, IsSlash) + "/" + TrimLeft(remainder, IsSlash)
  }

  // ---------- the normal form ----------

  /** "/", or a path that starts with "/" and does not end with one. */
  predicate Canonical(prefix: string) {
    prefix == "/" || (|prefix| > 1 && prefix[0] == '/' && prefix[|prefix| - 1] != '/')
  }

  lemma {:induction false} ContainsSlice(s: string, part: string, i: nat)
    requires i <= |s| && part <= s[i..]
    ensures Contains(s, part)
  {
    if i > 0 {
      ContainsSlice(s[1..], part, i - 1);
    }
  }

  lemma {:induction false} ContainsPrefix(s: string, n: nat, part: string)
    requires n <= |s| && Contains(s[..n], part)
    ensures Contains(s, part)
  {
    if !(part <= s[..n]) {
      assert s[..n][1..] == s[1..][..n - 1];
      ContainsPrefix(s[1..], n - 1, part);
    }
  }

  /** A trimmed, acceptable value loses at most one trailing slash. */
  lemma NormalIsCanonical(value: string)
    requires NormalizeProxyRoutePrefix(value).Some?
    ensures var r := NormalizeProxyRoutePrefix(value).value;
      Canonical(r) && !BadPrefix(r) && r <= TrimSpace(value) && |TrimSpace(value)| <= |r| + 1
  {
    var t := TrimSpace(value);
    if |t| > 1 {
      var k := TrimRightTo(t, IsSlash);
      if k + 1 < |t| {
        assert t[k] == '/' && t[k + 1] == '/';
        ContainsSlice(t, "//", k);
      }
      var r := t[..k];
      if Contains(r, "//") { ContainsPrefix(t, k, "//"); }
    }
  }

  predicate Forbidden(c: char) { c == '?' || c == '#' || c == '%' || c == '\\' || c == '\0' }

  predicate HasDoubleSlash(s: string) {
    exists i :: 0 <= i < |s| - 1 && s[i] == '/' && s[i + 1] == '/'
  }

  lemma {:induction false} DoubleSlashIff(s: string)
    ensures Contains(s, "//") <==> HasDoubleSlash(s)
  {
    if s != "" {
      DoubleSlashIff(s[1..]);
      assert "//" <= s <==> |s| > 1 && s[0] == '/' && s[1] == '/';
      if i :| 0 <= i < |s| - 1 && s[i] == '/' && s[i + 1] == '/' {
        assert i > 0 ==> s[1..][i - 1] == '/' && s[1..][i] == '/';
      }
      if i :| 0 <= i < |s[1..]| - 1 && s[1..][i] == '/' && s[1..][i + 1] == '/' {
        assert s[i + 1] == '/' && s[i + 2] == '/';
      }
    }
  }

  lemma BadPrefixIff(t: string)
    ensures BadPrefix(t) <==> t == "" || t[0] != '/' || (exists i :: 0 <= i < |t| && Forbidden(t[i])) || HasDoubleSlash(t)
  {
    DoubleSlashIff(t);
    assert forall c :: c in FORBIDDEN <==> Forbidden(c);
    assert "/" <= t <==> t != "" && t[0] == '/';
  }

  /** A path is accepted exactly when, trimmed, it starts with "/", holds no forbidden character and no two
      slashes together; its normal form is then the trimmed path without its last slash. */
  lemma NormalFormIs(value: string)
    ensures var t := TrimSpace(value);
      NormalizeProxyRoutePrefix(value) ==
        if t == "" || t[0] != '/' || (exists i :: 0 <= i < |t| && Forbidden(t[i])) || HasDoubleSlash(t) then None
        else if |t| > 1 && t[|t| - 1] == '/' then Some(t[..|t| - 1]) else Some(t)
  {
    var t := TrimSpace(value);
    BadPrefixIff(t);
    if !BadPrefix(t) && |t| > 1 {
      LastSlashOnly(t);
    }
  }

  lemma LastSlashOnly(t: string)
    requires |t| > 1 && t[0] == '/' && !HasDoubleSlash(t)
    ensures TrimRight(t, IsSlash) == if t[|t| - 1] == '/' then t[..|t| - 1] else t
  {
    if t[|t| - 1] == '/' {
      assert t[|t| - 2] != '/';
      assert TrimRight(t[..|t| - 1], IsSlash) == t[..|t| - 1];
    }
  }

  /** Normalising is settled exactly when the result does not end in space, which it does when space
      stood before a trailing slash. */
  lemma RoutePrefixSettledIff(value: string)
    requires NormalizeProxyRoutePrefix(value).Some?
    ensures var r := NormalizeProxyRoutePrefix(value).value;
      |r| > 0 && (NormalizeProxyRoutePrefix(r) == Some(r) <==> !IsSpace(r[|r| - 1]))
  {
    var r := NormalizeProxyRoutePrefix(value).value;
    NormalIsCanonical(value);
    assert r[0] == '/';
    if IsSpace(r[|r| - 1]) {
      TrimSpaceEnds(r);
      if NormalizeProxyRoutePrefix(r) == Some(r) {
        NormalIsCanonical(r);
        assert TrimSpace(r) == r + TrimSpace(r)[|r|..];
        var a := TrimLeftFrom(r, IsSpace);
        var b := TrimRightTo(TrimLeft(r, IsSpace), IsSpace);
      }
    } else {
      TrimNothing(r, IsSpace);
      if |r| > 1 { TrimNothing(r[1..], IsSlash); assert TrimRight(r, IsSlash) == r; }
    }
  }

  lemma SpaceBeforeSlash()
    ensures NormalizeProxyRoutePrefix("/a /") == Some("/a ")
    ensures NormalizeProxyRoutePrefix("/a ") == Some("/a")
  {
    var s := "/a /";
    TrimNothing(s, IsSpace);
    assert TrimRight(s, IsSlash) == TrimRight("/a ", IsSlash) == "/a " by { assert s[..3] == "/a "; }
    var t := "/a ";
    assert TrimLeft(t, IsSpace) == t;
    assert t[..2] == "/a";
    assert TrimRight(t, IsSpace) == TrimRight("/a", IsSpace) == "/a";
    assert TrimRight("/a", IsSlash) == "/a";
    NoDoubleSlash();
  }

  lemma NoDoubleSlash()
    ensures !Contains("/a /", "//") && !Contains("/a", "//")
  {
    assert "/a /"[1..] == "a /" && "a /"[1..] == " /" && " /"[1..] == "/" && "/"[1..] == "";
    assert "/a /"[1] == 'a' && "a /"[0] == 'a' && " /"[0] == ' ';
    assert !Contains("", "//");
    assert !Contains("/", "//");
    assert !Contains(" /", "//");
    assert !Contains("a /", "//");
    assert "/a"[1..] == "a" && "a"[1..] == "";
    assert "/a"[1] == 'a';
    assert !Contains("a", "//");
  }

  // ---------- matching by segments ----------

  /** The parts of a path between its slashes. */
  function Segments(path: string): seq<string> {
    Split(path, '/')
  }

  /** A prefix other than "/" matches a path exactly when its segments begin those of the path. */
  lemma MatchesBySegments(path: string, prefix: string)
    ensures ProxyRouteMatches(path, prefix) <==> prefix == "/" || Segments(prefix) <= Segments(path)
  {
    PartsBeginIff(prefix, path, '/');
  }

  // ---------- moving a path between prefixes ----------

  /** Without stripping the path goes on as it came; with it, what follows the prefix is kept and the prefix
      exchanged. */
  lemma RewriteKeepsRest(path: string, a: string, b: string, rest: string)
    requires Canonical(a) && a != "/" && Canonical(b) && b != "/" && path == a + rest
    requires rest == "" || ("/" <= rest && !("//" <= rest))
    ensures RewriteWebProxyPath(path, a, false, b) == path
    ensures RewriteWebProxyPath(path, a, true, b) == b + rest
  {
    assert path[|a|..] == rest;
    assert TrimRight(b, IsSlash) == b;
    if rest != "" {
      TrimOneSlash(rest);
      assert b + "/" + TrimLeft(rest, IsSlash) == b + ("/" + TrimLeft(rest, IsSlash));
    }
  }

  /** A rewritten path matches the prefix it was moved to. */
  lemma RewrittenPathMatches(path: string, a: string, b: string)
    requires "/" <= path && Canonical(a) && Canonical(b) && ProxyRouteMatches(path, a)
    ensures ProxyRouteMatches(RewriteWebProxyPath(path, a, true, b), b)
  {
    if b != "/" {
      assert TrimRight(b, IsSlash) == b;
    }
  }

  /** An upstream prefix is taken when it is left out, which means "/", or is acceptable as a route, and then
      it is the same. */
  lemma UpstreamIsCanonical(value: string)
    ensures NormalizeProxyUpstreamPathPrefix(value).Some? <==> TrimSpace(value) == "" || NormalizeProxyRoutePrefix(value).Some?
    ensures TrimSpace(value) == "" ==> NormalizeProxyUpstreamPathPrefix(value) == NormalizeProxyRoutePrefix("/")
    ensures NormalizeProxyRoutePrefix(value).Some? ==> NormalizeProxyUpstreamPathPrefix(value) == NormalizeProxyRoutePrefix(value)
    ensures NormalizeProxyUpstreamPathPrefix(value).Some? ==> Canonical(NormalizeProxyUpstreamPathPrefix(value).value)
  {
    NormalFormIs("/");
    TrimNothing("/", IsSpace);
    if NormalizeProxyRoutePrefix(value).Some? {
      NormalIsCanonical(value);
    }
  }

  /** Whatever route and upstream a proxy was given, once normalised: a request that matches the route goes
      upstream under the upstream's prefix. */
  lemma ConfiguredPathMatches(path: string, route: string, upstream: string)
    requires "/" <= path && NormalizeProxyRoutePrefix(route).Some? && NormalizeProxyUpstreamPathPrefix(upstream).Some?
    requires ProxyRouteMatches(path, NormalizeProxyRoutePrefix(route).value)
    ensures var a, b := NormalizeProxyRoutePrefix(route).value, NormalizeProxyUpstreamPathPrefix(upstream).value;
      ProxyRouteMatches(RewriteWebProxyPath(path, a, true, b), b)
  {
    NormalIsCanonical(route);
    UpstreamIsCanonical(upstream);
    RewrittenPathMatches(path, NormalizeProxyRoutePrefix(route).value, NormalizeProxyUpstreamPathPrefix(upstream).value);
  }

  lemma MovedPath(path: string, a: string, b: string)
    requires "/" <= path && Canonical(a) && Canonical(b) && b != "/" && ProxyRouteMatches(path, a)
    ensures var rest := path[|a|..];
      a <= path && RewriteWebProxyPath(path, a, true, b) == if rest == "" then b else b + "/" + TrimLeft(rest, IsSlash)
  {
    assert TrimRight(b, IsSlash) == b;
    assert a <= path;
  }

  /** Where moving a path from `a` to `b` and back is the identity. */
  predicate Reversible(path: string, a: string, b: string)
    requires a <= path
  {
    var rest := path[|a|..];
    if a == "/" && b == "/" then rest == ""
    else if a == "/" then !("/" <= rest)
    else if b == "/" then rest != "/" && !("//" <= rest)
    else !("//" <= rest)
  }

  lemma TrimOneSlash(rest: string)
    requires "/" <= rest
    ensures TrimLeft(rest, IsSlash) == TrimLeft(rest[1..], IsSlash)
    ensures "/" + TrimLeft(rest, IsSlash) == rest <==> !("//" <= rest)
  {
    var k := TrimLeftFrom(rest[1..], IsSlash);
    if "//" <= rest {
      assert rest[1..][0] == '/';
      assert k > 0;
      assert |TrimLeft(rest, IsSlash)| < |rest| - 1;
    } else {
      assert rest[1..] == "" || rest[1..][0] == rest[1];
      assert rest == "/" + rest[1..];
    }
  }

  lemma Joined(b: string, tail: string)
    requires Canonical(b) && b != "/"
    ensures ProxyRouteMatches(b + "/" + tail, b) && TrimPrefix(b + "/" + tail, b) == "/" + tail
    ensures "/" <= b + "/" + tail
  {
    assert b + "/" + tail == b + ("/" + tail);
  }

  lemma TrimmedTwice(rest: string)
    ensures TrimLeft(TrimLeft(rest, IsSlash), IsSlash) == TrimLeft(rest, IsSlash)
    ensures TrimLeft("/" + TrimLeft(rest, IsSlash), IsSlash) == TrimLeft(rest, IsSlash)
  {
    var t := TrimLeft(rest, IsSlash);
    var k := TrimLeftFrom(rest, IsSlash);
    assert t == "" || !IsSlash(t[0]);
    assert ("/" + t)[1..] == t;
  }

  /** Moving a path from `a` to `b` and back gives the path again exactly when it is reversible. */
  lemma RewriteRoundTripIff(path: string, a: string, b: string)
    requires "/" <= path && Canonical(a) && Canonical(b) && ProxyRouteMatches(path, a)
    ensures a <= path
    ensures RewriteWebProxyPath(RewriteWebProxyPath(path, a, true, b), b, true, a) == path <==> Reversible(path, a, b)
  {
    assert a <= path;
    var rest := path[|a|..];
    assert path == a + rest;
    if b != "/" {
      BackFromPrefix(path, a, b, rest);
    } else {
      BackFromRoot(path, a, rest);
    }
  }

  lemma CancelPrefix(a: string, x: string, y: string)
    ensures a + "/" + x == a + y <==> "/" + x == y
  {
    assert a + "/" + x == a + ("/" + x);
    assert (a + ("/" + x))[|a|..] == "/" + x && (a + y)[|a|..] == y;
  }

  lemma BackFromPrefix(path: string, a: string, b: string, rest: string)
    requires "/" <= path && Canonical(a) && Canonical(b) && b != "/" && path == a + rest && ProxyRouteMatches(path, a)
    ensures RewriteWebProxyPath(RewriteWebProxyPath(path, a, true, b), b, true, a) == path <==> Reversible(path, a, b)
  {
    MovedPath(path, a, b);
    assert path[|a|..] == rest;
    if rest == "" {
      assert TrimPrefix(b, b) == "";
    } else {
      Joined(b, TrimLeft(rest, IsSlash));
      TrimmedTwice(rest);
      if a == "/" {
        TailBehindRoot(path, rest);
      } else {
        TailBehindPrefix(path, a, rest);
      }
    }
  }

  lemma TailBehindRoot(path: string, rest: string)
    requires path == "/" + rest && rest != ""
    ensures "/" + TrimLeft(rest, IsSlash) == path <==> !("/" <= rest)
  {
    var k := TrimLeftFrom(rest, IsSlash);
    CancelPrefix("", TrimLeft(rest, IsSlash), path);
    assert path[1..] == rest && ("/" + TrimLeft(rest, IsSlash))[1..] == TrimLeft(rest, IsSlash);
  }

  lemma TailBehindPrefix(path: string, a: string, rest: string)
    requires "/" <= path && Canonical(a) && a != "/" && path == a + rest && rest != "" && ProxyRouteMatches(path, a)
    ensures TrimRight(a, IsSlash) == a && "/" <= rest
    ensures a + "/" + TrimLeft(rest, IsSlash) == path <==> !("//" <= rest)
  {
    assert rest[0] == path[|a|] == '/';
    TrimOneSlash(rest);
    CancelPrefix(a, TrimLeft(rest, IsSlash), rest);
  }

  lemma BackFromRoot(path: string, a: string, rest: string)
    requires "/" <= path && Canonical(a) && path == a + rest && ProxyRouteMatches(path, a)
    ensures RewriteWebProxyPath(RewriteWebProxyPath(path, a, true, "/"), "/", true, a) == path <==> Reversible(path, a, "/")
  {
    assert path[|a|..] == rest;
    if a == "/" {
      RootToRoot(path, rest);
    } else if rest == "" {
      assert TrimPrefix("/", "/") == "";
    } else {
      TailBehindPrefix(path, a, rest);
      RootToPrefix(path, a, rest);
    }
  }

  lemma RootToRoot(path: string, rest: string)
    requires path == "/" + rest
    ensures RewriteWebProxyPath(RewriteWebProxyPath(path, "/", true, "/"), "/", true, "/") == path <==> rest == ""
  {
    assert path[1..] == rest;
    if rest != "" {
      assert |RewriteWebProxyPath(rest, "/", true, "/")| <= |rest|;
    }
  }

  lemma RootToPrefix(path: string, a: string, rest: string)
    requires Canonical(a) && a != "/" && path == a + rest && "/" <= rest && TrimRight(a, IsSlash) == a
    requires a + "/" + TrimLeft(rest, IsSlash) == path <==> !("//" <= rest)
    ensures RewriteWebProxyPath(RewriteWebProxyPath(path, a, true, "/"), "/", true, a) == path <==> rest != "/" && !("//" <= rest)
  {
    assert path[|a|..] == rest;
    assert TrimPrefix(rest, "/") == rest[1..];
    if rest == "/" {
      assert |a| < |path|;
    } else {
      TrimOneSlash(rest);
    }
  }
}
