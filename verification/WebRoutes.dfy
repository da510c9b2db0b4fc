/** Which web proxy serves a path: the enabled one with the longest matching prefix. */
module WebRoutes {
  import opened Options
  import opened Paths
  import opened Listeners

  /** Go's `len` of a string: the length of its UTF-8 encoding. */
  function ByteLen(s: string): nat {
    if s == "" then 0
    else
      var n := s[|s| - 1] as int;
      ByteLen(s[..|s| - 1]) + if n < 0x80 then 1 else if n < 0x800 then 2 else if n < 0x10000 then 3 else 4
  }

  predicate Serves(p: Proxy, path: string) {
    p.status.Enabled? && p.ptype.IsWeb() && ProxyRouteMatches(path, p.pathPrefix)
  }

  /** What a selection has to be: a serving proxy with a longest prefix, or nothing if none serves. */
  ghost predicate IsSelection(proxies: seq<Proxy>, path: string, selected: Option<Proxy>) {
    match selected
    case None => forall p :: p in proxies ==> !Serves(p, path)
    case Some(s) =>
      && s in proxies && Serves(s, path)
      && forall p :: p in proxies && Serves(p, path) ==> ByteLen(p.pathPrefix) <= ByteLen(s.pathPrefix)
  }

  method SelectWebProxy(proxies: seq<Proxy>, path: string) returns (selected: Option<Proxy>)
    ensures IsSelection(proxies, path, selected)
  {
    selected := None;
    for i := 0 to |proxies|
      invariant IsSelection(proxies[..i], path, selected)
    {
      var p := proxies[i];
      assert proxies[..i + 1] == proxies[..i] + [p];
      if !(p.status.Enabled? && p.ptype.IsWeb() && ProxyRouteMatches(path, p.pathPrefix)) {
        continue;
      }
      if selected.None? || ByteLen(p.pathPrefix) > ByteLen(selected.value.pathPrefix) {
        selected := Some(p);
      }
    }
    assert proxies[..|proxies|] == proxies;
  }

  lemma {:induction false} LongerPrefixHasMoreBytes(shorter: string, longer: string)
    requires shorter < longer
    ensures ByteLen(shorter) < ByteLen(longer)
  {
    var front := longer[..|longer| - 1];
    if shorter != front {
      assert shorter == longer[..|shorter|] == front[..|shorter|];
      LongerPrefixHasMoreBytes(shorter, front);
    }
  }

  /** On a path that starts with "/", two prefixes that match and are equally long are the same. */
  lemma MatchingPrefixesAreNested(path: string, a: string, b: string)
    requires "/" <= path && ProxyRouteMatches(path, a) && ProxyRouteMatches(path, b)
    requires ByteLen(a) == ByteLen(b)
    ensures a == b
  {
    assert a <= path && b <= path;
    if |a| < |b| {
      assert a == path[..|a|] && b[..|a|] == path[..|a|];
      LongerPrefixHasMoreBytes(a, b);
    } else if |b| < |a| {
      assert b == path[..|b|] && a[..|b|] == path[..|b|];
      LongerPrefixHasMoreBytes(b, a);
    }
  }

  predicate EnabledWeb(p: Proxy) {
    p.status.Enabled? && p.ptype.IsWeb()
  }

  /** No two enabled web proxies in the list have the same prefix, as admission keeps it per domain. */
  predicate DistinctRoutes(proxies: seq<Proxy>) {
    forall i, j :: 0 <= i < j < |proxies| && EnabledWeb(proxies[i]) && EnabledWeb(proxies[j])
      ==> proxies[i].pathPrefix != proxies[j].pathPrefix
  }

  /** Something is selected exactly when some enabled web proxy of the list matches, and its prefix starts
      with that of every other that does: it is the most specific. */
  lemma SelectionIsMostSpecific(proxies: seq<Proxy>, path: string, selected: Option<Proxy>, p: Proxy)
    requires "/" <= path && IsSelection(proxies, path, selected)
    ensures selected.Some? ==> selected.value in proxies && EnabledWeb(selected.value) && ProxyRouteMatches(path, selected.value.pathPrefix)
    ensures p in proxies && EnabledWeb(p) && ProxyRouteMatches(path, p.pathPrefix) ==>
      selected.Some? && p.pathPrefix <= selected.value.pathPrefix
  {
    if p in proxies && EnabledWeb(p) && ProxyRouteMatches(path, p.pathPrefix) {
      assert Serves(p, path);
      var a, b := p.pathPrefix, selected.value.pathPrefix;
      assert a <= path && b <= path;
      if |b| < |a| {
        assert b == path[..|b|] && a[..|b|] == path[..|b|];
        LongerPrefixHasMoreBytes(b, a);
      }
      assert a == path[..|a|] && b[..|a|] == path[..|a|];
    }
  }

  /** There is one selection, whatever the order of the list. */
  lemma SelectionIgnoresOrder(proxies: seq<Proxy>, shuffled: seq<Proxy>, path: string, first: Option<Proxy>, second: Option<Proxy>)
    requires "/" <= path && DistinctRoutes(proxies)
    requires multiset(shuffled) == multiset(proxies)
    requires IsSelection(proxies, path, first) && IsSelection(shuffled, path, second)
    ensures first == second
    ensures first.Some? <==> exists p :: p in proxies && Serves(p, path)
  {
    assert forall p :: p in shuffled <==> p in multiset(shuffled);
    assert forall p :: p in proxies <==> p in multiset(proxies);
    if first.Some? && second.Some? {
      MatchingPrefixesAreNested(path, first.value.pathPrefix, second.value.pathPrefix);
      var i :| 0 <= i < |proxies| && proxies[i] == first.value;
      var j :| 0 <= j < |proxies| && proxies[j] == second.value;
    }
  }
}
