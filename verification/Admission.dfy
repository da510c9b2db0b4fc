/** Admission of proxies: the check every service makes before it writes the store. */
module Admission {
  import opened Options
  import opened Hosts
  import opened Listeners

  /** What is fixed while the services run: the listeners configured outside the store, and the defaults. */
  datatype Config = Config(ip: IpRules, defaults: Defaults, fixedClaims: seq<ListenerClaim>)

  type Store = map<string, Proxy>

  function ClaimOf(cfg: Config, p: Proxy): Option<ListenerClaim> {
    ListenerClaimForProxy(cfg.ip, p, cfg.defaults)
  }

  // ---------- the check ----------

  /** No claim of an enabled proxy other than `ignoreId`, and no fixed claim, conflicts with `proposed`. */
  ghost predicate ClaimFree(cfg: Config, store: Store, proposed: ListenerClaim, ignoreId: string) {
    && (forall c :: c in cfg.fixedClaims ==> !Conflicts(cfg.ip, c, proposed))
    && (forall id :: id in store && id != ignoreId && store[id].status.Enabled? && ClaimOf(cfg, store[id]).Some?
          ==> !Conflicts(cfg.ip, ClaimOf(cfg, store[id]).value, proposed))
  }

  /** No enabled web proxy of the same domain, other than `ignoreId`, has the same path prefix. */
  ghost predicate RouteFree(store: Store, p: Proxy, ignoreId: string) {
    forall id :: id in store ==> !RouteClash(store[id], p, ignoreId)
  }

  predicate RouteClash(q: Proxy, p: Proxy, ignoreId: string) {
    q.id != ignoreId && q.status.Enabled? && q.ptype.Web? && q.domainId == p.domainId && q.pathPrefix == p.pathPrefix
  }

  /** When `EnsureAdmission` lets `p` through. A legacy HTTP or HTTPS proxy is checked as a web proxy at
      "/" on the domain `hostDomain` of its host, if there is one. */
  ghost predicate Admitted(cfg: Config, store: Store, p: Proxy, hostDomain: Option<string>, ignoreId: string) {
    if !p.status.Enabled? then true
    else if p.ptype.Web? then RouteFree(store, p, ignoreId)
    else if p.ptype.IsWeb() then
      hostDomain.Some? ==> RouteFree(store, p.(ptype := Web, domainId := hostDomain.value, pathPrefix := "/"), ignoreId)
    else if !p.ptype.HasListener() then true
    else ClaimOf(cfg, p).Some? ==> ClaimFree(cfg, store, ClaimOf(cfg, p).value, ignoreId)
  }

  datatype Verdict = Pass | RouteConflict(proxyId: string) | ListenerConflict(claim: ListenerClaim)

  /** `Store.Proxies().List`: every proxy once, in an order the check does not depend on. */
  ghost predicate ListsStore(list: seq<Proxy>, store: Store) {
    && (forall i :: 0 <= i < |list| ==> list[i].id in store && store[list[i].id] == list[i])
    && (forall id :: id in store ==> store[id].id == id && store[id] in list)
  }

  lemma OneProxyMore(cfg: Config, list: seq<Proxy>, p: Proxy, ignoreId: string, claims: seq<ListenerClaim>)
    requires AreActiveClaims(cfg, list, ignoreId, claims)
    ensures AreActiveClaims(cfg, list + [p], ignoreId,
      if p.id != ignoreId && p.status.Enabled? && ClaimOf(cfg, p).Some? then claims + [ClaimOf(cfg, p).value] else claims)
  {
    var claims' := if p.id != ignoreId && p.status.Enabled? && ClaimOf(cfg, p).Some? then claims + [ClaimOf(cfg, p).value] else claims;
    assert forall q :: q in list + [p] <==> q in list || q == p;
    forall c ensures c in claims' <==> c in cfg.fixedClaims || exists q :: q in list + [p] && ClaimsFor(cfg, q, ignoreId, c) {
      if c in cfg.fixedClaims || exists q :: q in list + [p] && ClaimsFor(cfg, q, ignoreId, c) {
        if c !in claims {
          var q :| q in list + [p] && ClaimsFor(cfg, q, ignoreId, c);
          assert q == p;
        }
      } else if c in claims' {
        assert c in claims || ClaimsFor(cfg, p, ignoreId, c);
      }
    }
  }

  method ActiveListenerClaims(cfg: Config, list: seq<Proxy>, ignoreId: string) returns (claims: seq<ListenerClaim>)
    ensures AreActiveClaims(cfg, list, ignoreId, claims)
  {
    claims := cfg.fixedClaims;
    for i := 0 to |list|
      invariant AreActiveClaims(cfg, list[..i], ignoreId, claims)
    {
      var p := list[i];
      assert list[..i + 1] == list[..i] + [p];
      OneProxyMore(cfg, list[..i], p, ignoreId, claims);
      if p.id == ignoreId || !p.status.Enabled? {
        continue;
      }
      var claim := ListenerClaimForProxy(cfg.ip, p, cfg.defaults);
      if claim.None? {
        continue;
      }
      claims := claims + [claim.value];
    }
    assert list[..|list|] == list;
  }

  method FindActiveWebRouteConflict(list: seq<Proxy>, proposed: Proxy, ignoreId: string) returns (res: Option<Proxy>)
    ensures res.Some? ==> res.value in list && RouteClash(res.value, proposed, ignoreId)
    ensures res.None? ==> forall p :: p in list ==> !RouteClash(p, proposed, ignoreId)
  {
    for i := 0 to |list|
      invariant forall j :: 0 <= j < i ==> !RouteClash(list[j], proposed, ignoreId)
    {
      var p := list[i];
      if p.status.Enabled? && p.ptype.Web? && p.domainId == proposed.domainId && p.id != ignoreId && p.pathPrefix == proposed.pathPrefix {
        return Some(p);
      }
    }
    return None;
  }

  /** `claims` are the fixed claims and those of the enabled proxies in `list` other than `ignoreId`. */
  ghost predicate AreActiveClaims(cfg: Config, list: seq<Proxy>, ignoreId: string, claims: seq<ListenerClaim>) {
    forall c :: c in claims <==> c in cfg.fixedClaims || exists p :: p in list && ClaimsFor(cfg, p, ignoreId, c)
  }

  predicate ClaimsFor(cfg: Config, p: Proxy, ignoreId: string, c: ListenerClaim) {
    p.id != ignoreId && p.status.Enabled? && ClaimOf(cfg, p) == Some(c)
  }

  lemma ClaimFreeIsNoConflict(cfg: Config, store: Store, list: seq<Proxy>, claims: seq<ListenerClaim>, proposed: ListenerClaim, ignoreId: string)
    requires ListsStore(list, store) && AreActiveClaims(cfg, list, ignoreId, claims)
    ensures ClaimFree(cfg, store, proposed, ignoreId) <==> forall c :: c in claims ==> !Conflicts(cfg.ip, c, proposed)
  {
    if ClaimFree(cfg, store, proposed, ignoreId) {
      forall c | c in claims ensures !Conflicts(cfg.ip, c, proposed) {
        if c !in cfg.fixedClaims {
          var p :| p in list && ClaimsFor(cfg, p, ignoreId, c);
          assert p.id in store;
        }
      }
    }
    if forall c :: c in claims ==> !Conflicts(cfg.ip, c, proposed) {
      forall id | id in store && id != ignoreId && store[id].status.Enabled? && ClaimOf(cfg, store[id]).Some?
        ensures !Conflicts(cfg.ip, ClaimOf(cfg, store[id]).value, proposed)
      {
        assert store[id] in list && ClaimsFor(cfg, store[id], ignoreId, ClaimOf(cfg, store[id]).value);
      }
    }
  }

  /** The part of `EnsureAdmission` for TCP and UDP proxies. */
  method EnsureListener(cfg: Config, ghost store: Store, list: seq<Proxy>, proposed: ListenerClaim, ignoreId: string) returns (verdict: Verdict)
    requires ListsStore(list, store)
    ensures verdict.Pass? || verdict.ListenerConflict?
    ensures verdict.Pass? <==> ClaimFree(cfg, store, proposed, ignoreId)
    ensures verdict.ListenerConflict? ==> Conflicts(cfg.ip, verdict.claim, proposed)
  {
    var claims := ActiveListenerClaims(cfg, list, ignoreId);
    ClaimFreeIsNoConflict(cfg, store, list, claims, proposed, ignoreId);
    var conflict := FindListenerConflict(cfg.ip, claims, proposed);
    return if conflict.Some? then ListenerConflict(conflict.value) else Pass;
  }

  /** The part of `EnsureAdmission` for web proxies. */
  method EnsureRoute(ghost store: Store, list: seq<Proxy>, proposed: Proxy, ignoreId: string) returns (verdict: Verdict)
    requires ListsStore(list, store)
    ensures verdict.Pass? || verdict.RouteConflict?
    ensures verdict.Pass? <==> RouteFree(store, proposed, ignoreId)
    ensures verdict.RouteConflict? ==> verdict.proxyId in store && RouteClash(store[verdict.proxyId], proposed, ignoreId)
  {
    var conflict := FindActiveWebRouteConflict(list, proposed, ignoreId);
    if conflict.Some? {
      assert conflict.value.id in store;
      return RouteConflict(conflict.value.id);
    }
    forall id | id in store ensures !RouteClash(store[id], proposed, ignoreId) {
      assert store[id] in list;
    }
    return Pass;
  }

  /** `EnsureAdmission` passes exactly the admitted proxies, and otherwise names a real conflict. */
  method EnsureAdmission(cfg: Config, ghost store: Store, list: seq<Proxy>, p: Proxy, hostDomain: Option<string>, ignoreId: string)
    returns (verdict: Verdict)
    requires ListsStore(list, store)
    ensures verdict.Pass? <==> Admitted(cfg, store, p, hostDomain, ignoreId)
    ensures verdict.ListenerConflict? ==> ClaimOf(cfg, p).Some? && Conflicts(cfg.ip, verdict.claim, ClaimOf(cfg, p).value)
    ensures verdict.RouteConflict? ==> verdict.proxyId in store && verdict.proxyId != ignoreId
  {
    if !p.status.Enabled? {
      return Pass;
    }
    if p.ptype.IsWeb() {
      var webProxy := p;
      if !p.ptype.Web? {
        if hostDomain.None? {
          return Pass;
        }
        webProxy := p.(ptype := Web, domainId := hostDomain.value, pathPrefix := "/");
      }
      verdict := EnsureRoute(store, list, webProxy, ignoreId);
      return;
    }
    if !p.ptype.HasListener() {
      return Pass;
    }
    // The route-conflict search the code makes here looks only at HTTP and HTTPS entries.
    var proposed := ListenerClaimForProxy(cfg.ip, p, cfg.defaults);
    if proposed.None? {
      return Pass;
    }
    verdict := EnsureListener(cfg, store, list, proposed.value, ignoreId);
  }
}
