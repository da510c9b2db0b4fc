/**
 Exactly when one operation can put the same route of a domain into the store twice: creating or updating a
 web proxy, and creating a legacy one. Each has its condition, and an input that meets every check and fails.
 */
module RouteLimits {
  import opened Options
  import opened Text
  import opened Hosts
  import opened Paths
  import opened Listeners
  import opened Admission
  import opened ProxyWrites
  import opened RouteSafety

  ghost predicate RoutesDistinct(store: Store) {
    RowsOk(store) && NoRouteConflict(store)
  }

  /** The operation keeps routes distinct, whatever succeeds and whatever fails. */
  ghost predicate Safe(cfg: Config, store: Store, op: Op) {
    forall env :: NoRouteConflict(StoreAfter(cfg, store, op, env))
  }

  /** The row could be written as far as routes go. */
  ghost predicate Fits(store: Store, row: Proxy) {
    row.ptype.Web? && row.status.Enabled? ==> RouteFree(store, row, row.id)
  }

  lemma SafeIffBoth(cfg: Config, store: Store, op: Op, after: Store, undone: Store)
    requires NoRouteConflict(store) && HasPlan(cfg, store, op, after, undone)
    ensures Safe(cfg, store, op) <==> NoRouteConflict(after) && NoRouteConflict(undone)
  {
    Outcomes(cfg, store, op, after, undone);
    assert NoRouteConflict(StoreAfter(cfg, store, op, ALL_WELL)) <==> NoRouteConflict(after);
    assert NoRouteConflict(StoreAfter(cfg, store, op, RECONCILE_FAILS)) <==> NoRouteConflict(undone);
  }

  /** Enabling, disabling and deleting are safe. */
  lemma OthersAreSafe(cfg: Config, store: Store, op: Op)
    requires RoutesOk(store) && (op.Enable? || op.Disable? || op.Delete?)
    ensures Safe(cfg, store, op)
  {
    forall env ensures NoRouteConflict(StoreAfter(cfg, store, op, env)) {
      OpKeepsRoutes(cfg, store, op, env);
    }
  }

  // ---------- paths, as they are written ----------

  /** The path does not end in space once it is normalised. */
  predicate PlainPath(value: string) {
    var n := NormalizeProxyRoutePrefix(value);
    n.Some? ==> n.value == "" || !IsSpace(n.value[|n.value| - 1])
  }

  lemma PlainPathSettles(value: string)
    requires NormalizeProxyRoutePrefix(value).Some?
    ensures PlainPath(value) <==> SettledPath(NormalizeProxyRoutePrefix(value).value)
  {
    RoutePrefixSettledIff(value);
  }

  lemma SettledPathFits(cfg: Config, store: Store, r: Proxy, ignoreId: string)
    requires RowsOk(store) && r.ptype.Web? && SettledPath(r.pathPrefix)
    requires Admitted(cfg, store, r, None, ignoreId) && (ignoreId == r.id || (ignoreId == "" && r.id !in store))
    ensures Fits(store, Stored(cfg, r).value)
  {
    AdmittedMayRoute(cfg, store, r, None, ignoreId);
  }

  // ---------- creating a web proxy ----------

  function PathOf(p: Proxy): string {
    if p.pathPrefix == "" then "/" else p.pathPrefix
  }

  lemma NewWebPath(p: Proxy)
    requires p.ptype.Web? && NewRecord(p).Some?
    ensures NewRecord(p).value.ptype.Web? && NormalizeProxyRoutePrefix(PathOf(p)) == Some(NewRecord(p).value.pathPrefix)
  {
  }

  /** Creating a web proxy that passes every check is safe exactly when the path the store normalises once
      more is free too; a plain path sees to that. */
  lemma CreateWebSafeIff(cfg: Config, store: Store, p: Proxy, row: Proxy)
    requires RoutesDistinct(store) && p.ptype.Web? && PassesChecks(cfg, store, UserApi, p, row)
    ensures Safe(cfg, store, Create(UserApi, p)) <==> RouteFree(store, row, row.id)
    ensures PlainPath(PathOf(p)) ==> RouteFree(store, row, row.id)
  {
    NewWebPath(p);
    CreatePlan(cfg, store, UserApi, p, row);
    SafeIffBoth(cfg, store, Create(UserApi, p), store[p.id := row], store);
    PutIsSafeIff(store, row);
    PlainPathSettles(PathOf(p));
    if PlainPath(PathOf(p)) {
      NewRecordFacts(p);
      SettledPathFits(cfg, store, NewRecord(p).value, "");
    }
  }

  /** A web record is safe to create in every store that admits it exactly when its path is plain. */
  lemma CreateWebSafeEverywhereIff(cfg: Config, p: Proxy, row: Proxy)
    requires p.ptype.Web? && PassesChecks(cfg, map[], UserApi, p, row)
    ensures SafeEverywhere(cfg, p, row) <==> PlainPath(PathOf(p))
  {
    NewWebPath(p);
    PlainPathSettles(PathOf(p));
    if PlainPath(PathOf(p)) {
      forall store | RoutesDistinct(store) && PassesChecks(cfg, store, UserApi, p, row) ensures Safe(cfg, store, Create(UserApi, p)) {
        CreateWebSafeIff(cfg, store, p, row);
      }
    } else {
      RowMoves(cfg, NewRecord(p).value, row);
      NewRecordFacts(p);
      var q := row.(id := p.id + "'");
      OneRouteStore(q);
      BesideOneRoute(cfg, p, row, q);
      CreateWebSafeIff(cfg, map[q.id := q], p, row);
    }
  }

  ghost predicate SafeEverywhere(cfg: Config, p: Proxy, row: Proxy) {
    forall store :: RoutesDistinct(store) && PassesChecks(cfg, store, UserApi, p, row) ==> Safe(cfg, store, Create(UserApi, p))
  }

  lemma RowMoves(cfg: Config, r: Proxy, row: Proxy)
    requires r.ptype.Web? && Stored(cfg, r) == Some(row) && !SettledPath(r.pathPrefix)
    ensures row.pathPrefix != r.pathPrefix && row.domainId == r.domainId && row.ptype.Web? && row.clientId == r.clientId
  {
  }

  lemma OneRouteStore(q: Proxy)
    requires q.id != "" && q.ptype.Web? && q.clientId != SYSTEM_CLIENT
    ensures RoutesDistinct(map[q.id := q])
  {
  }

  lemma BesideOneRoute(cfg: Config, p: Proxy, row: Proxy, q: Proxy)
    requires PassesChecks(cfg, map[], UserApi, p, row) && NewRecord(p).value.ptype.Web?
    requires q.id != p.id && q.id != "" && q.status.Enabled? && q.ptype.Web?
    requires q.pathPrefix == row.pathPrefix != NewRecord(p).value.pathPrefix && q.domainId == row.domainId
    ensures PassesChecks(cfg, map[q.id := q], UserApi, p, row) && !RouteFree(map[q.id := q], row, row.id)
  {
    var store := map[q.id := q];
    NewRecordFacts(p);
    assert RouteClash(store[q.id], row, row.id);
    assert RouteFree(store, NewRecord(p).value, "");
  }

  // ---------- updating a web proxy ----------

  /** Updating a web proxy in a way that passes every check is safe exactly when the row it becomes, and the
      row an undo would write, have a free route; settled paths see to that. */
  lemma UpdateWebSafeIff(cfg: Config, store: Store, id: string, fields: Fields, row: Proxy, before: Proxy)
    requires RoutesDistinct(store) && PassesUpdate(cfg, store, UserApi, id, fields, row, before) && store[id].ptype.Web?
    ensures Safe(cfg, store, Update(UserApi, id, fields)) <==> Fits(store, row) && Fits(store, before)
    ensures SettledPath(UpdatedRecord(store[id], fields).value.pathPrefix) ==> Fits(store, row)
    ensures SettledPath(store[id].pathPrefix) ==> Fits(store, before)
  {
    UpdatePlan(cfg, store, UserApi, id, fields, row, before);
    SafeIffBoth(cfg, store, Update(UserApi, id, fields), store[id := row], store[id := before]);
    PutIsSafeIff(store, row);
    PutIsSafeIff(store, before);
    if SettledPath(UpdatedRecord(store[id], fields).value.pathPrefix) {
      SettledPathFits(cfg, store, UpdatedRecord(store[id], fields).value, id);
    }
    if SettledPath(store[id].pathPrefix) {
      OwnRouteFits(store, id, before);
    }
  }

  lemma OwnRouteFits(store: Store, id: string, row: Proxy)
    requires RoutesDistinct(store) && id in store && row.id == id && row.ptype == store[id].ptype && row.status == store[id].status
    requires row.domainId == store[id].domainId && row.pathPrefix == store[id].pathPrefix
    ensures Fits(store, row)
  {
    if row.ptype.Web? && row.status.Enabled? {
      forall x | x in store ensures !RouteClash(store[x], row, id) {
        if x != id { assert !RouteClash(store[x], store[id], id); }
      }
    }
  }

  // ---------- enabling a web proxy ----------

  /** A web proxy is enabled exactly when that keeps routes distinct. */
  lemma EnableIffNoConflict(cfg: Config, store: Store, api: Api, id: string, env: Environment)
    requires RoutesDistinct(store) && Owns(store, api, id) && store[id].ptype.Web?
    ensures PlanEnable(cfg, store, api, id, env).Writes? <==> NoRouteConflict(WithStatus(store, id, Enabled))
  {
    PutIsSafeIff(store, store[id].(status := Enabled));
  }

  // ---------- creating a legacy proxy ----------

  /** Creating a legacy HTTP or HTTPS proxy keeps routes distinct exactly when its host has a domain already,
      for then admission looked, or nothing stands at "/" of the domain made for it. */
  lemma CreateLegacySafeIff(cfg: Config, store: Store, p: Proxy, env: Environment)
    requires RoutesDistinct(store) && PlanCreate(cfg, store, UserApi, p, env).Writes? && env.writeOk && env.reconcileOk
    requires NewRecord(p).value.ptype.HTTP? || NewRecord(p).value.ptype.HTTPS?
    ensures NoRouteConflict(StoreAfter(cfg, store, Create(UserApi, p), env)) <==> env.hostDomain.Some? || NothingAtRoot(store, env.newDomain)
  {
    var r := NewRecord(p).value;
    CreatedRow(cfg, store, UserApi, p, env);
    NewRecordFacts(p);
    LegacyRow(cfg, r, env);
    var row := Inserted(cfg, r, env).value;
    PutIsSafeIff(store, row);
    if env.hostDomain.Some? {
      SameRouteIsFree(store, r.(ptype := Web, domainId := env.hostDomain.value, pathPrefix := "/"), row, "");
    } else {
      FreeIffNothingAtRoot(store, row);
    }
  }

  /** No enabled web proxy has the whole of the domain. */
  ghost predicate NothingAtRoot(store: Store, domain: string) {
    forall id :: id in store ==> !(store[id].status.Enabled? && store[id].ptype.Web? && store[id].domainId == domain && store[id].pathPrefix == "/")
  }

  lemma LegacyRow(cfg: Config, r: Proxy, env: Environment)
    requires (r.ptype.HTTP? || r.ptype.HTTPS?) && r.pathPrefix == "" && r.status.Enabled? && Inserted(cfg, r, env).Some?
    ensures var row := Inserted(cfg, r, env).value;
      && row.ptype.Web? && row.status.Enabled? && row.id == r.id && row.pathPrefix == "/"
      && row.domainId == if env.hostDomain.Some? then env.hostDomain.value else env.newDomain
  {
    RootIsSettled();
  }

  lemma FreeIffNothingAtRoot(store: Store, row: Proxy)
    requires RowsOk(store) && row.id !in store && row.pathPrefix == "/"
    ensures RouteFree(store, row, row.id) <==> NothingAtRoot(store, row.domainId)
  {
    if NothingAtRoot(store, row.domainId) {
      forall id | id in store ensures !RouteClash(store[id], row, row.id) {
      }
    }
    if RouteFree(store, row, row.id) {
      forall id | id in store && store[id].status.Enabled? && store[id].ptype.Web? && store[id].domainId == row.domainId
        ensures store[id].pathPrefix != "/"
      {
        assert !RouteClash(store[id], row, row.id);
      }
    }
  }

  // ---------- inputs that fail ----------

  function WebProxy(id: string, path: string): Proxy {
    Proxy(id, "client", Web, Enabled, "domain", path, "", "", 0, "")
  }

  lemma WebStored(cfg: Config, id: string, path: string)
    requires NormalizeProxyRoutePrefix(path).Some?
    ensures Stored(cfg, WebProxy(id, path)) == Some(WebProxy(id, NormalizeProxyRoutePrefix(path).value))
  {
  }

  lemma WebRecord(id: string, path: string)
    requires path != "" && NormalizeProxyRoutePrefix(path).Some?
    ensures NewRecord(WebProxy(id, path)) == Some(WebProxy(id, NormalizeProxyRoutePrefix(path).value))
  {
    assert TrimSpace("domain") == "domain" by { TrimNothing("domain", IsSpace); }
  }

  lemma WebPasses(cfg: Config, id: string, path: string, once: string, twice: string)
    requires path != "" && TrimSpace(id) != ""
    requires NormalizeProxyRoutePrefix(path) == Some(once) && NormalizeProxyRoutePrefix(once) == Some(twice)
    ensures NewRecord(WebProxy(id, path)) == Some(WebProxy(id, once))
    ensures PassesChecks(cfg, map[], UserApi, WebProxy(id, path), WebProxy(id, twice))
  {
    WebRecord(id, path);
    WebStored(cfg, id, once);
    assert TrimSpace("") == "";
  }

  /** "/a /" is admitted beside "/a", and stored as "/a". */
  lemma CreateWebCanConflict(cfg: Config)
    ensures var store := map["w" := WebProxy("w", "/a")];
      RoutesDistinct(store) && !Safe(cfg, store, Create(UserApi, WebProxy("v", "/a /")))
  {
    var p, row, q := WebProxy("v", "/a /"), WebProxy("v", "/a"), WebProxy("w", "/a");
    SpaceBeforeSlash();
    TrimNothing("v", IsSpace);
    WebPasses(cfg, "v", "/a /", "/a ", "/a");
    OneRouteStore(q);
    BesideOneRoute(cfg, p, row, q);
    CreateWebSafeIff(cfg, map["w" := q], p, row);
  }

  /** The same by an update, from "/" to "/a /". */
  lemma UpdateWebCanConflict(cfg: Config)
    ensures var store := map["v" := WebProxy("v", "/"), "w" := WebProxy("w", "/a")];
      RoutesDistinct(store) && !Safe(cfg, store, Update(UserApi, "v", Fields("", "", 0, None, Some("/a /"), "")))
  {
    var p, q := WebProxy("v", "/"), WebProxy("w", "/a");
    SpaceBeforeSlash();
    RootIsSettled();
    WebStored(cfg, "v", "/");
    WebStored(cfg, "v", "/a ");
    assert TrimSpace("") == "";
    assert TrimSpace("/a /") == "/a /" by { TrimNothing("/a /", IsSpace); }
    UpdateMeetsRoute(cfg, p, q, Fields("", "", 0, None, Some("/a /"), ""), WebProxy("v", "/a "), WebProxy("v", "/a"));
  }

  lemma UpdatedWebKeeps(cfg: Config, p: Proxy, fields: Fields, r: Proxy, row: Proxy)
    requires p.ptype.Web? && UpdatedRecord(p, fields) == Some(r) && Stored(cfg, r) == Some(row)
    ensures r.id == row.id == p.id && r.ptype.Web? && row.ptype.Web? && r.status == row.status == p.status
    ensures r.clientId == p.clientId && r.domainId == row.domainId
  {
  }

  lemma UpdateMeetsRoute(cfg: Config, p: Proxy, q: Proxy, fields: Fields, r: Proxy, row: Proxy)
    requires p.id != "" && q.id != "" && p.id != q.id && p.ptype.Web? && q.ptype.Web? && q.status.Enabled? && p.status.Enabled?
    requires p.clientId != SYSTEM_CLIENT && q.clientId != SYSTEM_CLIENT && Accepts(cfg, UserApi, r)
    requires UpdatedRecord(p, fields) == Some(r) && Stored(cfg, r) == Some(row) && AsStored(cfg, p)
    requires p.pathPrefix != q.pathPrefix && r.pathPrefix != q.pathPrefix && row.pathPrefix == q.pathPrefix && row.domainId == q.domainId
    ensures RoutesDistinct(map[p.id := p, q.id := q]) && !Safe(cfg, map[p.id := p, q.id := q], Update(UserApi, p.id, fields))
  {
    var store := map[p.id := p, q.id := q];
    UpdatedWebKeeps(cfg, p, fields, r, row);
    assert RouteFree(store, r, p.id);
    assert store[q.id] == q && RouteClash(store[q.id], row, row.id);
    UpdateWebSafeIff(cfg, store, p.id, fields, row, p);
  }
}
