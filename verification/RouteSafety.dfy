/** Which runs of the services keep the web routes of a domain distinct. */
module RouteSafety {
  import opened Options
  import opened Text
  import opened Hosts
  import opened Paths
  import opened Listeners
  import opened Admission
  import opened ProxyWrites

  /** No two enabled web proxies of a domain have the same path prefix. */
  ghost predicate NoRouteConflict(store: Store) {
    forall x, y :: x in store && y in store && x != y && store[x].status.Enabled? && store[x].ptype.Web? ==> !RouteClash(store[y], store[x], x)
  }

  predicate SettledPath(path: string) {
    NormalizeProxyRoutePrefix(path) == Some(path)
  }

  ghost predicate PathsSettled(store: Store) {
    forall id :: id in store && store[id].ptype.Web? ==> SettledPath(store[id].pathPrefix)
  }

  ghost predicate RoutesOk(store: Store) {
    RowsOk(store) && PathsSettled(store) && NoRouteConflict(store)
  }

  /** What a caller has to see to: the path of a web proxy settles at once, and a domain made for a legacy
      proxy gets an id no proxy has. */
  ghost predicate RouteCare(store: Store, op: Op, env: Environment) {
    match op
    case Create(_, p) =>
      NewRecord(p).Some? ==>
        var r := NewRecord(p).value;
        && (r.ptype.Web? ==> SettledPath(r.pathPrefix))
        && (r.ptype.IsWeb() && !r.ptype.Web? && env.hostDomain.None? ==> DomainUnused(store, env.newDomain))
    case Update(_, _, fields) =>
      fields.path.Some? && NormalizeProxyRoutePrefix(fields.path.value).Some? ==> SettledPath(NormalizeProxyRoutePrefix(fields.path.value).value)
    case _ => true
  }

  ghost predicate DomainUnused(store: Store, domain: string) {
    forall id :: id in store ==> store[id].domainId != domain
  }

  // ---------- one row changes ----------

  ghost predicate MayRoute(store: Store, row: Proxy) {
    row.ptype.Web? ==> SettledPath(row.pathPrefix) && (row.status.Enabled? ==> RouteFree(store, row, row.id))
  }

  /** Writing one row keeps routes distinct exactly when its route was free. */
  lemma PutIsSafeIff(store: Store, row: Proxy)
    requires RowsOk(store) && NoRouteConflict(store)
    ensures NoRouteConflict(store[row.id := row]) <==> (row.ptype.Web? && row.status.Enabled? ==> RouteFree(store, row, row.id))
  {
    var store' := store[row.id := row];
    if row.ptype.Web? && row.status.Enabled? ==> RouteFree(store, row, row.id) {
      FreeRouteFits(store, row);
    } else {
      var x :| x in store && RouteClash(store[x], row, row.id);
      assert store'[x] == store[x] && store'[row.id] == row;
    }
  }

  lemma FreeRouteFits(store: Store, row: Proxy)
    requires RowsOk(store) && NoRouteConflict(store)
    requires row.ptype.Web? && row.status.Enabled? ==> RouteFree(store, row, row.id)
    ensures NoRouteConflict(store[row.id := row])
  {
    var store' := store[row.id := row];
    forall x, y | x in store' && y in store' && x != y && store'[x].status.Enabled? && store'[x].ptype.Web?
      ensures !RouteClash(store'[y], store'[x], x)
    {
      if x != row.id && y == row.id {
        ClashIsMutual(store[x], row);
      }
    }
  }

  lemma ClashIsMutual(p: Proxy, q: Proxy)
    requires p.status.Enabled? && p.ptype.Web?
    ensures RouteClash(q, p, p.id) ==> RouteClash(p, q, q.id)
  {
  }

  lemma PutKeepsRoutes(store: Store, row: Proxy)
    requires RoutesOk(store) && MayRoute(store, row)
    ensures PathsSettled(store[row.id := row]) && NoRouteConflict(store[row.id := row])
  {
    PutIsSafeIff(store, row);
  }

  lemma SameRouteIsFree(store: Store, p: Proxy, row: Proxy, ignoreId: string)
    requires RouteFree(store, p, ignoreId) && row.domainId == p.domainId && row.pathPrefix == p.pathPrefix
    requires RowsOk(store) && (ignoreId == row.id || (ignoreId == "" && row.id !in store))
    ensures RouteFree(store, row, row.id)
  {
    forall id | id in store ensures !RouteClash(store[id], row, row.id) {
      assert !RouteClash(store[id], p, ignoreId);
    }
  }

  /** An admitted web record with a settled path may become a row. */
  lemma AdmittedMayRoute(cfg: Config, store: Store, r: Proxy, hostDomain: Option<string>, ignoreId: string)
    requires RowsOk(store) && r.ptype.Web? && SettledPath(r.pathPrefix)
    requires Admitted(cfg, store, r, hostDomain, ignoreId) && (ignoreId == r.id || (ignoreId == "" && r.id !in store))
    ensures MayRoute(store, Stored(cfg, r).value)
  {
    if r.status.Enabled? {
      SameRouteIsFree(store, r, Stored(cfg, r).value, ignoreId);
    }
  }

  // ---------- operations ----------

  lemma RootIsSettled()
    ensures SettledPath("/")
  {
    assert TrimSpace("/") == "/";
    assert "/"[1..] == "" && !Contains("", "//") && !Contains("/", "//");
  }

  lemma LegacyRowMayRoute(cfg: Config, store: Store, r: Proxy, env: Environment)
    requires RowsOk(store) && r.id !in store && r.pathPrefix == "" && r.status.Enabled?
    requires (r.ptype.HTTP? || r.ptype.HTTPS?) && Admitted(cfg, store, r, env.hostDomain, "") && Inserted(cfg, r, env).Some?
    requires env.hostDomain.None? ==> DomainUnused(store, env.newDomain)
    ensures Inserted(cfg, r, env).value.id == r.id && MayRoute(store, Inserted(cfg, r, env).value)
  {
    RootIsSettled();
    var row := Inserted(cfg, r, env).value;
    if env.hostDomain.Some? {
      SameRouteIsFree(store, r.(ptype := Web, domainId := env.hostDomain.value, pathPrefix := "/"), row, "");
    }
  }

  lemma CreateKeepsRoutes(cfg: Config, store: Store, api: Api, p: Proxy, env: Environment)
    requires RoutesOk(store) && RouteCare(store, Create(api, p), env)
    ensures RoutesOk(StoreAfter(cfg, store, Create(api, p), env))
  {
    OpKeepsRowsOk(cfg, store, Create(api, p), env);
    if PlanCreate(cfg, store, api, p, env).Writes? {
      CreatedRow(cfg, store, api, p, env);
      var r := NewRecord(p).value;
      if r.ptype.Web? {
        AdmittedMayRoute(cfg, store, r, env.hostDomain, "");
      } else if r.ptype.IsWeb() {
        LegacyRowMayRoute(cfg, store, r, env);
      }
      PutKeepsRoutes(store, Inserted(cfg, r, env).value);
    }
  }

  lemma UpdateKeepsRoutes(cfg: Config, store: Store, api: Api, id: string, fields: Fields, env: Environment)
    requires RoutesOk(store) && RouteCare(store, Update(api, id, fields), env)
    ensures RoutesOk(StoreAfter(cfg, store, Update(api, id, fields), env))
  {
    OpKeepsRowsOk(cfg, store, Update(api, id, fields), env);
    if PlanUpdate(cfg, store, api, id, fields, env).Writes? {
      UpdatedRow(cfg, store, api, id, fields, env);
      var r := UpdatedRecord(store[id], fields).value;
      if r.ptype.Web? {
        AdmittedMayRoute(cfg, store, r, env.hostDomain, id);
        SameRowMayRoute(store, id, Stored(cfg, store[id]).value);
      }
      PutKeepsRoutes(store, Stored(cfg, r).value);
      PutKeepsRoutes(store, Stored(cfg, store[id]).value);
    }
  }

  lemma SameRowMayRoute(store: Store, id: string, row: Proxy)
    requires RoutesOk(store) && id in store && row.id == id && row.ptype == store[id].ptype && row.status == store[id].status
    requires row.domainId == store[id].domainId && row.pathPrefix == store[id].pathPrefix
    ensures MayRoute(store, row)
  {
    if row.ptype.Web? && row.status.Enabled? {
      forall x | x in store ensures !RouteClash(store[x], row, id) {
        if x != id { assert !RouteClash(store[x], store[id], id); }
      }
    }
  }

  lemma StatusKeepsRoutes(cfg: Config, store: Store, id: string, status: ProxyStatus, hostDomain: Option<string>)
    requires RoutesOk(store) && id in store
    requires status.Enabled? && store[id].ptype.Web? ==> Admitted(cfg, store, store[id].(status := status), hostDomain, id)
    ensures PathsSettled(WithStatus(store, id, status)) && NoRouteConflict(WithStatus(store, id, status))
  {
    PutKeepsRoutes(store, store[id].(status := status));
  }

  lemma OpKeepsRoutes(cfg: Config, store: Store, op: Op, env: Environment)
    requires RoutesOk(store) && RouteCare(store, op, env)
    ensures RoutesOk(StoreAfter(cfg, store, op, env))
  {
    match op
    case Create(api, p) => CreateKeepsRoutes(cfg, store, api, p, env);
    case Update(api, id, fields) => UpdateKeepsRoutes(cfg, store, api, id, fields, env);
    case Enable(api, id) => StatusOpKeepsRoutes(cfg, store, op, env);
    case Disable(api, id) => StatusOpKeepsRoutes(cfg, store, op, env);
    case Delete(_, _) =>
  }

  lemma StatusOpKeepsRoutes(cfg: Config, store: Store, op: Op, env: Environment)
    requires RoutesOk(store) && (op.Enable? || op.Disable?)
    ensures RoutesOk(StoreAfter(cfg, store, op, env))
  {
    OpKeepsRowsOk(cfg, store, op, env);
    if PlanOf(cfg, store, op, env).Writes? {
      var id := TargetOf(op);
      StatusKeepsRoutes(cfg, store, id, Disabled, env.hostDomain);
      if op.Enable? || op.api == LocalApi {
        StatusKeepsRoutes(cfg, store, id, Enabled, env.hostDomain);
      }
    }
  }

  // ---------- runs ----------

  ghost predicate AllRouteCare(cfg: Config, store: Store, run: seq<(Op, Environment)>)
    decreases |run|
  {
    run == [] || (RouteCare(store, run[0].0, run[0].1) && AllRouteCare(cfg, StoreAfter(cfg, store, run[0].0, run[0].1), run[1..]))
  }

  lemma {:induction false} RunKeepsRoutes(cfg: Config, store: Store, run: seq<(Op, Environment)>)
    requires RoutesOk(store) && AllRouteCare(cfg, store, run)
    ensures RoutesOk(RunOps(cfg, store, run))
    decreases |run|
  {
    if run != [] {
      OpKeepsRoutes(cfg, store, run[0].0, run[0].1);
      RunKeepsRoutes(cfg, StoreAfter(cfg, store, run[0].0, run[0].1), run[1..]);
    }
  }

  /** From an empty store, after any sequential run of operations with any failures, no two enabled web
      proxies of a domain share a path. */
  lemma RunsHaveNoRouteConflict(cfg: Config, run: seq<(Op, Environment)>)
    requires AllRouteCare(cfg, map[], run)
    ensures NoRouteConflict(RunOps(cfg, map[], run))
  {
    RunKeepsRoutes(cfg, map[], run);
  }
}
