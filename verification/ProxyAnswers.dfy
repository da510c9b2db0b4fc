/** What a caller of the proxy services may count on: which creates and updates go through, and that each
    operation can be taken back. */
module ProxyAnswers {
  import opened Options
  import opened Text
  import opened Hosts
  import opened Paths
  import opened Listeners
  import opened Admission
  import opened ProxyWrites
  import L = ListenerSafety
  import R = RouteSafety

  /** The store is in order, and has no conflict between listeners or routes. */
  ghost predicate NoConflict(cfg: Config, store: Store) {
    RowsOk(store) && L.NoListenerConflict(cfg, store) && R.NoRouteConflict(store)
  }

  /** `api` may have a proxy of `clientId`; server-local proxies are the local API's. */
  predicate MayHave(api: Api, clientId: string) {
    clientId == SYSTEM_CLIENT <==> api == LocalApi
  }

  /** `api` takes this host and port for a listener. */
  predicate TakesListener(cfg: Config, api: Api, host: string, port: int) {
    match api
    case UserApi => ValidBindHost(cfg.ip, host) && 1 <= port <= 65535
    case LocalApi => 0 <= port <= 65535
  }

  // ---------- what goes through ----------

  /** A new TCP or UDP proxy goes through exactly when its id is new, the API may have it, host and port are
      taken, and enabling it beside what is in the store makes no conflict. */
  lemma ListenerCreateIff(cfg: Config, store: Store, api: Api, p: Proxy, env: Environment)
    requires NoConflict(cfg, store) && p.ptype.HasListener()
    ensures PlanCreate(cfg, store, api, p, env).Writes? <==>
      && env.inputOk && TrimSpace(p.id) != "" && p.id !in store
      && MayHave(api, p.clientId) && TakesListener(cfg, api, p.entryBindHost, p.entryPort)
      && L.NoListenerConflict(cfg, store[p.id := p.(status := Enabled)])
  {
    L.PutIsSafeIff(cfg, store, p.(status := Enabled));
    var r := NewRecord(p).value;
    assert ClaimOf(cfg, r) == ClaimOf(cfg, p.(status := Enabled));
    if p.id !in store {
      IgnoresNobody(cfg, store, r);
    }
  }

  lemma IgnoresNobody(cfg: Config, store: Store, r: Proxy)
    requires RowsOk(store) && r.id !in store
    ensures Admitted(cfg, store, r, None, "") <==> Admitted(cfg, store, r, None, r.id)
  {
  }

  /** A TCP or UDP proxy is updated exactly when the API may have it, the new host and port are taken, and
      putting them into the row makes no conflict. */
  lemma ListenerUpdateIff(cfg: Config, store: Store, api: Api, id: string, fields: Fields, env: Environment)
    requires NoConflict(cfg, store) && id in store && store[id].ptype.HasListener()
    ensures PlanUpdate(cfg, store, api, id, fields, env).Writes? <==>
      && env.inputOk && MayHave(api, store[id].clientId) && TakesListener(cfg, api, fields.bindHost, fields.port)
      && L.NoListenerConflict(cfg, store[id := store[id].(entryBindHost := fields.bindHost, entryPort := fields.port)])
  {
    var row := store[id].(entryBindHost := fields.bindHost, entryPort := fields.port);
    L.PutIsSafeIff(cfg, store, row);
    var r := UpdatedRecord(store[id], fields).value;
    assert ClaimOf(cfg, r) == ClaimOf(cfg, row);
  }

  function PathAsked(p: Proxy): string {
    if p.pathPrefix == "" then "/" else p.pathPrefix
  }

  /** A new web proxy goes through exactly when its id is new, it is a user's, it names a domain and an
      acceptable path, and no enabled proxy of the domain has that path. */
  lemma WebCreateIff(cfg: Config, store: Store, api: Api, p: Proxy, env: Environment)
    requires NoConflict(cfg, store) && p.ptype.Web?
    ensures PlanCreate(cfg, store, api, p, env).Writes? <==>
      && env.inputOk && TrimSpace(p.id) != "" && p.id !in store && api == UserApi && p.clientId != SYSTEM_CLIENT
      && TrimSpace(p.domainId) != ""
      && var path := NormalizeProxyRoutePrefix(PathAsked(p));
         path.Some? && R.NoRouteConflict(store[p.id := p.(status := Enabled, pathPrefix := path.value)])
  {
    var path := NormalizeProxyRoutePrefix(PathAsked(p));
    if path.Some? && TrimSpace(p.domainId) != "" && p.id !in store {
      var r := NewRecord(p).value;
      NormalAgain(PathAsked(p));
      BlankHostIsAccepted(cfg.ip);
      R.PutIsSafeIff(store, p.(status := Enabled, pathPrefix := path.value));
      IgnoresNobody(cfg, store, r);
      assert RouteFree(store, r, p.id) <==> RouteFree(store, p.(status := Enabled, pathPrefix := path.value), p.id);
    }
  }

  lemma BlankHostIsAccepted(ip: IpRules)
    ensures ValidBindHost(ip, "")
  {
  }

  /** A normal form is accepted again. */
  lemma NormalAgain(value: string)
    requires NormalizeProxyRoutePrefix(value).Some?
    ensures NormalizeProxyRoutePrefix(NormalizeProxyRoutePrefix(value).value).Some?
  {
    var r := NormalizeProxyRoutePrefix(value).value;
    NormalIsCanonical(value);
    BadPrefixIff(r);
    var k := TrimLeftFrom(r, IsSpace);
    var n := TrimRightTo(TrimLeft(r, IsSpace), IsSpace);
    assert TrimSpace(r) == r[..n] && n > 0;
    BadPrefixIff(r[..n]);
  }

  // ---------- what can be taken back ----------

  predicate AllWell(env: Environment) {
    env.inputOk && env.writeOk && env.reconcileOk
  }

  /** Enabling a proxy that was disabled gives the store back as it was: an enabled proxy can always be
      disabled by its own API, and nothing stands in the way of enabling it again. */
  lemma DisableThenEnable(cfg: Config, store: Store, api: Api, id: string, env: Environment, env': Environment)
    requires NoConflict(cfg, store) && id in store && MayHave(api, store[id].clientId)
    requires store[id].status.Enabled? && !store[id].ptype.Forward? && AllWell(env) && AllWell(env')
    ensures var disabled := StoreAfter(cfg, store, Disable(api, id), env);
      && disabled == store[id := store[id].(status := Disabled)]
      && PlanOf(cfg, disabled, Enable(api, id), env').Writes?
      && StoreAfter(cfg, disabled, Enable(api, id), env') == store
  {
    var p := store[id];
    var disabled := StoreAfter(cfg, store, Disable(api, id), env);
    assert disabled == store[id := p.(status := Disabled)];
    assert p.(status := Disabled).(status := Enabled) == p;
    StaysAdmitted(cfg, store, id, env'.hostDomain);
    assert disabled[id := p] == store;
  }

  /** An enabled row is admitted beside the others. */
  lemma StaysAdmitted(cfg: Config, store: Store, id: string, hostDomain: Option<string>)
    requires NoConflict(cfg, store) && id in store && store[id].status.Enabled?
    ensures Admitted(cfg, store[id := store[id].(status := Disabled)], store[id], hostDomain, id)
  {
    var p := store[id];
    assert store[id := p] == store;
    L.PutIsSafeIff(cfg, store, p);
    R.PutIsSafeIff(store, p);
  }

  /** A proxy can be disabled and then deleted by its own API, and then nothing else has changed. */
  lemma DisableThenDelete(cfg: Config, store: Store, api: Api, id: string, env: Environment, env': Environment)
    requires id in store && MayHave(api, store[id].clientId) && AllWell(env) && AllWell(env')
    ensures StoreAfter(cfg, StoreAfter(cfg, store, Disable(api, id), env), Delete(api, id), env') == store - {id}
  {
    var disabled := store[id := store[id].(status := Disabled)];
    assert StoreAfter(cfg, store, Disable(api, id), env) == disabled;
    assert StoreAfter(cfg, disabled, Delete(api, id), env') == disabled - {id};
  }

  /** Creating a proxy, disabling it and deleting it gives the store back as it was. */
  lemma CreateThenRemove(cfg: Config, store: Store, api: Api, p: Proxy, env: Environment, env': Environment, env'': Environment)
    requires RowsOk(store) && PlanOf(cfg, store, Create(api, p), env).Writes?
    requires AllWell(env) && AllWell(env') && AllWell(env'')
    ensures var created := StoreAfter(cfg, store, Create(api, p), env);
      StoreAfter(cfg, StoreAfter(cfg, created, Disable(api, p.id), env'), Delete(api, p.id), env'') == store
  {
    var created := StoreAfter(cfg, store, Create(api, p), env);
    SuccessIsDone(cfg, store, Create(api, p), env);
    CreatedRow(cfg, store, api, p, env);
    DisableThenDelete(cfg, created, api, p.id, env', env'');
    assert created - {p.id} == store;
  }

  /** An enabled proxy cannot be deleted, by either API, and neither can one of the other API. */
  lemma OnlyOwnDisabledAreDeleted(cfg: Config, store: Store, api: Api, id: string, env: Environment)
    requires id in store && AllWell(env)
    ensures id !in StoreAfter(cfg, store, Delete(api, id), env) <==> store[id].status.Disabled? && MayHave(api, store[id].clientId)
  {
  }
}
