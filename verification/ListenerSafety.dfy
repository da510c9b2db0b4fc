/**
 Which runs of the services keep every TCP and UDP listener to one proxy. Through the user API nothing is
 asked of the caller; through the local API, that hosts are settled and that no disable is undone which
 could not be.
 */
module ListenerSafety {
  import opened Options
  import opened Hosts
  import opened Listeners
  import opened Admission
  import opened ProxyWrites

  predicate Listening(cfg: Config, p: Proxy) {
    p.status.Enabled? && p.ptype.HasListener() && ClaimOf(cfg, p).Some?
  }

  /** No enabled TCP or UDP proxy conflicts with another or with a fixed listener. */
  ghost predicate NoListenerConflict(cfg: Config, store: Store) {
    && (forall x, c :: x in store && Listening(cfg, store[x]) && c in cfg.fixedClaims ==> !Conflicts(cfg.ip, c, ClaimOf(cfg, store[x]).value))
    && (forall x, y :: x in store && y in store && x != y && Listening(cfg, store[x]) && Listening(cfg, store[y])
          ==> !Conflicts(cfg.ip, ClaimOf(cfg, store[x]).value, ClaimOf(cfg, store[y]).value))
  }

  /** Rows other than web proxies would be written back as they are. */
  ghost predicate HostsSettled(cfg: Config, store: Store) {
    forall id :: id in store && !store[id].ptype.Web? ==> AsStored(cfg, store[id])
  }

  ghost predicate ListenersOk(cfg: Config, store: Store) {
    RowsOk(store) && HostsSettled(cfg, store) && NoListenerConflict(cfg, store)
  }

  ghost predicate CanStayEnabled(cfg: Config, store: Store, id: string)
    requires id in store
  {
    store[id].status.Enabled? || Admitted(cfg, store, store[id].(status := Enabled), None, id)
  }

  /** What a caller has to see to, and only through the local API: a host is settled, and a disable that is
      undone was of a proxy that is enabled or could be. */
  ghost predicate ListenerCare(cfg: Config, store: Store, op: Op, env: Environment) {
    op.api == LocalApi ==>
    match op
    case Create(_, p) => SettledHost(cfg.ip, p.entryBindHost)
    case Update(_, _, fields) => SettledHost(cfg.ip, fields.bindHost)
    case Disable(api, id) => Owns(store, api, id) && env.writeOk && !env.reconcileOk && env.undoOk ==> CanStayEnabled(cfg, store, id)
    case Enable(_, _) => true
    case Delete(_, _) => true
  }

  // ---------- one row changes ----------

  ghost predicate MayListen(cfg: Config, store: Store, row: Proxy) {
    && (!row.ptype.Web? ==> AsStored(cfg, row))
    && (Listening(cfg, row) ==> ClaimFree(cfg, store, ClaimOf(cfg, row).value, row.id))
  }

  /** Writing one row leaves listeners free of conflict exactly when its claim was free. */
  lemma PutIsSafeIff(cfg: Config, store: Store, row: Proxy)
    requires RowsOk(store) && NoListenerConflict(cfg, store)
    ensures NoListenerConflict(cfg, store[row.id := row]) <==> (Listening(cfg, row) ==> ClaimFree(cfg, store, ClaimOf(cfg, row).value, row.id))
  {
    if Listening(cfg, row) ==> ClaimFree(cfg, store, ClaimOf(cfg, row).value, row.id) {
      FreeClaimFits(cfg, store, row);
    }
    if Listening(cfg, row) && NoListenerConflict(cfg, store[row.id := row]) {
      FittingClaimIsFree(cfg, store, row);
    }
  }

  lemma FreeClaimFits(cfg: Config, store: Store, row: Proxy)
    requires NoListenerConflict(cfg, store)
    requires Listening(cfg, row) ==> ClaimFree(cfg, store, ClaimOf(cfg, row).value, row.id)
    ensures NoListenerConflict(cfg, store[row.id := row])
  {
    var store' := store[row.id := row];
    forall x, y | x in store' && y in store' && x != y && Listening(cfg, store'[x]) && Listening(cfg, store'[y])
      ensures !Conflicts(cfg.ip, ClaimOf(cfg, store'[x]).value, ClaimOf(cfg, store'[y]).value)
    {
      ConflictsIsSymmetric(cfg.ip, ClaimOf(cfg, store'[x]).value, ClaimOf(cfg, store'[y]).value);
    }
  }

  lemma FittingClaimIsFree(cfg: Config, store: Store, row: Proxy)
    requires RowsOk(store) && Listening(cfg, row) && NoListenerConflict(cfg, store[row.id := row])
    ensures ClaimFree(cfg, store, ClaimOf(cfg, row).value, row.id)
  {
    var store' := store[row.id := row];
    assert row.id in store' && store'[row.id] == row;
    forall x | x in store && x != row.id && store[x].status.Enabled? && ClaimOf(cfg, store[x]).Some?
      ensures !Conflicts(cfg.ip, ClaimOf(cfg, store[x]).value, ClaimOf(cfg, row).value)
    {
      assert x in store' && store'[x] == store[x];
      ClaimantListens(cfg, store[x]);
    }
  }

  lemma ClaimantListens(cfg: Config, p: Proxy)
    requires p.status.Enabled? && !p.ptype.HTTP? && !p.ptype.HTTPS? && ClaimOf(cfg, p).Some?
    ensures Listening(cfg, p)
  {
  }

  lemma PutKeepsListeners(cfg: Config, store: Store, row: Proxy)
    requires ListenersOk(cfg, store) && MayListen(cfg, store, row)
    ensures HostsSettled(cfg, store[row.id := row]) && NoListenerConflict(cfg, store[row.id := row])
  {
    PutIsSafeIff(cfg, store, row);
  }

  /** The row of a settled record claims what the record claims, and is stored as it is. */
  lemma RowOfSettledHost(cfg: Config, r: Proxy)
    requires r.ptype.HasListener() && SettledHost(cfg.ip, r.entryBindHost)
    ensures var row := Stored(cfg, r).value;
      && AsStored(cfg, row) && row.id == r.id && row.status == r.status && row.ptype == r.ptype
      && ClaimOf(cfg, row) == ClaimOf(cfg, r)
  {
  }

  /** An admitted record with a settled host may become a row. */
  lemma AdmittedMayListen(cfg: Config, store: Store, api: Api, r: Proxy, hostDomain: Option<string>, ignoreId: string)
    requires Lawful(cfg.ip) && RowsOk(store) && r.ptype.HasListener() && Accepts(cfg, api, r)
    requires api == LocalApi ==> SettledHost(cfg.ip, r.entryBindHost)
    requires Admitted(cfg, store, r, hostDomain, ignoreId) && (ignoreId == r.id || (ignoreId == "" && r.id !in store))
    ensures MayListen(cfg, store, Stored(cfg, r).value)
  {
    if api == UserApi {
      AcceptedHostsAreSettled(cfg.ip, r.entryBindHost);
    }
    RowOfSettledHost(cfg, r);
  }

  // ---------- operations ----------

  lemma CreateKeepsListeners(cfg: Config, store: Store, api: Api, p: Proxy, env: Environment)
    requires Lawful(cfg.ip) && ListenersOk(cfg, store) && ListenerCare(cfg, store, Create(api, p), env)
    ensures ListenersOk(cfg, StoreAfter(cfg, store, Create(api, p), env))
  {
    OpKeepsRowsOk(cfg, store, Create(api, p), env);
    if PlanCreate(cfg, store, api, p, env).Writes? {
      CreatedRow(cfg, store, api, p, env);
      var r := NewRecord(p).value;
      NewRecordFacts(p);
      InsertedFacts(cfg, r, env);
      if r.ptype.HasListener() {
        AdmittedMayListen(cfg, store, api, r, env.hostDomain, "");
      }
      PutKeepsListeners(cfg, store, Inserted(cfg, r, env).value);
    }
  }

  /** The row an undone update writes: the old one, or another web row. */
  lemma UndoneRowMayListen(cfg: Config, store: Store, id: string)
    requires ListenersOk(cfg, store) && id in store && Stored(cfg, store[id]).Some?
    ensures var store' := store[id := Stored(cfg, store[id]).value]; HostsSettled(cfg, store') && NoListenerConflict(cfg, store')
  {
    if store[id].ptype.Web? {
      PutKeepsListeners(cfg, store, Stored(cfg, store[id]).value);
    } else {
      assert AsStored(cfg, store[id]) && store[id := store[id]] == store;
    }
  }

  lemma UpdateKeepsListeners(cfg: Config, store: Store, api: Api, id: string, fields: Fields, env: Environment)
    requires Lawful(cfg.ip) && ListenersOk(cfg, store) && ListenerCare(cfg, store, Update(api, id, fields), env)
    ensures ListenersOk(cfg, StoreAfter(cfg, store, Update(api, id, fields), env))
  {
    OpKeepsRowsOk(cfg, store, Update(api, id, fields), env);
    var plan := PlanUpdate(cfg, store, api, id, fields, env);
    if plan.Writes? {
      UpdatedRow(cfg, store, api, id, fields, env);
      var r := UpdatedRecord(store[id], fields).value;
      if r.ptype.HasListener() {
        AdmittedMayListen(cfg, store, api, r, env.hostDomain, id);
      }
      PutKeepsListeners(cfg, store, Stored(cfg, r).value);
      if Stored(cfg, store[id]).Some? {
        UndoneRowMayListen(cfg, store, id);
      }
    }
  }

  lemma StatusKeepsListeners(cfg: Config, store: Store, id: string, status: ProxyStatus, hostDomain: Option<string>)
    requires ListenersOk(cfg, store) && id in store
    requires status.Enabled? ==> Admitted(cfg, store, store[id].(status := status), hostDomain, id)
    ensures HostsSettled(cfg, WithStatus(store, id, status)) && NoListenerConflict(cfg, WithStatus(store, id, status))
  {
    var row := store[id].(status := status);
    assert AsStored(cfg, store[id]) ==> AsStored(cfg, row);
    PutKeepsListeners(cfg, store, row);
  }

  lemma EnableKeepsListeners(cfg: Config, store: Store, api: Api, id: string, env: Environment)
    requires ListenersOk(cfg, store)
    ensures ListenersOk(cfg, StoreAfter(cfg, store, Enable(api, id), env))
  {
    OpKeepsRowsOk(cfg, store, Enable(api, id), env);
    if PlanEnable(cfg, store, api, id, env).Writes? {
      StatusKeepsListeners(cfg, store, id, Enabled, env.hostDomain);
      StatusKeepsListeners(cfg, store, id, Disabled, env.hostDomain);
    }
  }

  lemma DisableKeepsListeners(cfg: Config, store: Store, api: Api, id: string, env: Environment)
    requires ListenersOk(cfg, store) && ListenerCare(cfg, store, Disable(api, id), env)
    ensures ListenersOk(cfg, StoreAfter(cfg, store, Disable(api, id), env))
  {
    OpKeepsRowsOk(cfg, store, Disable(api, id), env);
    if PlanDisable(store, api, id).Writes? {
      StatusKeepsListeners(cfg, store, id, Disabled, None);
      if api == LocalApi && env.writeOk && !env.reconcileOk && env.undoOk {
        if store[id].status.Enabled? {
          assert WithStatus(store, id, Enabled) == store;
        } else {
          StatusKeepsListeners(cfg, store, id, Enabled, None);
        }
      }
    }
  }

  lemma OpKeepsListeners(cfg: Config, store: Store, op: Op, env: Environment)
    requires Lawful(cfg.ip) && ListenersOk(cfg, store) && ListenerCare(cfg, store, op, env)
    ensures ListenersOk(cfg, StoreAfter(cfg, store, op, env))
  {
    match op
    case Create(api, p) => CreateKeepsListeners(cfg, store, api, p, env);
    case Update(api, id, fields) => UpdateKeepsListeners(cfg, store, api, id, fields, env);
    case Enable(api, id) => EnableKeepsListeners(cfg, store, api, id, env);
    case Disable(api, id) => DisableKeepsListeners(cfg, store, api, id, env);
    case Delete(_, _) =>
  }

  // ---------- runs ----------

  ghost predicate AllListenerCare(cfg: Config, store: Store, run: seq<(Op, Environment)>)
    decreases |run|
  {
    run == [] || (ListenerCare(cfg, store, run[0].0, run[0].1) && AllListenerCare(cfg, StoreAfter(cfg, store, run[0].0, run[0].1), run[1..]))
  }

  lemma {:induction false} RunKeepsListeners(cfg: Config, store: Store, run: seq<(Op, Environment)>)
    requires Lawful(cfg.ip) && ListenersOk(cfg, store) && AllListenerCare(cfg, store, run)
    ensures ListenersOk(cfg, RunOps(cfg, store, run))
    decreases |run|
  {
    if run != [] {
      OpKeepsListeners(cfg, store, run[0].0, run[0].1);
      RunKeepsListeners(cfg, StoreAfter(cfg, store, run[0].0, run[0].1), run[1..]);
    }
  }

  /** From an empty store, after any sequential run of operations with any failures: no two enabled TCP or
      UDP proxies conflict, and none conflicts with a fixed listener. */
  lemma RunsHaveNoListenerConflict(cfg: Config, run: seq<(Op, Environment)>)
    requires Lawful(cfg.ip) && AllListenerCare(cfg, map[], run)
    ensures NoListenerConflict(cfg, RunOps(cfg, map[], run))
  {
    RunKeepsListeners(cfg, map[], run);
  }

  /** Through the user API alone there is nothing to see to. */
  lemma {:induction false} UserRunsNeedNoCare(cfg: Config, store: Store, run: seq<(Op, Environment)>)
    requires forall i :: 0 <= i < |run| ==> run[i].0.api == UserApi
    ensures AllListenerCare(cfg, store, run)
    decreases |run|
  {
    if run != [] {
      UserRunsNeedNoCare(cfg, StoreAfter(cfg, store, run[0].0, run[0].1), run[1..]);
    }
  }
}
