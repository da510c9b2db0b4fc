/** The proxy services: the store, the listener runtime, and the operations over both. */
module ProxyServices {
  import opened Options
  import opened Text
  import opened Hosts
  import opened Listeners
  import opened Admission
  import opened ProxyWrites
  import opened Reconciler
  import opened ListenerRuntime

  /** What an operation meets: `env` says, among the rest, whether the store takes each write, `first` and
      `second` what the system makes of sockets in each reconcile, `entryOk` whether it takes a domain entry.
      How the reconcile ends follows from these, so `env.reconcileOk` is not looked at. */
  datatype World = World(env: Environment, first: Sockets, second: Sockets, entryOk: bool)

  /** How an operation went: the outcome of its first reconcile, the listeners it left, and the outcome of
      the second, if there was one. */
  datatype Report = Report(first: Outcome, mid: Registries, second: Option<Outcome>)

  ghost predicate IdsOk(store: Store) {
    forall id :: id in store ==> store[id].id == id
  }

  /** The same listeners run, under the same keys. */
  ghost predicate SameKeys(before: Registries, after: Registries) {
    forall k :: before.Runs(k) <==> after.Runs(k)
  }

  class ProxyService {
    const cfg: Config
    const runtime: ServerRuntime
    var store: Store
    var entries: seq<DomainEntry>

    constructor (runtime: ServerRuntime, store: Store, entries: seq<DomainEntry>)
      requires runtime.Valid() && IdsOk(store)
      ensures Valid() && this.runtime == runtime && this.store == store && this.entries == entries
    {
      this.cfg, this.runtime, this.store, this.entries := runtime.cfg, runtime, store, entries;
    }

    ghost predicate Valid()
      reads this, runtime
    {
      runtime.Valid() && runtime.cfg == cfg && IdsOk(store)
    }

    ghost function Wanted(s: Store): set<ListenerKey>
      reads this
    {
      WantedKeys(cfg, runtime.base, s, entries)
    }

    /** How a reconcile with store `s` ends, starting from the listeners `r`. */
    ghost function OutcomeAt(s: Store, r: Registries, sockets: Sockets): Outcome
      reads this
    {
      if !StoreHasListeners(cfg, s, entries) then NoDesired else OutcomeOf(r, Wanted(s), sockets)
    }

    method List() returns (list: seq<Proxy>)
      requires IdsOk(store)
      ensures ListsOnce(list, store)
    {
      list := [];
      var todo := store.Keys;
      while todo != {}
        invariant todo <= store.Keys
        invariant forall i :: 0 <= i < |list| ==> list[i].id in store && list[i].id !in todo && store[list[i].id] == list[i]
        invariant forall id :: id in store && id !in todo ==> store[id] in list
        invariant forall i, j :: 0 <= i < j < |list| ==> list[i].id != list[j].id
      {
        var id :| id in todo;
        todo := todo - {id};
        list := list + [store[id]];
      }
    }

    method ReconcileListeners(sockets: Sockets) returns (outcome: Outcome)
      requires Valid()
      modifies runtime, runtime.running
      ensures Valid()
      ensures runtime.listeners.Valid() && Reconciliation(old(runtime.listeners), runtime.listeners, Wanted(store), outcome)
      ensures outcome == OutcomeAt(store, old(runtime.listeners), sockets)
      ensures fresh(runtime.running - old(runtime.running))
      ensures forall l :: l in old(runtime.running) && (outcome.StartFailed? || outcome.NoDesired? || l.key in Wanted(store)) ==> l.open == old(l.open)
    {
      var list := List();
      outcome := runtime.ReconcileProxyListeners(store, list, entries, sockets);
    }

    /** After an undo that was written and reconciled, if the listeners that ran before the call are those
        the store asks for again, then they are the listeners that run; and the very same sockets, untouched,
        unless what failed was a close. */
    twostate predicate Restores(world: World, new report: Report)
      reads this, runtime, runtime.running
    {
      world.env.undoOk && report.second == Some(Reconciled) && InSync(old(runtime.listeners), Wanted(store)) ==>
        && SameKeys(old(runtime.listeners), runtime.listeners)
        && (!report.first.StopFailed? ==>
          runtime.listeners == old(runtime.listeners) && forall l :: l in old(runtime.running) && l in runtime.running ==> l.open == old(l.open))
    }

    /** The plan was carried out: the write, the reconcile and, if that failed and there is an undo, the undo
        write and a second reconcile, each taken or failed as the world has it. */
    twostate predicate Went(plan: Plan, hasUndo: bool, world: World, ok: bool, new report: Report)
      reads this, runtime
    {
      if plan.Nothing? || !world.env.writeOk then
        !ok && store == old(store) && runtime.listeners == old(runtime.listeners) && report.second.None?
      else
        && report.first == OutcomeAt(plan.after, old(runtime.listeners), world.first)
        && Reconciliation(old(runtime.listeners), report.mid, Wanted(plan.after), report.first)
        && ok == report.first.Reconciled?
        && store == (if ok || !hasUndo || !world.env.undoOk then plan.after else plan.undone)
        && (if ok || !hasUndo then report.second.None? && runtime.listeners == report.mid else
             && report.second == Some(OutcomeAt(store, report.mid, world.second))
             && Reconciliation(report.mid, runtime.listeners, Wanted(store), report.second.value))
    }

    /** Writes the store, reconciles and, when that fails and there is an undo, writes the undo and
        reconciles once more. Each write and each reconcile may fail. */
    method Commit(plan: Plan, hasUndo: bool, world: World) returns (ok: bool, ghost report: Report)
      requires Valid() && (plan.Writes? ==> IdsOk(plan.after) && IdsOk(plan.undone))
      modifies this`store, runtime, runtime.running
      ensures Valid() && Went(plan, hasUndo, world, ok, report) && Restores(world, report)
      ensures ok ==> InSync(runtime.listeners, Wanted(store))
    {
      report := Report(NoDesired, runtime.listeners, None);
      if plan.Nothing? || !world.env.writeOk {
        return false, report;
      }
      store := plan.after;
      var first := ReconcileListeners(world.first);
      ok := first.Reconciled?;
      report := Report(first, runtime.listeners, None);
      if ok || !hasUndo {
        return;
      }
      if world.env.undoOk {
        store := plan.undone;
      }
      var second := ReconcileListeners(world.second);
      report := report.(second := Some(second));
      ghost var before := old(runtime.listeners);
      if world.env.undoOk && second.Reconciled? && InSync(before, Wanted(store)) && !first.StopFailed? {
        UndoRestoresListeners(before, report.mid, runtime.listeners, Wanted(plan.after), Wanted(store), first);
        forall l | l in before.Listeners() ensures l in report.mid.Listeners() && l.key in Wanted(store) {
          UntouchedListeners(before, report.mid, Wanted(plan.after), Wanted(store), first, l);
        }
      }
    }

    // ---------- the checks, and what an operation will write ----------

    /** The admission check on the store as it is. */
    method Admits(p: Proxy, hostDomain: Option<string>, ignoreId: string) returns (ok: bool)
      requires IdsOk(store)
      ensures ok <==> Admitted(cfg, store, p, hostDomain, ignoreId)
    {
      var list := List();
      var verdict := EnsureAdmission(cfg, store, list, p, hostDomain, ignoreId);
      return verdict.Pass?;
    }

    method CheckCreate(api: Api, p: Proxy, env: Environment) returns (plan: Plan)
      requires IdsOk(store)
      ensures plan == PlanCreate(cfg, store, api, p, env)
      ensures plan.Writes? ==> IdsOk(plan.after) && plan.undone == store
    {
      var r := NewRecord(p);
      if !env.inputOk || r.None? || !Accepts(cfg, api, r.value) {
        return Nothing;
      }
      var admitted := Admits(r.value, env.hostDomain, "");
      if !admitted {
        return Nothing;
      }
      var row := Inserted(cfg, r.value, env);
      if row.None? || TrimSpace(p.id) == "" || p.id in store {
        return Nothing;
      }
      var after := store[p.id := row.value];
      assert after - {p.id} == store;
      return Writes(after, after - {p.id});
    }

    method CheckUpdate(api: Api, id: string, fields: Fields, env: Environment) returns (plan: Plan)
      requires IdsOk(store)
      ensures plan == PlanUpdate(cfg, store, api, id, fields, env)
      ensures plan.Writes? ==> IdsOk(plan.after) && IdsOk(plan.undone)
    {
      if !env.inputOk || !Owns(store, api, id) {
        return Nothing;
      }
      var previous := store[id];
      var r := UpdatedRecord(previous, fields);
      if r.None? || !Accepts(cfg, api, r.value) {
        return Nothing;
      }
      var admitted := Admits(r.value, env.hostDomain, id);
      var row, before := Stored(cfg, r.value), Stored(cfg, previous);
      if !admitted || row.None? {
        return Nothing;
      }
      return Writes(store[id := row.value], store[id := if before.None? then row.value else before.value]);
    }

    method CheckEnable(api: Api, id: string, env: Environment) returns (plan: Plan)
      requires IdsOk(store)
      ensures plan == PlanEnable(cfg, store, api, id, env)
      ensures plan.Writes? ==> IdsOk(plan.after) && IdsOk(plan.undone)
    {
      if !Owns(store, api, id) || store[id].ptype.Forward? {
        return Nothing;
      }
      var proxy := store[id].(status := Enabled);
      var admitted := Admits(proxy, env.hostDomain, id);
      if !admitted {
        return Nothing;
      }
      return Writes(store[id := proxy], store[id := proxy.(status := Disabled)]);
    }

    // ---------- the operations ----------

    /** A legacy HTTP or HTTPS create also makes a domain entry, unless there is one (`newEntry` says whether
        it is made and its domain enabled). It is written first, and stays even when the rest fails or is undone. */
    method CreateProxy(api: Api, p: Proxy, newEntry: Option<bool>, world: World) returns (ok: bool, ghost report: Report)
      requires Valid()
      modifies this`store, this`entries, runtime, runtime.running
      ensures var met := AfterEntry(cfg, p, newEntry, world);
        && Valid() && Went(PlanCreate(cfg, old(store), api, p, world.env), true, met, ok, report)
        && Restores(met, report) && Follows(cfg, old(store), store, Create(api, p), ok, met.env)
      ensures ok ==> InSync(runtime.listeners, Wanted(store))
      ensures !ok && world.env.undoOk ==> store == old(store)
      ensures entries == if PlanCreate(cfg, old(store), api, p, world.env).Writes? && EntryTaken(cfg, p, newEntry, world)
        then old(entries) + LegacyEntries(cfg, p, newEntry) else old(entries)
    {
      var plan := CheckCreate(api, p, world.env);
      var met := AfterEntry(cfg, p, newEntry, world);
      PlanIgnoresStages(cfg, store, Create(api, p), world.env, met.env);
      if plan.Writes? && EntryTaken(cfg, p, newEntry, world) {
        entries := entries + LegacyEntries(cfg, p, newEntry);
      }
      ok, report := Carry(Create(api, p), plan, true, met);
    }

    method UpdateProxy(api: Api, id: string, fields: Fields, world: World) returns (ok: bool, ghost report: Report)
      requires Valid()
      modifies this`store, runtime, runtime.running
      ensures Valid() && Went(PlanOf(cfg, old(store), Update(api, id, fields), world.env), true, world, ok, report)
      ensures Restores(world, report) && Follows(cfg, old(store), store, Update(api, id, fields), ok, world.env)
      ensures ok ==> InSync(runtime.listeners, Wanted(store))
    {
      var plan := CheckUpdate(api, id, fields, world.env);
      ok, report := Carry(Update(api, id, fields), plan, true, world);
    }

    method EnableProxy(api: Api, id: string, world: World) returns (ok: bool, ghost report: Report)
      requires Valid()
      modifies this`store, runtime, runtime.running
      ensures Valid() && Went(PlanOf(cfg, old(store), Enable(api, id), world.env), true, world, ok, report)
      ensures Restores(world, report) && Follows(cfg, old(store), store, Enable(api, id), ok, world.env)
      ensures ok ==> InSync(runtime.listeners, Wanted(store))
    {
      var plan := CheckEnable(api, id, world.env);
      ok, report := Carry(Enable(api, id), plan, true, world);
    }

    method DisableProxy(api: Api, id: string, world: World) returns (ok: bool, ghost report: Report)
      requires Valid()
      modifies this`store, runtime, runtime.running
      ensures Valid() && Went(PlanOf(cfg, old(store), Disable(api, id), world.env), api == LocalApi, world, ok, report)
      ensures Restores(world, report) && Follows(cfg, old(store), store, Disable(api, id), ok, world.env)
      ensures ok ==> InSync(runtime.listeners, Wanted(store))
    {
      var plan := Nothing;
      if Owns(store, api, id) {
        var disabled, enabled := store[id].(status := Disabled), store[id].(status := Enabled);
        plan := Writes(store[id := disabled], store[id := if api == LocalApi then enabled else disabled]);
      }
      ok, report := Carry(Disable(api, id), plan, api == LocalApi, world);
    }

    method DeleteProxy(api: Api, id: string, world: World) returns (ok: bool, ghost report: Report)
      requires Valid()
      modifies this`store, runtime, runtime.running
      ensures Valid() && Went(PlanOf(cfg, old(store), Delete(api, id), world.env), false, world, ok, report)
      ensures Restores(world, report) && Follows(cfg, old(store), store, Delete(api, id), ok, world.env)
      ensures ok ==> InSync(runtime.listeners, Wanted(store))
    {
      var plan := Nothing;
      if Owns(store, api, id) && store[id].status.Disabled? {
        plan := Writes(store - {id}, store - {id});
      }
      ok, report := Carry(Delete(api, id), plan, false, world);
    }

    /** Carries a plan out; without an undo a failed reconcile is only reported. */
    method Carry(ghost op: Op, plan: Plan, hasUndo: bool, world: World) returns (ok: bool, ghost report: Report)
      requires Valid() && plan == PlanOf(cfg, store, op, world.env)
      requires plan.Writes? ==> IdsOk(plan.after) && IdsOk(plan.undone) && (hasUndo || plan.undone == plan.after)
      modifies this`store, runtime, runtime.running
      ensures Valid() && Went(plan, hasUndo, world, ok, report) && Restores(world, report)
      ensures Follows(cfg, old(store), store, op, ok, world.env)
      ensures ok ==> InSync(runtime.listeners, Wanted(store))
    {
      ghost var before := store;
      ok, report := Commit(plan, hasUndo, world);
      PlanIgnoresStages(cfg, before, op, world.env, world.env.(reconcileOk := ok));
    }
  }

  /** The domain entry a legacy create makes. */
  function LegacyEntries(cfg: Config, p: Proxy, newEntry: Option<bool>): (made: seq<DomainEntry>)
    ensures NewRecord(p).Some? && !NewRecord(p).value.ptype.HTTP? && !NewRecord(p).value.ptype.HTTPS? ==> made == []
  {
    var r := NewRecord(p);
    if r.Some? && (r.value.ptype.HTTP? || r.value.ptype.HTTPS?) && newEntry.Some?
    then [DomainEntry(r.value.ptype.HTTPS?, NormalizeBindHost(cfg.ip, r.value.entryBindHost), r.value.entryPort, newEntry.value)]
    else []
  }

  /** The domain entry, if one is to be made, is written. */
  predicate EntryTaken(cfg: Config, p: Proxy, newEntry: Option<bool>, world: World) {
    world.entryOk || LegacyEntries(cfg, p, newEntry) == []
  }

  /** What a create meets once its domain entry is dealt with: without it the row is not written. */
  function AfterEntry(cfg: Config, p: Proxy, newEntry: Option<bool>, world: World): World {
    world.(env := world.env.(writeOk := world.env.writeOk && EntryTaken(cfg, p, newEntry, world)))
  }

  ghost predicate SameInputs(env: Environment, env': Environment) {
    env' == env.(writeOk := env'.writeOk, reconcileOk := env'.reconcileOk, undoOk := env'.undoOk)
  }

  /** The store is what the specification makes of it, when the reconcile went as `ok` says. */
  ghost predicate Follows(cfg: Config, before: Store, after: Store, op: Op, ok: bool, env: Environment) {
    && after == StoreAfter(cfg, before, op, env.(reconcileOk := ok))
    && (ok ==> PlanOf(cfg, before, op, env).Writes? && env.writeOk)
  }

  lemma PlanIgnoresStages(cfg: Config, store: Store, op: Op, env: Environment, env': Environment)
    requires SameInputs(env, env')
    ensures PlanOf(cfg, store, op, env') == PlanOf(cfg, store, op, env)
  {
    match op
    case Create(api, p) =>
    case Update(api, id, fields) =>
    case Enable(api, id) =>
    case Disable(api, id) =>
    case Delete(api, id) =>
  }

  // ---------- when an undo is an undo ----------

  predicate UndoIsExact(cfg: Config, store: Store, op: Op) {
    match op
    case Create(_, _) => true
    case Update(_, id, _) => id in store && AsStored(cfg, store[id])
    case Enable(_, id) => id in store && store[id].status.Disabled?
    case Disable(api, id) => id in store && (if api == LocalApi then store[id].status.Enabled? else store[id].status.Disabled?)
    case Delete(_, _) => false
  }

  /** After a failed reconcile and a successful undo the store is what it was exactly for: a create, an
      update of a row in its stored form, enabling a disabled proxy, disabling an enabled local proxy, and
      disabling a user proxy that already was. */
  lemma UndoRestoresStoreIff(cfg: Config, store: Store, op: Op, env: Environment)
    requires PlanOf(cfg, store, op, env).Writes? && forall id :: id in store ==> Stored(cfg, store[id]).Some?
    requires env.writeOk && !env.reconcileOk && env.undoOk
    ensures StoreAfter(cfg, store, op, env) == store <==> UndoIsExact(cfg, store, op)
  {
    match op
    case Create(api, p) =>
    case Update(api, id, fields) =>
      var before := Stored(cfg, store[id]).value;
      assert store[id := before][id] == before && store[id := store[id]] == store;
    case Enable(api, id) =>
      StatusChangesStoreIff(store, id, Disabled);
    case Disable(api, id) =>
      StatusChangesStoreIff(store, id, if api == LocalApi then Enabled else Disabled);
    case Delete(api, id) =>
      assert id in store && id !in store - {id};
  }

  lemma StatusChangesStoreIff(store: Store, id: string, status: ProxyStatus)
    requires id in store
    ensures WithStatus(store, id, status) == store <==> store[id].status == status
  {
    assert WithStatus(store, id, status)[id] == store[id].(status := status);
    if store[id].status == status {
      assert store[id].(status := status) == store[id];
    }
  }
}
