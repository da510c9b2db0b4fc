/**
 How the two proxy services change the store: check, write, reconcile, and undo when the reconcile
 fails. `Environment` holds everything the outcome depends on besides the store, so that every
 failure of every stage is a case.
 */
module ProxyWrites {
  import opened Options
  import opened Text
  import opened Hosts
  import opened Paths
  import opened Listeners
  import opened Admission

  const SYSTEM_CLIENT := "server-local"

  datatype Api = UserApi | LocalApi

  datatype Fields = Fields(bindHost: string, host: string, port: int, domainId: Option<string>, path: Option<string>, details: string)

  datatype Op =
    | Create(api: Api, p: Proxy)
    | Update(api: Api, id: string, fields: Fields)
    | Enable(api: Api, id: string)
    | Disable(api: Api, id: string)
    | Delete(api: Api, id: string)

  /** `inputOk`: the checks not written out here pass. `hostDomain`: the domain of
      a legacy proxy's host. `newDomain`: the id a new domain would get. The rest: which stages succeed. */
  datatype Environment = Environment(
    inputOk: bool, hostDomain: Option<string>, newDomain: string, writeOk: bool, reconcileOk: bool, undoOk: bool)

  // ---------- the record a service builds ----------

  function WithPath(p: Proxy, path: string): Option<Proxy> {
    var n := NormalizeProxyRoutePrefix(path);
    if n.None? then None else Some(p.(pathPrefix := n.value))
  }

  function NewRecord(p: Proxy): Option<Proxy> {
    if p.ptype.Forward? then None
    else if p.ptype.Web? || (p.ptype.IsWeb() && TrimSpace(p.domainId) != "") then
      if TrimSpace(p.domainId) == "" then None
      else
        WithPath(p.(ptype := Web, status := Enabled, entryBindHost := "", entryHost := "", entryPort := 0),
                 if p.pathPrefix == "" then "/" else p.pathPrefix)
    else Some(p.(status := Enabled, domainId := "", pathPrefix := ""))
  }

  function UpdatedRecord(p: Proxy, f: Fields): Option<Proxy> {
    if p.ptype.Forward? then None
    else if p.ptype.IsWeb() then
      var p' := p.(details := f.details,
                   domainId := if f.domainId.Some? && TrimSpace(f.domainId.value) != "" then f.domainId.value else p.domainId);
      if f.path.Some? && TrimSpace(f.path.value) != "" then WithPath(p', f.path.value) else Some(p')
    else Some(p.(details := f.details, entryBindHost := f.bindHost, entryHost := f.host, entryPort := f.port))
  }

  /** Which records the API may write: user proxies and server-local proxies are kept apart, and only
      the user API checks the bind host. */
  predicate Accepts(cfg: Config, api: Api, p: Proxy) {
    match api
    case UserApi =>
      && p.clientId != SYSTEM_CLIENT && ValidBindHost(cfg.ip, p.entryBindHost)
      && (p.ptype.HasListener() ==> ValidPort(p.entryPort))
    case LocalApi =>
      p.clientId == SYSTEM_CLIENT && p.ptype.HasListener() && 0 <= p.entryPort <= 65535
  }

  // ---------- what the store makes of a record ----------

  /** The row an update writes: hosts and paths are normalised once more. */
  function Stored(cfg: Config, p: Proxy): Option<Proxy> {
    match p.ptype
    case Web => WithPath(p.(entryBindHost := "", entryHost := "", entryPort := 0), p.pathPrefix)
    case HTTP => Some(p.(entryBindHost := NormalizeBindHost(cfg.ip, p.entryBindHost)))
    case HTTPS => Some(p.(entryBindHost := NormalizeBindHost(cfg.ip, p.entryBindHost)))
    case _ => Some(p.(domainId := "", pathPrefix := "", entryHost := "", entryBindHost := NormalizeBindHost(cfg.ip, p.entryBindHost)))
  }

  /** The row a create writes: a legacy proxy becomes a web proxy on the domain of its host. */
  function Inserted(cfg: Config, p: Proxy, env: Environment): Option<Proxy> {
    if p.ptype.HTTP? || p.ptype.HTTPS? then
      if NormalizeRouteHost(p.entryHost) == "" then None
      else
        Stored(cfg, p.(ptype := Web,
                       domainId := if env.hostDomain.Some? then env.hostDomain.value else env.newDomain,
                       pathPrefix := if p.pathPrefix == "" then "/" else p.pathPrefix))
    else Stored(cfg, p)
  }

  // ---------- the operations ----------

  /** Either nothing is written, or `after` is written and, if the reconcile fails, `undone`. */
  datatype Plan = Nothing | Writes(after: Store, undone: Store)

  ghost function PlanOf(cfg: Config, store: Store, op: Op, env: Environment): Plan {
    match op
    case Create(api, p) => PlanCreate(cfg, store, api, p, env)
    case Update(api, id, fields) => PlanUpdate(cfg, store, api, id, fields, env)
    case Enable(api, id) => PlanEnable(cfg, store, api, id, env)
    case Disable(api, id) => PlanDisable(store, api, id)
    case Delete(api, id) => PlanDelete(store, api, id)
  }

  predicate Owns(store: Store, api: Api, id: string) {
    id in store && (store[id].clientId == SYSTEM_CLIENT <==> api == LocalApi)
  }

  ghost function PlanCreate(cfg: Config, store: Store, api: Api, p: Proxy, env: Environment): Plan {
    var r := NewRecord(p);
    if !env.inputOk || r.None? || !Accepts(cfg, api, r.value) then Nothing
    else if !Admitted(cfg, store, r.value, env.hostDomain, "") then Nothing
    else
      var row := Inserted(cfg, r.value, env);
      if row.None? || TrimSpace(p.id) == "" || p.id in store then Nothing
      else Writes(store[p.id := row.value], store)
  }

  ghost function PlanUpdate(cfg: Config, store: Store, api: Api, id: string, fields: Fields, env: Environment): Plan {
    if !env.inputOk || !Owns(store, api, id) then Nothing
    else
      var r := UpdatedRecord(store[id], fields);
      if r.None? || !Accepts(cfg, api, r.value) || !Admitted(cfg, store, r.value, env.hostDomain, id) then Nothing
      else
        var row, before := Stored(cfg, r.value), Stored(cfg, store[id]);
        if row.None? then Nothing
        else Writes(store[id := row.value], if before.None? then store[id := row.value] else store[id := before.value])
  }

  function WithStatus(store: Store, id: string, status: ProxyStatus): Store
    requires id in store
  {
    store[id := store[id].(status := status)]
  }

  ghost function PlanEnable(cfg: Config, store: Store, api: Api, id: string, env: Environment): Plan {
    if !Owns(store, api, id) || store[id].ptype.Forward? then Nothing
    else if !Admitted(cfg, store, store[id].(status := Enabled), env.hostDomain, id) then Nothing
    else Writes(WithStatus(store, id, Enabled), WithStatus(store, id, Disabled))
  }

  /** The local API undoes a failed disable by enabling, without asking for admission; the user API
      does not undo it. */
  function PlanDisable(store: Store, api: Api, id: string): Plan {
    if !Owns(store, api, id) then Nothing
    else Writes(WithStatus(store, id, Disabled), WithStatus(store, id, if api == LocalApi then Enabled else Disabled))
  }

  function PlanDelete(store: Store, api: Api, id: string): Plan {
    if !Owns(store, api, id) || !store[id].status.Disabled? then Nothing
    else Writes(store - {id}, store - {id})
  }

  /** The store after the operation, whatever succeeds and whatever fails. */
  ghost function StoreAfter(cfg: Config, store: Store, op: Op, env: Environment): Store {
    var plan := PlanOf(cfg, store, op, env);
    if plan.Nothing? || !env.writeOk then store
    else if env.reconcileOk || !env.undoOk then plan.after
    else plan.undone
  }

  // ---------- what an operation changes ----------

  function TargetOf(op: Op): string {
    match op
    case Create(_, p) => p.id
    case Update(_, id, _) => id
    case Enable(_, id) => id
    case Disable(_, id) => id
    case Delete(_, id) => id
  }

  /** Whatever fails, an operation changes no row but its own, and no existing row of the other API. */
  lemma OpChangesOnlyItsRow(cfg: Config, store: Store, op: Op, env: Environment, x: string)
    requires x != TargetOf(op) || (x in store && (store[x].clientId == SYSTEM_CLIENT <==> op.api == UserApi))
    ensures var after := StoreAfter(cfg, store, op, env);
      (x in after <==> x in store) && (x in store ==> after[x] == store[x])
  {
  }

  /** `path` normalised once by the service and once by the store. */
  function TwiceNormal(path: string): Option<string> {
    var once := NormalizeProxyRoutePrefix(path);
    if once.None? then None else NormalizeProxyRoutePrefix(once.value)
  }

  predicate GivenText(t: Option<string>) {
    t.Some? && TrimSpace(t.value) != ""
  }

  /** The row of a new proxy holds what was given. */
  predicate HoldsNew(cfg: Config, row: Proxy, p: Proxy, api: Api) {
    && row.id == p.id && row.status.Enabled? && row.details == p.details
    && row.clientId == p.clientId && (row.clientId == SYSTEM_CLIENT <==> api == LocalApi)
    && (p.ptype.HasListener() ==>
         row.ptype == p.ptype && row.entryPort == p.entryPort && row.entryBindHost == NormalizeBindHost(cfg.ip, p.entryBindHost))
    && (p.ptype.Web? ==>
         row.ptype.Web? && row.domainId == p.domainId && Some(row.pathPrefix) == TwiceNormal(if p.pathPrefix == "" then "/" else p.pathPrefix))
  }

  /** The row of an updated proxy holds what was given and otherwise what it held. */
  predicate HoldsUpdate(cfg: Config, row: Proxy, before: Proxy, fields: Fields) {
    && row.id == before.id && row.clientId == before.clientId && row.ptype == before.ptype && row.status == before.status
    && row.details == fields.details
    && (before.ptype.HasListener() ==>
         row.entryPort == fields.port && row.entryBindHost == NormalizeBindHost(cfg.ip, fields.bindHost))
    && (before.ptype.Web? ==>
         && row.domainId == (if GivenText(fields.domainId) then fields.domainId.value else before.domainId)
         && Some(row.pathPrefix) == if GivenText(fields.path) then TwiceNormal(fields.path.value) else NormalizeProxyRoutePrefix(before.pathPrefix))
  }

  /** A row after a successful operation on it. */
  predicate DoneTo(cfg: Config, store: Store, after: Store, op: Op) {
    var id := TargetOf(op);
    match op
    case Create(api, p) => id !in store && id in after && HoldsNew(cfg, after[id], p, api)
    case Update(_, _, fields) => id in store && id in after && HoldsUpdate(cfg, after[id], store[id], fields)
    case Enable(_, _) => id in store && id in after && after[id] == store[id].(status := Enabled)
    case Disable(_, _) => id in store && id in after && after[id] == store[id].(status := Disabled)
    case Delete(_, _) => id in store && store[id].status.Disabled? && id !in after
  }

  /** An operation that goes through does what it says: a create adds an enabled row to its API's proxies, an
      update keeps owner, type and status, and so on. */
  lemma SuccessIsDone(cfg: Config, store: Store, op: Op, env: Environment)
    requires PlanOf(cfg, store, op, env).Writes? && env.writeOk && env.reconcileOk
    ensures DoneTo(cfg, store, StoreAfter(cfg, store, op, env), op)
  {
    match op
    case Create(api, p) => CreateIsDone(cfg, store, api, p, env);
    case Update(api, id, fields) => UpdateIsDone(cfg, store, api, id, fields, env);
    case _ =>
  }

  lemma CreateIsDone(cfg: Config, store: Store, api: Api, p: Proxy, env: Environment)
    requires PlanCreate(cfg, store, api, p, env).Writes? && env.writeOk && env.reconcileOk
    ensures DoneTo(cfg, store, StoreAfter(cfg, store, Create(api, p), env), Create(api, p))
  {
    var r := NewRecord(p).value;
    NewRecordOwner(cfg, p, env);
    NewRecordFacts(p);
    InsertedFacts(cfg, r, env);
    RowHoldsNew(cfg, p, env);
  }

  lemma RowHoldsNew(cfg: Config, p: Proxy, env: Environment)
    requires NewRecord(p).Some? && Inserted(cfg, NewRecord(p).value, env).Some?
    ensures var row := Inserted(cfg, NewRecord(p).value, env).value;
      && row.details == p.details
      && (p.ptype.HasListener() ==> row.entryPort == p.entryPort && row.entryBindHost == NormalizeBindHost(cfg.ip, p.entryBindHost) && row.ptype == p.ptype)
      && (p.ptype.Web? ==> row.ptype.Web? && row.domainId == p.domainId && Some(row.pathPrefix) == TwiceNormal(if p.pathPrefix == "" then "/" else p.pathPrefix))
  {
  }

  lemma UpdateIsDone(cfg: Config, store: Store, api: Api, id: string, fields: Fields, env: Environment)
    requires PlanUpdate(cfg, store, api, id, fields, env).Writes? && env.writeOk && env.reconcileOk
    ensures DoneTo(cfg, store, StoreAfter(cfg, store, Update(api, id, fields), env), Update(api, id, fields))
  {
  }

  lemma NewRecordOwner(cfg: Config, p: Proxy, env: Environment)
    requires NewRecord(p).Some? && Inserted(cfg, NewRecord(p).value, env).Some?
    ensures var row := Inserted(cfg, NewRecord(p).value, env).value;
      row.id == p.id && row.status.Enabled? && row.clientId == p.clientId && NewRecord(p).value.clientId == p.clientId
  {
  }

  // ---------- what every operation keeps ----------

  /** Every row has its own id, no legacy type is left, and server-local rows are TCP or UDP. */
  ghost predicate RowsOk(store: Store) {
    forall id :: id in store ==>
      && id != "" && store[id].id == id
      && !store[id].ptype.HTTP? && !store[id].ptype.HTTPS?
      && (store[id].clientId == SYSTEM_CLIENT ==> store[id].ptype.HasListener())
  }

  /** A row written back as it is. */
  predicate AsStored(cfg: Config, row: Proxy) {
    Stored(cfg, row) == Some(row)
  }

  lemma CreatedRow(cfg: Config, store: Store, api: Api, p: Proxy, env: Environment)
    requires PlanCreate(cfg, store, api, p, env).Writes?
    ensures var row := Inserted(cfg, NewRecord(p).value, env).value;
      && PlanCreate(cfg, store, api, p, env) == Writes(store[p.id := row], store)
      && row.id == p.id && p.id != "" && !row.ptype.HTTP? && !row.ptype.HTTPS?
      && (row.clientId == SYSTEM_CLIENT ==> row.ptype.HasListener())
  {
    NewRecordOwner(cfg, p, env);
    NewRecordFacts(p);
    InsertedFacts(cfg, NewRecord(p).value, env);
    assert TrimSpace("") == "";
  }

  lemma NewRecordFacts(p: Proxy)
    requires NewRecord(p).Some?
    ensures var r := NewRecord(p).value;
      && r.id == p.id && r.clientId == p.clientId && r.status.Enabled? && !r.ptype.Forward?
      && (r.ptype.HasListener() ==> r.ptype == p.ptype && r.entryBindHost == p.entryBindHost)
      && (r.ptype.HTTP? || r.ptype.HTTPS? ==> r.pathPrefix == "")
  {
  }

  lemma InsertedFacts(cfg: Config, r: Proxy, env: Environment)
    requires Inserted(cfg, r, env).Some?
    ensures var row := Inserted(cfg, r, env).value;
      && !row.ptype.HTTP? && !row.ptype.HTTPS? && row.id == r.id
      && (!r.ptype.HTTP? && !r.ptype.HTTPS? ==> Inserted(cfg, r, env) == Stored(cfg, r))
      && (r.ptype.HasListener() ==> row.ptype == r.ptype) && (!r.ptype.HasListener() && !r.ptype.Forward? ==> row.ptype.Web?)
  {
  }

  lemma UpdatedRow(cfg: Config, store: Store, api: Api, id: string, fields: Fields, env: Environment)
    requires PlanUpdate(cfg, store, api, id, fields, env).Writes?
    ensures var r := UpdatedRecord(store[id], fields).value;
      && r == r.(id := store[id].id, clientId := store[id].clientId, ptype := store[id].ptype, status := store[id].status)
      && Stored(cfg, r).Some?
      && Stored(cfg, r).value.ptype == r.ptype && Stored(cfg, r).value.id == r.id
      && Stored(cfg, r).value.clientId == r.clientId && Stored(cfg, r).value.status == r.status
  {
  }

  lemma OpKeepsRowsOk(cfg: Config, store: Store, op: Op, env: Environment)
    requires RowsOk(store)
    ensures RowsOk(StoreAfter(cfg, store, op, env))
  {
    match op
    case Create(api, p) => CreateKeepsRowsOk(cfg, store, api, p, env);
    case Update(api, id, fields) => UpdateKeepsRowsOk(cfg, store, api, id, fields, env);
    case _ =>
  }

  lemma CreateKeepsRowsOk(cfg: Config, store: Store, api: Api, p: Proxy, env: Environment)
    requires RowsOk(store)
    ensures RowsOk(StoreAfter(cfg, store, Create(api, p), env))
  {
    if PlanCreate(cfg, store, api, p, env).Writes? {
      CreatedRow(cfg, store, api, p, env);
    }
  }

  lemma UpdateKeepsRowsOk(cfg: Config, store: Store, api: Api, id: string, fields: Fields, env: Environment)
    requires RowsOk(store)
    ensures RowsOk(StoreAfter(cfg, store, Update(api, id, fields), env))
  {
    if PlanUpdate(cfg, store, api, id, fields, env).Writes? {
      UpdatedRow(cfg, store, api, id, fields, env);
    }
  }

  // ---------- runs ----------

  ghost function RunOps(cfg: Config, store: Store, run: seq<(Op, Environment)>): Store
    decreases |run|
  {
    if run == [] then store else RunOps(cfg, StoreAfter(cfg, store, run[0].0, run[0].1), run[1..])
  }

  // ---------- operations that pass every check ----------

  const ALL_WELL := Environment(true, None, "", true, true, true)

  const RECONCILE_FAILS := Environment(true, None, "", true, false, true)

  /** Where the operation writes at all, it writes `after` and undoes it by `undone`. */
  ghost predicate HasPlan(cfg: Config, store: Store, op: Op, after: Store, undone: Store) {
    && PlanOf(cfg, store, op, ALL_WELL) == Writes(after, undone)
    && PlanOf(cfg, store, op, RECONCILE_FAILS) == Writes(after, undone)
    && forall env :: PlanOf(cfg, store, op, env) == Nothing || PlanOf(cfg, store, op, env) == Writes(after, undone)
  }

  lemma Outcomes(cfg: Config, store: Store, op: Op, after: Store, undone: Store)
    requires HasPlan(cfg, store, op, after, undone)
    ensures StoreAfter(cfg, store, op, ALL_WELL) == after && StoreAfter(cfg, store, op, RECONCILE_FAILS) == undone
    ensures forall env :: StoreAfter(cfg, store, op, env) in {store, after, undone}
  {
    forall env ensures StoreAfter(cfg, store, op, env) in {store, after, undone} {
      assert PlanOf(cfg, store, op, env) == Nothing || PlanOf(cfg, store, op, env) == Writes(after, undone);
    }
  }

  /** A new proxy of a current type gets through every check, and `row` is what the store would hold. */
  ghost predicate PassesChecks(cfg: Config, store: Store, api: Api, p: Proxy, row: Proxy) {
    && p.id !in store && TrimSpace(p.id) != ""
    && NewRecord(p).Some? && Accepts(cfg, api, NewRecord(p).value)
    && !NewRecord(p).value.ptype.HTTP? && !NewRecord(p).value.ptype.HTTPS?
    && Admitted(cfg, store, NewRecord(p).value, None, "")
    && Stored(cfg, NewRecord(p).value) == Some(row)
  }

  lemma CreatePlan(cfg: Config, store: Store, api: Api, p: Proxy, row: Proxy)
    requires PassesChecks(cfg, store, api, p, row)
    ensures row.id == p.id && row.status.Enabled? && row.ptype == NewRecord(p).value.ptype
    ensures HasPlan(cfg, store, Create(api, p), store[p.id := row], store)
  {
    var r := NewRecord(p).value;
    NewRecordFacts(p);
    forall env: Environment ensures env.inputOk ==> PlanOf(cfg, store, Create(api, p), env) == Writes(store[p.id := row], store)
      ensures !env.inputOk ==> PlanOf(cfg, store, Create(api, p), env) == Nothing
    {
      assert Admitted(cfg, store, r, env.hostDomain, "") && Inserted(cfg, r, env) == Some(row);
    }
  }

  /** An update of a current row gets through every check; `row` is what the store would hold then, and
      `before` what an undo would write. */
  ghost predicate PassesUpdate(cfg: Config, store: Store, api: Api, id: string, fields: Fields, row: Proxy, before: Proxy) {
    && Owns(store, api, id) && store[id].id == id && !store[id].ptype.HTTP? && !store[id].ptype.HTTPS?
    && UpdatedRecord(store[id], fields).Some? && Accepts(cfg, api, UpdatedRecord(store[id], fields).value)
    && Admitted(cfg, store, UpdatedRecord(store[id], fields).value, None, id)
    && Stored(cfg, UpdatedRecord(store[id], fields).value) == Some(row) && Stored(cfg, store[id]) == Some(before)
  }

  lemma UpdatePlan(cfg: Config, store: Store, api: Api, id: string, fields: Fields, row: Proxy, before: Proxy)
    requires PassesUpdate(cfg, store, api, id, fields, row, before)
    ensures row.id == before.id == id && row.ptype == before.ptype == store[id].ptype
    ensures row.status == before.status == store[id].status
    ensures HasPlan(cfg, store, Update(api, id, fields), store[id := row], store[id := before])
  {
    var r := UpdatedRecord(store[id], fields).value;
    assert r.ptype == store[id].ptype && r.id == id && r.status == store[id].status;
    forall env: Environment ensures env.inputOk ==> PlanOf(cfg, store, Update(api, id, fields), env) == Writes(store[id := row], store[id := before])
      ensures !env.inputOk ==> PlanOf(cfg, store, Update(api, id, fields), env) == Nothing
    {
      assert Admitted(cfg, store, r, env.hostDomain, id) <==> Admitted(cfg, store, r, None, id);
    }
  }
}
