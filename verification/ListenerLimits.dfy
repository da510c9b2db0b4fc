/**
 Exactly when one operation can let a listener conflict into the store. Only the local API's create, update
 and disable can; each has its condition, and an input that meets every check and still fails.
 */
module ListenerLimits {
  import opened Options
  import opened Text
  import opened Hosts
  import opened Listeners
  import opened Admission
  import opened ProxyWrites
  import opened ListenerSafety

  ghost predicate ConflictFree(cfg: Config, store: Store) {
    RowsOk(store) && NoListenerConflict(cfg, store)
  }

  /** The operation leaves listeners free of conflict, whatever succeeds and whatever fails. */
  ghost predicate Safe(cfg: Config, store: Store, op: Op) {
    forall env :: NoListenerConflict(cfg, StoreAfter(cfg, store, op, env))
  }

  /** The row could be written as far as listeners go. */
  ghost predicate Fits(cfg: Config, store: Store, row: Proxy) {
    Admitted(cfg, store, row, None, row.id)
  }

  lemma PutIsSafeIffFits(cfg: Config, store: Store, row: Proxy)
    requires ConflictFree(cfg, store) && row.ptype.HasListener()
    ensures NoListenerConflict(cfg, store[row.id := row]) <==> Fits(cfg, store, row)
  {
    PutIsSafeIff(cfg, store, row);
  }

  /** A plan that does not depend on what the operation meets is safe exactly when both its stores are. */
  lemma SafeIffBoth(cfg: Config, store: Store, op: Op, after: Store, undone: Store)
    requires NoListenerConflict(cfg, store) && HasPlan(cfg, store, op, after, undone)
    ensures Safe(cfg, store, op) <==> NoListenerConflict(cfg, after) && NoListenerConflict(cfg, undone)
  {
    Outcomes(cfg, store, op, after, undone);
    assert NoListenerConflict(cfg, StoreAfter(cfg, store, op, ALL_WELL)) <==> NoListenerConflict(cfg, after);
    assert NoListenerConflict(cfg, StoreAfter(cfg, store, op, RECONCILE_FAILS)) <==> NoListenerConflict(cfg, undone);
  }

  /** Whatever the user API does, and enabling and deleting through either, is safe. */
  lemma OthersAreSafe(cfg: Config, store: Store, op: Op)
    requires Lawful(cfg.ip) && ListenersOk(cfg, store) && (op.api == UserApi || op.Enable? || op.Delete?)
    ensures Safe(cfg, store, op)
  {
    forall env ensures NoListenerConflict(cfg, StoreAfter(cfg, store, op, env)) {
      OpKeepsListeners(cfg, store, op, env);
    }
  }

  // ---------- hosts, as they are written ----------

  /** Inside its outer brackets the host is empty, an address, or has nothing more to trim. */
  predicate PlainHost(ip: IpRules, host: string) {
    var h := TrimBrackets(host);
    h == "" || ip.canonical(h).Some? || TrimBrackets(h) == h
  }

  lemma PlainHostFits(cfg: Config, store: Store, r: Proxy, ignoreId: string)
    requires Lawful(cfg.ip) && RowsOk(store) && r.ptype.HasListener() && PlainHost(cfg.ip, r.entryBindHost)
    requires Admitted(cfg, store, r, None, ignoreId) && (ignoreId == r.id || (ignoreId == "" && r.id !in store))
    ensures Fits(cfg, store, Stored(cfg, r).value)
  {
    SettledHostIff(cfg.ip, r.entryBindHost);
    RowOfSettledHost(cfg, r);
  }

  /** A TCP or UDP proxy is enabled exactly when that leaves listeners free of conflict. */
  lemma EnableIffNoConflict(cfg: Config, store: Store, api: Api, id: string, env: Environment)
    requires ConflictFree(cfg, store) && Owns(store, api, id) && store[id].ptype.HasListener()
    ensures PlanEnable(cfg, store, api, id, env).Writes? <==> NoListenerConflict(cfg, WithStatus(store, id, Enabled))
  {
    PutIsSafeIffFits(cfg, store, store[id].(status := Enabled));
  }

  // ---------- disabling a local proxy ----------

  /** The undo of a local disable enables the proxy without asking: safe exactly when the proxy was enabled
      or would be admitted. */
  lemma DisableLocalSafeIff(cfg: Config, store: Store, id: string)
    requires ConflictFree(cfg, store) && Owns(store, LocalApi, id)
    ensures Safe(cfg, store, Disable(LocalApi, id)) <==> CanStayEnabled(cfg, store, id)
  {
    var disabled, enabled := WithStatus(store, id, Disabled), WithStatus(store, id, Enabled);
    assert HasPlan(cfg, store, Disable(LocalApi, id), disabled, enabled);
    SafeIffBoth(cfg, store, Disable(LocalApi, id), disabled, enabled);
    PutIsSafeIffFits(cfg, store, store[id].(status := Disabled));
    PutIsSafeIffFits(cfg, store, store[id].(status := Enabled));
    if store[id].status.Enabled? {
      assert enabled == store;
    }
  }

  // ---------- creating a local proxy ----------

  /** Creating a local proxy that passes every check is safe exactly when the row it becomes would be
      admitted too; a plain host sees to that. */
  lemma CreateLocalSafeIff(cfg: Config, store: Store, p: Proxy, row: Proxy)
    requires ConflictFree(cfg, store) && PassesChecks(cfg, store, LocalApi, p, row)
    ensures Safe(cfg, store, Create(LocalApi, p)) <==> Fits(cfg, store, row)
    ensures Lawful(cfg.ip) && PlainHost(cfg.ip, p.entryBindHost) ==> Fits(cfg, store, row)
  {
    var r := NewRecord(p).value;
    NewRecordFacts(p);
    CreatePlan(cfg, store, LocalApi, p, row);
    SafeIffBoth(cfg, store, Create(LocalApi, p), store[p.id := row], store);
    PutIsSafeIffFits(cfg, store, row);
    if Lawful(cfg.ip) && PlainHost(cfg.ip, p.entryBindHost) {
      PlainHostFits(cfg, store, r, "");
    }
  }

  // ---------- updating a local proxy ----------

  /** Updating a local proxy in a way that passes every check is safe exactly when the row it becomes, and the
      row an undo would write, would be admitted too; a plain host and a row in its stored form see to that. */
  lemma UpdateLocalSafeIff(cfg: Config, store: Store, id: string, fields: Fields, row: Proxy, before: Proxy)
    requires ConflictFree(cfg, store) && PassesUpdate(cfg, store, LocalApi, id, fields, row, before)
    ensures Safe(cfg, store, Update(LocalApi, id, fields)) <==> Fits(cfg, store, row) && Fits(cfg, store, before)
    ensures Lawful(cfg.ip) && PlainHost(cfg.ip, fields.bindHost) ==> Fits(cfg, store, row)
    ensures AsStored(cfg, store[id]) ==> Fits(cfg, store, before)
  {
    var r := UpdatedRecord(store[id], fields).value;
    UpdatePlan(cfg, store, LocalApi, id, fields, row, before);
    SafeIffBoth(cfg, store, Update(LocalApi, id, fields), store[id := row], store[id := before]);
    PutIsSafeIffFits(cfg, store, row);
    PutIsSafeIffFits(cfg, store, before);
    if Lawful(cfg.ip) && PlainHost(cfg.ip, fields.bindHost) {
      PlainHostFits(cfg, store, r, id);
    }
    if AsStored(cfg, store[id]) {
      assert store[id := store[id]] == store;
    }
  }

  // ---------- in every store ----------

  function HostOf(cfg: Config, p: Proxy): string
    requires ClaimOf(cfg, p).Some?
  {
    NormalizeBindHost(cfg.ip, ClaimOf(cfg, p).value.bindHost)
  }

  /** The row claims the same address as the record, or the record claims every address, or neither any. */
  predicate ClaimSettles(cfg: Config, r: Proxy, row: Proxy) {
    || ClaimOf(cfg, r).None? || ClaimOf(cfg, row).None?
    || IsWildcardBindHost(cfg.ip, HostOf(cfg, r))
    || HostOf(cfg, row) == HostOf(cfg, r)
  }

  /** Two names that are no addresses, as for `net.ParseIP`. */
  predicate PlainNames(ip: IpRules) {
    ip.canonical("a").None? && ip.canonical("b").None?
  }

  /** A record with its row, apart from any store: what the API accepts and no fixed listener is in the way of. */
  ghost predicate PassesAlone(cfg: Config, p: Proxy, row: Proxy) {
    PassesChecks(cfg, map[], LocalApi, p, row)
  }

  ghost predicate SafeEverywhere(cfg: Config, p: Proxy, row: Proxy) {
    forall store :: ConflictFree(cfg, store) && PassesChecks(cfg, store, LocalApi, p, row) ==> Safe(cfg, store, Create(LocalApi, p))
  }

  /** A local record is safe to create in every store that admits it exactly when normalising its host once
      more does not move its claim. */
  lemma CreateLocalSafeEverywhereIff(cfg: Config, p: Proxy, row: Proxy)
    requires PlainNames(cfg.ip) && PassesAlone(cfg, p, row)
    ensures SafeEverywhere(cfg, p, row) <==> ClaimSettles(cfg, NewRecord(p).value, row)
  {
    var r := NewRecord(p).value;
    NewRecordFacts(p);
    if ClaimSettles(cfg, r, row) {
      forall store | ConflictFree(cfg, store) && PassesChecks(cfg, store, LocalApi, p, row) ensures Safe(cfg, store, Create(LocalApi, p)) {
        SettledClaimFits(cfg, store, r, row);
        CreateLocalSafeIff(cfg, store, p, row);
      }
    } else {
      var store := WitnessStore(cfg, p, row);
      CreateLocalSafeIff(cfg, store, p, row);
    }
  }

  lemma SettledClaimFits(cfg: Config, store: Store, r: Proxy, row: Proxy)
    requires RowsOk(store) && r.ptype.HasListener() && r.status.Enabled? && Stored(cfg, r) == Some(row) && r.id !in store
    requires Admitted(cfg, store, r, None, "") && ClaimSettles(cfg, r, row)
    ensures Fits(cfg, store, row)
  {
    if ClaimOf(cfg, row).Some? {
      forall c: ListenerClaim | !Conflicts(cfg.ip, c, ClaimOf(cfg, r).value) ensures !Conflicts(cfg.ip, c, ClaimOf(cfg, row).value) {
      }
    }
  }

  /** The row under another name. */
  function Twin(p: Proxy, host: string): Proxy {
    p.(id := p.id + "'", entryBindHost := host)
  }

  /** A store that admits the record and has no room for its row. */
  lemma WitnessStore(cfg: Config, p: Proxy, row: Proxy) returns (store: Store)
    requires PlainNames(cfg.ip) && PassesAlone(cfg, p, row) && !ClaimSettles(cfg, NewRecord(p).value, row)
    ensures ConflictFree(cfg, store) && PassesChecks(cfg, store, LocalApi, p, row) && !Fits(cfg, store, row)
  {
    var r := NewRecord(p).value;
    NewRecordFacts(p);
    if c :| c in cfg.fixedClaims && Conflicts(cfg.ip, c, ClaimOf(cfg, row).value) {
      store := map[];
    } else {
      var name := if HostOf(cfg, r) == "a" then "b" else "a";
      NamesAreSettled(cfg.ip, name);
      var q := Twin(row, if IsWildcardBindHost(cfg.ip, HostOf(cfg, row)) then name else row.entryBindHost);
      store := map[q.id := q];
      TwinIsInTheWay(cfg, r, row, q);
      OneRowStore(cfg, q);
      BesideOneRow(cfg, p, row, q);
    }
  }

  lemma NamesAreSettled(ip: IpRules, name: string)
    requires (name == "a" || name == "b") && ip.canonical(name).None?
    ensures NormalizeBindHost(ip, name) == name && !IsWildcardBindHost(ip, name)
  {
    TrimNothing(name, IsSpace);
    assert ToLower(name) == name;
  }

  lemma TwinIsInTheWay(cfg: Config, r: Proxy, row: Proxy, q: Proxy)
    requires r.ptype.HasListener() && Stored(cfg, r) == Some(row) && !ClaimSettles(cfg, r, row) && row.status.Enabled?
    requires q == Twin(row, q.entryBindHost)
    requires if IsWildcardBindHost(cfg.ip, HostOf(cfg, row))
      then NormalizeBindHost(cfg.ip, q.entryBindHost) == q.entryBindHost && q.entryBindHost != HostOf(cfg, r) && !IsWildcardBindHost(cfg.ip, q.entryBindHost)
      else q.entryBindHost == row.entryBindHost
    requires forall c :: c in cfg.fixedClaims ==> !Conflicts(cfg.ip, c, ClaimOf(cfg, row).value)
    ensures ClaimOf(cfg, q).Some? && !Conflicts(cfg.ip, ClaimOf(cfg, q).value, ClaimOf(cfg, r).value)
    ensures Conflicts(cfg.ip, ClaimOf(cfg, q).value, ClaimOf(cfg, row).value)
    ensures forall c :: c in cfg.fixedClaims ==> !Conflicts(cfg.ip, c, ClaimOf(cfg, q).value)
  {
    var qc, rc, wc := ClaimOf(cfg, q).value, ClaimOf(cfg, r).value, ClaimOf(cfg, row).value;
    assert qc.network == wc.network == rc.network && qc.port == wc.port == rc.port && qc.protocol == wc.protocol == rc.protocol;
    assert NormalizeBindHost(cfg.ip, "") == "" && IsWildcardBindHost(cfg.ip, "");
    if !IsWildcardBindHost(cfg.ip, HostOf(cfg, row)) {
      assert qc.bindHost == wc.bindHost;
    } else {
      assert qc.bindHost == q.entryBindHost;
    }
    ClaimsMeet(cfg, rc, wc, qc);
  }

  lemma ClaimsMeet(cfg: Config, rc: ListenerClaim, wc: ListenerClaim, qc: ListenerClaim)
    requires qc.network == wc.network == rc.network && qc.port == wc.port == rc.port && qc.protocol == wc.protocol == rc.protocol
    requires wc.protocol.TcpListener? || wc.protocol.UdpListener?
    requires var r, w, q := NormalizeBindHost(cfg.ip, rc.bindHost), NormalizeBindHost(cfg.ip, wc.bindHost), NormalizeBindHost(cfg.ip, qc.bindHost);
      && !IsWildcardBindHost(cfg.ip, r) && !IsWildcardBindHost(cfg.ip, q) && q != r
      && (IsWildcardBindHost(cfg.ip, w) || q == w)
    requires forall c :: c in cfg.fixedClaims ==> !Conflicts(cfg.ip, c, wc)
    ensures !Conflicts(cfg.ip, qc, rc) && Conflicts(cfg.ip, qc, wc)
    ensures forall c :: c in cfg.fixedClaims ==> !Conflicts(cfg.ip, c, qc)
  {
  }

  lemma OneRowStore(cfg: Config, q: Proxy)
    requires q.ptype.HasListener() && q.id != ""
    requires ClaimOf(cfg, q).Some? ==> forall c :: c in cfg.fixedClaims ==> !Conflicts(cfg.ip, c, ClaimOf(cfg, q).value)
    ensures ConflictFree(cfg, map[q.id := q])
  {
  }

  lemma BesideOneRow(cfg: Config, p: Proxy, row: Proxy, q: Proxy)
    requires PassesAlone(cfg, p, row) && p.id != q.id && q.id != "" && q.status.Enabled? && q.ptype.HasListener()
    requires ClaimOf(cfg, q).Some? && ClaimOf(cfg, NewRecord(p).value).Some? && ClaimOf(cfg, row).Some?
    requires !Conflicts(cfg.ip, ClaimOf(cfg, q).value, ClaimOf(cfg, NewRecord(p).value).value)
    requires Conflicts(cfg.ip, ClaimOf(cfg, q).value, ClaimOf(cfg, row).value)
    ensures PassesChecks(cfg, map[q.id := q], LocalApi, p, row) && !Fits(cfg, map[q.id := q], row)
  {
    var store := map[q.id := q];
    NewRecordFacts(p);
    assert q.id in store && store[q.id] == q && row.id != q.id;
    NoRoom(cfg, store, row, q);
  }

  // ---------- inputs that fail ----------

  function LocalTcp(id: string, status: ProxyStatus, host: string, port: int): Proxy {
    Proxy(id, SYSTEM_CLIENT, TCP, status, "", "", host, "", port, "")
  }

  ghost predicate BracketsAreNoAddress(ip: IpRules) {
    && ip.canonical("127.0.0.1") == Some("127.0.0.1") && !ip.unspecified("127.0.0.1")
    && ip.canonical("[127.0.0.1]").None? && ip.canonical("[[127.0.0.1]]").None?
  }

  lemma Loopback(ip: IpRules)
    requires BracketsAreNoAddress(ip)
    ensures NormalizeBindHost(ip, "127.0.0.1") == "127.0.0.1"
  {
    TrimNothing("127.0.0.1", IsSpace);
  }

  lemma BracketedLoopback(ip: IpRules)
    requires BracketsAreNoAddress(ip)
    ensures NormalizeBindHost(ip, "[[[127.0.0.1]]]") == "[[127.0.0.1]]"
  {
    BracketsComeOffOnce("[[127.0.0.1]]");
    assert "[" + "[[127.0.0.1]]" + "]" == "[[[127.0.0.1]]]";
    assert ToLower("[[127.0.0.1]]") == "[[127.0.0.1]]";
  }

  lemma LoopbackOverlaps(ip: IpRules)
    requires BracketsAreNoAddress(ip)
    ensures !BindHostsConflict(ip, "127.0.0.1", "[[127.0.0.1]]")
    ensures BindHostsConflict(ip, "127.0.0.1", "[127.0.0.1]")
  {
    Loopback(ip);
    NestedBracketsAreNotSettled(ip);
  }

  lemma LocalTcpClaim(cfg: Config, id: string, status: ProxyStatus, host: string, port: int)
    requires NormalizeBindHost(cfg.ip, host) != "" && ValidPort(port)
    ensures ClaimOf(cfg, LocalTcp(id, status, host, port)) == Some(ListenerClaim(TcpListener, TcpNetwork, NormalizeBindHost(cfg.ip, host), port, id))
  {
  }

  lemma LocalTcpStored(cfg: Config, id: string, status: ProxyStatus, host: string, port: int)
    ensures Stored(cfg, LocalTcp(id, status, host, port)) == Some(LocalTcp(id, status, NormalizeBindHost(cfg.ip, host), port))
  {
  }

  /** The three claims on port 8080: what stands, what is asked for, and what the store makes of that. */
  lemma ThreeClaims(cfg: Config)
    requires BracketsAreNoAddress(cfg.ip)
    ensures var q, r, row := LocalTcp("b", Enabled, "127.0.0.1", 8080), LocalTcp("a", Enabled, "[[[127.0.0.1]]]", 8080), LocalTcp("a", Enabled, "[[127.0.0.1]]", 8080);
      && ClaimOf(cfg, q).Some? && ClaimOf(cfg, r).Some? && ClaimOf(cfg, row).Some? && Stored(cfg, r) == Some(row)
      && !Conflicts(cfg.ip, ClaimOf(cfg, q).value, ClaimOf(cfg, r).value)
      && Conflicts(cfg.ip, ClaimOf(cfg, q).value, ClaimOf(cfg, row).value)
  {
    Loopback(cfg.ip);
    BracketedLoopback(cfg.ip);
    NestedBracketsAreNotSettled(cfg.ip);
    LoopbackOverlaps(cfg.ip);
    LocalTcpClaim(cfg, "b", Enabled, "127.0.0.1", 8080);
    LocalTcpClaim(cfg, "a", Enabled, "[[[127.0.0.1]]]", 8080);
    LocalTcpClaim(cfg, "a", Enabled, "[[127.0.0.1]]", 8080);
    LocalTcpStored(cfg, "a", Enabled, "[[[127.0.0.1]]]", 8080);
  }

  /** Two local proxies for port 8080, one disabled: disabling it again, with a failing reconcile, enables both. */
  lemma DisableLocalCanConflict(cfg: Config)
    requires cfg.fixedClaims == [] && BracketsAreNoAddress(cfg.ip)
    ensures var store := map["a" := LocalTcp("a", Disabled, "127.0.0.1", 8080), "b" := LocalTcp("b", Enabled, "127.0.0.1", 8080)];
      ConflictFree(cfg, store) && !Safe(cfg, store, Disable(LocalApi, "a"))
  {
    var p, q := LocalTcp("a", Disabled, "127.0.0.1", 8080), LocalTcp("b", Enabled, "127.0.0.1", 8080);
    var store := map["a" := p, "b" := q];
    Loopback(cfg.ip);
    LocalTcpClaim(cfg, "a", Enabled, "127.0.0.1", 8080);
    LocalTcpClaim(cfg, "b", Enabled, "127.0.0.1", 8080);
    TwoRowStore(cfg, p, q);
    assert p.(status := Enabled) == LocalTcp("a", Enabled, "127.0.0.1", 8080);
    NoRoom(cfg, store, p.(status := Enabled), q);
    DisableLocalSafeIff(cfg, store, "a");
  }

  lemma TwoRowStore(cfg: Config, p: Proxy, q: Proxy)
    requires cfg.fixedClaims == [] && p.id != q.id && p.id != "" && q.id != "" && p.ptype.HasListener() && q.ptype.HasListener()
    requires Listening(cfg, p) && Listening(cfg, q) ==> !Conflicts(cfg.ip, ClaimOf(cfg, p).value, ClaimOf(cfg, q).value)
    ensures ConflictFree(cfg, map[p.id := p, q.id := q])
  {
    if Listening(cfg, p) && Listening(cfg, q) {
      ConflictsIsSymmetric(cfg.ip, ClaimOf(cfg, p).value, ClaimOf(cfg, q).value);
    }
  }

  lemma NoRoom(cfg: Config, store: Store, row: Proxy, q: Proxy)
    requires q.id in store && store[q.id] == q && q.id != row.id && q.status.Enabled?
    requires row.status.Enabled? && row.ptype.HasListener() && ClaimOf(cfg, row).Some? && ClaimOf(cfg, q).Some?
    requires Conflicts(cfg.ip, ClaimOf(cfg, q).value, ClaimOf(cfg, row).value)
    ensures !Fits(cfg, store, row)
  {
  }

  lemma LocalTcpPasses(cfg: Config, id: string, host: string, port: int)
    requires cfg.fixedClaims == [] && TrimSpace(id) != "" && ValidPort(port)
    ensures NewRecord(LocalTcp(id, Enabled, host, port)) == Some(LocalTcp(id, Enabled, host, port))
    ensures PassesAlone(cfg, LocalTcp(id, Enabled, host, port), LocalTcp(id, Enabled, NormalizeBindHost(cfg.ip, host), port))
  {
    LocalTcpStored(cfg, id, Enabled, host, port);
  }

  lemma CreateMeetsConflict(cfg: Config, p: Proxy, row: Proxy, q: Proxy)
    requires cfg.fixedClaims == [] && PassesAlone(cfg, p, row) && NewRecord(p) == Some(p)
    requires q.status.Enabled? && q.ptype.HasListener() && q.id != p.id && q.id != ""
    requires ClaimOf(cfg, q).Some? && ClaimOf(cfg, p).Some? && ClaimOf(cfg, row).Some?
    requires !Conflicts(cfg.ip, ClaimOf(cfg, q).value, ClaimOf(cfg, p).value)
    requires Conflicts(cfg.ip, ClaimOf(cfg, q).value, ClaimOf(cfg, row).value)
    ensures ConflictFree(cfg, map[q.id := q]) && !Safe(cfg, map[q.id := q], Create(LocalApi, p))
  {
    OneRowStore(cfg, q);
    BesideOneRow(cfg, p, row, q);
    CreateLocalSafeIff(cfg, map[q.id := q], p, row);
  }

  /** Three pairs of brackets: the record's claim is admitted beside 127.0.0.1, the row's claim conflicts. */
  lemma CreateLocalCanConflict(cfg: Config)
    requires cfg.fixedClaims == [] && BracketsAreNoAddress(cfg.ip)
    ensures var store := map["b" := LocalTcp("b", Enabled, "127.0.0.1", 8080)];
      ConflictFree(cfg, store) && !Safe(cfg, store, Create(LocalApi, LocalTcp("a", Enabled, "[[[127.0.0.1]]]", 8080)))
  {
    ThreeClaims(cfg);
    TrimNothing("a", IsSpace);
    BracketedLoopback(cfg.ip);
    LocalTcpPasses(cfg, "a", "[[[127.0.0.1]]]", 8080);
    CreateMeetsConflict(cfg, LocalTcp("a", Enabled, "[[[127.0.0.1]]]", 8080), LocalTcp("a", Enabled, "[[127.0.0.1]]", 8080),
      LocalTcp("b", Enabled, "127.0.0.1", 8080));
  }

  lemma UpdateMeetsConflict(cfg: Config, p: Proxy, q: Proxy, fields: Fields, r: Proxy, row: Proxy)
    requires cfg.fixedClaims == [] && AsStored(cfg, p) && Accepts(cfg, LocalApi, p) && Accepts(cfg, LocalApi, r)
    requires p.id != "" && q.id != "" && q.id != p.id && q.status.Enabled? && q.ptype.HasListener() && r.status.Enabled?
    requires UpdatedRecord(p, fields) == Some(r) && Stored(cfg, r) == Some(row)
    requires ClaimOf(cfg, p).Some? && ClaimOf(cfg, q).Some? && ClaimOf(cfg, r).Some? && ClaimOf(cfg, row).Some?
    requires !Conflicts(cfg.ip, ClaimOf(cfg, p).value, ClaimOf(cfg, q).value)
    requires !Conflicts(cfg.ip, ClaimOf(cfg, q).value, ClaimOf(cfg, r).value)
    requires Conflicts(cfg.ip, ClaimOf(cfg, q).value, ClaimOf(cfg, row).value)
    ensures ConflictFree(cfg, map[p.id := p, q.id := q]) && !Safe(cfg, map[p.id := p, q.id := q], Update(LocalApi, p.id, fields))
  {
    var store := map[p.id := p, q.id := q];
    TwoRowStore(cfg, p, q);
    UpdatedKeeps(p, fields);
    StoredKeeps(cfg, r);
    RoomBesideOne(cfg, store, r, q);
    NoRoom(cfg, store, row, q);
    UpdatePasses(cfg, store, p, fields, r, row);
    UpdateLocalSafeIff(cfg, store, p.id, fields, row, p);
  }

  lemma StoredKeeps(cfg: Config, r: Proxy)
    requires r.ptype.HasListener() && Stored(cfg, r).Some?
    ensures var row := Stored(cfg, r).value; row.id == r.id && row.ptype == r.ptype && row.status == r.status
  {
  }

  lemma UpdatedKeeps(p: Proxy, fields: Fields)
    requires UpdatedRecord(p, fields).Some?
    ensures var r := UpdatedRecord(p, fields).value; r.id == p.id && r.ptype == p.ptype && r.status == p.status && r.clientId == p.clientId
  {
  }

  lemma UpdatePasses(cfg: Config, store: Store, p: Proxy, fields: Fields, r: Proxy, row: Proxy)
    requires p.id in store && store[p.id] == p && p.clientId == SYSTEM_CLIENT && p.ptype.HasListener()
    requires UpdatedRecord(p, fields) == Some(r) && Accepts(cfg, LocalApi, r) && Admitted(cfg, store, r, None, p.id)
    requires Stored(cfg, r) == Some(row) && AsStored(cfg, p)
    ensures PassesUpdate(cfg, store, LocalApi, p.id, fields, row, p)
  {
  }

  lemma LocalTcpUpdated(cfg: Config, id: string, host: string, port: int, host': string, port': int)
    requires ValidPort(port')
    ensures UpdatedRecord(LocalTcp(id, Enabled, host, port), Fields(host', "", port', None, None, "")) == Some(LocalTcp(id, Enabled, host', port'))
    ensures Accepts(cfg, LocalApi, LocalTcp(id, Enabled, host', port'))
  {
  }

  lemma OtherPort(cfg: Config, id: string, host: string, port: int, id': string, host': string, port': int)
    requires port != port' && NormalizeBindHost(cfg.ip, host) != "" && NormalizeBindHost(cfg.ip, host') != "" && ValidPort(port) && ValidPort(port')
    ensures ClaimOf(cfg, LocalTcp(id, Enabled, host, port)).Some? && ClaimOf(cfg, LocalTcp(id', Enabled, host', port')).Some?
    ensures !Conflicts(cfg.ip, ClaimOf(cfg, LocalTcp(id, Enabled, host, port)).value, ClaimOf(cfg, LocalTcp(id', Enabled, host', port')).value)
  {
    LocalTcpClaim(cfg, id, Enabled, host, port);
    LocalTcpClaim(cfg, id', Enabled, host', port');
  }

  /** The same by an update: from port 8081 to port 8080 under three pairs of brackets. */
  lemma UpdateLocalCanConflict(cfg: Config)
    requires cfg.fixedClaims == [] && BracketsAreNoAddress(cfg.ip)
    ensures var store := map["a" := LocalTcp("a", Enabled, "127.0.0.1", 8081), "b" := LocalTcp("b", Enabled, "127.0.0.1", 8080)];
      && ConflictFree(cfg, store)
      && !Safe(cfg, store, Update(LocalApi, "a", Fields("[[[127.0.0.1]]]", "", 8080, None, None, "")))
  {
    ThreeClaims(cfg);
    Loopback(cfg.ip);
    OtherPort(cfg, "a", "127.0.0.1", 8081, "b", "127.0.0.1", 8080);
    LocalTcpStored(cfg, "a", Enabled, "127.0.0.1", 8081);
    LocalTcpUpdated(cfg, "a", "127.0.0.1", 8081, "127.0.0.1", 8081);
    LocalTcpUpdated(cfg, "a", "127.0.0.1", 8081, "[[[127.0.0.1]]]", 8080);
    UpdateMeetsConflict(cfg, LocalTcp("a", Enabled, "127.0.0.1", 8081), LocalTcp("b", Enabled, "127.0.0.1", 8080),
      Fields("[[[127.0.0.1]]]", "", 8080, None, None, ""),
      LocalTcp("a", Enabled, "[[[127.0.0.1]]]", 8080), LocalTcp("a", Enabled, "[[127.0.0.1]]", 8080));
  }

  lemma RoomBesideOne(cfg: Config, store: Store, r: Proxy, q: Proxy)
    requires cfg.fixedClaims == [] && r.ptype.HasListener() && ClaimOf(cfg, r).Some? && ClaimOf(cfg, q).Some?
    requires forall id :: id in store && id != r.id ==> store[id] == q
    requires !Conflicts(cfg.ip, ClaimOf(cfg, q).value, ClaimOf(cfg, r).value)
    ensures Admitted(cfg, store, r, None, r.id)
  {
  }
}
