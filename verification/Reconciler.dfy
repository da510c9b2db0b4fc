/** Which listeners the store asks for, how often each, and why no two proxies ask for the same. */
module Reconciler {
  import opened Options
  import opened Hosts
  import opened Listeners
  import opened Admission
  import opened ProxyWrites
  import opened ListenerSafety

  datatype ListenerKey = ListenerKey(protocol: ListenerProtocol, bindHost: string, port: int)

  /** For each key, how many proxies and domain entries ask for it. */
  type Counts = map<ListenerKey, nat>

  datatype Desired = Desired(tcp: Counts, udp: Counts, http: Counts, https: Counts) {
    function Of(protocol: ListenerProtocol): Counts {
      match protocol
      case TcpListener => tcp
      case UdpListener => udp
      case HttpListener => http
      case HttpsListener => https
    }

    predicate Wants(key: ListenerKey) { key in Of(key.protocol) }

    function Add(key: ListenerKey): Desired {
      match key.protocol
      case TcpListener => this.(tcp := Increment(tcp, key))
      case UdpListener => this.(udp := Increment(udp, key))
      case HttpListener => this.(http := Increment(http, key))
      case HttpsListener => this.(https := Increment(https, key))
    }
  }

  function Increment(counts: Counts, key: ListenerKey): Counts {
    counts[key := (if key in counts then counts[key] else 0) + 1]
  }

  /** The listeners the server always has: default HTTP, and default HTTPS if that is switched on. */
  datatype Base = Base(httpKey: ListenerKey, httpsEnabled: bool, httpsKey: ListenerKey) {
    predicate Valid() { httpKey.protocol.HttpListener? && httpsKey.protocol.HttpsListener? }

    predicate Has(key: ListenerKey) {
      (httpKey.port > 0 && key == httpKey) || (httpsEnabled && httpsKey.port > 0 && key == httpsKey)
    }
  }

  // ---------- which listeners the store asks for ----------

  function KeyOf(entry: ProxyEntry): ListenerKey {
    ListenerKey(entry.protocol, entry.bindHost, entry.port)
  }

  function KeyOfProxy(cfg: Config, p: Proxy): Option<ListenerKey> {
    var entry := EffectiveProxyEntry(cfg.ip, p, cfg.defaults);
    if !p.status.Enabled? || p.ptype.IsWeb() || entry.None? then None else Some(KeyOf(entry.value))
  }

  function KeyOfDomainEntry(cfg: Config, e: DomainEntry): Option<ListenerKey> {
    var entry := EffectiveDomainEntry(cfg.ip, e, cfg.defaults);
    if !e.domainEnabled || entry.None? then None else Some(KeyOf(entry.value))
  }

  predicate BadProxy(cfg: Config, p: Proxy) {
    p.status.Enabled? && !p.ptype.IsWeb() && EffectiveProxyEntry(cfg.ip, p, cfg.defaults).None?
  }

  predicate BadDomainEntry(cfg: Config, e: DomainEntry) {
    e.domainEnabled && EffectiveDomainEntry(cfg.ip, e, cfg.defaults).None? && e.port != 0
  }

  /** No enabled proxy of the list lacks a listener it should have. */
  predicate GoodProxies(cfg: Config, list: seq<Proxy>) {
    list == [] || (GoodProxies(cfg, list[..|list| - 1]) && !BadProxy(cfg, list[|list| - 1]))
  }

  predicate GoodDomainEntries(cfg: Config, entries: seq<DomainEntry>) {
    entries == [] || (GoodDomainEntries(cfg, entries[..|entries| - 1]) && !BadDomainEntry(cfg, entries[|entries| - 1]))
  }

  function Present(key: Option<ListenerKey>): seq<ListenerKey> {
    if key.None? then [] else [key.value]
  }

  function ProxyKeys(cfg: Config, list: seq<Proxy>): seq<ListenerKey> {
    if list == [] then [] else ProxyKeys(cfg, list[..|list| - 1]) + Present(KeyOfProxy(cfg, list[|list| - 1]))
  }

  function DomainEntryKeys(cfg: Config, entries: seq<DomainEntry>): seq<ListenerKey> {
    if entries == [] then [] else DomainEntryKeys(cfg, entries[..|entries| - 1]) + Present(KeyOfDomainEntry(cfg, entries[|entries| - 1]))
  }

  /** How often `keys` asks for `k`. */
  ghost function Times(keys: seq<ListenerKey>, k: ListenerKey): nat {
    multiset(keys)[k]
  }

  lemma TimesIn(keys: seq<ListenerKey>, k: ListenerKey)
    ensures k in keys <==> Times(keys, k) > 0
  {
  }

  lemma TimesOfBoth(left: seq<ListenerKey>, right: seq<ListenerKey>, k: ListenerKey)
    ensures Times(left + right, k) == Times(left, k) + Times(right, k)
  {
    assert multiset(left + right) == multiset(left) + multiset(right);
  }

  lemma TimesOfOne(key: ListenerKey, k: ListenerKey)
    ensures Times([key], k) == if k == key then 1 else 0
  {
  }

  /** `d` has `k`, if asked `times` times or always wanted, and in the registry of its protocol only. */
  predicate Tallied(base: Base, d: Desired, k: ListenerKey, times: nat) {
    && (k in d.tcp ==> k.protocol.TcpListener?) && (k in d.udp ==> k.protocol.UdpListener?)
    && (k in d.http ==> k.protocol.HttpListener?) && (k in d.https ==> k.protocol.HttpsListener?)
    && (k in d.Of(k.protocol) <==> base.Has(k) || times > 0)
    && (k in d.Of(k.protocol) ==> d.Of(k.protocol)[k] == times)
  }

  /** `d` holds the keys of `base` and of `keys`, each with the number of times `keys` asks for it, in
      the registry of its protocol. */
  ghost predicate Tallies(base: Base, d: Desired, keys: seq<ListenerKey>) {
    forall k :: Tallied(base, d, k, Times(keys, k))
  }

  lemma TalliedOneMore(base: Base, d: Desired, k: ListenerKey, times: nat, key: ListenerKey)
    requires Tallied(base, d, k, times)
    ensures Tallied(base, d.Add(key), k, if k == key then times + 1 else times)
  {
    if k != key {
      OthersAsBefore(d, k, key);
    } else {
      match key.protocol
      case TcpListener => assert d.Add(key).tcp == Increment(d.tcp, key);
      case UdpListener => assert d.Add(key).udp == Increment(d.udp, key);
      case HttpListener => assert d.Add(key).http == Increment(d.http, key);
      case HttpsListener => assert d.Add(key).https == Increment(d.https, key);
    }
  }

  lemma OthersAsBefore(d: Desired, k: ListenerKey, key: ListenerKey)
    requires k != key
    ensures k in d.Add(key).tcp <==> k in d.tcp
    ensures k in d.Add(key).udp <==> k in d.udp
    ensures k in d.Add(key).http <==> k in d.http
    ensures k in d.Add(key).https <==> k in d.https
    ensures k in d.Of(k.protocol) ==> d.Add(key).Of(k.protocol)[k] == d.Of(k.protocol)[k]
  {
    match key.protocol
    case TcpListener => OtherCounts(d.tcp, k, key);
    case UdpListener => OtherCounts(d.udp, k, key);
    case HttpListener => OtherCounts(d.http, k, key);
    case HttpsListener => OtherCounts(d.https, k, key);
  }

  lemma OtherCounts(counts: Counts, k: ListenerKey, key: ListenerKey)
    requires k != key
    ensures k in Increment(counts, key) <==> k in counts
    ensures k in counts ==> Increment(counts, key)[k] == counts[k]
  {
  }

  lemma TallyOneMore(base: Base, d: Desired, keys: seq<ListenerKey>, key: ListenerKey)
    requires Tallies(base, d, keys)
    ensures Tallies(base, d.Add(key), keys + [key])
  {
    forall k ensures Tallied(base, d.Add(key), k, Times(keys + [key], k)) {
      TalliedOneMore(base, d, k, Times(keys, k), key);
      TimesOfBoth(keys, [key], k);
      TimesOfOne(key, k);
    }
  }

  lemma ProxyKeysStep(cfg: Config, list: seq<Proxy>, i: nat)
    requires i < |list|
    ensures ProxyKeys(cfg, list[..i + 1]) == ProxyKeys(cfg, list[..i]) + Present(KeyOfProxy(cfg, list[i]))
    ensures GoodProxies(cfg, list[..i + 1]) <==> GoodProxies(cfg, list[..i]) && !BadProxy(cfg, list[i])
  {
    assert list[..i + 1][..i] == list[..i];
  }

  lemma DomainEntryKeysStep(cfg: Config, entries: seq<DomainEntry>, i: nat)
    requires i < |entries|
    ensures DomainEntryKeys(cfg, entries[..i + 1]) == DomainEntryKeys(cfg, entries[..i]) + Present(KeyOfDomainEntry(cfg, entries[i]))
    ensures GoodDomainEntries(cfg, entries[..i + 1]) <==> GoodDomainEntries(cfg, entries[..i]) && !BadDomainEntry(cfg, entries[i])
  {
    assert entries[..i + 1][..i] == entries[..i];
  }

  lemma {:induction false} BadStays(cfg: Config, list: seq<Proxy>, n: nat)
    requires n <= |list| && !GoodProxies(cfg, list[..n])
    ensures !GoodProxies(cfg, list)
    decreases |list| - n
  {
    assert list[..|list|] == list;
    if n < |list| {
      ProxyKeysStep(cfg, list, n);
      BadStays(cfg, list, n + 1);
    }
  }

  lemma {:induction false} BadEntryStays(cfg: Config, entries: seq<DomainEntry>, n: nat)
    requires n <= |entries| && !GoodDomainEntries(cfg, entries[..n])
    ensures !GoodDomainEntries(cfg, entries)
    decreases |entries| - n
  {
    assert entries[..|entries|] == entries;
    if n < |entries| {
      DomainEntryKeysStep(cfg, entries, n);
      BadEntryStays(cfg, entries, n + 1);
    }
  }

  /** One turn of the loop over the proxies. */
  method CountProxy(cfg: Config, base: Base, desired: Desired, ghost keys: seq<ListenerKey>, p: Proxy) returns (res: Option<Desired>)
    requires Tallies(base, desired, keys)
    ensures res.None? <==> BadProxy(cfg, p)
    ensures res.Some? ==> Tallies(base, res.value, keys + Present(KeyOfProxy(cfg, p)))
  {
    assert keys + [] == keys;
    if !p.status.Enabled? || p.ptype.IsWeb() {
      return Some(desired);
    }
    var entry := EffectiveProxyEntry(cfg.ip, p, cfg.defaults);
    if entry.None? {
      return None;
    }
    TallyOneMore(base, desired, keys, KeyOf(entry.value));
    return Some(desired.Add(KeyOf(entry.value)));
  }

  method CountProxies(cfg: Config, base: Base, start: Desired, proxies: seq<Proxy>) returns (res: Option<Desired>)
    requires Tallies(base, start, [])
    ensures res.Some? <==> GoodProxies(cfg, proxies)
    ensures res.Some? ==> Tallies(base, res.value, ProxyKeys(cfg, proxies))
  {
    var desired := start;
    for i := 0 to |proxies|
      invariant GoodProxies(cfg, proxies[..i])
      invariant Tallies(base, desired, ProxyKeys(cfg, proxies[..i]))
    {
      ProxyKeysStep(cfg, proxies, i);
      var next := CountProxy(cfg, base, desired, ProxyKeys(cfg, proxies[..i]), proxies[i]);
      if next.None? {
        BadStays(cfg, proxies, i + 1);
        return None;
      }
      desired := next.value;
    }
    assert proxies[..|proxies|] == proxies;
    return Some(desired);
  }

  lemma Assoc(x: seq<ListenerKey>, y: seq<ListenerKey>, z: seq<ListenerKey>)
    ensures x + (y + z) == (x + y) + z
  {
  }

  /** One turn of the loop over the domain entries. */
  method CountDomainEntry(cfg: Config, base: Base, desired: Desired, ghost keys: seq<ListenerKey>, e: DomainEntry) returns (res: Option<Desired>)
    requires Tallies(base, desired, keys)
    ensures res.None? <==> BadDomainEntry(cfg, e)
    ensures res.Some? ==> Tallies(base, res.value, keys + Present(KeyOfDomainEntry(cfg, e)))
  {
    assert keys + [] == keys;
    if !e.domainEnabled {
      return Some(desired);
    }
    var entry := EffectiveDomainEntry(cfg.ip, e, cfg.defaults);
    if entry.None? {
      return if e.port == 0 then Some(desired) else None;
    }
    TallyOneMore(base, desired, keys, KeyOf(entry.value));
    return Some(desired.Add(KeyOf(entry.value)));
  }

  method CountDomainEntries(cfg: Config, base: Base, start: Desired, ghost keys: seq<ListenerKey>, entries: seq<DomainEntry>)
    returns (res: Option<Desired>)
    requires Tallies(base, start, keys)
    ensures res.Some? <==> GoodDomainEntries(cfg, entries)
    ensures res.Some? ==> Tallies(base, res.value, keys + DomainEntryKeys(cfg, entries))
  {
    var desired := start;
    assert keys + DomainEntryKeys(cfg, []) == keys;
    for i := 0 to |entries|
      invariant GoodDomainEntries(cfg, entries[..i])
      invariant Tallies(base, desired, keys + DomainEntryKeys(cfg, entries[..i]))
    {
      DomainEntryKeysStep(cfg, entries, i);
      var next := CountDomainEntry(cfg, base, desired, keys + DomainEntryKeys(cfg, entries[..i]), entries[i]);
      Assoc(keys, DomainEntryKeys(cfg, entries[..i]), Present(KeyOfDomainEntry(cfg, entries[i])));
      if next.None? {
        BadEntryStays(cfg, entries, i + 1);
        return None;
      }
      desired := next.value;
    }
    assert entries[..|entries|] == entries;
    return Some(desired);
  }

  function OnlyBase(base: Base): Desired {
    Desired(map[], map[], if base.httpKey.port > 0 then map[base.httpKey := 0] else map[],
            if base.httpsEnabled && base.httpsKey.port > 0 then map[base.httpsKey := 0] else map[])
  }

  lemma OnlyBaseTallies(base: Base)
    requires base.Valid()
    ensures Tallies(base, OnlyBase(base), [])
  {
  }

  /** The desired listeners are exactly those the base, the proxies and the domain entries ask for, each
      counted as often as asked; there are none when an enabled proxy or entry has no listener. */
  method DesiredProxyListeners(cfg: Config, base: Base, proxies: seq<Proxy>, entries: seq<DomainEntry>) returns (res: Option<Desired>)
    requires base.Valid()
    ensures res.Some? <==> GoodProxies(cfg, proxies) && GoodDomainEntries(cfg, entries)
    ensures res.Some? ==> Tallies(base, res.value, ProxyKeys(cfg, proxies) + DomainEntryKeys(cfg, entries))
  {
    OnlyBaseTallies(base);
    res := CountProxies(cfg, base, OnlyBase(base), proxies);
    if res.Some? {
      res := CountDomainEntries(cfg, base, res.value, ProxyKeys(cfg, proxies), entries);
    }
  }

  /** Each registry holds keys of its own protocol only. */
  ghost predicate SortedKeys(d: Desired) {
    && (forall k :: k in d.tcp ==> k.protocol.TcpListener?) && (forall k :: k in d.udp ==> k.protocol.UdpListener?)
    && (forall k :: k in d.http ==> k.protocol.HttpListener?) && (forall k :: k in d.https ==> k.protocol.HttpsListener?)
  }

  /** `wanted` are the keys of `d`. */
  ghost predicate KeysOf(d: Desired, wanted: set<ListenerKey>) {
    forall k: ListenerKey :: d.Wants(k) <==> k in wanted
  }

  /** The listeners the store asks for, as a set. */
  ghost function WantedKeys(cfg: Config, base: Base, store: Store, entries: seq<DomainEntry>): set<ListenerKey> {
    (set k | k in {base.httpKey, base.httpsKey} && base.Has(k))
    + (set id | id in store && KeyOfProxy(cfg, store[id]).Some? :: KeyOfProxy(cfg, store[id]).value)
    + (set k | k in DomainEntryKeys(cfg, entries))
  }

  /** Every enabled proxy and domain entry that must have a listener has one. */
  ghost predicate StoreHasListeners(cfg: Config, store: Store, entries: seq<DomainEntry>) {
    (forall id :: id in store ==> !BadProxy(cfg, store[id])) && GoodDomainEntries(cfg, entries)
  }

  lemma {:induction false} GoodProxiesIff(cfg: Config, list: seq<Proxy>)
    ensures GoodProxies(cfg, list) <==> forall p :: p in list ==> !BadProxy(cfg, p)
  {
    if list != [] {
      GoodProxiesIff(cfg, list[..|list| - 1]);
      assert list == list[..|list| - 1] + [list[|list| - 1]];
    }
  }

  lemma GoodListIsGoodStore(cfg: Config, list: seq<Proxy>, store: Store)
    requires ListsStore(list, store)
    ensures GoodProxies(cfg, list) <==> forall id :: id in store ==> !BadProxy(cfg, store[id])
  {
    GoodProxiesIff(cfg, list);
    forall id | id in store ensures store[id] in list {
    }
    forall p | p in list ensures p.id in store && store[p.id] == p {
    }
  }

  /** The order in which the store lists its proxies does not matter. */
  lemma DesiredAreWanted(cfg: Config, base: Base, list: seq<Proxy>, store: Store, entries: seq<DomainEntry>, d: Desired)
    requires base.Valid() && ListsStore(list, store)
    requires Tallies(base, d, ProxyKeys(cfg, list) + DomainEntryKeys(cfg, entries))
    ensures SortedKeys(d) && KeysOf(d, WantedKeys(cfg, base, store, entries))
  {
    var keys, others := ProxyKeys(cfg, list), DomainEntryKeys(cfg, entries);
    forall k: ListenerKey ensures d.Wants(k) <==> k in WantedKeys(cfg, base, store, entries) {
      assert Tallied(base, d, k, Times(keys + others, k));
      TimesOfBoth(keys, others, k);
      TimesIn(others, k);
      AskersOf(cfg, list, k);
      AskersInStore(cfg, list, store, k);
    }
    TalliesAreSorted(base, d, keys + others);
  }

  lemma TalliesAreSorted(base: Base, d: Desired, keys: seq<ListenerKey>)
    requires Tallies(base, d, keys)
    ensures SortedKeys(d)
  {
    forall k ensures (k in d.tcp ==> k.protocol.TcpListener?) && (k in d.udp ==> k.protocol.UdpListener?) {
      assert Tallied(base, d, k, Times(keys, k));
    }
    forall k ensures (k in d.http ==> k.protocol.HttpListener?) && (k in d.https ==> k.protocol.HttpsListener?) {
      assert Tallied(base, d, k, Times(keys, k));
    }
  }

  lemma AskersInStore(cfg: Config, list: seq<Proxy>, store: Store, k: ListenerKey)
    requires ListsStore(list, store)
    ensures SomeIn(cfg, list, k) <==> exists id :: id in store && AsksFor(cfg, store[id], k)
  {
    if SomeIn(cfg, list, k) {
      var i :| 0 <= i < |list| && AsksFor(cfg, list[i], k);
      assert list[i].id in store && store[list[i].id] == list[i];
    }
    if id :| id in store && AsksFor(cfg, store[id], k) {
      assert store[id] in list;
      var i :| 0 <= i < |list| && list[i] == store[id];
    }
  }

  // ---------- one proxy per listener ----------

  /** Every proxy of the store once. */
  ghost predicate ListsOnce(list: seq<Proxy>, store: Store) {
    ListsStore(list, store) && forall i, j :: 0 <= i < j < |list| ==> list[i].id != list[j].id
  }

  lemma SameKeyConflicts(cfg: Config, p: Proxy, q: Proxy)
    requires p.ptype.HasListener() && KeyOfProxy(cfg, p).Some? && KeyOfProxy(cfg, q) == KeyOfProxy(cfg, p)
    ensures Listening(cfg, p) && Listening(cfg, q) && Conflicts(cfg.ip, ClaimOf(cfg, p).value, ClaimOf(cfg, q).value)
  {
  }

  ghost predicate AsksFor(cfg: Config, p: Proxy, k: ListenerKey) {
    KeyOfProxy(cfg, p) == Some(k)
  }

  ghost predicate AtMostOneIn(cfg: Config, list: seq<Proxy>, k: ListenerKey) {
    forall i, j :: 0 <= i < j < |list| ==> !(AsksFor(cfg, list[i], k) && AsksFor(cfg, list[j], k))
  }

  ghost predicate SomeIn(cfg: Config, list: seq<Proxy>, k: ListenerKey) {
    exists i :: 0 <= i < |list| && AsksFor(cfg, list[i], k)
  }

  lemma {:induction false} AskersOf(cfg: Config, list: seq<Proxy>, k: ListenerKey)
    ensures SomeIn(cfg, list, k) <==> Times(ProxyKeys(cfg, list), k) > 0
    ensures AtMostOneIn(cfg, list, k) ==> Times(ProxyKeys(cfg, list), k) <= 1
  {
    if list != [] {
      var n := |list| - 1;
      AskersOf(cfg, list[..n], k);
      var asked := KeyOfProxy(cfg, list[n]);
      TimesOfBoth(ProxyKeys(cfg, list[..n]), Present(asked), k);
      if asked.Some? {
        TimesOfOne(asked.value, k);
      }
      LastAsker(cfg, list, k);
    }
  }

  lemma LastAsker(cfg: Config, list: seq<Proxy>, k: ListenerKey)
    requires list != []
    ensures SomeIn(cfg, list, k) <==> SomeIn(cfg, list[..|list| - 1], k) || AsksFor(cfg, list[|list| - 1], k)
    ensures AtMostOneIn(cfg, list, k) ==> AtMostOneIn(cfg, list[..|list| - 1], k)
    ensures AtMostOneIn(cfg, list, k) && SomeIn(cfg, list[..|list| - 1], k) ==> !AsksFor(cfg, list[|list| - 1], k)
  {
    var n := |list| - 1;
    SomeInFirst(cfg, list, n, k);
    assert list[..n + 1] == list;
    if AsksFor(cfg, list[n], k) {
      assert SomeIn(cfg, list, k);
    }
  }

  lemma SomeInFirst(cfg: Config, list: seq<Proxy>, n: nat, k: ListenerKey)
    requires n < |list|
    ensures SomeIn(cfg, list[..n], k) <==> exists i :: 0 <= i < n && AsksFor(cfg, list[i], k)
  {
    if SomeIn(cfg, list[..n], k) {
      var i :| 0 <= i < n && AsksFor(cfg, list[..n][i], k);
      assert AsksFor(cfg, list[i], k);
    }
    if i :| 0 <= i < n && AsksFor(cfg, list[i], k) {
      assert AsksFor(cfg, list[..n][i], k);
    }
  }

  lemma {:induction false} DomainEntriesAskForWeb(cfg: Config, entries: seq<DomainEntry>, k: ListenerKey)
    requires !k.protocol.HttpListener? && !k.protocol.HttpsListener?
    ensures Times(DomainEntryKeys(cfg, entries), k) == 0
  {
    if entries != [] {
      var asked := KeyOfDomainEntry(cfg, entries[|entries| - 1]);
      DomainEntriesAskForWeb(cfg, entries[..|entries| - 1], k);
      TimesOfBoth(DomainEntryKeys(cfg, entries[..|entries| - 1]), Present(asked), k);
      if asked.Some? {
        TimesOfOne(asked.value, k);
      }
    }
  }

  /** Under admission every desired TCP or UDP listener serves exactly one proxy. */
  lemma OneProxyPerListener(cfg: Config, base: Base, store: Store, list: seq<Proxy>, entries: seq<DomainEntry>, d: Desired, k: ListenerKey)
    requires base.Valid() && ListsOnce(list, store) && NoListenerConflict(cfg, store)
    requires Tallies(base, d, ProxyKeys(cfg, list) + DomainEntryKeys(cfg, entries))
    requires k in d.tcp || k in d.udp
    ensures k in d.tcp ==> d.tcp[k] == 1
    ensures k in d.udp ==> d.udp[k] == 1
    ensures exists id :: OnlyAsker(cfg, store, k, id)
  {
    var keys, others := ProxyKeys(cfg, list), DomainEntryKeys(cfg, entries);
    assert Tallied(base, d, k, Times(keys + others, k));
    TimesOfBoth(keys, others, k);
    DomainEntriesAskForWeb(cfg, entries, k);
    var id := TheAsker(cfg, store, list, k);
  }

  ghost predicate OnlyAsker(cfg: Config, store: Store, k: ListenerKey, id: string) {
    id in store && AsksFor(cfg, store[id], k) && forall x :: x in store && AsksFor(cfg, store[x], k) ==> x == id
  }

  lemma TheAsker(cfg: Config, store: Store, list: seq<Proxy>, k: ListenerKey) returns (id: string)
    requires ListsOnce(list, store) && NoListenerConflict(cfg, store)
    requires (k.protocol.TcpListener? || k.protocol.UdpListener?) && Times(ProxyKeys(cfg, list), k) > 0
    ensures Times(ProxyKeys(cfg, list), k) == 1
    ensures OnlyAsker(cfg, store, k, id)
  {
    AskersOf(cfg, list, k);
    AtMostOneAsks(cfg, store, k);
    AtMostOneListed(cfg, store, list, k);
    var i :| 0 <= i < |list| && AsksFor(cfg, list[i], k);
    assert list[i].id in store && store[list[i].id] == list[i];
    id := list[i].id;
  }

  /** Every enabled TCP or UDP proxy with a port has its listener among the desired ones. */
  lemma EnabledProxyIsServed(cfg: Config, base: Base, store: Store, list: seq<Proxy>, entries: seq<DomainEntry>, d: Desired, id: string)
    requires base.Valid() && ListsStore(list, store)
    requires Tallies(base, d, ProxyKeys(cfg, list) + DomainEntryKeys(cfg, entries))
    requires id in store && store[id].status.Enabled? && store[id].ptype.HasListener() && ValidPort(store[id].entryPort)
    ensures var p := store[id];
      var host := if NormalizeBindHost(cfg.ip, p.entryBindHost) != "" then NormalizeBindHost(cfg.ip, p.entryBindHost)
        else NormalizeBindHost(cfg.ip, cfg.defaults.tcpBindHost);
      if p.ptype.TCP? then ListenerKey(TcpListener, host, p.entryPort) in d.tcp else ListenerKey(UdpListener, host, p.entryPort) in d.udp
  {
    var k := KeyOfProxy(cfg, store[id]).value;
    DesiredAreWanted(cfg, base, list, store, entries, d);
    assert k in WantedKeys(cfg, base, store, entries);
    assert d.Wants(k);
  }

  /** Every enabled domain entry on a host and port of its own has its listener among the desired ones. */
  lemma EnabledEntryIsServed(cfg: Config, base: Base, store: Store, list: seq<Proxy>, entries: seq<DomainEntry>, d: Desired, e: DomainEntry)
    requires base.Valid() && ListsStore(list, store)
    requires Tallies(base, d, ProxyKeys(cfg, list) + DomainEntryKeys(cfg, entries))
    requires e in entries && e.domainEnabled && ValidPort(e.port) && NormalizeBindHost(cfg.ip, e.bindHost) != ""
    ensures var host := NormalizeBindHost(cfg.ip, e.bindHost);
      if e.secure then ListenerKey(HttpsListener, host, e.port) in d.https else ListenerKey(HttpListener, host, e.port) in d.http
  {
    var k := KeyOfDomainEntry(cfg, e).value;
    DesiredAreWanted(cfg, base, list, store, entries, d);
    AskingEntry(cfg, entries, e);
    assert k in WantedKeys(cfg, base, store, entries);
    assert d.Wants(k);
  }

  lemma {:induction false} AskingEntry(cfg: Config, entries: seq<DomainEntry>, e: DomainEntry)
    requires e in entries && KeyOfDomainEntry(cfg, e).Some?
    ensures KeyOfDomainEntry(cfg, e).value in DomainEntryKeys(cfg, entries)
  {
    var n := |entries| - 1;
    if entries[n] != e {
      var i :| 0 <= i < n && entries[i] == e;
      assert entries[..n][i] == e;
      AskingEntry(cfg, entries[..n], e);
    }
  }

  /** The default listeners are always among the desired ones, HTTPS if it is switched on. */
  lemma DefaultsAreServed(base: Base, d: Desired, keys: seq<ListenerKey>)
    requires base.Valid() && Tallies(base, d, keys)
    ensures base.httpKey.port > 0 ==> base.httpKey in d.http
    ensures base.httpsEnabled && base.httpsKey.port > 0 ==> base.httpsKey in d.https
  {
    assert Tallied(base, d, base.httpKey, Times(keys, base.httpKey));
    assert Tallied(base, d, base.httpsKey, Times(keys, base.httpsKey));
  }

  ghost predicate SomeProxyListens(store: Store, protocol: ListenerProtocol, port: int) {
    exists id :: id in store && store[id].status.Enabled? && store[id].entryPort == port
      && (if protocol.TcpListener? then store[id].ptype.TCP? else store[id].ptype.UDP?)
  }

  ghost predicate SomeEntryListens(entries: seq<DomainEntry>, secure: bool) {
    exists e :: e in entries && e.domainEnabled && e.secure == secure
  }

  /** Nothing is desired without a reason: a TCP or UDP listener is that of an enabled proxy on its port, an HTTP
      or HTTPS listener is a default one or there is an enabled domain entry of that kind. */
  lemma ServedOnlyIfAsked(cfg: Config, base: Base, store: Store, list: seq<Proxy>, entries: seq<DomainEntry>, d: Desired, k: ListenerKey)
    requires base.Valid() && ListsStore(list, store)
    requires Tallies(base, d, ProxyKeys(cfg, list) + DomainEntryKeys(cfg, entries))
    ensures k in d.tcp || k in d.udp ==> SomeProxyListens(store, k.protocol, k.port)
    ensures k in d.http ==> (k == base.httpKey && k.port > 0) || SomeEntryListens(entries, false)
    ensures k in d.https ==> (k == base.httpsKey && k.port > 0 && base.httpsEnabled) || SomeEntryListens(entries, true)
  {
    DesiredAreWanted(cfg, base, list, store, entries, d);
    assert d.Wants(k) <==> k in WantedKeys(cfg, base, store, entries);
    if id :| id in store && KeyOfProxy(cfg, store[id]) == Some(k) {
      EntryIsAsGiven(cfg.ip, store[id], cfg.defaults);
    }
    if k in DomainEntryKeys(cfg, entries) {
      var e := EntryThatAsks(cfg, entries, k);
      DomainEntryIsAsGiven(cfg.ip, e, cfg.defaults);
    }
  }

  lemma {:induction false} EntryThatAsks(cfg: Config, entries: seq<DomainEntry>, k: ListenerKey) returns (e: DomainEntry)
    requires k in DomainEntryKeys(cfg, entries)
    ensures e in entries && KeyOfDomainEntry(cfg, e) == Some(k)
  {
    var n := |entries| - 1;
    if KeyOfDomainEntry(cfg, entries[n]) == Some(k) {
      e := entries[n];
    } else {
      e := EntryThatAsks(cfg, entries[..n], k);
    }
  }

  /** The listeners cannot be worked out exactly when an enabled proxy is neither a web proxy nor a TCP or UDP
      proxy with a port, or an enabled domain entry names a port that is none. */
  lemma ReconcileFailsIff(cfg: Config, list: seq<Proxy>, entries: seq<DomainEntry>)
    ensures GoodProxies(cfg, list) <==>
      forall p :: p in list && p.status.Enabled? && !p.ptype.IsWeb() ==> p.ptype.HasListener() && ValidPort(p.entryPort)
    ensures GoodDomainEntries(cfg, entries) <==> forall e :: e in entries && e.domainEnabled && e.port != 0 ==> ValidPort(e.port)
  {
    GoodProxiesIff(cfg, list);
    forall p | p in list
      ensures BadProxy(cfg, p) <==> p.status.Enabled? && !p.ptype.IsWeb() && !(p.ptype.HasListener() && ValidPort(p.entryPort))
    {
      LeftOutIsDefault(cfg.ip, p, cfg.defaults);
    }
    GoodEntriesIff(cfg, entries);
  }

  lemma {:induction false} GoodEntriesIff(cfg: Config, entries: seq<DomainEntry>)
    ensures GoodDomainEntries(cfg, entries) <==> forall e :: e in entries && e.domainEnabled && e.port != 0 ==> ValidPort(e.port)
  {
    if entries != [] {
      var n := |entries| - 1;
      GoodEntriesIff(cfg, entries[..n]);
      assert entries == entries[..n] + [entries[n]];
    }
  }

  /** After every sequential run of the services, whatever failed, each desired TCP or UDP listener serves
      exactly one proxy. */
  lemma RunsShareNoListener(cfg: Config, base: Base, run: seq<(Op, Environment)>, list: seq<Proxy>, entries: seq<DomainEntry>, d: Desired, k: ListenerKey)
    requires Hosts.Lawful(cfg.ip) && AllListenerCare(cfg, map[], run)
    requires base.Valid() && ListsOnce(list, RunOps(cfg, map[], run))
    requires Tallies(base, d, ProxyKeys(cfg, list) + DomainEntryKeys(cfg, entries))
    requires k in d.tcp || k in d.udp
    ensures (k in d.tcp ==> d.tcp[k] == 1) && (k in d.udp ==> d.udp[k] == 1)
    ensures exists id :: OnlyAsker(cfg, RunOps(cfg, map[], run), k, id)
  {
    RunsHaveNoListenerConflict(cfg, run);
    OneProxyPerListener(cfg, base, RunOps(cfg, map[], run), list, entries, d, k);
  }

  lemma AtMostOneAsks(cfg: Config, store: Store, k: ListenerKey)
    requires NoListenerConflict(cfg, store) && (k.protocol.TcpListener? || k.protocol.UdpListener?)
    ensures forall x, y :: x in store && y in store && AsksFor(cfg, store[x], k) && AsksFor(cfg, store[y], k) ==> x == y
  {
    forall x, y | x in store && y in store && AsksFor(cfg, store[x], k) && AsksFor(cfg, store[y], k) ensures x == y {
      SameKeyConflicts(cfg, store[x], store[y]);
    }
  }

  lemma AtMostOneListed(cfg: Config, store: Store, list: seq<Proxy>, k: ListenerKey)
    requires ListsOnce(list, store)
    requires forall x, y :: x in store && y in store && AsksFor(cfg, store[x], k) && AsksFor(cfg, store[y], k) ==> x == y
    ensures AtMostOneIn(cfg, list, k)
  {
    forall i, j | 0 <= i < j < |list| ensures !(AsksFor(cfg, list[i], k) && AsksFor(cfg, list[j], k)) {
      assert list[i].id in store && list[j].id in store && list[i].id != list[j].id;
    }
  }
}
