/** The running listeners, one registry for each protocol, and the reconcile that drives them. */
module ListenerRuntime {
  import opened Options
  import opened Listeners
  import opened Admission
  import opened Reconciler

  /** One listening socket. */
  class Listener {
    const key: ListenerKey
    var open: bool

    constructor (key: ListenerKey)
      ensures this.key == key && open
    {
      this.key := key;
      open := true;
    }

    /** Closing fails for a stuck socket, which is open or closed then. */
    method Close(stuck: bool) returns (ok: bool)
      modifies this
      ensures ok == !stuck
      ensures ok ==> !open
    {
      if stuck {
        open := *;
        return false;
      }
      open := false;
      return true;
    }
  }

  /** What the system makes of sockets: the keys it will not open, and those it will not close. */
  datatype Sockets = Sockets(refused: set<ListenerKey>, stuck: set<ListenerKey>)

  method Listen(key: ListenerKey, sockets: Sockets) returns (res: Option<Listener>)
    ensures res.Some? <==> key !in sockets.refused
    ensures res.Some? ==> fresh(res.value) && res.value.open && res.value.key == key
  {
    if key in sockets.refused {
      return None;
    }
    var listener := new Listener(key);
    return Some(listener);
  }

  type Registry = map<ListenerKey, Listener>

  ghost predicate Keyed(reg: Registry, protocol: ListenerProtocol) {
    forall k :: k in reg ==> k.protocol == protocol && reg[k].key == k
  }

  /** `after` still has what `before` has, and otherwise only wanted listeners, which are in `added`. */
  ghost predicate Grown(before: Registry, after: Registry, wanted: Counts, added: set<Listener>) {
    && (forall k :: k in before ==> k in after && after[k] == before[k])
    && (forall k :: k in after && k !in before ==> k in wanted && after[k] in added)
  }

  /** `after` is what `before` has, without some listeners that were not wanted, which are in `closed`. */
  ghost predicate Shrunk(before: Registry, after: Registry, wanted: Counts, closed: set<Listener>) {
    && (forall k :: k in after ==> k in before && after[k] == before[k])
    && (forall k :: k in before && k !in after ==> k !in wanted && before[k] in closed)
  }

  ghost predicate Has(reg: Registry, wanted: Counts) {
    forall k :: k in wanted ==> k in reg
  }

  ghost predicate CanStart(reg: Registry, wanted: Counts, sockets: Sockets) {
    forall k :: k in wanted && k !in reg ==> k !in sockets.refused
  }

  ghost predicate CanStop(reg: Registry, wanted: Counts, sockets: Sockets) {
    forall k :: k in reg && k !in wanted ==> k !in sockets.stuck
  }

  ghost predicate HasOnly(reg: Registry, wanted: Counts) {
    forall k :: k in reg ==> k in wanted
  }

  ghost predicate AllOpen(listeners: set<Listener>)
    reads listeners
  {
    forall l :: l in listeners ==> l.open
  }

  ghost predicate AllClosed(listeners: set<Listener>)
    reads listeners
  {
    forall l :: l in listeners ==> !l.open
  }

  /** Starts the wanted listeners that are not running; on failure some of them. */
  method StartMissing(reg: Registry, wanted: Counts, sockets: Sockets, ghost protocol: ListenerProtocol)
    returns (reg': Registry, ok: bool, ghost added: set<Listener>)
    requires Keyed(reg, protocol) && forall k :: k in wanted ==> k.protocol == protocol
    ensures Keyed(reg', protocol) && Grown(reg, reg', wanted, added) && fresh(added) && AllOpen(added)
    ensures ok ==> Has(reg', wanted)
    ensures ok <==> CanStart(reg, wanted, sockets)
  {
    reg', added := reg, {};
    var todo := wanted.Keys;
    while todo != {}
      invariant todo <= wanted.Keys
      invariant Keyed(reg', protocol) && Grown(reg, reg', wanted, added) && fresh(added) && AllOpen(added)
      invariant forall k :: k in reg' && k !in reg ==> k !in todo
      invariant forall k :: k in wanted && k !in todo ==> k in reg' && (k !in reg ==> k !in sockets.refused)
    {
      var key :| key in todo;
      todo := todo - {key};
      if key in reg' {
        continue;
      }
      var listener := Listen(key, sockets);
      if listener.None? {
        return reg', false, added;
      }
      added := added + {listener.value};
      reg' := reg'[key := listener.value];
    }
    return reg', true, added;
  }

  /** Closes the running listeners that are not wanted; on failure some of them, the last one failing. */
  method StopObsolete(reg: Registry, wanted: Counts, sockets: Sockets, ghost protocol: ListenerProtocol)
    returns (reg': Registry, ok: bool, ghost closed: set<Listener>)
    requires Keyed(reg, protocol)
    modifies ObsoleteIn(reg, wanted)
    ensures Keyed(reg', protocol) && Shrunk(reg, reg', wanted, closed)
    ensures closed <= ObsoleteIn(reg, wanted) && AllClosed(closed)
    ensures ok ==> HasOnly(reg', wanted)
    ensures ok <==> CanStop(reg, wanted, sockets)
  {
    reg', closed := reg, {};
    var todo := reg.Keys;
    while todo != {}
      invariant todo <= reg'.Keys
      invariant Shrunk(reg, reg', wanted, closed)
      invariant closed <= ObsoleteIn(reg, wanted) && AllClosed(closed)
      invariant forall k :: k in reg && k !in todo ==> k in wanted || (k !in reg' && k !in sockets.stuck)
    {
      var key :| key in todo;
      todo := todo - {key};
      if key in wanted {
        continue;
      }
      var done := reg'[key].Close(key in sockets.stuck);
      if !done {
        closed := closed - {reg[key]};
        return reg', false, closed;
      }
      closed := closed + {reg[key]};
      reg' := reg' - {key};
    }
    return reg', true, closed;
  }

  /** The four registries at one moment. */
  datatype Registries = Registries(tcp: Registry, udp: Registry, http: Registry, https: Registry) {
    function Of(protocol: ListenerProtocol): Registry {
      match protocol
      case TcpListener => tcp
      case UdpListener => udp
      case HttpListener => http
      case HttpsListener => https
    }

    predicate Runs(k: ListenerKey) { k in Of(k.protocol) }

    function At(k: ListenerKey): Listener
      requires Runs(k)
    {
      Of(k.protocol)[k]
    }

    ghost predicate Valid() {
      Keyed(tcp, TcpListener) && Keyed(udp, UdpListener) && Keyed(http, HttpListener) && Keyed(https, HttpsListener)
    }

    ghost function Listeners(): set<Listener> {
      tcp.Values + udp.Values + http.Values + https.Values
    }
  }

  ghost predicate AllGrown(before: Registries, after: Registries, d: Desired, added: set<Listener>) {
    && Grown(before.tcp, after.tcp, d.tcp, added) && Grown(before.udp, after.udp, d.udp, added)
    && Grown(before.http, after.http, d.http, added) && Grown(before.https, after.https, d.https, added)
  }

  ghost predicate AllShrunk(before: Registries, after: Registries, d: Desired, closed: set<Listener>) {
    && Shrunk(before.tcp, after.tcp, d.tcp, closed) && Shrunk(before.udp, after.udp, d.udp, closed)
    && Shrunk(before.http, after.http, d.http, closed) && Shrunk(before.https, after.https, d.https, closed)
  }

  ghost predicate AllCanStart(r: Registries, d: Desired, s: Sockets) {
    CanStart(r.tcp, d.tcp, s) && CanStart(r.udp, d.udp, s) && CanStart(r.http, d.http, s) && CanStart(r.https, d.https, s)
  }

  ghost predicate AllCanStop(r: Registries, d: Desired, s: Sockets) {
    CanStop(r.tcp, d.tcp, s) && CanStop(r.udp, d.udp, s) && CanStop(r.http, d.http, s) && CanStop(r.https, d.https, s)
  }

  ghost predicate AllHave(r: Registries, d: Desired) {
    Has(r.tcp, d.tcp) && Has(r.udp, d.udp) && Has(r.http, d.http) && Has(r.https, d.https)
  }

  ghost predicate AllHaveOnly(r: Registries, d: Desired) {
    HasOnly(r.tcp, d.tcp) && HasOnly(r.udp, d.udp) && HasOnly(r.http, d.http) && HasOnly(r.https, d.https)
  }

  datatype Outcome = Reconciled | NoDesired | StartFailed | StopFailed

  ghost predicate InSync(r: Registries, wanted: set<ListenerKey>) {
    forall k :: r.Runs(k) <==> k in wanted
  }

  ghost predicate Kept(before: Registries, after: Registries, k: ListenerKey) {
    before.Runs(k) && after.Runs(k) && after.At(k) == before.At(k)
  }

  /** What a reconcile does to the registries, by its outcome. */
  ghost predicate Reconciliation(before: Registries, after: Registries, wanted: set<ListenerKey>, outcome: Outcome) {
    && (forall k :: before.Runs(k) && k in wanted ==> Kept(before, after, k))
    && (forall k :: after.Runs(k) ==> Kept(before, after, k) || (!before.Runs(k) && k in wanted))
    && match outcome {
      case Reconciled => InSync(after, wanted)
      case NoDesired => after == before
      case StartFailed => forall k :: before.Runs(k) ==> Kept(before, after, k)
      case StopFailed => forall k :: k in wanted ==> after.Runs(k)
    }
  }

  /** Nothing has gone, and what has come is wanted. */
  ghost predicate Extended(before: Registries, after: Registries, wanted: set<ListenerKey>) {
    && (forall k :: before.Runs(k) ==> Kept(before, after, k))
    && (forall k :: after.Runs(k) && !before.Runs(k) ==> k in wanted)
  }

  /** Nothing has come, and what has gone is not wanted. */
  ghost predicate Reduced(before: Registries, after: Registries, wanted: set<ListenerKey>) {
    && (forall k :: after.Runs(k) ==> Kept(before, after, k))
    && (forall k :: before.Runs(k) && !after.Runs(k) ==> k !in wanted)
  }

  ghost predicate Covers(r: Registries, wanted: set<ListenerKey>) {
    forall k :: k in wanted ==> r.Runs(k)
  }

  ghost predicate Within(r: Registries, wanted: set<ListenerKey>) {
    forall k :: r.Runs(k) ==> k in wanted
  }

  lemma Started(before: Registries, after: Registries, d: Desired, added: set<Listener>, wanted: set<ListenerKey>)
    requires AllGrown(before, after, d, added) && KeysOf(d, wanted)
    ensures Extended(before, after, wanted)
    ensures AllHave(after, d) ==> Covers(after, wanted)
  {
    forall k
      ensures before.Runs(k) ==> Kept(before, after, k)
      ensures after.Runs(k) && !before.Runs(k) ==> k in wanted
      ensures AllHave(after, d) && k in wanted ==> after.Runs(k)
    {
      StartedAt(before, after, d, added, k);
      assert d.Wants(k) <==> k in wanted;
    }
  }

  lemma StartedAt(before: Registries, after: Registries, d: Desired, added: set<Listener>, k: ListenerKey)
    requires AllGrown(before, after, d, added)
    ensures before.Runs(k) ==> Kept(before, after, k)
    ensures after.Runs(k) && !before.Runs(k) ==> d.Wants(k)
    ensures AllHave(after, d) && d.Wants(k) ==> after.Runs(k)
  {
  }

  lemma Stopped(before: Registries, after: Registries, d: Desired, closed: set<Listener>, wanted: set<ListenerKey>)
    requires AllShrunk(before, after, d, closed) && KeysOf(d, wanted)
    ensures Reduced(before, after, wanted)
    ensures AllHaveOnly(after, d) ==> Within(after, wanted)
  {
    forall k
      ensures before.Runs(k) && k in wanted ==> Kept(before, after, k)
      ensures after.Runs(k) ==> Kept(before, after, k)
      ensures AllHaveOnly(after, d) && after.Runs(k) ==> k in wanted
    {
      StoppedAt(before, after, d, closed, k);
      assert d.Wants(k) <==> k in wanted;
    }
  }

  lemma StoppedAt(before: Registries, after: Registries, d: Desired, closed: set<Listener>, k: ListenerKey)
    requires AllShrunk(before, after, d, closed)
    ensures before.Runs(k) && d.Wants(k) ==> Kept(before, after, k)
    ensures after.Runs(k) ==> Kept(before, after, k)
    ensures AllHaveOnly(after, d) && after.Runs(k) ==> d.Wants(k)
  {
  }

  /** The system opens every wanted listener that does not run. */
  ghost predicate Startable(r: Registries, wanted: set<ListenerKey>, sockets: Sockets) {
    forall k :: k in wanted && !r.Runs(k) ==> k !in sockets.refused
  }

  /** The system closes every running listener that is not wanted. */
  ghost predicate Stoppable(r: Registries, wanted: set<ListenerKey>, sockets: Sockets) {
    forall k :: r.Runs(k) && k !in wanted ==> k !in sockets.stuck
  }

  lemma CanStartIff(r: Registries, d: Desired, wanted: set<ListenerKey>, sockets: Sockets)
    requires r.Valid() && SortedKeys(d) && KeysOf(d, wanted)
    ensures AllCanStart(r, d, sockets) <==> Startable(r, wanted, sockets)
  {
    if AllCanStart(r, d, sockets) {
      forall k | k in wanted && !r.Runs(k) ensures k !in sockets.refused {
        assert d.Wants(k);
      }
    }
    if Startable(r, wanted, sockets) {
      CanStartOne(r, d, wanted, sockets, TcpListener);
      CanStartOne(r, d, wanted, sockets, UdpListener);
      CanStartOne(r, d, wanted, sockets, HttpListener);
      CanStartOne(r, d, wanted, sockets, HttpsListener);
    }
  }

  lemma CanStartOne(r: Registries, d: Desired, wanted: set<ListenerKey>, sockets: Sockets, protocol: ListenerProtocol)
    requires SortedKeys(d) && KeysOf(d, wanted) && Startable(r, wanted, sockets)
    ensures CanStart(r.Of(protocol), d.Of(protocol), sockets)
  {
    forall k | k in d.Of(protocol) && k !in r.Of(protocol) ensures k !in sockets.refused {
      assert d.Wants(k);
    }
  }

  lemma CanStopIff(r: Registries, d: Desired, wanted: set<ListenerKey>, sockets: Sockets)
    requires r.Valid() && SortedKeys(d) && KeysOf(d, wanted)
    ensures AllCanStop(r, d, sockets) <==> Stoppable(r, wanted, sockets)
  {
    if AllCanStop(r, d, sockets) {
      forall k | r.Runs(k) && k !in wanted ensures k !in sockets.stuck {
        assert !d.Wants(k);
      }
    }
    if Stoppable(r, wanted, sockets) {
      CanStopOne(r, d, wanted, sockets, TcpListener);
      CanStopOne(r, d, wanted, sockets, UdpListener);
      CanStopOne(r, d, wanted, sockets, HttpListener);
      CanStopOne(r, d, wanted, sockets, HttpsListener);
    }
  }

  lemma CanStopOne(r: Registries, d: Desired, wanted: set<ListenerKey>, sockets: Sockets, protocol: ListenerProtocol)
    requires r.Valid() && KeysOf(d, wanted) && Stoppable(r, wanted, sockets)
    ensures CanStop(r.Of(protocol), d.Of(protocol), sockets)
  {
    forall k | k in r.Of(protocol) && k !in d.Of(protocol) ensures k !in sockets.stuck {
      assert k.protocol == protocol && r.Runs(k) && !d.Wants(k);
    }
  }

  /** How a reconcile ends. */
  ghost function OutcomeOf(r: Registries, wanted: set<ListenerKey>, sockets: Sockets): Outcome {
    if !Startable(r, wanted, sockets) then StartFailed
    else if !Stoppable(r, wanted, sockets) then StopFailed
    else Reconciled
  }

  lemma StartedThenStopped(before: Registries, mid: Registries, after: Registries, wanted: set<ListenerKey>, outcome: Outcome)
    requires Extended(before, mid, wanted) && Covers(mid, wanted) && Reduced(mid, after, wanted)
    requires outcome.StopFailed? || (outcome.Reconciled? && Within(after, wanted))
    ensures Reconciliation(before, after, wanted, outcome)
  {
    forall k
      ensures before.Runs(k) && k in wanted ==> Kept(before, after, k)
      ensures after.Runs(k) ==> Kept(before, after, k) || (!before.Runs(k) && k in wanted)
      ensures k in wanted ==> after.Runs(k)
    {
    }
  }

  lemma GrownRegistry(before: Registry, after: Registry, wanted: Counts, added: set<Listener>)
    requires Grown(before, after, wanted, added)
    ensures after.Values <= before.Values + added && before.Values <= after.Values
    ensures ObsoleteIn(after, wanted) <= ObsoleteIn(before, wanted)
  {
    forall l | l in before.Values ensures l in after.Values {
      var k :| k in before && before[k] == l;
      assert after[k] == l;
    }
  }

  /** Starting makes no listener obsolete. */
  lemma GrownListeners(before: Registries, after: Registries, d: Desired, added: set<Listener>)
    requires AllGrown(before, after, d, added)
    ensures before.Listeners() <= after.Listeners() <= before.Listeners() + added
    ensures ObsoleteOf(after, d) <= ObsoleteOf(before, d)
  {
    GrownRegistry(before.tcp, after.tcp, d.tcp, added);
    GrownRegistry(before.udp, after.udp, d.udp, added);
    GrownRegistry(before.http, after.http, d.http, added);
    GrownRegistry(before.https, after.https, d.https, added);
  }

  lemma ShrunkRegistry(before: Registry, after: Registry, wanted: Counts, closed: set<Listener>)
    requires Shrunk(before, after, wanted, closed)
    ensures after.Values <= before.Values <= after.Values + closed
  {
    forall l | l in before.Values ensures l in after.Values + closed {
      var k :| k in before && before[k] == l;
      assert k in after ==> after[k] == l;
    }
  }

  lemma ShrunkListeners(before: Registries, after: Registries, d: Desired, closed: set<Listener>)
    requires AllShrunk(before, after, d, closed)
    ensures after.Listeners() <= before.Listeners() <= after.Listeners() + closed
  {
    ShrunkRegistry(before.tcp, after.tcp, d.tcp, closed);
    ShrunkRegistry(before.udp, after.udp, d.udp, closed);
    ShrunkRegistry(before.http, after.http, d.http, closed);
    ShrunkRegistry(before.https, after.https, d.https, closed);
  }

  lemma DisjointRegistries(r: Registries)
    requires r.Valid()
    ensures (r.tcp.Values + r.udp.Values) !! (r.http.Values + r.https.Values)
    ensures r.tcp.Values !! r.udp.Values && r.http.Values !! r.https.Values
  {
    assert forall l :: l in r.tcp.Values ==> l.key.protocol.TcpListener?;
    assert forall l :: l in r.udp.Values ==> l.key.protocol.UdpListener?;
    assert forall l :: l in r.http.Values ==> l.key.protocol.HttpListener?;
    assert forall l :: l in r.https.Values ==> l.key.protocol.HttpsListener?;
  }

  lemma ExtendedStops(before: Registries, after: Registries, wanted: set<ListenerKey>, sockets: Sockets)
    requires Extended(before, after, wanted)
    ensures Stoppable(after, wanted, sockets) <==> Stoppable(before, wanted, sockets)
  {
    if Stoppable(after, wanted, sockets) {
      forall k | before.Runs(k) && k !in wanted ensures k !in sockets.stuck {
        assert Kept(before, after, k);
      }
    }
  }

  lemma DisjointObsolete(r: Registries, d: Desired)
    requires r.Valid()
    ensures (ObsoleteIn(r.tcp, d.tcp) + ObsoleteIn(r.udp, d.udp)) !! (ObsoleteIn(r.http, d.http) + ObsoleteIn(r.https, d.https))
  {
    DisjointRegistries(r);
    assert ObsoleteIn(r.tcp, d.tcp) <= r.tcp.Values && ObsoleteIn(r.udp, d.udp) <= r.udp.Values;
    assert ObsoleteIn(r.http, d.http) <= r.http.Values && ObsoleteIn(r.https, d.https) <= r.https.Values;
  }

  /** No obsolete listener has a wanted key. */
  lemma ObsoleteAreListeners(r: Registries, d: Desired, wanted: set<ListenerKey>)
    requires r.Valid() && KeysOf(d, wanted)
    ensures ObsoleteOf(r, d) <= r.Listeners()
    ensures forall l :: l in ObsoleteOf(r, d) ==> l.key !in wanted
  {
    forall l | l in ObsoleteOf(r, d) ensures l in r.Listeners() && l.key !in wanted {
      assert d.Wants(l.key) <==> l.key in wanted;
    }
  }

  lemma SameRegistry(r: Registries, s: Registries, protocol: ListenerProtocol)
    requires Keyed(r.Of(protocol), protocol) && Keyed(s.Of(protocol), protocol)
    requires forall k :: r.Runs(k) || s.Runs(k) ==> Kept(r, s, k)
    ensures r.Of(protocol) == s.Of(protocol)
  {
    assert forall k :: k in r.Of(protocol) || k in s.Of(protocol) ==> Kept(r, s, k);
  }

  lemma SameRunning(r: Registries, s: Registries)
    requires r.Valid() && s.Valid()
    requires forall k :: r.Runs(k) || s.Runs(k) ==> Kept(r, s, k)
    ensures r == s
  {
    SameRegistry(r, s, TcpListener);
    SameRegistry(r, s, UdpListener);
    SameRegistry(r, s, HttpListener);
    SameRegistry(r, s, HttpsListener);
  }

  /** Reconciling what is in sync cannot fail. */
  lemma RepeatSucceeds(before: Registries, wanted: set<ListenerKey>, sockets: Sockets)
    requires InSync(before, wanted)
    ensures OutcomeOf(before, wanted, sockets) == Reconciled
  {
  }

  lemma ListenersRun(r: Registries, l: Listener)
    requires r.Valid() && l in r.Listeners()
    ensures r.Runs(l.key) && r.At(l.key) == l
  {
  }

  /** When a failure closed nothing, a successful reconcile to what ran before touches nothing that ran. */
  lemma UntouchedListeners(before: Registries, mid: Registries, wanted: set<ListenerKey>, wantedBefore: set<ListenerKey>, first: Outcome, l: Listener)
    requires before.Valid() && mid.Valid() && InSync(before, wantedBefore) && l in before.Listeners()
    requires (first.StartFailed? || first.NoDesired?) && Reconciliation(before, mid, wanted, first)
    ensures l in mid.Listeners() && l.key in wantedBefore
  {
    ListenersRun(before, l);
    if first.StartFailed? {
      assert Kept(before, mid, l.key);
    }
  }

  /** Reconciling what is in sync changes no registry. */
  lemma RepeatChangesNothing(before: Registries, after: Registries, wanted: set<ListenerKey>, outcome: Outcome)
    requires before.Valid() && after.Valid() && InSync(before, wanted)
    requires Reconciliation(before, after, wanted, outcome)
    ensures after == before
  {
    SameRunning(before, after);
  }

  /** A failure that closed nothing, followed by a successful reconcile to what ran before, leaves exactly
      the listeners that ran before, as the same objects. */
  lemma UndoRestoresListeners(before: Registries, mid: Registries, after: Registries,
                              wanted: set<ListenerKey>, wantedBefore: set<ListenerKey>, first: Outcome)
    requires before.Valid() && after.Valid() && InSync(before, wantedBefore)
    requires (first.StartFailed? || first.NoDesired?) && Reconciliation(before, mid, wanted, first)
    requires Reconciliation(mid, after, wantedBefore, Reconciled)
    ensures after == before
  {
    forall k | before.Runs(k) || after.Runs(k) ensures Kept(before, after, k) {
      if first.StartFailed? {
        assert Kept(before, mid, k);
      }
      assert Kept(mid, after, k);
    }
    SameRunning(before, after);
  }

  /** Starts the missing TCP and UDP listeners. */
  method StartStreams(r: Registries, d: Desired, sockets: Sockets) returns (r': Registries, ok: bool, ghost added: set<Listener>)
    requires r.Valid() && SortedKeys(d)
    ensures r'.Valid() && fresh(added) && AllOpen(added) && r' == r.(tcp := r'.tcp, udp := r'.udp)
    ensures Grown(r.tcp, r'.tcp, d.tcp, added) && Grown(r.udp, r'.udp, d.udp, added)
    ensures ok ==> Has(r'.tcp, d.tcp) && Has(r'.udp, d.udp)
    ensures ok <==> CanStart(r.tcp, d.tcp, sockets) && CanStart(r.udp, d.udp, sockets)
  {
    var tcp, udp := r.tcp, r.udp;
    tcp, ok, added := StartMissing(tcp, d.tcp, sockets, TcpListener);
    if ok {
      ghost var more;
      udp, ok, more := StartMissing(udp, d.udp, sockets, UdpListener);
      added := added + more;
    }
    r' := r.(tcp := tcp, udp := udp);
  }

  /** Starts the missing HTTP and HTTPS listeners. */
  method StartWeb(r: Registries, d: Desired, sockets: Sockets) returns (r': Registries, ok: bool, ghost added: set<Listener>)
    requires r.Valid() && SortedKeys(d)
    ensures r'.Valid() && fresh(added) && AllOpen(added) && r' == r.(http := r'.http, https := r'.https)
    ensures Grown(r.http, r'.http, d.http, added) && Grown(r.https, r'.https, d.https, added)
    ensures ok ==> Has(r'.http, d.http) && Has(r'.https, d.https)
    ensures ok <==> CanStart(r.http, d.http, sockets) && CanStart(r.https, d.https, sockets)
  {
    var http, https := r.http, r.https;
    http, ok, added := StartMissing(http, d.http, sockets, HttpListener);
    if ok {
      ghost var more;
      https, ok, more := StartMissing(https, d.https, sockets, HttpsListener);
      added := added + more;
    }
    r' := r.(http := http, https := https);
  }

  method StartAll(r: Registries, d: Desired, sockets: Sockets) returns (r': Registries, ok: bool, ghost added: set<Listener>)
    requires r.Valid() && SortedKeys(d)
    ensures r'.Valid() && fresh(added) && AllOpen(added) && AllGrown(r, r', d, added)
    ensures ok ==> AllHave(r', d)
    ensures ok <==> AllCanStart(r, d, sockets)
  {
    r', ok, added := StartStreams(r, d, sockets);
    if ok {
      ghost var more;
      r', ok, more := StartWeb(r', d, sockets);
      added := added + more;
    }
  }

  /** Stops the TCP and UDP listeners that are not wanted. */
  method StopStreams(r: Registries, d: Desired, sockets: Sockets) returns (r': Registries, ok: bool, ghost closed: set<Listener>)
    requires r.Valid()
    modifies ObsoleteIn(r.tcp, d.tcp), ObsoleteIn(r.udp, d.udp)
    ensures r'.Valid() && r' == r.(tcp := r'.tcp, udp := r'.udp)
    ensures Shrunk(r.tcp, r'.tcp, d.tcp, closed) && Shrunk(r.udp, r'.udp, d.udp, closed)
    ensures closed <= ObsoleteIn(r.tcp, d.tcp) + ObsoleteIn(r.udp, d.udp) && AllClosed(closed)
    ensures ok ==> HasOnly(r'.tcp, d.tcp) && HasOnly(r'.udp, d.udp)
    ensures ok <==> CanStop(r.tcp, d.tcp, sockets) && CanStop(r.udp, d.udp, sockets)
  {
    DisjointRegistries(r);
    var tcp, udp := r.tcp, r.udp;
    tcp, ok, closed := StopObsolete(tcp, d.tcp, sockets, TcpListener);
    if ok {
      ghost var more;
      udp, ok, more := StopObsolete(udp, d.udp, sockets, UdpListener);
      closed := closed + more;
    }
    r' := r.(tcp := tcp, udp := udp);
  }

  /** Stops the HTTP and HTTPS listeners that are not wanted. */
  method StopWeb(r: Registries, d: Desired, sockets: Sockets) returns (r': Registries, ok: bool, ghost closed: set<Listener>)
    requires r.Valid()
    modifies ObsoleteIn(r.http, d.http), ObsoleteIn(r.https, d.https)
    ensures r'.Valid() && r' == r.(http := r'.http, https := r'.https)
    ensures Shrunk(r.http, r'.http, d.http, closed) && Shrunk(r.https, r'.https, d.https, closed)
    ensures closed <= ObsoleteIn(r.http, d.http) + ObsoleteIn(r.https, d.https) && AllClosed(closed)
    ensures ok ==> HasOnly(r'.http, d.http) && HasOnly(r'.https, d.https)
    ensures ok <==> CanStop(r.http, d.http, sockets) && CanStop(r.https, d.https, sockets)
  {
    DisjointRegistries(r);
    var http, https := r.http, r.https;
    http, ok, closed := StopObsolete(http, d.http, sockets, HttpListener);
    if ok {
      ghost var more;
      https, ok, more := StopObsolete(https, d.https, sockets, HttpsListener);
      closed := closed + more;
    }
    r' := r.(http := http, https := https);
  }

  method StopAll(r: Registries, d: Desired, sockets: Sockets) returns (r': Registries, ok: bool, ghost closed: set<Listener>)
    requires r.Valid()
    modifies ObsoleteOf(r, d)
    ensures r'.Valid() && AllShrunk(r, r', d, closed) && AllClosed(closed)
    ensures ok ==> AllHaveOnly(r', d)
    ensures ok <==> AllCanStop(r, d, sockets)
  {
    DisjointObsolete(r, d);
    r', ok, closed := StopStreams(r, d, sockets);
    if ok {
      ghost var more;
      r', ok, more := StopWeb(r', d, sockets);
      closed := closed + more;
    }
  }

  method StartWanted(r: Registries, d: Desired, sockets: Sockets, ghost wanted: set<ListenerKey>)
    returns (r': Registries, ok: bool, ghost added: set<Listener>)
    requires r.Valid() && SortedKeys(d) && KeysOf(d, wanted)
    ensures r'.Valid() && Extended(r, r', wanted)
    ensures ok ==> Covers(r', wanted)
    ensures ok <==> Startable(r, wanted, sockets)
    ensures fresh(added) && AllOpen(added) && r.Listeners() <= r'.Listeners() <= r.Listeners() + added
    ensures ObsoleteOf(r', d) <= ObsoleteOf(r, d)
  {
    CanStartIff(r, d, wanted, sockets);
    r', ok, added := StartAll(r, d, sockets);
    Started(r, r', d, added, wanted);
    GrownListeners(r, r', d, added);
  }

  method StopUnwanted(r: Registries, d: Desired, sockets: Sockets, ghost wanted: set<ListenerKey>) returns (r': Registries, ok: bool)
    requires r.Valid() && SortedKeys(d) && KeysOf(d, wanted)
    modifies ObsoleteOf(r, d)
    ensures r'.Valid() && Reduced(r, r', wanted)
    ensures ok ==> Within(r', wanted)
    ensures ok <==> Stoppable(r, wanted, sockets)
    ensures r'.Listeners() <= r.Listeners() && AllClosed(r.Listeners() - r'.Listeners())
  {
    CanStopIff(r, d, wanted, sockets);
    ghost var closed;
    r', ok, closed := StopAll(r, d, sockets);
    Stopped(r, r', d, closed, wanted);
    ShrunkListeners(r, r', d, closed);
  }

  /** The part of the reconcile that touches sockets: first start, then stop. */
  method Drive(r: Registries, d: Desired, sockets: Sockets, ghost wanted: set<ListenerKey>, ghost running: set<Listener>)
    returns (r': Registries, outcome: Outcome, ghost added: set<Listener>)
    requires r.Valid() && SortedKeys(d) && KeysOf(d, wanted) && running == r.Listeners()
    modifies running
    ensures r'.Valid() && !outcome.NoDesired? && Reconciliation(r, r', wanted, outcome)
    ensures outcome == OutcomeOf(r, wanted, sockets)
    ensures fresh(added) && AllOpen(added) && r'.Listeners() <= running + added
    ensures forall l :: l in running && (outcome.StartFailed? || l.key in wanted) ==> l.open == old(l.open)
    ensures AllClosed(running - r'.Listeners())
  {
    var ok;
    r', ok, added := StartWanted(r, d, sockets, wanted);
    assert added !! running;
    if !ok {
      return r', StartFailed, added;
    }
    ExtendedStops(r, r', wanted, sockets);
    ObsoleteAreListeners(r, d, wanted);
    ghost var mid := r';
    r', ok := StopUnwanted(r', d, sockets, wanted);
    outcome := if ok then Reconciled else StopFailed;
    StartedThenStopped(r, mid, r', wanted, outcome);
  }

  class ServerRuntime {
    const cfg: Config
    const base: Base
    var listeners: Registries
    ghost var running: set<Listener>

    constructor (cfg: Config, base: Base)
      requires base.Valid()
      ensures Valid() && this.cfg == cfg && this.base == base && listeners == Registries(map[], map[], map[], map[])
    {
      this.cfg, this.base, listeners, running := cfg, base, Registries(map[], map[], map[], map[]), {};
    }

    ghost predicate Valid()
      reads this
    {
      base.Valid() && listeners.Valid() && running == listeners.Listeners()
    }

    /** Drives the running listeners to those the store asks for. When they already are, nothing is
        started or closed; until every missing one has started, nothing is closed. */
    method ReconcileProxyListeners(ghost store: Store, proxies: seq<Proxy>, entries: seq<DomainEntry>, sockets: Sockets) returns (outcome: Outcome)
      requires Valid() && ListsStore(proxies, store)
      modifies this, running
      ensures Valid()
      ensures outcome.NoDesired? <==> !StoreHasListeners(cfg, store, entries)
      ensures Reconciliation(old(listeners), listeners, WantedKeys(cfg, base, store, entries), outcome)
      ensures !outcome.NoDesired? ==> outcome == OutcomeOf(old(listeners), WantedKeys(cfg, base, store, entries), sockets)
      ensures fresh(running - old(running)) && AllOpen(running - old(running)) && AllClosed(old(running) - running)
      ensures forall l :: l in old(running) && (outcome.StartFailed? || outcome.NoDesired? || l.key in WantedKeys(cfg, base, store, entries)) ==> l.open == old(l.open)
    {
      ghost var wanted := WantedKeys(cfg, base, store, entries);
      GoodListIsGoodStore(cfg, proxies, store);
      var desired := DesiredProxyListeners(cfg, base, proxies, entries);
      if desired.None? {
        return NoDesired;
      }
      DesiredAreWanted(cfg, base, proxies, store, entries, desired.value);
      ghost var added;
      listeners, outcome, added := Drive(listeners, desired.value, sockets, wanted, running);
      running := listeners.Listeners();
    }
  }

  ghost function ObsoleteOf(r: Registries, d: Desired): set<Listener> {
    ObsoleteIn(r.tcp, d.tcp) + ObsoleteIn(r.udp, d.udp) + ObsoleteIn(r.http, d.http) + ObsoleteIn(r.https, d.https)
  }

  ghost function ObsoleteIn(reg: Registry, wanted: Counts): set<Listener> {
    set k | k in reg && k !in wanted :: reg[k]
  }
}
