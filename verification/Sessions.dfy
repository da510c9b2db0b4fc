/**
 The session registry: every control session by id, and an index from each client to its latest
 session. `Manager` updates both maps in place; the functions on `Registry` say what each operation
 makes of them, and module SessionRuns proves what they keep over every run.
 */
module Sessions {
  import opened Options

  const MAX_DURATION: int := 0x7FFF_FFFF_FFFF_FFFF
  const MIN_DURATION: int := -0x8000_0000_0000_0000

  datatype HeartbeatStats = HeartbeatStats(activeProxies: int, activeStreams: int, uploadBytes: int, downloadBytes: int, errorSummary: string)

  const NO_STATS := HeartbeatStats(0, 0, 0, 0, "")

  /** Times are nanoseconds; `opener` names the stream opener a session was registered with. */
  datatype Session = Session(
    id: string,
    clientId: string,
    userId: string,
    clientKind: string,
    protocol: string,
    generation: int,
    configVersion: int,
    connectedAt: int,
    lastHeartbeat: int,
    replacedAt: Option<int>,
    closedAt: Option<int>,
    stats: HeartbeatStats,
    opener: nat,
    persistent: bool)
  {
    predicate Active() { replacedAt.None? && closedAt.None? }
  }

  const NO_SESSION := Session("", "", "", "", "", 0, 0, 0, 0, None, None, NO_STATS, 0, false)

  datatype RegisterInput = RegisterInput(
    sessionId: string,
    clientId: string,
    userId: string,
    clientKind: string,
    protocol: string,
    configVersion: int,
    opener: nat,
    persistent: bool)

  datatype HeartbeatInput = HeartbeatInput(sessionId: string, configVersion: int, stats: HeartbeatStats)

  datatype RegisterError = SessionIdRequired | ClientIdRequired | UserIdRequired | ProtocolInvalid

  datatype Registry = Registry(byID: map<string, Session>, latest: map<string, string>, nextGeneration: int)

  // ---------- what the operations do ----------

  function RegisterProblem(input: RegisterInput): Option<RegisterError> {
    if input.sessionId == "" then Some(SessionIdRequired)
    else if input.clientId == "" then Some(ClientIdRequired)
    else if input.userId == "" then Some(UserIdRequired)
    else if input.protocol != "quic" && input.protocol != "tcp_tls" then Some(ProtocolInvalid)
    else None
  }

  function NewSession(input: RegisterInput, generation: int, now: int): Session {
    Session(input.sessionId, input.clientId, input.userId,
            if input.clientKind == "" then "provider" else input.clientKind,
            input.protocol, generation, input.configVersion, now, now, None, None, NO_STATS, input.opener, input.persistent)
  }

  /** A lookup in a Go map: a missing key reads as the zero session. */
  function Lookup(reg: Registry, id: string): Session {
    if id in reg.byID then reg.byID[id] else NO_SESSION
  }

  /** The session the client had until now, marked as replaced. */
  function Replaced(reg: Registry, clientId: string, now: int): Option<Session> {
    if clientId in reg.latest then Some(Lookup(reg, reg.latest[clientId]).(replacedAt := Some(now))) else None
  }

  function AfterRegister(reg: Registry, input: RegisterInput, now: int): Registry {
    var session := NewSession(input, reg.nextGeneration + 1, now);
    var byID := if input.clientId in reg.latest
      then reg.byID[reg.latest[input.clientId] := Replaced(reg, input.clientId, now).value] else reg.byID;
    Registry(byID[session.id := session], reg.latest[session.clientId := session.id], reg.nextGeneration + 1)
  }

  predicate CanBeat(reg: Registry, id: string) {
    id in reg.byID && reg.byID[id].Active()
  }

  function AfterHeartbeat(reg: Registry, input: HeartbeatInput, now: int): Registry {
    if !CanBeat(reg, input.sessionId) then reg
    else
      var session := reg.byID[input.sessionId].(lastHeartbeat := now, configVersion := input.configVersion, stats := input.stats);
      reg.(byID := reg.byID[input.sessionId := session])
  }

  predicate IsLatest(reg: Registry, clientId: string, id: string) {
    clientId in reg.latest && reg.latest[clientId] == id
  }

  function AfterClose(reg: Registry, id: string, now: int): Registry {
    if id !in reg.byID || reg.byID[id].replacedAt.Some? then reg
    else
      var session := reg.byID[id];
      var session' := if session.closedAt.None? then session.(closedAt := Some(now)) else session;
      reg.(byID := reg.byID[id := session'],
           latest := if IsLatest(reg, session.clientId, id) then reg.latest - {session.clientId} else reg.latest)
  }

  /** Whether `Close` reports that it ended the client's latest session. */
  predicate CloseEnds(reg: Registry, id: string) {
    id in reg.byID && reg.byID[id].replacedAt.None? && IsLatest(reg, reg.byID[id].clientId, id)
  }

  /** `time.Time.Sub` saturates at the ends of int64. */
  function Sub(now: int, earlier: int): int {
    var d := now - earlier;
    if d > MAX_DURATION then MAX_DURATION else if d < MIN_DURATION then MIN_DURATION else d
  }

  predicate Overdue(session: Session, now: int, timeout: int) {
    !session.persistent && session.Active() && Sub(now, session.lastHeartbeat) > timeout
  }

  function OverdueIds(reg: Registry, now: int, timeout: int): set<string> {
    set id | id in reg.byID && Overdue(reg.byID[id], now, timeout)
  }

  function Expire(reg: Registry, ids: set<string>, now: int): Registry {
    reg.(byID := map id | id in reg.byID :: if id in ids then reg.byID[id].(closedAt := Some(now)) else reg.byID[id],
         latest := map c | c in reg.latest && !(reg.latest[c] in ids && Lookup(reg, reg.latest[c]).clientId == c) :: reg.latest[c])
  }

  function AfterMarkExpired(reg: Registry, now: int, timeout: int): Registry {
    Expire(reg, OverdueIds(reg, now, timeout), now)
  }

  // ---------- the object ----------

  datatype RegisterResult = Registered(session: Session, replaced: Option<Session>) | RegisterFailed(error: RegisterError)

  datatype CloseResult = Closed(session: Session, wasLatest: bool) | NotFound

  class Manager {
    var nextGeneration: int
    var byID: map<string, Session>
    var latestByClient: map<string, string>

    function State(): Registry
      reads this
    {
      Registry(byID, latestByClient, nextGeneration)
    }

    constructor ()
      ensures State() == Registry(map[], map[], 0)
    {
      nextGeneration, byID, latestByClient := 0, map[], map[];
    }

    method Register(input: RegisterInput, now: int) returns (res: RegisterResult)
      modifies this
      ensures RegisterProblem(input).Some? ==> res == RegisterFailed(RegisterProblem(input).value) && State() == old(State())
      ensures RegisterProblem(input).None? ==>
        && State() == AfterRegister(old(State()), input, now)
        && res == Registered(State().byID[input.sessionId], Replaced(old(State()), input.clientId, now))
    {
      var problem := RegisterProblem(input);
      if problem.Some? {
        return RegisterFailed(problem.value);
      }
      nextGeneration := nextGeneration + 1;
      var session := NewSession(input, nextGeneration, now);
      var replaced: Option<Session> := None;
      if input.clientId in latestByClient {
        var previousId := latestByClient[input.clientId];
        var previous := if previousId in byID then byID[previousId] else NO_SESSION;
        previous := previous.(replacedAt := Some(now));
        byID := byID[previousId := previous];
        replaced := Some(previous);
      }
      byID := byID[session.id := session];
      latestByClient := latestByClient[session.clientId := session.id];
      return Registered(session, replaced);
    }

    method Heartbeat(input: HeartbeatInput, now: int) returns (res: Option<Session>)
      modifies this
      ensures State() == AfterHeartbeat(old(State()), input, now)
      ensures res == if CanBeat(old(State()), input.sessionId) then Some(State().byID[input.sessionId]) else None
    {
      if input.sessionId !in byID {
        return None;
      }
      var session := byID[input.sessionId];
      if session.replacedAt.Some? || session.closedAt.Some? {
        return None;
      }
      session := session.(lastHeartbeat := now, configVersion := input.configVersion, stats := input.stats);
      byID := byID[input.sessionId := session];
      return Some(session);
    }

    method Close(sessionId: string, now: int) returns (res: CloseResult)
      modifies this
      ensures State() == AfterClose(old(State()), sessionId, now)
      ensures res == if sessionId in old(byID) then Closed(byID[sessionId], CloseEnds(old(State()), sessionId)) else NotFound
    {
      if sessionId !in byID {
        return NotFound;
      }
      var session := byID[sessionId];
      if session.replacedAt.Some? {
        return Closed(session, false);
      }
      if session.closedAt.None? {
        session := session.(closedAt := Some(now));
        byID := byID[sessionId := session];
      }
      assert byID == old(byID)[sessionId := session];
      var isLatest := session.clientId in latestByClient && latestByClient[session.clientId] == sessionId;
      if isLatest {
        latestByClient := latestByClient - {session.clientId};
      }
      return Closed(session, isLatest);
    }

    method Latest(clientId: string) returns (res: Option<Session>)
      ensures res == if clientId in latestByClient then Some(Lookup(State(), latestByClient[clientId])) else None
    {
      if clientId !in latestByClient {
        return None;
      }
      var id := latestByClient[clientId];
      return Some(if id in byID then byID[id] else NO_SESSION);
    }

    /** The active sessions the index names, each client's once, in the order `clients`, which is arbitrary. */
    method SnapshotLatest() returns (sessions: seq<Session>, ghost clients: seq<string>)
      ensures |sessions| == |ActiveByClient(State())|
      ensures forall s :: s in sessions <==> s in ActiveByClient(State()).Values
      ensures Lists(clients, ActiveByClient(State()).Keys)
      ensures Reports(sessions, clients, ActiveByClient(State()))
    {
      sessions, clients := [], [];
      var todo := latestByClient.Keys;
      ghost var active := ActiveByClient(State());
      ghost var done: set<string> := {};
      while todo != {}
        invariant todo <= latestByClient.Keys && done == active.Keys - todo
        invariant Lists(clients, done) && Reports(sessions, clients, active)
        decreases |todo|
      {
        var c :| c in todo;
        var id := latestByClient[c];
        ReportedOneMore(sessions, clients, active, todo, c);
        todo := todo - {c};
        if id in byID && byID[id].Active() {
          sessions, clients, done := sessions + [byID[id]], clients + [c], done + {c};
        }
      }
      assert done == active.Keys;
      ReportsAll(sessions, clients, active);
    }

    /** The body of the loop in `MarkExpired`, for a session that is overdue. */
    method ExpireSession(id: string, now: int) returns (session: Session)
      requires id in byID
      modifies this
      ensures session == old(byID)[id].(closedAt := Some(now))
      ensures State() == ExpireOne(old(State()), id, now)
    {
      session := byID[id].(closedAt := Some(now));
      byID := byID[id := session];
      if session.clientId in latestByClient && latestByClient[session.clientId] == id {
        latestByClient := latestByClient - {session.clientId};
      }
    }

    /** Closes every overdue session and returns them in the order `ids`, which is arbitrary. */
    method MarkExpired(now: int, timeout: int) returns (expired: seq<Session>, ghost ids: seq<string>)
      modifies this
      ensures State() == AfterMarkExpired(old(State()), now, timeout)
      ensures Lists(ids, OverdueIds(old(State()), now, timeout))
      ensures Reports(expired, ids, State().byID)
    {
      expired, ids := [], [];
      var todo := byID.Keys;
      ghost var was := State();
      ghost var overdue := OverdueIds(was, now, timeout);
      ghost var after := AfterMarkExpired(was, now, timeout).byID;
      ghost var done: set<string> := {};
      ExpireNone(was, now);
      while todo != {}
        invariant todo <= was.byID.Keys && done == overdue - todo
        invariant State() == Expire(was, done, now)
        invariant Lists(ids, done)
        invariant Reports(expired, ids, after)
        decreases |todo|
      {
        var id :| id in todo;
        var current := byID[id];
        assert current == was.byID[id];
        OneLessToDo(overdue, todo, id);
        if !current.persistent && current.Active() && Sub(now, current.lastHeartbeat) > timeout {
          ExpireOneMore(was, done, id, now);
          ListsOneMore(ids, done, id);
          ReportsOneMore(expired, ids, after, id);
          current := ExpireSession(id, now);
          expired, ids, done := expired + [current], ids + [id], done + {id};
        }
        todo := todo - {id};
      }
      assert done == overdue;
    }
  }

  /** `xs` has every member of `s`, once each, and nothing else. */
  ghost predicate Lists<T>(xs: seq<T>, s: set<T>) {
    && |xs| == |s|
    && (forall i :: 0 <= i < |xs| ==> xs[i] in s)
    && (forall i, j :: 0 <= i < j < |xs| ==> xs[i] != xs[j])
  }

  lemma OneLessToDo<T>(all: set<T>, todo: set<T>, x: T)
    requires x in todo
    ensures all - (todo - {x}) == if x in all then (all - todo) + {x} else all - todo
    ensures x !in all - todo
  {
  }

  lemma ListsOneMore<T>(xs: seq<T>, s: set<T>, x: T)
    requires Lists(xs, s) && x !in s
    ensures Lists(xs + [x], s + {x})
  {
  }

  /** `sessions` are what `view` has under `keys`, in that order. */
  ghost predicate Reports(sessions: seq<Session>, keys: seq<string>, view: map<string, Session>) {
    |sessions| == |keys| && forall i :: 0 <= i < |keys| ==> keys[i] in view && sessions[i] == view[keys[i]]
  }

  lemma ReportsOneMore(sessions: seq<Session>, keys: seq<string>, view: map<string, Session>, key: string)
    requires Reports(sessions, keys, view) && key in view
    ensures Reports(sessions + [view[key]], keys + [key], view)
  {
  }

  lemma {:induction false} ListsEveryMember<T>(xs: seq<T>, s: set<T>, x: T)
    requires Lists(xs, s) && x in s
    ensures x in xs
    decreases |xs|
  {
    var n := |xs| - 1;
    if xs[n] != x {
      ListsEveryMember(xs[..n], s - {xs[n]}, x);
      assert x in xs[..n];
    }
  }

  lemma ReportsAll(sessions: seq<Session>, keys: seq<string>, view: map<string, Session>)
    requires Lists(keys, view.Keys) && Reports(sessions, keys, view)
    ensures |sessions| == |view|
    ensures forall s :: s in sessions <==> s in view.Values
  {
    forall s | s in view.Values ensures s in sessions {
      var k :| k in view && view[k] == s;
      ListsEveryMember(keys, view.Keys, k);
      var i :| 0 <= i < |keys| && keys[i] == k;
      assert sessions[i] == s;
    }
  }

  /** One turn of the loop in `SnapshotLatest`. */
  lemma ReportedOneMore(sessions: seq<Session>, keys: seq<string>, view: map<string, Session>, todo: set<string>, c: string)
    requires c in todo && Lists(keys, view.Keys - todo) && Reports(sessions, keys, view)
    ensures c in view ==>
      && view.Keys - (todo - {c}) == (view.Keys - todo) + {c}
      && Lists(keys + [c], (view.Keys - todo) + {c}) && Reports(sessions + [view[c]], keys + [c], view)
    ensures c !in view ==> view.Keys - (todo - {c}) == view.Keys - todo
  {
    OneLessToDo(view.Keys, todo, c);
    if c in view {
      ListsOneMore(keys, view.Keys - todo, c);
      ReportsOneMore(sessions, keys, view, c);
    }
  }

  /** The sessions `SnapshotLatest` reports, by client. */
  function ActiveByClient(reg: Registry): map<string, Session> {
    map c | c in reg.latest && reg.latest[c] in reg.byID && reg.byID[reg.latest[c]].Active() :: reg.byID[reg.latest[c]]
  }

  function ExpireOne(reg: Registry, id: string, now: int): Registry
    requires id in reg.byID
  {
    var session := reg.byID[id].(closedAt := Some(now));
    reg.(byID := reg.byID[id := session],
         latest := if IsLatest(reg, session.clientId, id) then reg.latest - {session.clientId} else reg.latest)
  }

  lemma ExpireNone(reg: Registry, now: int)
    ensures Expire(reg, {}, now) == reg
  {
  }

  /** Expiring one session more is what one turn of the loop in `MarkExpired` does. */
  lemma ExpireOneMore(reg: Registry, ids: set<string>, id: string, now: int)
    requires id in reg.byID && id !in ids
    ensures Expire(reg, ids + {id}, now) == ExpireOne(Expire(reg, ids, now), id, now)
  {
  }
}
