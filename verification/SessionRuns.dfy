/** What the session registry keeps over every run of its operations. */
module SessionRuns {
  import opened Options
  import opened Sessions

  datatype Event =
    | RegisterEvent(input: RegisterInput, now: int)
    | HeartbeatEvent(beat: HeartbeatInput, now: int)
    | CloseEvent(id: string, now: int)
    | ExpiryEvent(now: int, timeout: int)

  /** The registry, with how many registrations there have been and how often each session was
      reported as ended: replaced by a registration, closed with `true`, or expired. */
  datatype History = History(reg: Registry, registrations: nat, ended: multiset<string>)

  const EMPTY := History(Registry(map[], map[], 0), 0, multiset{})

  /** Session ids are never reused; `newSessionID` draws them at random. */
  predicate Fresh(reg: Registry, e: Event) {
    e.RegisterEvent? ==> e.input.sessionId !in reg.byID
  }

  function After(h: History, e: Event): History {
    var reg := h.reg;
    match e
    case RegisterEvent(input, now) =>
      if RegisterProblem(input).Some? then h
      else
        History(AfterRegister(reg, input, now), h.registrations + 1,
                h.ended + if input.clientId in reg.latest then multiset{reg.latest[input.clientId]} else multiset{})
    case HeartbeatEvent(beat, now) => h.(reg := AfterHeartbeat(reg, beat, now))
    case CloseEvent(id, now) =>
      h.(reg := AfterClose(reg, id, now), ended := h.ended + if CloseEnds(reg, id) then multiset{id} else multiset{})
    case ExpiryEvent(now, timeout) =>
      h.(reg := AfterMarkExpired(reg, now, timeout), ended := h.ended + multiset(OverdueIds(reg, now, timeout)))
  }

  predicate AllFresh(h: History, events: seq<Event>)
    decreases |events|
  {
    events == [] || (Fresh(h.reg, events[0]) && AllFresh(After(h, events[0]), events[1..]))
  }

  function RunAll(h: History, events: seq<Event>): History
    decreases |events|
  {
    if events == [] then h else RunAll(After(h, events[0]), events[1..])
  }

  // ---------- the index ----------

  /** The index names `id` for its client exactly when session `id` is active. */
  ghost predicate IndexOk(reg: Registry) {
    && (forall c :: c in reg.latest ==> reg.latest[c] in reg.byID && reg.byID[reg.latest[c]].clientId == c && reg.byID[reg.latest[c]].Active())
    && (forall id :: id in reg.byID && reg.byID[id].Active() ==> IsLatest(reg, reg.byID[id].clientId, id))
  }

  ghost predicate RecordsOk(reg: Registry) {
    && (forall id :: id in reg.byID ==> reg.byID[id].id == id && reg.byID[id].generation <= reg.nextGeneration)
    && (forall id :: id in reg.byID ==> !(reg.byID[id].replacedAt.Some? && reg.byID[id].closedAt.Some?))
  }

  /** An active session is the newest of its client's sessions, and no two share a generation. */
  ghost predicate GenerationsOk(reg: Registry) {
    && (forall x, y :: x in reg.byID && y in reg.byID && x != y ==> reg.byID[x].generation != reg.byID[y].generation)
    && (forall x, y :: x in reg.byID && y in reg.byID && reg.byID[x].Active() && reg.byID[y].clientId == reg.byID[x].clientId
          ==> reg.byID[y].generation <= reg.byID[x].generation)
  }

  ghost predicate EndsOk(h: History) {
    && (forall id :: h.ended[id] == if id in h.reg.byID && !h.reg.byID[id].Active() then 1 else 0)
    && h.registrations == |h.reg.byID|
  }

  ghost predicate Inv(h: History) {
    IndexOk(h.reg) && RecordsOk(h.reg) && GenerationsOk(h.reg) && EndsOk(h)
  }

  lemma RegisterIndexOk(reg: Registry, input: RegisterInput, now: int)
    requires IndexOk(reg) && input.sessionId !in reg.byID
    ensures IndexOk(AfterRegister(reg, input, now))
  {
  }

  lemma CloseIndexOk(reg: Registry, id: string, now: int)
    requires IndexOk(reg)
    ensures IndexOk(AfterClose(reg, id, now))
  {
  }

  lemma ExpiryIndexOk(reg: Registry, now: int, timeout: int)
    requires IndexOk(reg)
    ensures IndexOk(AfterMarkExpired(reg, now, timeout))
  {
  }

  /** `s'` is a later version of record `s`: who it belongs to is fixed, and an ended record is frozen. */
  predicate LaterVersion(s: Session, s': Session) {
    && s'.id == s.id && s'.clientId == s.clientId && s'.generation == s.generation
    && (!s.Active() ==> s' == s)
    && (s.Active() ==> s'.replacedAt.None? || s'.closedAt.None?)
  }

  /** No record is lost and every record moves forward. */
  ghost predicate Evolves(reg: Registry, reg': Registry) {
    reg.byID.Keys <= reg'.byID.Keys
    && forall id :: id in reg.byID ==> LaterVersion(reg.byID[id], reg'.byID[id])
  }

  lemma StepEvolves(h: History, e: Event)
    requires IndexOk(h.reg) && RecordsOk(h.reg) && Fresh(h.reg, e)
    ensures Evolves(h.reg, After(h, e).reg)
  {
    if e.RegisterEvent? && RegisterProblem(e.input).None? {
      RegisterEvolves(h.reg, e.input, e.now);
    }
  }

  lemma RegisterEvolves(reg: Registry, input: RegisterInput, now: int)
    requires IndexOk(reg) && RecordsOk(reg) && input.sessionId !in reg.byID
    ensures Evolves(reg, AfterRegister(reg, input, now))
  {
  }

  /** Operations that add no session. */
  lemma EvolvedRecordsOk(reg: Registry, reg': Registry)
    requires RecordsOk(reg) && GenerationsOk(reg)
    requires Evolves(reg, reg') && reg'.byID.Keys == reg.byID.Keys && reg'.nextGeneration == reg.nextGeneration
    ensures RecordsOk(reg') && GenerationsOk(reg')
  {
    forall id | id in reg'.byID
      ensures reg'.byID[id].id == id && reg'.byID[id].generation <= reg'.nextGeneration
      ensures !(reg'.byID[id].replacedAt.Some? && reg'.byID[id].closedAt.Some?)
    {
      assert LaterVersion(reg.byID[id], reg'.byID[id]);
    }
    forall x, y | x in reg'.byID && y in reg'.byID
      ensures x != y ==> reg'.byID[x].generation != reg'.byID[y].generation
      ensures reg'.byID[x].Active() && reg'.byID[y].clientId == reg'.byID[x].clientId ==> reg'.byID[y].generation <= reg'.byID[x].generation
    {
      assert LaterVersion(reg.byID[x], reg'.byID[x]) && LaterVersion(reg.byID[y], reg'.byID[y]);
    }
  }

  /** A registration adds a session that is newer than every other. */
  lemma RegisterRecordsOk(reg: Registry, input: RegisterInput, now: int)
    requires IndexOk(reg) && RecordsOk(reg) && GenerationsOk(reg) && input.sessionId !in reg.byID
    ensures RecordsOk(AfterRegister(reg, input, now)) && GenerationsOk(AfterRegister(reg, input, now))
  {
    var reg' := AfterRegister(reg, input, now);
    var newId := input.sessionId;
    RegisterEvolves(reg, input, now);
    RegisterIndexOk(reg, input, now);
    assert IsLatest(reg', input.clientId, newId);
    forall id | id in reg'.byID
      ensures reg'.byID[id].id == id && reg'.byID[id].generation <= reg'.nextGeneration
      ensures !(reg'.byID[id].replacedAt.Some? && reg'.byID[id].closedAt.Some?)
      ensures id != newId ==> reg'.byID[id].generation < reg'.byID[newId].generation
    {
      if id != newId { assert LaterVersion(reg.byID[id], reg'.byID[id]); }
    }
    forall x, y | x in reg'.byID && y in reg'.byID
      ensures x != y ==> reg'.byID[x].generation != reg'.byID[y].generation
      ensures reg'.byID[x].Active() && reg'.byID[y].clientId == reg'.byID[x].clientId ==> reg'.byID[y].generation <= reg'.byID[x].generation
    {
      if x != newId && y != newId {
        assert LaterVersion(reg.byID[x], reg'.byID[x]) && LaterVersion(reg.byID[y], reg'.byID[y]);
      }
    }
  }

  lemma StepRecordsOk(h: History, e: Event)
    requires IndexOk(h.reg) && RecordsOk(h.reg) && GenerationsOk(h.reg) && Fresh(h.reg, e)
    ensures RecordsOk(After(h, e).reg) && GenerationsOk(After(h, e).reg)
  {
    if e.RegisterEvent? {
      if RegisterProblem(e.input).None? { RegisterRecordsOk(h.reg, e.input, e.now); }
    } else {
      StepEvolves(h, e);
      EvolvedRecordsOk(h.reg, After(h, e).reg);
    }
  }

  lemma HeartbeatIndexOk(reg: Registry, beat: HeartbeatInput, now: int)
    requires IndexOk(reg)
    ensures IndexOk(AfterHeartbeat(reg, beat, now))
  {
  }

  lemma StepIndexOk(h: History, e: Event)
    requires IndexOk(h.reg) && Fresh(h.reg, e)
    ensures IndexOk(After(h, e).reg)
  {
    match e
    case RegisterEvent(input, now) => if RegisterProblem(input).None? { RegisterIndexOk(h.reg, input, now); }
    case HeartbeatEvent(beat, now) => HeartbeatIndexOk(h.reg, beat, now);
    case CloseEvent(id, now) => CloseIndexOk(h.reg, id, now);
    case ExpiryEvent(now, timeout) => ExpiryIndexOk(h.reg, now, timeout);
  }

  // ---------- endings ----------

  /** Each operation reports exactly the sessions it takes from active to ended. */
  lemma StepEndsOk(h: History, e: Event)
    requires IndexOk(h.reg) && EndsOk(h) && Fresh(h.reg, e)
    ensures EndsOk(After(h, e))
  {
    match e
    case RegisterEvent(input, now) => if RegisterProblem(input).None? { RegisterEndsOk(h, input, now); }
    case HeartbeatEvent(beat, now) =>
    case CloseEvent(id, now) => CloseEndsOk(h, id, now);
    case ExpiryEvent(now, timeout) => ExpiryEndsOk(h, now, timeout);
  }

  lemma RegisterEndsOk(h: History, input: RegisterInput, now: int)
    requires IndexOk(h.reg) && EndsOk(h) && input.sessionId !in h.reg.byID && RegisterProblem(input).None?
    ensures EndsOk(After(h, RegisterEvent(input, now)))
  {
    var reg' := AfterRegister(h.reg, input, now);
    assert reg'.byID.Keys == h.reg.byID.Keys + {input.sessionId};
  }

  lemma CloseEndsOk(h: History, id: string, now: int)
    requires IndexOk(h.reg) && EndsOk(h)
    ensures EndsOk(After(h, CloseEvent(id, now)))
  {
    assert AfterClose(h.reg, id, now).byID.Keys == h.reg.byID.Keys;
  }

  lemma ExpiryEndsOk(h: History, now: int, timeout: int)
    requires IndexOk(h.reg) && EndsOk(h)
    ensures EndsOk(After(h, ExpiryEvent(now, timeout)))
  {
    assert AfterMarkExpired(h.reg, now, timeout).byID.Keys == h.reg.byID.Keys;
  }

  // ---------- runs ----------

  lemma StepKeepsInv(h: History, e: Event)
    requires Inv(h) && Fresh(h.reg, e)
    ensures Inv(After(h, e))
  {
    StepIndexOk(h, e);
    StepRecordsOk(h, e);
    StepEndsOk(h, e);
  }

  lemma {:induction false} RunKeepsInv(h: History, events: seq<Event>)
    requires Inv(h) && AllFresh(h, events)
    ensures Inv(RunAll(h, events))
    decreases |events|
  {
    if events != [] {
      StepKeepsInv(h, events[0]);
      RunKeepsInv(After(h, events[0]), events[1..]);
    }
  }

  /** Over every run with fresh ids: the index names `id` for `c` exactly when session `id` belongs to
      `c` and is neither replaced nor closed, that session is the newest of its client, and what
      `SnapshotLatest` reports is exactly the active sessions. */
  lemma IndexIsExact(events: seq<Event>, c: string, id: string)
    requires AllFresh(EMPTY, events)
    ensures var reg := RunAll(EMPTY, events).reg;
      && (IsLatest(reg, c, id) <==> id in reg.byID && reg.byID[id].clientId == c && reg.byID[id].Active())
      && (IsLatest(reg, c, id) ==> forall other :: other in reg.byID && reg.byID[other].clientId == c ==> reg.byID[other].generation <= reg.byID[id].generation)
      && (c in ActiveByClient(reg) && ActiveByClient(reg)[c].id == id <==> id in reg.byID && reg.byID[id].clientId == c && reg.byID[id].Active())
  {
    RunKeepsInv(EMPTY, events);
  }

  /** Over every run with fresh ids each session is reported as ended once if it has ended and never
      before, and registrations = active + replaced + closed. */
  lemma EndedAtMostOnce(events: seq<Event>, id: string)
    requires AllFresh(EMPTY, events)
    ensures var h := RunAll(EMPTY, events);
      && h.ended[id] == (if id in h.reg.byID && !h.reg.byID[id].Active() then 1 else 0)
      && h.registrations == |ActiveIds(h.reg)| + |ReplacedIds(h.reg)| + |ClosedIds(h.reg)|
  {
    RunKeepsInv(EMPTY, events);
    EverySessionCounted(RunAll(EMPTY, events).reg);
  }

  lemma EverySessionCounted(reg: Registry)
    requires RecordsOk(reg)
    ensures |reg.byID| == |ActiveIds(reg)| + |ReplacedIds(reg)| + |ClosedIds(reg)|
  {
    var ended := ReplacedIds(reg) + ClosedIds(reg);
    assert ReplacedIds(reg) !! ClosedIds(reg);
    assert ActiveIds(reg) !! ended;
    assert reg.byID.Keys == ActiveIds(reg) + ended;
  }

  function ActiveIds(reg: Registry): set<string> { set id | id in reg.byID && reg.byID[id].Active() }

  function ReplacedIds(reg: Registry): set<string> { set id | id in reg.byID && reg.byID[id].replacedAt.Some? }

  function ClosedIds(reg: Registry): set<string> { set id | id in reg.byID && reg.byID[id].closedAt.Some? }

  /** Once ended, a record never changes again. */
  lemma {:induction false} EndedRecordsAreFrozen(h: History, events: seq<Event>, id: string)
    requires Inv(h) && AllFresh(h, events)
    requires id in h.reg.byID && !h.reg.byID[id].Active()
    ensures id in RunAll(h, events).reg.byID && RunAll(h, events).reg.byID[id] == h.reg.byID[id]
    decreases |events|
  {
    if events != [] {
      StepKeepsInv(h, events[0]);
      StepEvolves(h, events[0]);
      EndedRecordsAreFrozen(After(h, events[0]), events[1..], id);
    }
  }

  /** Expiry closes exactly the active, non-persistent, overdue sessions, leaves every other record and
      index entry alone, and leaves nothing overdue. */
  lemma ExpiryIsExact(reg: Registry, now: int, timeout: int, id: string, c: string)
    requires IndexOk(reg) && RecordsOk(reg)
    ensures var reg' := AfterMarkExpired(reg, now, timeout);
      && reg'.byID.Keys == reg.byID.Keys
      && (id in reg.byID ==> reg'.byID[id] == if id in OverdueIds(reg, now, timeout) then reg.byID[id].(closedAt := Some(now)) else reg.byID[id])
      && (c in reg'.latest <==> c in reg.latest && reg.latest[c] !in OverdueIds(reg, now, timeout))
      && (c in reg'.latest ==> reg'.latest[c] == reg.latest[c])
      && OverdueIds(reg', now, timeout) == {}
  {
  }

  /** Without fresh ids the index survives a registration exactly when the id was not that of another
      client's active session. */
  lemma RegisterKeepsIndexIff(reg: Registry, input: RegisterInput, now: int)
    requires IndexOk(reg)
    ensures IndexOk(AfterRegister(reg, input, now)) <==>
      !(input.sessionId in reg.byID && reg.byID[input.sessionId].Active() && reg.byID[input.sessionId].clientId != input.clientId)
  {
    var id := input.sessionId;
    var reg' := AfterRegister(reg, input, now);
    if id in reg.byID && reg.byID[id].Active() && reg.byID[id].clientId != input.clientId {
      var d := reg.byID[id].clientId;
      assert reg'.latest[d] == id && reg'.byID[id].clientId != d;
    }
  }

  // ---------- what the events say of a session ----------

  /** A session as its events tell it: how and when it was registered, its last accepted heartbeat, the time
      of the later of the two, when it ended, and whether by being replaced. */
  datatype Log = Log(input: RegisterInput, at: int, beat: Option<HeartbeatInput>, lastSign: int, endedAt: Option<int>, replaced: bool)

  /** A registration is taken when it has its three ids and names one of the two protocols. */
  predicate Acceptable(input: RegisterInput) {
    input.sessionId != "" && input.clientId != "" && input.userId != "" && input.protocol in {"quic", "tcp_tls"}
  }

  /** Whether event `e` ends a session that has not ended: it replaces it, closes it, or comes more than the
      timeout after its last sign of life. A timeout outside 64 bits is always over, or never. */
  predicate EndedBy(id: string, log: Log, e: Event) {
    match e
    case RegisterEvent(input, _) => Acceptable(input) && input.clientId == log.input.clientId
    case HeartbeatEvent(_, _) => false
    case CloseEvent(closed, _) => closed == id
    case ExpiryEvent(now, timeout) =>
      !log.input.persistent && timeout < MAX_DURATION && (timeout < MIN_DURATION || now - log.lastSign > timeout)
  }

  predicate BeatBy(id: string, e: Event) {
    e.HeartbeatEvent? && e.beat.sessionId == id
  }

  /** What event `e` adds to what is known of session `id`. */
  function Hear(id: string, log: Log, e: Event): Log {
    if log.endedAt.Some? then log
    else if EndedBy(id, log, e) then log.(endedAt := Some(e.now), replaced := e.RegisterEvent?)
    else if BeatBy(id, e) then log.(beat := Some(e.beat), lastSign := e.now)
    else log
  }

  function LogAfter(logs: map<string, Log>, e: Event): map<string, Log> {
    var logs' := map id | id in logs :: Hear(id, logs[id], e);
    if e.RegisterEvent? && Acceptable(e.input) then logs'[e.input.sessionId := Log(e.input, e.now, None, e.now, None, false)] else logs'
  }

  /** The sessions as the events alone tell them. */
  function LogsOf(logs: map<string, Log>, events: seq<Event>): map<string, Log>
    decreases |events|
  {
    if events == [] then logs else LogsOf(LogAfter(logs, events[0]), events[1..])
  }

  /** The record says what the events say. */
  predicate Told(s: Session, log: Log) {
    && s.clientId == log.input.clientId && s.userId == log.input.userId && s.protocol == log.input.protocol
    && s.clientKind == (if log.input.clientKind == "" then "provider" else log.input.clientKind)
    && s.opener == log.input.opener && s.persistent == log.input.persistent
    && s.connectedAt == log.at && s.lastHeartbeat == log.lastSign
    && s.configVersion == (if log.beat.Some? then log.beat.value.configVersion else log.input.configVersion)
    && s.stats == (if log.beat.Some? then log.beat.value.stats else NO_STATS)
    && s.replacedAt == (if log.replaced then log.endedAt else None)
    && s.closedAt == (if log.replaced then None else log.endedAt)
  }

  ghost predicate AllTold(reg: Registry, logs: map<string, Log>) {
    logs.Keys == reg.byID.Keys && forall id :: id in logs ==> Told(reg.byID[id], logs[id])
  }

  lemma StepTells(h: History, logs: map<string, Log>, e: Event)
    requires IndexOk(h.reg) && AllTold(h.reg, logs) && Fresh(h.reg, e)
    ensures AllTold(After(h, e).reg, LogAfter(logs, e))
  {
    match e
    case RegisterEvent(input, now) => if RegisterProblem(input).None? { RegisterTells(h, logs, input, now); }
    case HeartbeatEvent(beat, now) => HeartbeatTells(h, logs, beat, now);
    case CloseEvent(id, now) => CloseTells(h, logs, id, now);
    case ExpiryEvent(now, timeout) => ExpiryTells(h, logs, now, timeout);
  }

  /** Whose record a registration replaces. */
  predicate IsReplaced(reg: Registry, input: RegisterInput, id: string) {
    input.clientId in reg.latest && reg.latest[input.clientId] == id
  }

  lemma RegisterTells(h: History, logs: map<string, Log>, input: RegisterInput, now: int)
    requires IndexOk(h.reg) && AllTold(h.reg, logs) && input.sessionId !in h.reg.byID && RegisterProblem(input).None?
    ensures AllTold(AfterRegister(h.reg, input, now), LogAfter(logs, RegisterEvent(input, now)))
  {
    var reg', logs' := AfterRegister(h.reg, input, now), LogAfter(logs, RegisterEvent(input, now));
    assert reg'.byID.Keys == h.reg.byID.Keys + {input.sessionId};
    assert logs'.Keys == logs.Keys + {input.sessionId};
    forall id | id in logs' ensures Told(reg'.byID[id], logs'[id]) {
      if id != input.sessionId {
        RegisterRecord(h.reg, input, now, id);
        RegisterHeard(h.reg, input, now, id, logs[id]);
      }
    }
  }

  lemma RegisterHeard(reg: Registry, input: RegisterInput, now: int, id: string, log: Log)
    requires IndexOk(reg) && id in reg.byID && Told(reg.byID[id], log) && RegisterProblem(input).None?
    ensures Told(if IsReplaced(reg, input, id) then reg.byID[id].(replacedAt := Some(now)) else reg.byID[id],
      Hear(id, log, RegisterEvent(input, now)))
  {
  }

  lemma RegisterRecord(reg: Registry, input: RegisterInput, now: int, id: string)
    requires id in reg.byID && id != input.sessionId
    ensures id in AfterRegister(reg, input, now).byID
    ensures AfterRegister(reg, input, now).byID[id] == if IsReplaced(reg, input, id) then reg.byID[id].(replacedAt := Some(now)) else reg.byID[id]
  {
  }

  lemma HeartbeatTells(h: History, logs: map<string, Log>, beat: HeartbeatInput, now: int)
    requires AllTold(h.reg, logs)
    ensures AllTold(AfterHeartbeat(h.reg, beat, now), LogAfter(logs, HeartbeatEvent(beat, now)))
  {
    var reg', logs' := AfterHeartbeat(h.reg, beat, now), LogAfter(logs, HeartbeatEvent(beat, now));
    assert reg'.byID.Keys == h.reg.byID.Keys;
    assert logs'.Keys == logs.Keys;
    forall id | id in logs' ensures Told(reg'.byID[id], logs'[id]) {
      HeartbeatHeard(h.reg, beat, now, id, logs[id]);
    }
  }

  lemma HeartbeatHeard(reg: Registry, beat: HeartbeatInput, now: int, id: string, log: Log)
    requires id in reg.byID && Told(reg.byID[id], log)
    ensures id in AfterHeartbeat(reg, beat, now).byID
    ensures Told(AfterHeartbeat(reg, beat, now).byID[id], Hear(id, log, HeartbeatEvent(beat, now)))
  {
  }

  lemma CloseTells(h: History, logs: map<string, Log>, id: string, now: int)
    requires IndexOk(h.reg) && AllTold(h.reg, logs)
    ensures AllTold(AfterClose(h.reg, id, now), LogAfter(logs, CloseEvent(id, now)))
  {
    var reg', logs' := AfterClose(h.reg, id, now), LogAfter(logs, CloseEvent(id, now));
    assert reg'.byID.Keys == h.reg.byID.Keys;
    forall x | x in logs' ensures Told(reg'.byID[x], logs'[x]) {
      CloseRecord(h.reg, id, now, x);
      CloseHeard(h.reg, id, now, x, logs[x]);
    }
  }

  lemma CloseHeard(reg: Registry, id: string, now: int, x: string, log: Log)
    requires IndexOk(reg) && x in reg.byID && Told(reg.byID[x], log)
    ensures Told(if x == id && CloseEnds(reg, id) then reg.byID[x].(closedAt := Some(now)) else reg.byID[x],
      Hear(x, log, CloseEvent(id, now)))
  {
  }

  lemma CloseRecord(reg: Registry, id: string, now: int, x: string)
    requires IndexOk(reg) && x in reg.byID
    ensures x in AfterClose(reg, id, now).byID
    ensures AfterClose(reg, id, now).byID[x] == if x == id && CloseEnds(reg, id) then reg.byID[x].(closedAt := Some(now)) else reg.byID[x]
    ensures x == id && CloseEnds(reg, id) ==> reg.byID[x].Active()
  {
  }

  lemma ExpiryTells(h: History, logs: map<string, Log>, now: int, timeout: int)
    requires AllTold(h.reg, logs)
    ensures AllTold(AfterMarkExpired(h.reg, now, timeout), LogAfter(logs, ExpiryEvent(now, timeout)))
  {
    var reg', logs' := AfterMarkExpired(h.reg, now, timeout), LogAfter(logs, ExpiryEvent(now, timeout));
    forall x | x in logs' ensures Told(reg'.byID[x], logs'[x]) {
      ExpiryHeard(h.reg, now, timeout, x, logs[x]);
    }
  }

  lemma ExpiryHeard(reg: Registry, now: int, timeout: int, x: string, log: Log)
    requires x in reg.byID && Told(reg.byID[x], log)
    ensures Told(AfterMarkExpired(reg, now, timeout).byID[x], Hear(x, log, ExpiryEvent(now, timeout)))
  {
  }

  lemma {:induction false} RunTells(h: History, logs: map<string, Log>, events: seq<Event>)
    requires Inv(h) && AllTold(h.reg, logs) && AllFresh(h, events)
    ensures AllTold(RunAll(h, events).reg, LogsOf(logs, events))
    decreases |events|
  {
    if events != [] {
      StepKeepsInv(h, events[0]);
      StepTells(h, logs, events[0]);
      RunTells(After(h, events[0]), LogAfter(logs, events[0]), events[1..]);
    }
  }

  /** Over every run with fresh ids the registry holds what the events alone say: for each session who
      registered it and how, its last heartbeat before it ended and what that carried, and when it ended; and
      the index names a client's session exactly while that has not ended. */
  lemma RecordsFollowEvents(events: seq<Event>, id: string, c: string)
    requires AllFresh(EMPTY, events)
    ensures var reg, logs := RunAll(EMPTY, events).reg, LogsOf(map[], events);
      && (id in reg.byID <==> id in logs) && (id in reg.byID ==> Told(reg.byID[id], logs[id]))
      && (IsLatest(reg, c, id) <==> id in logs && logs[id].endedAt.None? && logs[id].input.clientId == c)
  {
    RunTells(EMPTY, map[], events);
    IndexIsExact(events, c, id);
  }

  /** After any run, expiry ends a session that has not ended exactly when it was not registered as persistent
      and its registration or last accepted heartbeat is more than `timeout` ago; never with the longest timeout. */
  lemma ExpiryFollowsEvents(events: seq<Event>, now: int, timeout: int, id: string)
    requires AllFresh(EMPTY, events) && MIN_DURATION <= timeout <= MAX_DURATION
    requires id in LogsOf(map[], events) && LogsOf(map[], events)[id].endedAt.None?
    ensures var h, log := RunAll(EMPTY, events), LogsOf(map[], events)[id];
      var h' := After(h, ExpiryEvent(now, timeout));
      && id in h.reg.byID && id in h'.reg.byID
      && (!h'.reg.byID[id].Active() <==> !log.input.persistent && now - log.lastSign > timeout && timeout < MAX_DURATION)
      && (h'.ended[id] == 1 <==> !log.input.persistent && now - log.lastSign > timeout && timeout < MAX_DURATION)
  {
    RecordsFollowEvents(events, id, "");
    RunKeepsInv(EMPTY, events);
    ExpiryOfOne(RunAll(EMPTY, events), now, timeout, id);
  }

  lemma ExpiryOfOne(h: History, now: int, timeout: int, id: string)
    requires EndsOk(h) && id in h.reg.byID && h.reg.byID[id].Active() && MIN_DURATION <= timeout <= MAX_DURATION
    ensures var h', s := After(h, ExpiryEvent(now, timeout)), h.reg.byID[id];
      && id in h'.reg.byID
      && (!h'.reg.byID[id].Active() <==> !s.persistent && now - s.lastHeartbeat > timeout && timeout < MAX_DURATION)
      && (h'.ended[id] == 1 <==> !s.persistent && now - s.lastHeartbeat > timeout && timeout < MAX_DURATION)
  {
    assert h.ended[id] == 0;
  }
}
