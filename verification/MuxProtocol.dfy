/**
 The stream multiplexer that carries every control and proxy stream of one TCP+TLS
 connection, as a two-party protocol.

 `Mux` is what one side keeps behind its lock. `Endpoint` adds the goroutines that run on it:
 the read loop, every call in flight (at the statement it has reached), and a `closeAll` that
 has detached the streams but not finished them all. `Apply` is one atomic step of one side:
 one critical section, one channel operation, or one whole frame written under `writeMu`.
 Which step comes next, on which side, is left open, so a run is any interleaving.
 */
module MuxProtocol {
  import opened Bytes

  const MAX_MUX_STREAMS := 256
  const ACCEPT_CAPACITY := 128
  const INBOUND_CAPACITY := 32
  const MAX_MUX_PAYLOAD := 32768
  const TWO_TO_THE_64 := 0x1_0000_0000_0000_0000

  datatype ResetReason = InvalidStreamId | DuplicateStreamId | AcceptQueueFull

  datatype Frame =
    | OpenFrame(id: nat)
    | DataFrame(id: nat, payload: seq<byte>)
    | CloseFrame(id: nat)
    | ResetFrame(id: nat, reason: ResetReason)

  /** One `muxStream`. `returned` is every byte `Read` has handed out so far. */
  datatype Stream = Stream(inbound: seq<seq<byte>>, readBuf: seq<byte>, finished: bool, returned: seq<byte>) {
    /** What has been delivered to this stream: bytes already read, then the read buffer, then the queue. */
    function Delivered(): seq<byte> {
      returned + readBuf + Concat(inbound)
    }
  }

  const EMPTY_STREAM := Stream([], [], false, [])

  /** The fields behind `mux.mu`. `table` holds the ids in `mux.streams`; `streams` also keeps the
      stream objects that have left the table, because callers may still hold them. */
  datatype Mux = Mux(
    localId: nat,
    started: bool,
    closed: bool,
    nextId: nat,
    table: set<nat>,
    accept: seq<nat>,
    streams: map<nat, Stream>)

  /** Where one call on the mux or on a stream has got to. */
  datatype Call =
    | OpenReserved(id: nat)                     // OpenStream: id in the table, writeFrame not entered
    | OpenSending(id: nat)                      // OpenStream: past writeFrame's checks
    | WriteHead(id: nat, rest: seq<byte>)       // Write: at the loop head
    | WriteReady(id: nat, rest: seq<byte>)      // Write: stream seen open, writeFrame not entered
    | WriteSending(id: nat, rest: seq<byte>)    // Write: past writeFrame's checks
    | CloseHead(id: nat)                        // Close: writeFrame not entered
    | CloseSending(id: nat)                     // Close: past writeFrame's checks
    | CloseFinishing(id: nat)                   // Close: about to finish the stream
    | CloseRemoving(id: nat)                    // Close: about to leave the table
  {
    predicate IsOpen() { OpenReserved? || OpenSending? }
    predicate IsWrite() { WriteHead? || WriteReady? || WriteSending? }
  }

  /** Where the read loop has got to. */
  datatype Reader =
    | Reading
    | Inserted(id: nat)                         // handleOpen: stream in the table, not yet offered
    | Overflowed(id: nat)                       // handleOpen: accept queue full
    | OverflowFinishing(id: nat)                // handleOpen: removed, not yet finished
    | Resetting(id: nat, reason: ResetReason)   // handleOpen: reset decided, writeFrame not entered
    | ResetSending(id: nat, reason: ResetReason)
    | Delivering(id: nat, payload: seq<byte>)   // deliver: stream found, isClosed not yet tested
    | Offering(id: nat, payload: seq<byte>)     // deliver: in the select
    | Ending(id: nat)                           // remoteClose: about to finish
    | Removing(id: nat)                         // remoteClose: about to leave the table
    | Exited

  /** One side of the connection. `out` is every frame it has put on the wire, `rcv` how many of the
      peer's frames its read loop has taken. `asked` is all data ever passed to `Write` for an id, `raced`
      the ids on which two `Write` calls have overlapped, `closes` those on which `Close` has been called,
      and `accepted` the streams `AcceptStream` has returned, in order. */
  datatype Endpoint = Endpoint(
    mux: Mux,
    calls: map<nat, Call>,
    reader: Reader,
    closing: set<nat>,
    handles: set<nat>,
    out: seq<Frame>,
    rcv: nat,
    dead: bool,
    asked: map<nat, seq<byte>>,
    raced: set<nat>,
    closes: set<nat>,
    accepted: seq<nat>)
  {
    function Asked(id: nat): seq<byte> {
      if id in asked then asked[id] else []
    }
  }

  datatype Action =
    | Start
    | Reserve(call: nat)
    | AcceptOne
    | BeginWrite(call: nat, id: nat, data: seq<byte>)
    | BeginClose(call: nat, id: nat)
    | Advance(call: nat, ok: bool)
    | Fill(id: nat)
    | Copy(id: nat, n: nat)
    | CloseAll
    | FinishOne(id: nat)
    | ConnectionFails
    | Receive
    | ReaderMoves(ok: bool)
    | ReaderExits

  // ---------- critical sections of the mux ----------

  function NewMux(nextId: nat): Mux {
    Mux(nextId % 2, false, false, nextId, {0}, [], map[0 := EMPTY_STREAM])
  }

  /** Two further on, modulo 2^64. */
  function NextId(id: nat): nat {
    (id + 2) % TWO_TO_THE_64
  }

  /** The id `nextAvailableStreamID` settles on: it steps by two, modulo 2^64, past every id in use.
      An id once passed cannot come round again within 2^63 steps, so it may be forgotten. */
  function FirstFree(next: nat, table: set<nat>): (id: nat)
    decreases |table|
  {
    if next !in table then next else FirstFree(NextId(next), table - {next})
  }

  /** The part of `OpenStream` under the lock. */
  function ReserveStream(m: Mux): Mux {
    var id := FirstFree(m.nextId, m.table);
    m.(nextId := NextId(id), table := m.table + {id}, streams := m.streams[id := EMPTY_STREAM])
  }

  /** The insertion `handleOpen` performs under the lock. */
  function InsertStream(m: Mux, id: nat): Mux {
    m.(table := m.table + {id}, streams := m.streams[id := EMPTY_STREAM])
  }

  function RemoveStream(m: Mux, id: nat): Mux {
    if id == 0 then m else m.(table := m.table - {id})
  }

  function FinishStream(m: Mux, id: nat): Mux
    requires id in m.streams
  {
    m.(streams := m.streams[id := m.streams[id].(finished := true)])
  }

  function PushPayload(m: Mux, id: nat, payload: seq<byte>): Mux
    requires id in m.streams
  {
    m.(streams := m.streams[id := m.streams[id].(inbound := m.streams[id].inbound + [payload])])
  }

  function FillBuffer(st: Stream): Stream
    requires st.inbound != []
  {
    st.(inbound := st.inbound[1..], readBuf := st.inbound[0])
  }

  function CopyOut(st: Stream, n: nat): Stream
    requires n <= |st.readBuf|
  {
    st.(readBuf := st.readBuf[n..], returned := st.returned + st.readBuf[..n])
  }

  /** The part of `closeAll` under the lock. */
  function DetachAll(m: Mux): Mux {
    m.(closed := true, table := {})
  }

  function ChunkLength(rest: seq<byte>): nat {
    if |rest| <= MAX_MUX_PAYLOAD then |rest| else MAX_MUX_PAYLOAD
  }

  // ---------- steps of one endpoint ----------

  function NewEndpoint(nextId: nat): Endpoint {
    Endpoint(NewMux(nextId), map[], Reading, {}, {0}, [], 0, false, map[], {}, {}, [])
  }

  predicate Enabled(e: Endpoint, wire: seq<Frame>, a: Action) {
    var m := e.mux;
    match a
    case Start => !m.started && !m.closed
    // The last conjunct says that the 64-bit id counter does not wrap in this run.
    case Reserve(t) => t !in e.calls && m.started && !m.closed && |m.table| < MAX_MUX_STREAMS && m.nextId + 2 < TWO_TO_THE_64
    case AcceptOne => m.accept != []
    case BeginWrite(t, id, _) => t !in e.calls && id in e.handles
    case BeginClose(t, id) => t !in e.calls && id in e.handles
    case Advance(t, ok) => t in e.calls && CallCanAdvance(e, e.calls[t], ok)
    case Fill(id) => id in e.handles && id in m.streams && m.streams[id].readBuf == [] && m.streams[id].inbound != []
    case Copy(id, n) => id in e.handles && id in m.streams && n <= |m.streams[id].readBuf|
    case CloseAll => !m.closed
    case FinishOne(id) => id in e.closing && id in m.streams
    case ConnectionFails => true
    case Receive => m.started && e.reader.Reading? && e.rcv < |wire|
    case ReaderMoves(ok) => ReaderCanMove(e, ok)
    case ReaderExits => m.started && e.reader.Reading? && e.dead
  }

  /** `ok` is the outcome of the test or write the call is about to perform; only OpenStream can be
      cancelled by its context, so only its check may fail on an open mux. */
  predicate CallCanAdvance(e: Endpoint, c: Call, ok: bool) {
    match c
    case OpenReserved(_) => ok ==> !e.mux.closed
    case OpenSending(_) => ok == !e.dead
    case WriteHead(id, rest) => id in e.mux.streams && ok == (rest != [] && !e.mux.streams[id].finished)
    case WriteReady(_, _) => ok == !e.mux.closed
    case WriteSending(_, _) => ok == !e.dead
    case CloseHead(_) => ok == !e.mux.closed
    case CloseSending(_) => ok == !e.dead
    case CloseFinishing(id) => ok && id in e.mux.streams
    case CloseRemoving(_) => ok
  }

  predicate ReaderCanMove(e: Endpoint, ok: bool) {
    var m := e.mux;
    match e.reader
    case Reading => false
    case Exited => false
    case Inserted(_) => if ok then |m.accept| < ACCEPT_CAPACITY else m.closed || |m.accept| >= ACCEPT_CAPACITY
    case Overflowed(_) => ok
    case OverflowFinishing(id) => ok && id in m.streams
    case Resetting(_, _) => ok == !m.closed
    case ResetSending(_, _) => ok == !e.dead
    case Delivering(id, _) => id in m.streams && ok == !m.streams[id].finished
    case Offering(id, _) => id in m.streams && if ok then |m.streams[id].inbound| < INBOUND_CAPACITY else m.streams[id].finished
    case Ending(id) => ok && id in m.streams
    case Removing(_) => ok
  }

  function Apply(e: Endpoint, wire: seq<Frame>, a: Action): Endpoint
    requires Enabled(e, wire, a)
  {
    var m := e.mux;
    match a
    case Start => e.(mux := m.(started := true))
    case Reserve(t) => e.(mux := ReserveStream(m), calls := e.calls[t := OpenReserved(FirstFree(m.nextId, m.table))])
    case AcceptOne => e.(mux := m.(accept := m.accept[1..]), handles := e.handles + {m.accept[0]}, accepted := e.accepted + [m.accept[0]])
    case BeginWrite(t, id, data) => StartWrite(e, t, id, data)
    case BeginClose(t, id) => e.(calls := e.calls[t := CloseHead(id)], closes := e.closes + {id})
    case Advance(t, ok) => AdvanceCall(e, t, ok)
    case Fill(id) => e.(mux := m.(streams := m.streams[id := FillBuffer(m.streams[id])]))
    case Copy(id, n) => e.(mux := m.(streams := m.streams[id := CopyOut(m.streams[id], n)]))
    case CloseAll => e.(mux := DetachAll(m), closing := m.table)
    case FinishOne(id) => e.(mux := FinishStream(m, id), closing := e.closing - {id})
    case ConnectionFails => e.(dead := true)
    case Receive => ReceiveFrame(e, wire[e.rcv])
    case ReaderMoves(ok) => MoveReader(e, ok)
    case ReaderExits => e.(reader := Exited)
  }

  predicate WriteInFlight(e: Endpoint, id: nat) {
    exists t :: t in e.calls && e.calls[t].IsWrite() && e.calls[t].id == id
  }

  function StartWrite(e: Endpoint, t: nat, id: nat, data: seq<byte>): Endpoint {
    e.(calls := e.calls[t := WriteHead(id, data)],
       asked := e.asked[id := e.Asked(id) + data],
       raced := if WriteInFlight(e, id) then e.raced + {id} else e.raced)
  }

  function AdvanceCall(e: Endpoint, t: nat, ok: bool): Endpoint
    requires t in e.calls && CallCanAdvance(e, e.calls[t], ok)
  {
    var done := e.(calls := e.calls - {t});
    match e.calls[t]
    case OpenReserved(id) =>
      if ok then e.(calls := e.calls[t := OpenSending(id)]) else done.(mux := RemoveStream(e.mux, id))
    case OpenSending(id) =>
      if ok then done.(out := e.out + [OpenFrame(id)], handles := e.handles + {id})
      else done.(mux := RemoveStream(e.mux, id))
    case WriteHead(id, rest) =>
      if ok then e.(calls := e.calls[t := WriteReady(id, rest)]) else done
    case WriteReady(id, rest) =>
      if ok then e.(calls := e.calls[t := WriteSending(id, rest)]) else done
    case WriteSending(id, rest) =>
      var n := ChunkLength(rest);
      if ok then e.(out := e.out + [DataFrame(id, rest[..n])], calls := e.calls[t := WriteHead(id, rest[n..])]) else done
    case CloseHead(id) =>
      e.(calls := e.calls[t := if ok then CloseSending(id) else CloseFinishing(id)])
    case CloseSending(id) =>
      var e' := e.(calls := e.calls[t := CloseFinishing(id)]);
      if ok then e'.(out := e.out + [CloseFrame(id)]) else e'
    case CloseFinishing(id) =>
      e.(mux := FinishStream(e.mux, id), calls := e.calls[t := CloseRemoving(id)])
    case CloseRemoving(id) =>
      done.(mux := RemoveStream(e.mux, id))
  }

  /** One turn of `readLoop`, up to the end of the first critical section it enters. */
  function ReceiveFrame(e: Endpoint, f: Frame): Endpoint {
    var m := e.mux;
    var e' := e.(rcv := e.rcv + 1);
    match f
    case OpenFrame(id) =>
      if id == 0 || id % 2 == m.localId then e'.(reader := Resetting(id, InvalidStreamId))
      else if m.closed || |m.table| >= MAX_MUX_STREAMS then e'
      else if id in m.table then e'.(reader := Resetting(id, DuplicateStreamId))
      else e'.(mux := InsertStream(m, id), reader := Inserted(id))
    case DataFrame(id, payload) => if id in m.table then e'.(reader := Delivering(id, payload)) else e'
    case CloseFrame(id) => if id in m.table then e'.(reader := Ending(id)) else e'
    case ResetFrame(id, _) => if id in m.table then e'.(reader := Ending(id)) else e'
  }

  function MoveReader(e: Endpoint, ok: bool): Endpoint
    requires ReaderCanMove(e, ok)
  {
    var m := e.mux;
    match e.reader
    case Inserted(id) =>
      if ok then e.(mux := m.(accept := m.accept + [id]), reader := Reading)
      else e.(reader := if m.closed then Reading else Overflowed(id))
    case Overflowed(id) => e.(mux := RemoveStream(m, id), reader := OverflowFinishing(id))
    case OverflowFinishing(id) => e.(mux := RemoveStream(FinishStream(m, id), id), reader := Resetting(id, AcceptQueueFull))
    case Resetting(id, reason) => e.(reader := if ok then ResetSending(id, reason) else Reading)
    case ResetSending(id, reason) =>
      if ok then e.(out := e.out + [ResetFrame(id, reason)], reader := Reading) else e.(reader := Reading)
    case Delivering(id, payload) => e.(reader := if ok then Offering(id, payload) else Reading)
    case Offering(id, payload) =>
      if ok then e.(mux := PushPayload(m, id, payload), reader := Reading) else e.(reader := Reading)
    case Ending(id) => e.(mux := FinishStream(m, id), reader := Removing(id))
    case Removing(id) => e.(mux := RemoveStream(m, id), reader := Reading)
  }

  // ---------- the two sides together ----------

  /** The server side starts its ids at 1, the client side at 2. */
  datatype Net = Net(server: Endpoint, client: Endpoint)

  datatype Step = ServerStep(a: Action) | ClientStep(a: Action)

  const INITIAL := Net(NewEndpoint(1), NewEndpoint(2))

  predicate StepEnabled(s: Net, step: Step) {
    match step
    case ServerStep(a) => Enabled(s.server, s.client.out, a)
    case ClientStep(a) => Enabled(s.client, s.server.out, a)
  }

  function Take(s: Net, step: Step): Net
    requires StepEnabled(s, step)
  {
    match step
    case ServerStep(a) => s.(server := Apply(s.server, s.client.out, a))
    case ClientStep(a) => s.(client := Apply(s.client, s.server.out, a))
  }

  /** Every step of `steps` is possible where it is taken, starting from `s`. */
  predicate CanRun(s: Net, steps: seq<Step>)
    decreases |steps|
  {
    steps == [] || (StepEnabled(s, steps[0]) && CanRun(Take(s, steps[0]), steps[1..]))
  }

  function Run(s: Net, steps: seq<Step>): Net
    requires CanRun(s, steps)
    decreases |steps|
  {
    if steps == [] then s else Run(Take(s, steps[0]), steps[1..])
  }

  // ---------- what the wire carried ----------

  function PayloadFor(f: Frame, id: nat): seq<byte> {
    if f.DataFrame? && f.id == id then f.payload else []
  }

  /** The bytes `frames` carries for stream `id`, in order. */
  function DataBytes(frames: seq<Frame>, id: nat): seq<byte> {
    if frames == [] then [] else DataBytes(frames[..|frames| - 1], id) + PayloadFor(frames[|frames| - 1], id)
  }
}
