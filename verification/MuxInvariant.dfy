/** What every step of either side keeps, and that every reachable state therefore has it. */
module MuxInvariant {
  import opened Bytes
  import opened MuxProtocol

  /** `id` is one that the side with parity `localId` allocates. */
  predicate OwnId(id: nat, localId: nat) {
    id != 0 && id % 2 == localId
  }

  predicate PeerId(id: nat, localId: nat) {
    id != 0 && id % 2 != localId
  }

  /** The stream is finished, or a running `closeAll` is about to finish it. */
  predicate Settled(e: Endpoint, id: nat) {
    id in e.closing || (id in e.mux.streams && e.mux.streams[id].finished)
  }

  predicate Held(e: Endpoint, id: nat) {
    id in e.mux.table || Settled(e, id)
  }

  // ---------- one side on its own ----------

  ghost predicate TableOk(e: Endpoint) {
    var m := e.mux;
    && m.localId < 2
    && OwnId(m.nextId, m.localId)
    && m.table <= m.streams.Keys
    && e.closing <= m.streams.Keys
    && (if m.closed then m.table == {} else 0 in m.table && |m.table| <= MAX_MUX_STREAMS && e.closing == {})
    && (forall id :: id in m.streams && OwnId(id, m.localId) ==> id < m.nextId)
  }

  /** Streams a caller has, or can take from the accept queue, are in the table or finished. */
  ghost predicate PublishedOk(e: Endpoint) {
    var m := e.mux;
    && 0 in e.handles
    && e.handles <= m.streams.Keys
    && (forall id :: id in e.handles ==> Held(e, id))
    && (forall id :: id in m.accept ==> id in m.streams && PeerId(id, m.localId) && Held(e, id))
  }

  ghost predicate CallOk(e: Endpoint, c: Call) {
    if c.IsOpen() then
      && c.id in e.mux.streams && OwnId(c.id, e.mux.localId)
      && c.id !in e.handles && OpenFrame(c.id) !in e.out
      && Held(e, c.id)
    else
      && c.id in e.handles && c.id in e.mux.streams
      && (c.CloseRemoving? ==> e.mux.streams[c.id].finished)
      && (c.WriteReady? || c.WriteSending? ==> c.rest != [])
  }

  ghost predicate CallsOk(e: Endpoint) {
    && (forall t :: t in e.calls ==> CallOk(e, e.calls[t]))
    && (forall t, u :: t in e.calls && u in e.calls && t != u && e.calls[t].IsOpen() && e.calls[u].IsOpen()
          ==> e.calls[t].id != e.calls[u].id)
  }

  /** A peer's stream that `handleOpen` has not yet handed to anyone. */
  ghost predicate Unpublished(e: Endpoint, id: nat) {
    PeerId(id, e.mux.localId) && id in e.mux.streams && id !in e.handles && id !in e.mux.accept
  }

  ghost predicate ReaderOk(e: Endpoint) {
    match e.reader
    case Reading => true
    case Exited => true
    case Inserted(id) => Unpublished(e, id) && Held(e, id)
    case Overflowed(id) => Unpublished(e, id) && Held(e, id)
    case OverflowFinishing(id) => Unpublished(e, id)
    case Resetting(_, reason) => reason.AcceptQueueFull?
    case ResetSending(_, reason) => reason.AcceptQueueFull?
    case Delivering(id, _) => id in e.mux.streams
    case Offering(id, _) => id in e.mux.streams
    case Ending(id) => id in e.mux.streams
    case Removing(id) => id in e.mux.streams && e.mux.streams[id].finished
  }

  /** `f` may follow `before` on the wire of a side that holds `handles` and allocates below `nextId`. */
  ghost predicate FrameOk(f: Frame, before: seq<Frame>, handles: set<nat>, localId: nat, nextId: nat) {
    match f
    case OpenFrame(id) => OwnId(id, localId) && id < nextId && f !in before && id in handles
    case DataFrame(id, payload) =>
      id in handles && (OwnId(id, localId) ==> OpenFrame(id) in before) && 1 <= |payload| <= MAX_MUX_PAYLOAD
    case CloseFrame(_) => true
    case ResetFrame(_, reason) => reason.AcceptQueueFull?
  }

  ghost predicate WireOk(e: Endpoint) {
    && (forall i :: 0 <= i < |e.out| ==> FrameOk(e.out[i], e.out[..i], e.handles, e.mux.localId, e.mux.nextId))
    && (forall id :: id in e.handles && OwnId(id, e.mux.localId) ==> OpenFrame(id) in e.out)
  }

  ghost predicate Local(e: Endpoint) {
    TableOk(e) && PublishedOk(e) && CallsOk(e) && ReaderOk(e) && WireOk(e)
  }

  // ---------- one side against the frames sent to it ----------

  /** The bytes `rx` has taken off the wire for stream `id`. */
  function Consumed(rx: Endpoint, wire: seq<Frame>, id: nat): seq<byte>
    requires rx.rcv <= |wire|
  {
    DataBytes(wire[..rx.rcv], id)
  }

  /** The payload the read loop of `rx` is still carrying to stream `id`. */
  function Carried(rx: Endpoint, id: nat): seq<byte> {
    if (rx.reader.Delivering? || rx.reader.Offering?) && rx.reader.id == id then rx.reader.payload else []
  }

  /** No payload taken off the wire for `id` has been dropped. */
  predicate Lossless(rx: Endpoint, wire: seq<Frame>, id: nat)
    requires rx.rcv <= |wire| && id in rx.mux.streams
  {
    rx.mux.streams[id].Delivered() + Carried(rx, id) == Consumed(rx, wire, id)
  }

  /** How many bytes for `id` the read loop has taken off the wire and thrown away. */
  function Dropped(rx: Endpoint, wire: seq<Frame>, id: nat): int
    requires rx.rcv <= |wire| && id in rx.mux.streams
  {
    |Consumed(rx, wire, id)| - |rx.mux.streams[id].Delivered()| - |Carried(rx, id)|
  }

  ghost predicate StreamOk(rx: Endpoint, wire: seq<Frame>, id: nat)
    requires rx.rcv <= |wire| && id in rx.mux.streams
  {
    && rx.mux.streams[id].Delivered() <= Consumed(rx, wire, id)
    && Dropped(rx, wire, id) >= 0
    && (id in rx.mux.table && !rx.mux.streams[id].finished ==> Lossless(rx, wire, id))
    && (rx.reader.Delivering? && rx.reader.id == id ==> rx.mux.streams[id].finished || Lossless(rx, wire, id))
    && (rx.reader.Offering? && rx.reader.id == id ==> Lossless(rx, wire, id))
  }

  /** What `rx` makes of the frames `wire` the peer has written. */
  ghost predicate Link(rx: Endpoint, wire: seq<Frame>) {
    && rx.rcv <= |wire|
    && (forall id :: id in rx.mux.streams && PeerId(id, rx.mux.localId) ==> OpenFrame(id) in wire[..rx.rcv])
    && (forall id :: id in rx.mux.streams ==> StreamOk(rx, wire, id))
  }

  ghost predicate Inv(s: Net) {
    && s.server.mux.localId == 1 && s.client.mux.localId == 0
    && Local(s.server) && Local(s.client)
    && Link(s.server, s.client.out) && Link(s.client, s.server.out)
  }

  lemma InitialInv()
    ensures Inv(INITIAL)
  {
    NewEndpointLocal(1);
    NewEndpointLocal(2);
    NewEndpointLink(1);
    NewEndpointLink(2);
  }

  lemma NewEndpointLocal(first: nat)
    requires first == 1 || first == 2
    ensures Local(NewEndpoint(first))
  {
  }

  lemma NewEndpointLink(first: nat)
    ensures Link(NewEndpoint(first), [])
  {
  }
}
