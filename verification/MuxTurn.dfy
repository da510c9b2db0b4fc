/**
 One turn of the read loop, and one call, run to the end without interference: the steps of MuxProtocol come
 to what the methods of Mux do. And what any peer at all, keeping to the protocol or not, can do to a mux.
 */
module MuxTurn {
  import opened Bytes
  import opened MuxProtocol
  import opened Mux

  /** The outcome of the read loop's next test or write, if nothing else happens meanwhile. */
  predicate NextOk(e: Endpoint) {
    match e.reader
    case Inserted(_) => |e.mux.accept| < ACCEPT_CAPACITY
    case Resetting(_, _) => !e.mux.closed
    case ResetSending(_, _) => !e.dead
    case Delivering(id, _) => id in e.mux.streams && !e.mux.streams[id].finished
    case _ => true
  }

  function StepsLeft(r: Reader): nat {
    match r
    case Inserted(_) => 5
    case Overflowed(_) => 4
    case OverflowFinishing(_) => 3
    case Resetting(_, _) => 2
    case Delivering(_, _) => 2
    case Ending(_) => 2
    case Reading => 0
    case Exited => 0
    case _ => 1
  }

  /** The read loop runs on until it waits for a frame or for room in a queue. */
  function Settle(e: Endpoint): Endpoint
    decreases StepsLeft(e.reader)
  {
    if ReaderCanMove(e, NextOk(e)) && StepsLeft(MoveReader(e, NextOk(e)).reader) < StepsLeft(e.reader)
    then Settle(MoveReader(e, NextOk(e))) else e
  }

  function Turn(e: Endpoint, f: Frame): Endpoint {
    Settle(ReceiveFrame(e, f))
  }

  /** Every stream in the table is known. */
  predicate Known(m: P.Mux) {
    forall id :: id in m.table ==> id in m.streams
  }

  /** The reset that answers an open frame, if any. */
  function ResetFor(e: Endpoint, id: nat): seq<Frame> {
    var res := OpenVerdict(e.mux, id);
    if res.Rejected? && !e.mux.closed && !e.dead then [ResetFrame(id, res.reason)] else []
  }

  lemma Idle(e: Endpoint)
    requires e.reader.Reading?
    ensures Settle(e) == e
  {
  }

  /** One move of a read loop that is not waiting. */
  lemma Moves(e: Endpoint, e': Endpoint)
    requires ReaderCanMove(e, NextOk(e)) && e' == MoveReader(e, NextOk(e)) && StepsLeft(e'.reader) < StepsLeft(e.reader)
    ensures Settle(e) == Settle(e')
  {
  }

  /** An open frame comes to what `HandleOpen` does. */
  lemma TurnOpens(e: Endpoint, id: nat)
    requires e.reader.Reading?
    ensures Turn(e, OpenFrame(id)) ==
      e.(rcv := e.rcv + 1, mux := AfterOpen(e.mux, id, OpenVerdict(e.mux, id)), out := e.out + ResetFor(e, id))
  {
    var r := ReceiveFrame(e, OpenFrame(id));
    assert e.out + [] == e.out;
    match OpenVerdict(e.mux, id)
    case Ignored =>
    case Offered => Offers(r, id);
    case Rejected(AcceptQueueFull) => Overflows(r, id);
    case Rejected(reason) => Resets(r, id, reason);
  }

  lemma Offers(r: Endpoint, id: nat)
    requires r.reader == Inserted(id) && |r.mux.accept| < ACCEPT_CAPACITY
    ensures Settle(r) == r.(reader := Reading, mux := r.mux.(accept := r.mux.accept + [id]))
  {
    Moves(r, MoveReader(r, true));
  }

  /** A stream for which the queue has no room leaves the table, is finished, and is refused. */
  lemma Overflows(r: Endpoint, id: nat)
    requires r.reader == Inserted(id) && |r.mux.accept| >= ACCEPT_CAPACITY && id in r.mux.streams && id != 0 && !r.mux.closed
    ensures Settle(r) == r.(reader := Reading, mux := RemoveStream(FinishStream(r.mux, id), id),
      out := r.out + if r.dead then [] else [ResetFrame(id, AcceptQueueFull)])
  {
    var r1 := MoveReader(r, false);
    var r2 := MoveReader(r1, true);
    var r3 := MoveReader(r2, true);
    Moves(r, r1);
    Moves(r1, r2);
    Moves(r2, r3);
    Resets(r3, id, AcceptQueueFull);
  }

  /** A reset that is decided goes out unless the mux is closed or the connection dead. */
  lemma Resets(e: Endpoint, id: nat, reason: ResetReason)
    requires e.reader == Resetting(id, reason)
    ensures Settle(e) == e.(reader := Reading, out := e.out + if e.mux.closed || e.dead then [] else [ResetFrame(id, reason)])
  {
    assert e.out + [] == e.out;
    Moves(e, MoveReader(e, NextOk(e)));
    if !e.mux.closed {
      var e' := MoveReader(e, true);
      Moves(e', MoveReader(e', NextOk(e')));
    }
  }

  predicate Live(m: P.Mux, id: nat) {
    id in m.table && id in m.streams && !m.streams[id].finished
  }

  /** A data frame comes to what `DeliverTo` does; the loop is held up only where that says blocked. */
  lemma TurnDelivers(e: Endpoint, id: nat, payload: seq<byte>)
    requires e.reader.Reading? && Known(e.mux)
    ensures var full := Live(e.mux, id) && |e.mux.streams[id].inbound| >= INBOUND_CAPACITY;
      Turn(e, DataFrame(id, payload)) ==
        e.(rcv := e.rcv + 1, mux := AfterData(e.mux, id, payload, !full), reader := if full then Offering(id, payload) else Reading)
  {
    var r := ReceiveFrame(e, DataFrame(id, payload));
    if id in e.mux.table {
      var r' := MoveReader(r, NextOk(r));
      Moves(r, r');
      if !e.mux.streams[id].finished && |e.mux.streams[id].inbound| < INBOUND_CAPACITY {
        Moves(r', MoveReader(r', true));
      }
    }
  }

  /** A close or reset frame comes to what `FinishAndRemove` does. */
  lemma TurnEnds(e: Endpoint, f: Frame)
    requires e.reader.Reading? && Known(e.mux) && (f.CloseFrame? || f.ResetFrame?)
    ensures Turn(e, f) == e.(rcv := e.rcv + 1, mux := AfterEnd(e.mux, f.id))
  {
    var r := ReceiveFrame(e, f);
    if f.id in e.mux.table {
      var r' := MoveReader(r, true);
      Moves(r, r');
      Moves(r', MoveReader(r', true));
    }
  }

  // ---------- any peer at all ----------

  /** What an open frame of any peer does to an open mux on a good connection: an id that is not the peer's to
      choose is refused; with the table full nothing happens; an id in use is refused; with room in the queue
      there is a new stream at its end; and otherwise the stream is refused. */
  lemma OpenIsAnswered(e: Endpoint, id: nat)
    requires e.reader.Reading? && !e.mux.closed && !e.dead
    ensures var e', full := Turn(e, OpenFrame(id)), |e.mux.table| >= MAX_MUX_STREAMS;
      && e'.reader == Reading && e'.rcv == e.rcv + 1
      && (id == 0 || id % 2 == e.mux.localId ==> e'.mux == e.mux && e'.out == e.out + [ResetFrame(id, InvalidStreamId)])
      && (PeersId(e.mux, id) && full ==> e'.mux == e.mux && e'.out == e.out)
      && (PeersId(e.mux, id) && !full && id in e.mux.table ==> e'.mux == e.mux && e'.out == e.out + [ResetFrame(id, DuplicateStreamId)])
      && (PeersId(e.mux, id) && !full && id !in e.mux.table ==>
        if |e.mux.accept| < ACCEPT_CAPACITY
        then e'.mux.table == e.mux.table + {id} && e'.mux.accept == e.mux.accept + [id] && id in e'.mux.streams && e'.mux.streams[id] == EMPTY_STREAM && e'.out == e.out
        else e'.mux.table == e.mux.table && e'.mux.accept == e.mux.accept && e'.out == e.out + [ResetFrame(id, AcceptQueueFull)])
  {
    TurnOpens(e, id);
    assert e.out + [] == e.out;
  }

  predicate PeersId(m: P.Mux, id: nat) {
    id != 0 && id % 2 != m.localId
  }

  /** The read loop takes `frames`, until it is held up. */
  function Hear(e: Endpoint, frames: seq<Frame>): Endpoint
    decreases |frames|
  {
    if frames == [] || !e.reader.Reading? then e else Hear(Turn(e, frames[0]), frames[1..])
  }

  /** What the read loop has in hand for stream `id`. */
  function InHand(r: Reader, id: nat): seq<byte> {
    if r.Offering? && r.id == id then r.payload else []
  }

  /** What this side keeps is its own, within the limits, and no stream of its own and no control stream appears. */
  ghost predicate Within(m: P.Mux, m': P.Mux) {
    && WithinLimits(m') && m'.localId == m.localId && m'.closed == m.closed && m'.nextId == m.nextId && m.accept <= m'.accept
    && (forall id :: id in m'.table && !PeersId(m, id) ==> id in m.table)
  }

  /** From `e` to `e'`, having taken `frames`, nothing of this side's changes but that its streams may be
      finished; one that lives has got exactly the data for it. */
  ghost predicate Contained(e: Endpoint, frames: seq<Frame>, e': Endpoint) {
    && Within(e.mux, e'.mux) && e'.calls == e.calls && e'.handles == e.handles
    && (forall id :: Live(e'.mux, id) && !PeersId(e.mux, id) ==> Heard(e, frames, e', id))
  }

  predicate Heard(e: Endpoint, frames: seq<Frame>, e': Endpoint, id: nat) {
    && Live(e.mux, id) && id in e'.mux.streams
    && e'.mux.streams[id].Delivered() + InHand(e'.reader, id) == e.mux.streams[id].Delivered() + InHand(e.reader, id) + DataBytes(frames, id)
  }

  predicate WithinLimits(m: P.Mux) {
    Known(m) && |m.table| <= MAX_MUX_STREAMS && |m.accept| <= ACCEPT_CAPACITY
  }

  predicate Untouched(m: P.Mux, m': P.Mux, id: nat) {
    Live(m', id) && !PeersId(m, id) ==> Live(m, id) && m'.streams[id] == m.streams[id]
  }

  lemma OpenWithin(m: P.Mux, x: nat, id: nat)
    requires WithinLimits(m)
    ensures var m' := AfterOpen(m, x, OpenVerdict(m, x)); Within(m, m') && Untouched(m, m', id)
  {
  }

  lemma EndWithin(m: P.Mux, x: nat, id: nat)
    requires WithinLimits(m)
    ensures Within(m, AfterEnd(m, x)) && Untouched(m, AfterEnd(m, x), id)
  {
  }

  lemma DataWithin(m: P.Mux, x: nat, payload: seq<byte>, ok: bool, id: nat)
    requires WithinLimits(m)
    ensures Within(m, AfterData(m, x, payload, ok)) && Live(AfterData(m, x, payload, ok), id) == Live(m, id)
    ensures Live(m, id) ==>
      AfterData(m, x, payload, ok).streams[id].Delivered() == m.streams[id].Delivered() + if ok && x == id then payload else []
  {
    if Live(m, id) && x == id {
      ConcatSnoc(m.streams[id].inbound, payload);
    }
  }

  lemma FrameIsContained(e: Endpoint, f: Frame)
    requires e.reader.Reading? && WithinLimits(e.mux)
    ensures Contained(e, [f], Turn(e, f)) && Turn(e, f).rcv == e.rcv + 1
  {
    var e' := Turn(e, f);
    FrameIsHeard(e, f, 0);
    forall id | Live(e'.mux, id) && !PeersId(e.mux, id) ensures Heard(e, [f], e', id) {
      FrameIsHeard(e, f, id);
    }
  }

  lemma FrameIsHeard(e: Endpoint, f: Frame, id: nat)
    requires e.reader.Reading? && WithinLimits(e.mux)
    ensures var e' := Turn(e, f);
      && Within(e.mux, e'.mux) && e'.calls == e.calls && e'.handles == e.handles && e'.rcv == e.rcv + 1
      && (Live(e'.mux, id) && !PeersId(e.mux, id) ==> Heard(e, [f], e', id))
  {
    assert DataBytes([f], id) == PayloadFor(f, id);
    match f
    case OpenFrame(x) =>
      TurnOpens(e, x);
      OpenWithin(e.mux, x, id);
    case DataFrame(x, payload) => DataIsHeard(e, x, payload, id);
    case _ =>
      TurnEnds(e, f);
      EndWithin(e.mux, f.id, id);
  }

  lemma DataIsHeard(e: Endpoint, x: nat, payload: seq<byte>, id: nat)
    requires e.reader.Reading? && WithinLimits(e.mux)
    ensures var e' := Turn(e, DataFrame(x, payload));
      && Within(e.mux, e'.mux) && e'.calls == e.calls && e'.handles == e.handles && e'.rcv == e.rcv + 1
      && (Live(e'.mux, id) ==> Heard(e, [DataFrame(x, payload)], e', id))
  {
    assert DataBytes([DataFrame(x, payload)], id) == if x == id then payload else [];
    TurnDelivers(e, x, payload);
    DataWithin(e.mux, x, payload, !(Live(e.mux, x) && |e.mux.streams[x].inbound| >= INBOUND_CAPACITY), id);
  }

  lemma {:induction false} DataBytesCons(f: Frame, frames: seq<Frame>, id: nat)
    ensures DataBytes([f] + frames, id) == PayloadFor(f, id) + DataBytes(frames, id)
    decreases |frames|
  {
    if frames != [] {
      var n := |frames| - 1;
      assert ([f] + frames)[..n + 1] == [f] + frames[..n];
      DataBytesCons(f, frames[..n], id);
    }
  }

  lemma ContainedInTurn(e: Endpoint, f: Frame, e': Endpoint, frames: seq<Frame>, e'': Endpoint)
    requires Contained(e, [f], e') && Contained(e', frames, e'')
    ensures Contained(e, [f] + frames, e'')
  {
    forall id | Live(e''.mux, id) && !PeersId(e.mux, id) ensures Heard(e, [f] + frames, e'', id) {
      assert Heard(e', frames, e'', id) && Heard(e, [f], e', id);
      DataBytesCons(f, frames, id);
      assert DataBytes([f], id) == PayloadFor(f, id);
    }
  }

  /** Whatever frames come, in whatever order, the mux stays within its limits, streams this side has opened and
      the control stream are only ever finished and lose no data until then, and no call is touched. */
  lemma {:induction false} AnyPeerIsContained(e: Endpoint, frames: seq<Frame>) returns (taken: nat)
    requires e.reader.Reading? && WithinLimits(e.mux)
    ensures taken <= |frames| && Hear(e, frames).rcv == e.rcv + taken
    ensures Contained(e, frames[..taken], Hear(e, frames))
    ensures taken == |frames| || !Hear(e, frames).reader.Reading?
    decreases |frames|
  {
    if frames == [] {
      return 0;
    }
    var e' := Turn(e, frames[0]);
    FrameIsContained(e, frames[0]);
    assert frames[..1] == [frames[0]];
    if !e'.reader.Reading? {
      return 1;
    }
    var k := AnyPeerIsContained(e', frames[1..]);
    ContainedInTurn(e, frames[0], e', frames[1..][..k], Hear(e', frames[1..]));
    assert frames[..k + 1] == [frames[0]] + frames[1..][..k];
    taken := k + 1;
  }

  // ---------- calls ----------

  predicate CallOutcome(e: Endpoint, c: Call) {
    match c
    case OpenReserved(_) => !e.mux.closed
    case WriteReady(_, _) => !e.mux.closed
    case CloseHead(_) => !e.mux.closed
    case OpenSending(_) => !e.dead
    case WriteSending(_, _) => !e.dead
    case CloseSending(_) => !e.dead
    case WriteHead(id, rest) => rest != [] && id in e.mux.streams && !e.mux.streams[id].finished
    case _ => true
  }

  function CallLeft(c: Call): nat {
    match c
    case OpenReserved(_) => 1
    case OpenSending(_) => 0
    case WriteHead(_, rest) => 3 * |rest| + 2
    case WriteReady(_, rest) => 3 * |rest| + 1
    case WriteSending(_, rest) => 3 * |rest|
    case CloseHead(_) => 3
    case CloseSending(_) => 2
    case CloseFinishing(_) => 1
    case CloseRemoving(_) => 0
  }

  /** Call `t` runs on to its end. */
  function Finish(e: Endpoint, t: nat): Endpoint
    requires t in e.calls
    decreases CallLeft(e.calls[t])
  {
    if !CallCanAdvance(e, e.calls[t], CallOutcome(e, e.calls[t])) then e
    else
      var e' := AdvanceCall(e, t, CallOutcome(e, e.calls[t]));
      if t in e'.calls && CallLeft(e'.calls[t]) < CallLeft(e.calls[t]) then Finish(e', t) else e'
  }

  function Done(e: Endpoint, t: nat): Endpoint {
    e.(calls := e.calls - {t})
  }

  /** Past the reservation, a call of `OpenStream` comes to what that method does: the open frame goes out and
      the caller holds the stream, or the stream leaves the table again. */
  lemma OpenComesTo(e: Endpoint, t: nat, id: nat)
    requires t in e.calls && e.calls[t] == OpenReserved(id)
    ensures Finish(e, t) ==
      if e.mux.closed || e.dead then Done(e, t).(mux := RemoveStream(e.mux, id))
      else Done(e, t).(out := e.out + [OpenFrame(id)], handles := e.handles + {id})
  {
    if !e.mux.closed {
      var e' := AdvanceCall(e, t, true);
      assert e'.calls - {t} == e.calls - {t};
      assert Finish(e, t) == Finish(e', t);
    }
  }

  /** A call of `Close` comes to what `CloseStream` does. */
  lemma CloseComesTo(e: Endpoint, t: nat, id: nat)
    requires t in e.calls && e.calls[t] == CloseHead(id) && id in e.mux.streams
    ensures Finish(e, t) ==
      Done(e, t).(mux := RemoveStream(FinishStream(e.mux, id), id), out := e.out + if e.mux.closed || e.dead then [] else [CloseFrame(id)])
  {
    assert e.out + [] == e.out;
    var e' := AdvanceCall(e, t, !e.mux.closed);
    assert Finish(e, t) == Finish(e', t) && e'.calls - {t} == e.calls - {t};
    if !e.mux.closed {
      CloseSends(e', t, id);
    } else {
      CloseEnds(e', t, id);
    }
  }

  lemma CloseSends(e: Endpoint, t: nat, id: nat)
    requires t in e.calls && e.calls[t] == CloseSending(id) && id in e.mux.streams
    ensures Finish(e, t) == Done(e, t).(mux := RemoveStream(FinishStream(e.mux, id), id), out := e.out + if e.dead then [] else [CloseFrame(id)])
  {
    assert e.out + [] == e.out;
    var e' := AdvanceCall(e, t, !e.dead);
    assert Finish(e, t) == Finish(e', t) && e'.calls - {t} == e.calls - {t};
    CloseEnds(e', t, id);
  }

  lemma CloseEnds(e: Endpoint, t: nat, id: nat)
    requires t in e.calls && e.calls[t] == CloseFinishing(id) && id in e.mux.streams
    ensures Finish(e, t) == Done(e, t).(mux := RemoveStream(FinishStream(e.mux, id), id))
  {
    var e' := AdvanceCall(e, t, true);
    assert Finish(e, t) == Finish(e', t);
    assert e'.calls - {t} == e.calls - {t};
  }

  /** A call of `Write` comes to what `WriteStream` does: on an open stream and mux over a good connection all
      chunks go out, and otherwise none. */
  lemma {:induction false} WriteComesTo(e: Endpoint, t: nat, id: nat, rest: seq<byte>)
    requires t in e.calls && e.calls[t] == WriteHead(id, rest) && id in e.mux.streams
    ensures Finish(e, t) ==
      Done(e, t).(out := e.out + if e.mux.closed || e.dead || e.mux.streams[id].finished then [] else DataFrames(id, Chunks(rest)))
    decreases |rest|, 1
  {
    assert e.out + [] == e.out && DataFrames(id, []) == [];
    if rest != [] && !e.mux.streams[id].finished {
      var e1 := AdvanceCall(e, t, true);
      assert Finish(e, t) == Finish(e1, t) && e1.calls - {t} == e.calls - {t};
      if !e.mux.closed {
        var e2 := AdvanceCall(e1, t, true);
        assert Finish(e1, t) == Finish(e2, t) && e2.calls - {t} == e.calls - {t};
        if !e.dead {
          ChunkGoesOut(e, e2, t, id, rest);
        }
      }
    }
  }

  lemma ChunkGoesOut(e: Endpoint, e2: Endpoint, t: nat, id: nat, rest: seq<byte>)
    requires rest != [] && e2 == e.(calls := e.calls[t := WriteSending(id, rest)]) && !e.dead && !e.mux.closed
    requires id in e.mux.streams && !e.mux.streams[id].finished
    ensures Finish(e2, t) == Done(e, t).(out := e.out + DataFrames(id, Chunks(rest)))
    decreases |rest|, 0
  {
    var n := ChunkLength(rest);
    var e3 := AdvanceCall(e2, t, true);
    assert Finish(e2, t) == Finish(e3, t);
    assert Done(e3, t) == Done(e, t).(out := e.out + [DataFrame(id, rest[..n])]);
    WriteComesTo(e3, t, id, rest[n..]);
    FirstOfChunks(id, rest);
    assert e.out + [DataFrame(id, rest[..n])] + DataFrames(id, Chunks(rest[n..])) == e.out + DataFrames(id, Chunks(rest));
  }

  lemma FirstOfChunks(id: nat, rest: seq<byte>)
    requires rest != []
    ensures var n := ChunkLength(rest);
      DataFrames(id, Chunks(rest)) == [DataFrame(id, rest[..n])] + DataFrames(id, Chunks(rest[n..]))
  {
    var n := ChunkLength(rest);
    var first, others := rest[..n], Chunks(rest[n..]);
    assert Chunks(rest) == [first] + others;
    FramesCons(id, first, others);
  }

  lemma FramesCons(id: nat, first: seq<byte>, others: seq<seq<byte>>)
    ensures DataFrames(id, [first] + others) == [DataFrame(id, first)] + DataFrames(id, others)
  {
  }
}
