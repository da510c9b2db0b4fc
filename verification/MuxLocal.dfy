/** Each step keeps the invariant of the side that takes it. */
module MuxLocal {
  import opened Bytes
  import opened MuxProtocol
  import opened MuxInvariant

  lemma StartLocal(e: Endpoint, wire: seq<Frame>)
    requires Local(e) && Enabled(e, wire, Start)
    ensures Local(Apply(e, wire, Start))
  {
  }

  lemma FirstFreeIsNext(next: nat, table: set<nat>)
    requires next !in table
    ensures FirstFree(next, table) == next
  {
  }

  lemma ReserveLocal(e: Endpoint, wire: seq<Frame>, t: nat)
    requires Local(e) && Enabled(e, wire, Reserve(t))
    ensures Local(Apply(e, wire, Reserve(t)))
  {
    var id := e.mux.nextId;
    assert id !in e.mux.streams && id !in e.mux.table;
    FirstFreeIsNext(id, e.mux.table);
    var e' := Apply(e, wire, Reserve(t));
    assert OpenFrame(id) !in e.out;
  }

  lemma AcceptLocal(e: Endpoint, wire: seq<Frame>)
    requires Local(e) && Enabled(e, wire, AcceptOne)
    ensures Local(Apply(e, wire, AcceptOne))
  {
  }

  lemma BeginLocal(e: Endpoint, wire: seq<Frame>, a: Action)
    requires a.BeginWrite? || a.BeginClose?
    requires Local(e) && Enabled(e, wire, a)
    ensures Local(Apply(e, wire, a))
  {
  }

  lemma BufferLocal(e: Endpoint, wire: seq<Frame>, a: Action)
    requires a.Fill? || a.Copy?
    requires Local(e) && Enabled(e, wire, a)
    ensures Local(Apply(e, wire, a))
  {
    if a.Fill? {
      StreamMovesLocal(e, a.id, FillBuffer(e.mux.streams[a.id]));
    } else {
      StreamMovesLocal(e, a.id, CopyOut(e.mux.streams[a.id], a.n));
    }
  }

  lemma StreamMovesLocal(e: Endpoint, id: nat, st: Stream)
    requires Local(e) && id in e.mux.streams && st.finished == e.mux.streams[id].finished
    ensures Local(e.(mux := e.mux.(streams := e.mux.streams[id := st])))
  {
  }

  lemma CloseAllLocal(e: Endpoint, wire: seq<Frame>)
    requires Local(e) && Enabled(e, wire, CloseAll)
    ensures Local(Apply(e, wire, CloseAll))
  {
  }

  lemma FinishOneLocal(e: Endpoint, wire: seq<Frame>, id: nat)
    requires Local(e) && Enabled(e, wire, FinishOne(id))
    ensures Local(Apply(e, wire, FinishOne(id)))
  {
  }

  lemma ReaderExitsLocal(e: Endpoint, wire: seq<Frame>, a: Action)
    requires a.ReaderExits? || a.ConnectionFails?
    requires Local(e) && Enabled(e, wire, a)
    ensures Local(Apply(e, wire, a))
  {
  }

  // ---------- changes that several steps share ----------

  lemma FinishKeepsLocal(e: Endpoint, id: nat)
    requires Local(e) && id in e.mux.streams
    ensures Local(e.(mux := FinishStream(e.mux, id)))
  {
  }

  /** A stream may leave the table once it is finished, or while nobody can have got hold of it. */
  lemma RemoveKeepsLocal(e: Endpoint, id: nat)
    requires Local(e)
    requires e.reader.Inserted? || e.reader.Overflowed? ==> e.reader.id != id
    requires Settled(e, id) || (id !in e.handles && id !in e.mux.accept && forall t :: t in e.calls && e.calls[t].IsOpen() ==> e.calls[t].id != id)
    ensures Local(e.(mux := RemoveStream(e.mux, id)))
  {
  }

  lemma DropCallKeepsLocal(e: Endpoint, t: nat)
    requires Local(e)
    ensures Local(e.(calls := e.calls - {t}))
  {
  }

  lemma MoveCallKeepsLocal(e: Endpoint, t: nat, c: Call)
    requires Local(e) && t in e.calls && CallOk(e, c)
    requires c.id == e.calls[t].id && c.IsOpen() == e.calls[t].IsOpen()
    ensures Local(e.(calls := e.calls[t := c]))
  {
  }

  lemma MoveReaderKeepsLocal(e: Endpoint, r: Reader)
    requires Local(e) && ReaderOk(e.(reader := r))
    ensures Local(e.(reader := r))
  {
  }

  /** A frame that is not an open frame may be appended to the wire. */
  lemma EmitKeepsLocal(e: Endpoint, f: Frame)
    requires Local(e) && !f.OpenFrame?
    requires FrameOk(f, e.out, e.handles, e.mux.localId, e.mux.nextId)
    ensures Local(e.(out := e.out + [f]))
  {
    var out' := e.out + [f];
    forall i | 0 <= i < |out'|
      ensures FrameOk(out'[i], out'[..i], e.handles, e.mux.localId, e.mux.nextId)
    {
      assert i < |e.out| ==> out'[..i] == e.out[..i];
      assert i == |e.out| ==> out'[..i] == e.out;
    }
  }

  // ---------- the read loop ----------

  lemma HandleOpenLocal(e: Endpoint, wire: seq<Frame>, ok: bool)
    requires e.reader.Inserted? || e.reader.Overflowed? || e.reader.OverflowFinishing?
    requires Local(e) && Enabled(e, wire, ReaderMoves(ok))
    ensures Local(Apply(e, wire, ReaderMoves(ok)))
  {
    var id := e.reader.id;
    match e.reader
    case Inserted(_) =>
      if ok {
        MoveReaderKeepsLocal(e, Reading);
        var e1 := e.(reader := Reading);
        assert forall x :: x in e.mux.accept + [id] <==> x in e.mux.accept || x == id;
      } else {
        MoveReaderKeepsLocal(e, if e.mux.closed then Reading else Overflowed(id));
      }
    case Overflowed(_) =>
      MoveReaderKeepsLocal(e, OverflowFinishing(id));
      RemoveKeepsLocal(e.(reader := OverflowFinishing(id)), id);
    case OverflowFinishing(_) =>
      MoveReaderKeepsLocal(e, Resetting(id, AcceptQueueFull));
      var e1 := e.(reader := Resetting(id, AcceptQueueFull));
      FinishKeepsLocal(e1, id);
      RemoveKeepsLocal(e1.(mux := FinishStream(e.mux, id)), id);
  }

  lemma ReaderMovesLocal(e: Endpoint, wire: seq<Frame>, ok: bool)
    requires Local(e) && Enabled(e, wire, ReaderMoves(ok))
    ensures Local(Apply(e, wire, ReaderMoves(ok)))
  {
    MoveReaderKeepsLocal(e, Reading);
    var idle := e.(reader := Reading);
    match e.reader
    case Resetting(id, reason) =>
      MoveReaderKeepsLocal(e, ResetSending(id, reason));
    case ResetSending(id, reason) =>
      EmitKeepsLocal(idle, ResetFrame(id, reason));
    case Delivering(id, payload) =>
      MoveReaderKeepsLocal(e, Offering(id, payload));
    case Offering(id, payload) =>
      if ok {
        PushKeepsLocal(idle, id, payload);
      }
    case Ending(id) =>
      FinishKeepsLocal(e, id);
      MoveReaderKeepsLocal(e.(mux := FinishStream(e.mux, id)), Removing(id));
    case Removing(id) =>
      RemoveKeepsLocal(idle, id);
    case _ => HandleOpenLocal(e, wire, ok);
  }

  lemma PushKeepsLocal(e: Endpoint, id: nat, payload: seq<byte>)
    requires Local(e) && id in e.mux.streams
    ensures Local(e.(mux := PushPayload(e.mux, id, payload)))
  {
  }

  // ---------- calls ----------

  lemma OpenLocal(e: Endpoint, wire: seq<Frame>, t: nat, ok: bool)
    requires Local(e) && Enabled(e, wire, Advance(t, ok)) && e.calls[t].IsOpen()
    ensures Local(Apply(e, wire, Advance(t, ok)))
  {
    var id := e.calls[t].id;
    if !ok {
      DropCallKeepsLocal(e, t);
      RemoveKeepsLocal(e.(calls := e.calls - {t}), id);
    } else if e.calls[t].OpenReserved? {
      MoveCallKeepsLocal(e, t, OpenSending(id));
    } else {
      OpenedLocal(e, wire, t);
    }
  }

  lemma OpenedLocal(e: Endpoint, wire: seq<Frame>, t: nat)
    requires Local(e) && Enabled(e, wire, Advance(t, true)) && e.calls[t].OpenSending?
    ensures Local(Apply(e, wire, Advance(t, true)))
  {
    var id := e.calls[t].id;
    var e' := Apply(e, wire, Advance(t, true));
    forall i | 0 <= i < |e'.out|
      ensures FrameOk(e'.out[i], e'.out[..i], e'.handles, e.mux.localId, e.mux.nextId)
    {
      assert i < |e.out| ==> e'.out[..i] == e.out[..i];
      assert i == |e.out| ==> e'.out[..i] == e.out;
    }
    forall u | u in e'.calls ensures CallOk(e', e'.calls[u]) {
      assert CallOk(e, e.calls[u]);
    }
  }

  lemma WriteLocal(e: Endpoint, t: nat, ok: bool)
    requires Local(e) && t in e.calls && CallCanAdvance(e, e.calls[t], ok) && e.calls[t].IsWrite()
    ensures Local(AdvanceCall(e, t, ok))
  {
    var c := e.calls[t];
    var id, rest := c.id, c.rest;
    assert CallOk(e, c);
    DropCallKeepsLocal(e, t);
    if ok && c.WriteHead? {
      MoveCallKeepsLocal(e, t, WriteReady(id, rest));
    } else if ok && c.WriteReady? {
      MoveCallKeepsLocal(e, t, WriteSending(id, rest));
    } else if ok {
      SendChunkLocal(e, t);
    }
  }

  lemma SendChunkLocal(e: Endpoint, t: nat)
    requires Local(e) && t in e.calls && CallCanAdvance(e, e.calls[t], true) && e.calls[t].WriteSending?
    ensures Local(AdvanceCall(e, t, true))
  {
    var id, rest := e.calls[t].id, e.calls[t].rest;
    assert CallOk(e, e.calls[t]);
    var n := ChunkLength(rest);
    MoveCallKeepsLocal(e, t, WriteHead(id, rest[n..]));
    EmitKeepsLocal(e.(calls := e.calls[t := WriteHead(id, rest[n..])]), DataFrame(id, rest[..n]));
  }

  lemma CloseLocal(e: Endpoint, t: nat, ok: bool)
    requires Local(e) && t in e.calls && CallCanAdvance(e, e.calls[t], ok) && !e.calls[t].IsWrite() && !e.calls[t].IsOpen()
    ensures Local(AdvanceCall(e, t, ok))
  {
    var c := e.calls[t];
    var id := c.id;
    assert CallOk(e, c);
    match c
    case CloseHead(_) =>
      MoveCallKeepsLocal(e, t, if ok then CloseSending(id) else CloseFinishing(id));
    case CloseSending(_) =>
      MoveCallKeepsLocal(e, t, CloseFinishing(id));
      EmitKeepsLocal(e.(calls := e.calls[t := CloseFinishing(id)]), CloseFrame(id));
    case CloseFinishing(_) =>
      FinishKeepsLocal(e, id);
      MoveCallKeepsLocal(e.(mux := FinishStream(e.mux, id)), t, CloseRemoving(id));
    case CloseRemoving(_) =>
      DropCallKeepsLocal(e, t);
      RemoveKeepsLocal(e.(calls := e.calls - {t}), id);
  }

  lemma AdvanceLocal(e: Endpoint, wire: seq<Frame>, t: nat, ok: bool)
    requires Local(e) && Enabled(e, wire, Advance(t, ok))
    ensures Local(Apply(e, wire, Advance(t, ok)))
  {
    if e.calls[t].IsWrite() {
      WriteLocal(e, t, ok);
    } else if e.calls[t].IsOpen() {
      OpenLocal(e, wire, t, ok);
    } else {
      CloseLocal(e, t, ok);
    }
  }

  /** What one turn of the read loop does with a frame: it moves on, and may take in a new stream. */
  lemma ReceiveShape(e: Endpoint, f: Frame)
    requires e.reader.Reading?
    ensures var e' := ReceiveFrame(e, f);
      && e' == e.(rcv := e.rcv + 1, reader := e'.reader, mux := if e'.reader.Inserted? then InsertStream(e.mux, f.id) else e.mux)
      && (e'.reader.Inserted? ==> f.OpenFrame? && e'.reader == Inserted(f.id) && !e.mux.closed && |e.mux.table| < MAX_MUX_STREAMS && f.id !in e.mux.table)
      && (f.DataFrame? && f.id in e.mux.table ==> e'.reader == Delivering(f.id, f.payload))
      && (!(f.DataFrame? && f.id in e.mux.table) ==> !e'.reader.Delivering? && !e'.reader.Offering?)
      && !e'.reader.Overflowed? && !e'.reader.OverflowFinishing? && !e'.reader.Removing? && !e'.reader.ResetSending?
      && (e'.reader.Ending? ==> e'.reader.id in e.mux.table)
      && (e'.reader.Resetting? ==> f.OpenFrame? && (f.id == 0 || f.id % 2 == e.mux.localId || f.id in e.mux.table))
      && (e'.reader.Reading? || e'.reader.Exited? ==> e'.reader == e.reader)
  {
  }

  lemma ReceiveLocal(e: Endpoint, wire: seq<Frame>)
    requires Local(e) && Enabled(e, wire, Receive)
    requires wire[e.rcv].OpenFrame? ==> PeerId(wire[e.rcv].id, e.mux.localId) && wire[e.rcv].id !in e.mux.streams
    ensures Local(Apply(e, wire, Receive))
  {
    var f := wire[e.rcv];
    var e' := ReceiveFrame(e, f);
    ReceiveShape(e, f);
    if e'.reader.Inserted? {
      InsertLocal(e, f.id);
    } else {
      MoveReaderKeepsLocal(e, e'.reader);
    }
  }

  lemma InsertLocal(e: Endpoint, id: nat)
    requires Local(e) && PeerId(id, e.mux.localId) && id !in e.mux.streams && !e.mux.closed && |e.mux.table| < MAX_MUX_STREAMS
    ensures Local(e.(mux := InsertStream(e.mux, id), reader := Inserted(id)))
  {
    var e' := e.(mux := InsertStream(e.mux, id), reader := Inserted(id));
    forall t | t in e.calls ensures CallOk(e', e.calls[t]) {
      assert CallOk(e, e.calls[t]);
    }
  }
}
