/** Each step keeps what links the two sides, so every reachable state has the whole invariant. */
module MuxDelivery {
  import opened Bytes
  import opened MuxProtocol
  import opened MuxInvariant
  import opened MuxLocal

  // ---------- bytes on the wire ----------

  lemma DataBytesSnoc(frames: seq<Frame>, f: Frame, id: nat)
    ensures DataBytes(frames + [f], id) == DataBytes(frames, id) + PayloadFor(f, id)
  {
    assert (frames + [f])[..|frames|] == frames;
  }

  lemma {:induction false} DataBytesMonotone(frames: seq<Frame>, n: nat, id: nat)
    requires n <= |frames|
    ensures DataBytes(frames[..n], id) <= DataBytes(frames, id)
  {
    if n == |frames| {
      assert frames[..n] == frames;
    } else {
      var front := frames[..|frames| - 1];
      DataBytesMonotone(front, n, id);
      assert front[..n] == frames[..n];
    }
  }

  lemma {:induction false} NoDataNoBytes(frames: seq<Frame>, id: nat)
    requires forall i :: 0 <= i < |frames| ==> !(frames[i].DataFrame? && frames[i].id == id)
    ensures DataBytes(frames, id) == []
  {
    if frames != [] {
      NoDataNoBytes(frames[..|frames| - 1], id);
    }
  }

  // ---------- the side that writes ----------

  lemma AppendKeepsLink(rx: Endpoint, wire: seq<Frame>, f: Frame)
    requires Link(rx, wire)
    ensures Link(rx, wire + [f])
  {
    assert (wire + [f])[..rx.rcv] == wire[..rx.rcv];
  }

  lemma PeerStepKeepsLink(rx: Endpoint, tx: Endpoint, a: Action)
    requires Link(rx, tx.out) && Enabled(tx, rx.out, a)
    ensures Link(rx, Apply(tx, rx.out, a).out)
  {
    var out' := Apply(tx, rx.out, a).out;
    if out' != tx.out {
      assert out' == tx.out + [out'[|tx.out|]];
      AppendKeepsLink(rx, tx.out, out'[|tx.out|]);
    }
  }

  // ---------- the side that reads ----------

  /** `tx` and `rx` are the two ends: `rx` reads what `tx` wrote, and the other way round. */
  ghost predicate Paired(rx: Endpoint, tx: Endpoint) {
    && rx.mux.localId + tx.mux.localId == 1
    && Local(rx) && Local(tx)
    && Link(rx, tx.out) && Link(tx, rx.out)
  }

  lemma FrameAt(e: Endpoint, i: nat)
    requires WireOk(e) && i < |e.out|
    ensures FrameOk(e.out[i], e.out[..i], e.handles, e.mux.localId, e.mux.nextId)
  {
  }

  lemma InPrefix(frames: seq<Frame>, f: Frame, i: nat, n: nat)
    requires i <= n <= |frames| && f in frames[..i]
    ensures f in frames[..n]
  {
    var j :| 0 <= j < i && frames[..i][j] == f;
    assert frames[..n][j] == f;
  }

  /** On a side's own id nothing is sent before the open frame. */
  lemma NothingBeforeOpen(tx: Endpoint, n: nat, id: nat)
    requires WireOk(tx) && n <= |tx.out| && OwnId(id, tx.mux.localId)
    requires OpenFrame(id) !in tx.out[..n]
    ensures DataBytes(tx.out[..n], id) == []
  {
    var before := tx.out[..n];
    forall i | 0 <= i < |before|
      ensures !(before[i].DataFrame? && before[i].id == id)
    {
      FrameAt(tx, i);
      if before[i].DataFrame? && before[i].id == id {
        InPrefix(tx.out, OpenFrame(id), i, n);
      }
    }
    NoDataNoBytes(before, id);
  }

  /** An open frame never names a stream its receiver already has, and no data precedes it. */
  lemma OpenIsFresh(rx: Endpoint, tx: Endpoint)
    requires rx.mux.localId + tx.mux.localId == 1
    requires WireOk(tx) && Link(rx, tx.out) && rx.rcv < |tx.out| && tx.out[rx.rcv].OpenFrame?
    ensures PeerId(tx.out[rx.rcv].id, rx.mux.localId) && tx.out[rx.rcv].id !in rx.mux.streams
    ensures DataBytes(tx.out[..rx.rcv], tx.out[rx.rcv].id) == []
  {
    FrameAt(tx, rx.rcv);
    NothingBeforeOpen(tx, rx.rcv, tx.out[rx.rcv].id);
  }

  /** A side that has data frames for an id of its peer has received that id's open frame. */
  lemma SentOnlyWhatWasOpened(rx: Endpoint, tx: Endpoint, i: nat)
    requires rx.mux.localId + tx.mux.localId == 1
    requires WireOk(tx) && WireOk(rx) && PublishedOk(tx) && Link(tx, rx.out)
    requires i < |tx.out| && tx.out[i].DataFrame? && OwnId(tx.out[i].id, rx.mux.localId)
    ensures tx.out[i].id < rx.mux.nextId
  {
    var id := tx.out[i].id;
    FrameAt(tx, i);
    assert id in tx.mux.streams && PeerId(id, tx.mux.localId);
    OpenedIdsAreBelow(rx, id, tx.rcv);
  }

  lemma OpenedIdsAreBelow(e: Endpoint, id: nat, n: nat)
    requires WireOk(e) && n <= |e.out| && OpenFrame(id) in e.out[..n]
    ensures id < e.mux.nextId
  {
    var j :| 0 <= j < n && e.out[..n][j] == OpenFrame(id);
    FrameAt(e, j);
  }

  /** Nothing has been sent yet on the id a side is about to allocate. */
  lemma ReservedIsFresh(rx: Endpoint, tx: Endpoint)
    requires Paired(rx, tx)
    ensures DataBytes(tx.out[..rx.rcv], rx.mux.nextId) == []
  {
    var id := rx.mux.nextId;
    var before := tx.out[..rx.rcv];
    forall i | 0 <= i < |before|
      ensures !(before[i].DataFrame? && before[i].id == id)
    {
      if before[i].DataFrame? && before[i].id == id {
        SentOnlyWhatWasOpened(rx, tx, i);
      }
    }
    NoDataNoBytes(before, id);
  }

  /** `m` became `m'` without losing bytes, adding a stream, reviving a finished stream, or putting
      one back in the table. */
  ghost predicate Quiet(m: Mux, m': Mux) {
    && m'.localId == m.localId && (m.closed ==> m'.closed)
    && m'.streams.Keys == m.streams.Keys && m'.table <= m.table
    && (forall id :: id in m'.streams ==>
      && m'.streams[id].Delivered() == m.streams[id].Delivered()
      && (m.streams[id].finished ==> m'.streams[id].finished))
  }

  lemma QuietStepKeepsLink(rx: Endpoint, rx': Endpoint, wire: seq<Frame>)
    requires Link(rx, wire) && Quiet(rx.mux, rx'.mux)
    requires rx'.reader == rx.reader && rx'.rcv == rx.rcv
    ensures Link(rx', wire)
  {
    forall id | id in rx'.mux.streams ensures StreamOk(rx', wire, id) {
      assert StreamOk(rx, wire, id);
    }
  }

  lemma FinishIsQuiet(m: Mux, id: nat)
    requires id in m.streams
    ensures Quiet(m, FinishStream(m, id))
  {
  }

  lemma RemoveIsQuiet(m: Mux, id: nat)
    ensures Quiet(m, RemoveStream(m, id))
  {
  }

  /** The read loop may put down a payload that reached its stream, or one whose stream is finished. */
  lemma ReaderStepKeepsLink(rx: Endpoint, r: Reader, wire: seq<Frame>)
    requires Link(rx, wire) && !r.Delivering?
    requires r.Offering? ==> rx.reader == Delivering(r.id, r.payload) && r.id in rx.mux.streams && !rx.mux.streams[r.id].finished
    requires rx.reader.Delivering? && !r.Offering? ==> rx.reader.id in rx.mux.streams && rx.mux.streams[rx.reader.id].finished
    requires rx.reader.Offering? ==> rx.reader.id in rx.mux.streams && rx.mux.streams[rx.reader.id].finished
    ensures Link(rx.(reader := r), wire)
  {
    forall id | id in rx.mux.streams ensures StreamOk(rx.(reader := r), wire, id) {
      assert StreamOk(rx, wire, id);
    }
  }

  lemma PushDelivered(st: Stream, payload: seq<byte>)
    ensures st.(inbound := st.inbound + [payload]).Delivered() == st.Delivered() + payload
  {
    ConcatSnoc(st.inbound, payload);
    assert st.returned + st.readBuf + (Concat(st.inbound) + payload) == st.Delivered() + payload;
  }

  lemma PushKeepsStream(rx: Endpoint, wire: seq<Frame>, id: nat)
    requires Link(rx, wire) && rx.reader.Offering? && rx.reader.id in rx.mux.streams && id in rx.mux.streams
    ensures StreamOk(rx.(mux := PushPayload(rx.mux, rx.reader.id, rx.reader.payload), reader := Reading), wire, id)
  {
    assert StreamOk(rx, wire, id);
    var st := rx.mux.streams[id];
    if id == rx.reader.id {
      PushDelivered(st, rx.reader.payload);
      assert st.Delivered() + rx.reader.payload + [] == st.Delivered() + rx.reader.payload;
    }
  }

  lemma PushKeepsLink(rx: Endpoint, wire: seq<Frame>)
    requires Link(rx, wire) && rx.reader.Offering? && rx.reader.id in rx.mux.streams
    ensures Link(rx.(mux := PushPayload(rx.mux, rx.reader.id, rx.reader.payload), reader := Reading), wire)
  {
    var rx' := rx.(mux := PushPayload(rx.mux, rx.reader.id, rx.reader.payload), reader := Reading);
    forall id | id in rx'.mux.streams ensures StreamOk(rx', wire, id) {
      PushKeepsStream(rx, wire, id);
    }
  }

  /** The read loop takes frame `wire[rx.rcv]` and turns to `r`. */
  lemma TakeFrameKeepsStream(rx: Endpoint, wire: seq<Frame>, r: Reader, id: nat)
    requires Link(rx, wire) && rx.rcv < |wire| && rx.reader.Reading? && id in rx.mux.streams
    requires var f := wire[rx.rcv];
      if f.DataFrame? && f.id in rx.mux.table then r == Delivering(f.id, f.payload) else !r.Delivering? && !r.Offering?
    ensures StreamOk(rx.(rcv := rx.rcv + 1, reader := r), wire, id)
  {
    var f := wire[rx.rcv];
    var st := rx.mux.streams[id];
    assert StreamOk(rx, wire, id);
    assert wire[..rx.rcv + 1] == wire[..rx.rcv] + [f];
    DataBytesSnoc(wire[..rx.rcv], f, id);
    assert st.Delivered() + [] == st.Delivered();
    if f.DataFrame? && f.id == id {
      assert PayloadFor(f, id) == f.payload;
    } else {
      assert PayloadFor(f, id) == [];
      assert Consumed(rx, wire, id) + [] == Consumed(rx, wire, id);
    }
  }

  lemma TakeFrameKeepsLink(rx: Endpoint, wire: seq<Frame>, r: Reader)
    requires Link(rx, wire) && rx.rcv < |wire| && rx.reader.Reading?
    requires var f := wire[rx.rcv];
      if f.DataFrame? && f.id in rx.mux.table then r == Delivering(f.id, f.payload) else !r.Delivering? && !r.Offering?
    ensures Link(rx.(rcv := rx.rcv + 1, reader := r), wire)
  {
    var rx' := rx.(rcv := rx.rcv + 1, reader := r);
    forall id | id in rx'.mux.streams ensures StreamOk(rx', wire, id) {
      TakeFrameKeepsStream(rx, wire, r, id);
    }
    forall id | id in rx'.mux.streams && PeerId(id, rx'.mux.localId)
      ensures OpenFrame(id) in wire[..rx'.rcv]
    {
      InPrefix(wire, OpenFrame(id), rx.rcv, rx'.rcv);
    }
  }

  lemma ReceiveKeepsLink(rx: Endpoint, tx: Endpoint)
    requires rx.mux.localId + tx.mux.localId == 1
    requires WireOk(tx) && Link(rx, tx.out) && Enabled(rx, tx.out, Receive)
    ensures Link(Apply(rx, tx.out, Receive), tx.out)
  {
    var f := tx.out[rx.rcv];
    var r := ReceiveFrame(rx, f).reader;
    ReceiveShape(rx, f);
    TakeFrameKeepsLink(rx, tx.out, r);
    if r.Inserted? {
      TakeOpenKeepsLink(rx, tx);
    }
  }

  lemma TakeOpenKeepsLink(rx: Endpoint, tx: Endpoint)
    requires rx.mux.localId + tx.mux.localId == 1
    requires WireOk(tx) && Link(rx, tx.out) && Enabled(rx, tx.out, Receive) && tx.out[rx.rcv].OpenFrame?
    requires Link(rx.(rcv := rx.rcv + 1, reader := Inserted(tx.out[rx.rcv].id)), tx.out)
    ensures var id := tx.out[rx.rcv].id;
      Link(rx.(rcv := rx.rcv + 1, reader := Inserted(id), mux := InsertStream(rx.mux, id)), tx.out)
  {
    var id := tx.out[rx.rcv].id;
    OpenIsFresh(rx, tx);
    OpenCarriesNothing(tx.out, rx.rcv);
    AddStreamKeepsLink(rx.(rcv := rx.rcv + 1, reader := Inserted(id)), tx.out, id);
  }

  lemma OpenCarriesNothing(wire: seq<Frame>, n: nat)
    requires n < |wire| && wire[n].OpenFrame?
    ensures wire[n] in wire[..n + 1]
    ensures DataBytes(wire[..n + 1], wire[n].id) == DataBytes(wire[..n], wire[n].id)
  {
    var f := wire[n];
    assert wire[..n + 1] == wire[..n] + [f];
    DataBytesSnoc(wire[..n], f, f.id);
    assert DataBytes(wire[..n], f.id) + [] == DataBytes(wire[..n], f.id);
    assert wire[..n + 1][n] == f;
  }

  lemma AddStreamKeepsLink(rx: Endpoint, wire: seq<Frame>, id: nat)
    requires Link(rx, wire) && id !in rx.mux.streams
    requires PeerId(id, rx.mux.localId) ==> OpenFrame(id) in wire[..rx.rcv]
    requires rx.reader.Delivering? || rx.reader.Offering? ==> rx.reader.id != id
    requires DataBytes(wire[..rx.rcv], id) == []
    ensures Link(rx.(mux := InsertStream(rx.mux, id)), wire)
  {
    var rx' := rx.(mux := InsertStream(rx.mux, id));
    forall x | x in rx'.mux.streams ensures StreamOk(rx', wire, x) {
      if x != id {
        assert StreamOk(rx, wire, x);
      }
    }
  }

  lemma ReserveKeepsLink(rx: Endpoint, wire: seq<Frame>, t: nat)
    requires Link(rx, wire) && TableOk(rx) && ReaderOk(rx) && Enabled(rx, wire, Reserve(t))
    requires DataBytes(wire[..rx.rcv], rx.mux.nextId) == []
    ensures Link(Apply(rx, wire, Reserve(t)), wire)
  {
    var id := rx.mux.nextId;
    assert id !in rx.mux.streams;
    FirstFreeIsNext(id, rx.mux.table);
    AddStreamKeepsLink(rx, wire, id);
    var rx1 := rx.(mux := InsertStream(rx.mux, id));
    var rx' := Apply(rx, wire, Reserve(t));
    assert rx'.mux == rx1.mux.(nextId := rx'.mux.nextId);
    QuietStepKeepsLink(rx1, rx', wire);
  }

  /** Receiving from the inbound queue moves bytes along without changing them. */
  lemma FillDelivered(st: Stream)
    requires st.readBuf == [] && st.inbound != []
    ensures FillBuffer(st).Delivered() == st.Delivered()
  {
  }

  lemma CopyDelivered(st: Stream, n: nat)
    requires n <= |st.readBuf|
    ensures CopyOut(st, n).Delivered() == st.Delivered()
  {
    assert st.readBuf == st.readBuf[..n] + st.readBuf[n..];
    assert st.returned + st.readBuf[..n] + st.readBuf[n..] == st.returned + st.readBuf;
  }

  lemma BufferKeepsLink(rx: Endpoint, wire: seq<Frame>, a: Action)
    requires a.Fill? || a.Copy?
    requires Link(rx, wire) && Enabled(rx, wire, a)
    ensures Link(Apply(rx, wire, a), wire)
  {
    if a.Fill? {
      FillDelivered(rx.mux.streams[a.id]);
      StreamMovesLink(rx, wire, a.id, FillBuffer(rx.mux.streams[a.id]));
    } else {
      CopyDelivered(rx.mux.streams[a.id], a.n);
      StreamMovesLink(rx, wire, a.id, CopyOut(rx.mux.streams[a.id], a.n));
    }
  }

  lemma StreamMovesLink(rx: Endpoint, wire: seq<Frame>, id: nat, st: Stream)
    requires Link(rx, wire) && id in rx.mux.streams
    requires st.Delivered() == rx.mux.streams[id].Delivered() && st.finished == rx.mux.streams[id].finished
    ensures Link(rx.(mux := rx.mux.(streams := rx.mux.streams[id := st])), wire)
  {
    QuietStepKeepsLink(rx, rx.(mux := rx.mux.(streams := rx.mux.streams[id := st])), wire);
  }

  lemma DeliverKeepsLink(rx: Endpoint, wire: seq<Frame>, ok: bool)
    requires Link(rx, wire) && ReaderCanMove(rx, ok) && (rx.reader.Delivering? || rx.reader.Offering?)
    ensures Link(MoveReader(rx, ok), wire)
  {
    if rx.reader.Offering? && ok {
      PushKeepsLink(rx, wire);
    } else {
      ReaderStepKeepsLink(rx, MoveReader(rx, ok).reader, wire);
    }
  }

  lemma HousekeepingIsQuiet(e: Endpoint, ok: bool)
    requires ReaderCanMove(e, ok) && !e.reader.Delivering? && !e.reader.Offering?
    ensures Quiet(e.mux, MoveReader(e, ok).mux)
  {
    match e.reader
    case Overflowed(id) => RemoveIsQuiet(e.mux, id);
    case OverflowFinishing(id) =>
      FinishIsQuiet(e.mux, id);
      RemoveIsQuiet(FinishStream(e.mux, id), id);
    case Ending(id) => FinishIsQuiet(e.mux, id);
    case Removing(id) => RemoveIsQuiet(e.mux, id);
    case _ =>
  }

  lemma HousekeepingKeepsLink(rx: Endpoint, wire: seq<Frame>, ok: bool)
    requires Link(rx, wire) && ReaderCanMove(rx, ok) && !rx.reader.Delivering? && !rx.reader.Offering?
    ensures Link(MoveReader(rx, ok), wire)
  {
    var rx' := MoveReader(rx, ok);
    HousekeepingIsQuiet(rx, ok);
    ReaderStepKeepsLink(rx, rx'.reader, wire);
    QuietStepKeepsLink(rx.(reader := rx'.reader), rx', wire);
  }

  lemma CallStepIsQuiet(e: Endpoint, t: nat, ok: bool)
    requires t in e.calls && CallCanAdvance(e, e.calls[t], ok)
    ensures Quiet(e.mux, AdvanceCall(e, t, ok).mux)
  {
    var id := e.calls[t].id;
    match e.calls[t]
    case OpenReserved(_) => RemoveIsQuiet(e.mux, id);
    case OpenSending(_) => RemoveIsQuiet(e.mux, id);
    case CloseFinishing(_) => FinishIsQuiet(e.mux, id);
    case CloseRemoving(_) => RemoveIsQuiet(e.mux, id);
    case _ =>
  }

  lemma OtherStepKeepsLink(rx: Endpoint, wire: seq<Frame>, a: Action)
    requires !(a.Receive? || a.Reserve? || a.Fill? || a.Copy? || a.ReaderMoves? || a.ReaderExits?)
    requires Link(rx, wire) && Enabled(rx, wire, a)
    ensures Link(Apply(rx, wire, a), wire)
  {
    if a.Advance? {
      CallStepIsQuiet(rx, a.call, a.ok);
    } else if a.FinishOne? {
      FinishIsQuiet(rx.mux, a.id);
    }
    QuietStepKeepsLink(rx, Apply(rx, wire, a), wire);
  }

  lemma OwnStepKeepsLink(rx: Endpoint, tx: Endpoint, a: Action)
    requires Paired(rx, tx) && Enabled(rx, tx.out, a)
    ensures Link(Apply(rx, tx.out, a), tx.out)
  {
    match a
    case Receive => ReceiveKeepsLink(rx, tx);
    case Reserve(t) =>
      ReservedIsFresh(rx, tx);
      ReserveKeepsLink(rx, tx.out, t);
    case Fill(_) => BufferKeepsLink(rx, tx.out, a);
    case Copy(_, _) => BufferKeepsLink(rx, tx.out, a);
    case ReaderMoves(ok) =>
      if rx.reader.Delivering? || rx.reader.Offering? {
        DeliverKeepsLink(rx, tx.out, ok);
      } else {
        HousekeepingKeepsLink(rx, tx.out, ok);
      }
    case ReaderExits => ReaderStepKeepsLink(rx, Exited, tx.out);
    case _ => OtherStepKeepsLink(rx, tx.out, a);
  }

  lemma OwnStepKeepsLocal(rx: Endpoint, tx: Endpoint, a: Action)
    requires rx.mux.localId + tx.mux.localId == 1
    requires Local(rx) && WireOk(tx) && Link(rx, tx.out) && Enabled(rx, tx.out, a)
    ensures Local(Apply(rx, tx.out, a))
  {
    match a
    case Start => StartLocal(rx, tx.out);
    case Reserve(t) => ReserveLocal(rx, tx.out, t);
    case AcceptOne => AcceptLocal(rx, tx.out);
    case BeginWrite(_, _, _) => BeginLocal(rx, tx.out, a);
    case BeginClose(_, _) => BeginLocal(rx, tx.out, a);
    case Advance(t, ok) => AdvanceLocal(rx, tx.out, t, ok);
    case Fill(_) => BufferLocal(rx, tx.out, a);
    case Copy(_, _) => BufferLocal(rx, tx.out, a);
    case CloseAll => CloseAllLocal(rx, tx.out);
    case FinishOne(id) => FinishOneLocal(rx, tx.out, id);
    case ConnectionFails => ReaderExitsLocal(rx, tx.out, a);
    case Receive =>
      if tx.out[rx.rcv].OpenFrame? { OpenIsFresh(rx, tx); }
      ReceiveLocal(rx, tx.out);
    case ReaderMoves(ok) => ReaderMovesLocal(rx, tx.out, ok);
    case ReaderExits => ReaderExitsLocal(rx, tx.out, a);
  }

  lemma LocalIdIsFixed(e: Endpoint, wire: seq<Frame>, a: Action)
    requires Enabled(e, wire, a)
    ensures Apply(e, wire, a).mux.localId == e.mux.localId
  {
    match a
    case Advance(t, ok) => CallKeepsLocalId(e, t, ok);
    case ReaderMoves(ok) => ReaderKeepsLocalId(e, ok);
    case _ =>
  }

  lemma CallKeepsLocalId(e: Endpoint, t: nat, ok: bool)
    requires t in e.calls && CallCanAdvance(e, e.calls[t], ok)
    ensures AdvanceCall(e, t, ok).mux.localId == e.mux.localId
  {
  }

  lemma ReaderKeepsLocalId(e: Endpoint, ok: bool)
    requires ReaderCanMove(e, ok)
    ensures MoveReader(e, ok).mux.localId == e.mux.localId
  {
  }

  lemma StepKeepsPaired(rx: Endpoint, tx: Endpoint, a: Action)
    requires Paired(rx, tx) && Enabled(rx, tx.out, a)
    ensures Paired(Apply(rx, tx.out, a), tx)
  {
    LocalIdIsFixed(rx, tx.out, a);
    OwnStepKeepsLocal(rx, tx, a);
    OwnStepKeepsLink(rx, tx, a);
    PeerStepKeepsLink(tx, rx, a);
  }

  // ---------- runs ----------

  lemma StepKeepsInv(s: Net, step: Step)
    requires Inv(s) && StepEnabled(s, step)
    ensures Inv(Take(s, step))
  {
    match step
    case ServerStep(a) =>
      StepKeepsPaired(s.server, s.client, a);
      LocalIdIsFixed(s.server, s.client.out, a);
    case ClientStep(a) =>
      StepKeepsPaired(s.client, s.server, a);
      LocalIdIsFixed(s.client, s.server.out, a);
  }

  lemma {:induction false} RunKeepsInv(s: Net, steps: seq<Step>)
    requires Inv(s) && CanRun(s, steps)
    ensures Inv(Run(s, steps))
    decreases |steps|
  {
    if steps != [] {
      StepKeepsInv(s, steps[0]);
      RunKeepsInv(Take(s, steps[0]), steps[1..]);
    }
  }
}
