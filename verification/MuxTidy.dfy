/**
 What the multiplexer does about streams that come and go: nothing stays in the table that nobody will
 remove, nothing the peer opened or ended goes unnoticed, and a call of `Close` takes effect.
 */
module MuxTidy {
  import opened Bytes
  import opened MuxProtocol
  import opened MuxInvariant
  import opened MuxLocal
  import opened MuxDelivery
  import opened MuxTheorems

  ghost predicate HasCall(e: Endpoint, c: Call) {
    exists t :: t in e.calls && e.calls[t] == c
  }

  /** A finished stream that is still in the table is about to leave it. */
  ghost predicate Leaving(e: Endpoint, id: nat) {
    e.reader == Removing(id) || HasCall(e, CloseRemoving(id))
  }

  ghost predicate Opening(e: Endpoint, id: nat) {
    HasCall(e, OpenReserved(id)) || HasCall(e, OpenSending(id))
  }

  /** Somebody has the stream, will be handed it, or is about to drop it. */
  ghost predicate Claimed(e: Endpoint, id: nat) {
    id in e.handles || id in e.mux.accept || e.reader == Inserted(id) || e.reader == Overflowed(id) || Opening(e, id)
  }

  ghost predicate Closing(e: Endpoint, id: nat) {
    HasCall(e, CloseHead(id)) || HasCall(e, CloseSending(id)) || HasCall(e, CloseFinishing(id)) || HasCall(e, CloseRemoving(id))
  }

  /** The stream is finished and, unless it is the control stream, out of the table. */
  predicate Gone(e: Endpoint, id: nat) {
    id in e.mux.streams && e.mux.streams[id].finished && (id == 0 || id !in e.mux.table)
  }

  /** The read loop has taken in a stream of the peer: it was handed on, or refused with a reset that went
      out, is going out, or can no longer. */
  ghost predicate Answered(e: Endpoint, id: nat) {
    || id in e.handles || id in e.mux.accept
    || e.reader == Inserted(id) || e.reader == Overflowed(id) || e.reader == OverflowFinishing(id)
    || e.reader == Resetting(id, AcceptQueueFull) || e.reader == ResetSending(id, AcceptQueueFull)
    || ResetFrame(id, AcceptQueueFull) in e.out
    || e.mux.closed || e.dead
  }

  ghost predicate CloseSent(e: Endpoint, id: nat) {
    || HasCall(e, CloseHead(id)) || HasCall(e, CloseSending(id))
    || CloseFrame(id) in e.out || e.mux.closed || e.dead
  }

  /** What holds of each stream of one side. */
  ghost predicate Tidy(e: Endpoint, id: nat) {
    && (id in e.mux.table && id != 0 && id in e.mux.streams && e.mux.streams[id].finished ==> Leaving(e, id))
    && (id in e.mux.table && id != 0 ==> Claimed(e, id))
    && (id in e.closes ==> id in e.handles && (Closing(e, id) || Gone(e, id)) && CloseSent(e, id))
    && (id in e.mux.streams && PeerId(id, e.mux.localId) ==> Answered(e, id))
  }

  // ---------- steps ----------

  /** Every call of `e` on `id` is still there in `e'`. */
  ghost predicate CallsStay(e: Endpoint, e': Endpoint, id: nat) {
    forall c: Call :: c.id == id && HasCall(e, c) ==> HasCall(e', c)
  }

  lemma OthersStay(e: Endpoint, calls: map<nat, Call>, t: nat, id: nat)
    requires t in e.calls ==> e.calls[t].id != id
    requires forall u :: u in e.calls && u != t ==> u in calls && calls[u] == e.calls[u]
    ensures CallsStay(e, e.(calls := calls), id)
  {
    forall c: Call | c.id == id && HasCall(e, c) ensures HasCall(e.(calls := calls), c) {
      var u :| u in e.calls && e.calls[u] == c;
      assert calls[u] == c;
    }
  }

  /** Nothing about `id` gets worse: it keeps its calls and what has been sent, is in the table and finished
      as before, and no one lets go of it. */
  lemma NothingWorse(e: Endpoint, e': Endpoint, id: nat)
    requires Tidy(e, id) && CallsStay(e, e', id)
    requires e'.mux.localId == e.mux.localId && e.out <= e'.out
    requires e'.reader == e.reader || !ReaderOn(e, id)
    requires (e.mux.closed ==> e'.mux.closed) && (e.dead ==> e'.dead)
    requires e.handles <= e'.handles && (id in e.mux.accept ==> id in e'.mux.accept || id in e'.handles)
    requires (id in e'.mux.table ==> id in e.mux.table) && (id in e'.closes ==> id in e.closes)
    requires (id in e.mux.streams <==> id in e'.mux.streams)
    requires id in e.mux.streams ==> e'.mux.streams[id].finished == e.mux.streams[id].finished || (e'.mux.streams[id].finished && id !in e'.mux.table)
    ensures Tidy(e', id)
  {
    assert Leaving(e, id) ==> Leaving(e', id);
    assert Opening(e, id) ==> Opening(e', id);
    assert Closing(e, id) ==> Closing(e', id);
    assert CloseSent(e, id) ==> CloseSent(e', id);
  }

  /** The read loop is busy with stream `id`. */
  predicate ReaderOn(e: Endpoint, id: nat) {
    !e.reader.Reading? && !e.reader.Exited? && e.reader.id == id
  }

  lemma ReserveTidy(e: Endpoint, wire: seq<Frame>, t: nat, id: nat)
    requires Local(e) && Tidy(e, id) && Enabled(e, wire, Reserve(t))
    ensures Tidy(Apply(e, wire, Reserve(t)), id)
  {
    var e' := Apply(e, wire, Reserve(t));
    var newId := e.mux.nextId;
    assert newId !in e.mux.streams;
    FirstFreeIsNext(newId, e.mux.table);
    if id == newId {
      assert e'.calls[t] == OpenReserved(id);
      assert id !in e.handles;
    } else {
      OthersStay(e, e'.calls, t, id);
      NothingWorse(e, e', id);
    }
  }

  lemma BeginTidy(e: Endpoint, wire: seq<Frame>, a: Action, id: nat)
    requires a.BeginWrite? || a.BeginClose?
    requires Tidy(e, id) && Enabled(e, wire, a)
    ensures Tidy(Apply(e, wire, a), id)
  {
    var e' := Apply(e, wire, a);
    OthersStay(e, e'.calls, a.call, id);
    if a.BeginClose? && a.id == id {
      assert e'.calls[a.call] == CloseHead(id);
      NothingWorse(e, e'.(closes := e.closes), id);
      assert HasCall(e', CloseHead(id));
      assert Leaving(e'.(closes := e.closes), id) ==> Leaving(e', id);
      assert Opening(e'.(closes := e.closes), id) ==> Opening(e', id);
    } else {
      NothingWorse(e, e', id);
    }
  }

  /** Steps that leave the calls and the reader alone. */
  lemma PlainTidy(e: Endpoint, wire: seq<Frame>, a: Action, id: nat)
    requires a.Start? || a.AcceptOne? || a.Fill? || a.Copy? || a.CloseAll? || a.FinishOne? || a.ConnectionFails?
    requires Local(e) && Tidy(e, id) && Enabled(e, wire, a)
    ensures Tidy(Apply(e, wire, a), id)
  {
    var e' := Apply(e, wire, a);
    assert e'.calls == e.calls;
    assert CallsStay(e, e', id) by {
      forall c: Call | c.id == id && HasCall(e, c) ensures HasCall(e', c) {
        var u :| u in e.calls && e.calls[u] == c;
        assert e'.calls[u] == c;
      }
    }
    NothingWorse(e, e', id);
  }

  // ---------- a call moves on ----------

  lemma OtherCallTidy(e: Endpoint, t: nat, ok: bool, id: nat)
    requires Tidy(e, id) && t in e.calls && CallCanAdvance(e, e.calls[t], ok) && e.calls[t].id != id
    ensures Tidy(AdvanceCall(e, t, ok), id)
  {
    var e' := AdvanceCall(e, t, ok);
    OthersStay(e, e'.calls, t, id);
    assert CallsStay(e, e', id) by {
      forall c: Call | c.id == id && HasCall(e, c) ensures HasCall(e', c) {
        assert HasCall(e.(calls := e'.calls), c);
      }
    }
    OtherCallKeeps(e, t, ok, id);
    NothingWorse(e, e', id);
  }

  lemma OtherCallKeeps(e: Endpoint, t: nat, ok: bool, id: nat)
    requires t in e.calls && CallCanAdvance(e, e.calls[t], ok) && e.calls[t].id != id
    ensures var e' := AdvanceCall(e, t, ok);
      && e'.mux.localId == e.mux.localId && e'.reader == e.reader && e.out <= e'.out && e'.closes == e.closes
      && e'.mux.closed == e.mux.closed && e'.dead == e.dead && e.handles <= e'.handles && e'.mux.accept == e.mux.accept
      && (id in e'.mux.table <==> id in e.mux.table)
      && (id in e'.mux.streams <==> id in e.mux.streams)
      && (id in e.mux.streams ==> e'.mux.streams[id] == e.mux.streams[id])
  {
  }

  /** A call on `id` that turns into another one, or ends. */
  lemma CallsElse(e: Endpoint, e': Endpoint, t: nat, id: nat)
    requires t in e.calls && e.calls[t].id == id
    requires forall u :: u in e.calls && u != t ==> u in e'.calls && e'.calls[u] == e.calls[u]
    ensures forall c: Call :: c != e.calls[t] && HasCall(e, c) ==> HasCall(e', c)
  {
    forall c: Call | c != e.calls[t] && HasCall(e, c) ensures HasCall(e', c) {
      var u :| u in e.calls && e.calls[u] == c;
      assert e'.calls[u] == c;
    }
  }

  lemma OpenCallTidy(e: Endpoint, t: nat, ok: bool)
    requires Local(e) && t in e.calls && CallCanAdvance(e, e.calls[t], ok) && e.calls[t].IsOpen() && Tidy(e, e.calls[t].id)
    ensures Tidy(AdvanceCall(e, t, ok), e.calls[t].id)
  {
    var id, e' := e.calls[t].id, AdvanceCall(e, t, ok);
    assert CallOk(e, e.calls[t]);
    CallsElse(e, e', t, id);
    if ok && e.calls[t].OpenReserved? {
      assert e'.calls[t] == OpenSending(id);
    }
    assert Leaving(e, id) ==> Leaving(e', id);
  }

  lemma WriteCallTidy(e: Endpoint, t: nat, ok: bool)
    requires t in e.calls && CallCanAdvance(e, e.calls[t], ok) && e.calls[t].IsWrite() && Tidy(e, e.calls[t].id)
    ensures Tidy(AdvanceCall(e, t, ok), e.calls[t].id)
  {
    var id, e' := e.calls[t].id, AdvanceCall(e, t, ok);
    CallsElse(e, e', t, id);
    assert Leaving(e, id) ==> Leaving(e', id);
    assert Opening(e, id) ==> Opening(e', id);
    assert Closing(e, id) ==> Closing(e', id);
    assert CloseSent(e, id) ==> CloseSent(e', id);
  }

  lemma CloseCallTidy(e: Endpoint, t: nat, ok: bool)
    requires Local(e) && t in e.calls && CallCanAdvance(e, e.calls[t], ok) && Tidy(e, e.calls[t].id)
    requires !e.calls[t].IsWrite() && !e.calls[t].IsOpen()
    ensures Tidy(AdvanceCall(e, t, ok), e.calls[t].id)
  {
    var c, id, e' := e.calls[t], e.calls[t].id, AdvanceCall(e, t, ok);
    assert CallOk(e, c);
    CallsElse(e, e', t, id);
    match c {
      case CloseHead(_) => assert e'.calls[t] == if ok then CloseSending(id) else CloseFinishing(id);
      case CloseSending(_) => assert e'.calls[t] == CloseFinishing(id) && (ok ==> e'.out[|e.out|] == CloseFrame(id));
      case CloseFinishing(_) => assert e'.calls[t] == CloseRemoving(id);
      case CloseRemoving(_) => assert Gone(e', id);
    }
    assert Opening(e, id) ==> Opening(e', id);
    assert Leaving(e, id) ==> Leaving(e', id) || id !in e'.mux.table || id == 0;
  }

  lemma AdvanceTidy(e: Endpoint, wire: seq<Frame>, t: nat, ok: bool, id: nat)
    requires Local(e) && Tidy(e, id) && Enabled(e, wire, Advance(t, ok))
    ensures Tidy(Apply(e, wire, Advance(t, ok)), id)
  {
    if e.calls[t].id != id {
      OtherCallTidy(e, t, ok, id);
    } else if e.calls[t].IsWrite() {
      WriteCallTidy(e, t, ok);
    } else if e.calls[t].IsOpen() {
      OpenCallTidy(e, t, ok);
    } else {
      CloseCallTidy(e, t, ok);
    }
  }

  // ---------- the read loop ----------

  lemma SameCalls(e: Endpoint, e': Endpoint)
    requires e'.calls == e.calls
    ensures forall c: Call :: HasCall(e, c) ==> HasCall(e', c)
  {
    forall c: Call | HasCall(e, c) ensures HasCall(e', c) {
      var u :| u in e.calls && e.calls[u] == c;
      assert e'.calls[u] == c;
    }
  }

  lemma ReceiveTidy(e: Endpoint, wire: seq<Frame>, id: nat)
    requires Local(e) && Tidy(e, id) && Enabled(e, wire, Receive)
    requires wire[e.rcv].OpenFrame? ==> PeerId(wire[e.rcv].id, e.mux.localId) && wire[e.rcv].id !in e.mux.streams
    ensures Tidy(Apply(e, wire, Receive), id)
  {
    var e' := Apply(e, wire, Receive);
    ReceiveShape(e, wire[e.rcv]);
    SameCalls(e, e');
    assert id in e.closes ==> id in e.mux.streams;
  }

  lemma ReaderTidy(e: Endpoint, wire: seq<Frame>, ok: bool, id: nat)
    requires Local(e) && Tidy(e, id) && Enabled(e, wire, ReaderMoves(ok))
    ensures Tidy(Apply(e, wire, ReaderMoves(ok)), id)
  {
    var e' := Apply(e, wire, ReaderMoves(ok));
    SameCalls(e, e');
    if e.reader.id == id {
      ReaderTidyOwn(e, ok);
    } else {
      ReaderTidyOther(e, ok, id);
    }
  }

  lemma ReaderTidyOwn(e: Endpoint, ok: bool)
    requires Local(e) && ReaderCanMove(e, ok) && Tidy(e, e.reader.id)
    ensures Tidy(MoveReader(e, ok), e.reader.id)
  {
    if e.reader.Inserted? || e.reader.Overflowed? || e.reader.OverflowFinishing? {
      OfferTidy(e, ok);
    } else if e.reader.Resetting? || e.reader.ResetSending? {
      ResetTidy(e, ok);
    } else if e.reader.Delivering? || e.reader.Offering? {
      DeliverTidy(e, ok);
    } else {
      EndTidy(e, ok);
    }
  }

  lemma ResetTidy(e: Endpoint, ok: bool)
    requires e.reader.Resetting? || e.reader.ResetSending?
    requires Local(e) && ReaderCanMove(e, ok) && Tidy(e, e.reader.id)
    ensures Tidy(MoveReader(e, ok), e.reader.id)
  {
    var e' := MoveReader(e, ok);
    SameCalls(e, e');
    if e.reader.ResetSending? && ok {
      assert e'.out[|e.out|] == ResetFrame(e.reader.id, e.reader.reason);
    }
  }

  lemma DeliverTidy(e: Endpoint, ok: bool)
    requires e.reader.Delivering? || e.reader.Offering?
    requires Local(e) && ReaderCanMove(e, ok) && Tidy(e, e.reader.id)
    ensures Tidy(MoveReader(e, ok), e.reader.id)
  {
    SameCalls(e, MoveReader(e, ok));
  }

  lemma EndTidy(e: Endpoint, ok: bool)
    requires e.reader.Ending? || e.reader.Removing?
    requires Local(e) && ReaderCanMove(e, ok) && Tidy(e, e.reader.id)
    ensures Tidy(MoveReader(e, ok), e.reader.id)
  {
    SameCalls(e, MoveReader(e, ok));
  }

  lemma OfferTidy(e: Endpoint, ok: bool)
    requires e.reader.Inserted? || e.reader.Overflowed? || e.reader.OverflowFinishing?
    requires Local(e) && ReaderCanMove(e, ok) && Tidy(e, e.reader.id)
    ensures Tidy(MoveReader(e, ok), e.reader.id)
  {
    var id, e' := e.reader.id, MoveReader(e, ok);
    SameCalls(e, e');
    if e.reader.Inserted? && ok {
      assert e'.mux.accept[|e.mux.accept|] == id;
    }
  }

  lemma ReaderTidyOther(e: Endpoint, ok: bool, id: nat)
    requires Local(e) && ReaderCanMove(e, ok) && Tidy(e, id) && e.reader.id != id
    ensures Tidy(MoveReader(e, ok), id)
  {
    SameCalls(e, MoveReader(e, ok));
    OtherReaderKeeps(e, ok, id);
    NothingWorse(e, MoveReader(e, ok), id);
  }

  /** What a step of the read loop on another stream leaves as it was. */
  ghost predicate Untouched(e: Endpoint, e': Endpoint, id: nat) {
    && e'.mux.localId == e.mux.localId && e.out <= e'.out && e'.closes == e.closes && e'.calls == e.calls
    && e'.mux.closed == e.mux.closed && e'.dead == e.dead && e'.handles == e.handles
    && (id in e.mux.accept ==> id in e'.mux.accept)
    && (id in e'.mux.table <==> id in e.mux.table)
    && (id in e'.mux.streams <==> id in e.mux.streams)
    && (id in e.mux.streams ==> e'.mux.streams[id].finished == e.mux.streams[id].finished)
  }

  lemma OtherReaderKeeps(e: Endpoint, ok: bool, id: nat)
    requires ReaderCanMove(e, ok) && e.reader.id != id
    ensures Untouched(e, MoveReader(e, ok), id)
  {
    if e.reader.Inserted? || e.reader.Overflowed? || e.reader.OverflowFinishing? {
      OtherOfferKeeps(e, ok, id);
    } else if e.reader.Ending? || e.reader.Removing? {
      OtherEndKeeps(e, ok, id);
    } else {
      OtherFrameKeeps(e, ok, id);
    }
  }

  lemma OtherOfferKeeps(e: Endpoint, ok: bool, id: nat)
    requires e.reader.Inserted? || e.reader.Overflowed? || e.reader.OverflowFinishing?
    requires ReaderCanMove(e, ok) && e.reader.id != id
    ensures Untouched(e, MoveReader(e, ok), id)
  {
  }

  lemma OtherEndKeeps(e: Endpoint, ok: bool, id: nat)
    requires e.reader.Ending? || e.reader.Removing?
    requires ReaderCanMove(e, ok) && e.reader.id != id
    ensures Untouched(e, MoveReader(e, ok), id)
  {
  }

  lemma OtherFrameKeeps(e: Endpoint, ok: bool, id: nat)
    requires e.reader.Resetting? || e.reader.ResetSending? || e.reader.Delivering? || e.reader.Offering?
    requires ReaderCanMove(e, ok) && e.reader.id != id
    ensures Untouched(e, MoveReader(e, ok), id)
  {
  }

  lemma ReaderExitsTidy(e: Endpoint, wire: seq<Frame>, id: nat)
    requires Tidy(e, id) && Enabled(e, wire, ReaderExits)
    ensures Tidy(Apply(e, wire, ReaderExits), id)
  {
    SameCalls(e, Apply(e, wire, ReaderExits));
  }

  lemma StepTidy(e: Endpoint, wire: seq<Frame>, a: Action, id: nat)
    requires Local(e) && Tidy(e, id) && Enabled(e, wire, a)
    requires a.Receive? && wire[e.rcv].OpenFrame? ==> PeerId(wire[e.rcv].id, e.mux.localId) && wire[e.rcv].id !in e.mux.streams
    ensures Tidy(Apply(e, wire, a), id)
  {
    match a
    case Reserve(t) => ReserveTidy(e, wire, t, id);
    case BeginWrite(_, _, _) => BeginTidy(e, wire, a, id);
    case BeginClose(_, _) => BeginTidy(e, wire, a, id);
    case Advance(t, ok) => AdvanceTidy(e, wire, t, ok, id);
    case Receive => ReceiveTidy(e, wire, id);
    case ReaderMoves(ok) => ReaderTidy(e, wire, ok, id);
    case ReaderExits => ReaderExitsTidy(e, wire, id);
    case _ => PlainTidy(e, wire, a, id);
  }

  // ---------- frames that end a stream ----------

  predicate EndFrame(f: Frame) { f.CloseFrame? || f.ResetFrame? }

  /** A frame that ends a stream names one its sender has, opened by itself before or by its peer. */
  ghost predicate EndOk(e: Endpoint, i: nat)
    requires i < |e.out|
  {
    var f := e.out[i];
    EndFrame(f) ==>
      && f.id in e.mux.streams
      && (OwnId(f.id, e.mux.localId) ==> OpenFrame(f.id) in e.out[..i])
  }

  ghost predicate ResetOk(e: Endpoint) {
    e.reader.Resetting? || e.reader.ResetSending? ==> e.reader.id in e.mux.streams && PeerId(e.reader.id, e.mux.localId)
  }

  ghost predicate EndsOk(e: Endpoint) {
    ResetOk(e) && forall i :: 0 <= i < |e.out| ==> EndOk(e, i)
  }

  lemma SentEndsStayOk(e: Endpoint, e': Endpoint)
    requires EndsOk(e) && ResetOk(e') && e'.mux.localId == e.mux.localId && e.mux.streams.Keys <= e'.mux.streams.Keys
    requires e'.out == e.out || (|e'.out| == |e.out| + 1 && e.out <= e'.out && EndOk(e', |e.out|))
    ensures EndsOk(e')
  {
    forall i | 0 <= i < |e'.out| ensures EndOk(e', i) {
      if i < |e.out| {
        assert EndOk(e, i) && e'.out[..i] == e.out[..i] && e'.out[i] == e.out[i];
      }
    }
  }

  lemma CallEndsOk(e: Endpoint, t: nat, ok: bool)
    requires Local(e) && EndsOk(e) && t in e.calls && CallCanAdvance(e, e.calls[t], ok)
    ensures EndsOk(AdvanceCall(e, t, ok))
  {
    var e' := AdvanceCall(e, t, ok);
    CallStepIsQuiet(e, t, ok);
    assert CallOk(e, e.calls[t]);
    CallWrites(e, t, ok);
    if e'.out != e.out {
      assert e'.out[..|e.out|] == e.out;
    }
    SentEndsStayOk(e, e');
  }

  /** What a call's step puts on the wire. */
  lemma CallWrites(e: Endpoint, t: nat, ok: bool)
    requires t in e.calls && CallCanAdvance(e, e.calls[t], ok)
    ensures var e' := AdvanceCall(e, t, ok);
      && e'.reader == e.reader
      && (e'.out == e.out || (|e'.out| == |e.out| + 1 && e.out <= e'.out && (EndFrame(e'.out[|e.out|]) ==> e'.out[|e.out|] == CloseFrame(e.calls[t].id) && e.calls[t].CloseSending?)))
  {
  }

  lemma ReaderEndsOk(e: Endpoint, ok: bool)
    requires Local(e) && EndsOk(e) && ReaderCanMove(e, ok)
    ensures EndsOk(MoveReader(e, ok))
  {
    var e' := MoveReader(e, ok);
    ReaderWrites(e, ok);
    SentEndsStayOk(e, e');
  }

  lemma ReaderWrites(e: Endpoint, ok: bool)
    requires Local(e) && ResetOk(e) && ReaderCanMove(e, ok)
    ensures var e' := MoveReader(e, ok);
      && ResetOk(e') && e'.mux.localId == e.mux.localId && e'.mux.streams.Keys == e.mux.streams.Keys
      && (e'.out == e.out || (e.reader.ResetSending? && e'.out == e.out + [ResetFrame(e.reader.id, e.reader.reason)]))
  {
  }

  lemma StepEndsOk(e: Endpoint, wire: seq<Frame>, a: Action)
    requires Local(e) && EndsOk(e) && Enabled(e, wire, a)
    requires a.Receive? && wire[e.rcv].OpenFrame? ==> PeerId(wire[e.rcv].id, e.mux.localId) && wire[e.rcv].id !in e.mux.streams
    ensures EndsOk(Apply(e, wire, a))
  {
    match a
    case Advance(t, ok) => CallEndsOk(e, t, ok);
    case ReaderMoves(ok) => ReaderEndsOk(e, ok);
    case Receive =>
      ReceiveShape(e, wire[e.rcv]);
      SentEndsStayOk(e, Apply(e, wire, a));
    case _ => SentEndsStayOk(e, Apply(e, wire, a));
  }

  // ---------- taking frames that end a stream ----------

  /** The stream named has ended here, or the read loop is about to end it. */
  ghost predicate Ended(rx: Endpoint, id: nat) {
    && (id in rx.mux.table && id in rx.mux.streams ==> rx.mux.streams[id].finished || rx.reader == Ending(id))
    && (id in rx.mux.table && id != 0 ==> rx.reader == Ending(id) || rx.reader == Removing(id))
  }

  /** The id is not one that could come up again. */
  ghost predicate Known(rx: Endpoint, wire: seq<Frame>, id: nat)
    requires rx.rcv <= |wire|
  {
    && (OwnId(id, rx.mux.localId) ==> id < rx.mux.nextId)
    && (PeerId(id, rx.mux.localId) ==> OpenFrame(id) in wire[..rx.rcv])
  }

  ghost predicate EndsTaken(rx: Endpoint, wire: seq<Frame>) {
    && rx.rcv <= |wire|
    && forall i :: 0 <= i < rx.rcv && EndFrame(wire[i]) ==> Ended(rx, wire[i].id) && Known(rx, wire, wire[i].id)
  }

  /** The streams that are in the table, and which of them are finished, changed for the better only. */
  lemma EndedStays(rx: Endpoint, rx': Endpoint, id: nat)
    requires Ended(rx, id) && (id in rx'.mux.table ==> id in rx.mux.table) && rx.mux.streams.Keys <= rx'.mux.streams.Keys
    requires id in rx.mux.streams && rx.mux.streams[id].finished ==> rx'.mux.streams[id].finished
    requires id in rx'.mux.table ==> id in rx.mux.streams
    requires rx'.reader == rx.reader || (rx.reader != Ending(id) && rx.reader != Removing(id))
    ensures Ended(rx', id)
  {
  }

  lemma ReaderEnds(rx: Endpoint, ok: bool, id: nat)
    requires Local(rx) && Ended(rx, id) && ReaderCanMove(rx, ok)
    ensures Ended(MoveReader(rx, ok), id)
  {
    if rx.reader.id != id {
      OtherReaderKeeps(rx, ok, id);
    } else if rx.reader.Ending? || rx.reader.Removing? {
    } else if rx.reader.Delivering? || rx.reader.Offering? {
    } else {
      OfferOrResetEnds(rx, ok);
    }
  }

  lemma OfferOrResetEnds(rx: Endpoint, ok: bool)
    requires rx.reader.Inserted? || rx.reader.Overflowed? || rx.reader.OverflowFinishing? || rx.reader.Resetting? || rx.reader.ResetSending?
    requires Local(rx) && Ended(rx, rx.reader.id) && ReaderCanMove(rx, ok)
    ensures Ended(MoveReader(rx, ok), rx.reader.id)
  {
  }

  lemma CallEnds(rx: Endpoint, t: nat, ok: bool, id: nat)
    requires Local(rx) && Ended(rx, id) && t in rx.calls && CallCanAdvance(rx, rx.calls[t], ok)
    ensures Ended(AdvanceCall(rx, t, ok), id)
  {
    CallStepIsQuiet(rx, t, ok);
    CallWrites(rx, t, ok);
    assert rx.mux.table <= rx.mux.streams.Keys;
    EndedStays(rx, AdvanceCall(rx, t, ok), id);
  }

  lemma ReserveEnds(rx: Endpoint, wire: seq<Frame>, t: nat, id: nat)
    requires Local(rx) && Ended(rx, id) && Enabled(rx, wire, Reserve(t)) && (OwnId(id, rx.mux.localId) ==> id < rx.mux.nextId)
    ensures Ended(Apply(rx, wire, Reserve(t)), id)
  {
    assert rx.mux.nextId !in rx.mux.streams;
    FirstFreeIsNext(rx.mux.nextId, rx.mux.table);
    EndedStays(rx, Apply(rx, wire, Reserve(t)), id);
  }

  lemma ReceiveEnds(rx: Endpoint, wire: seq<Frame>, id: nat)
    requires Local(rx) && Enabled(rx, wire, Receive) && (wire[rx.rcv].OpenFrame? ==> wire[rx.rcv].id != id)
    requires Ended(rx, id) || (EndFrame(wire[rx.rcv]) && wire[rx.rcv].id == id)
    ensures Ended(Apply(rx, wire, Receive), id)
  {
    ReceiveShape(rx, wire[rx.rcv]);
  }

  lemma OtherStepEnds(rx: Endpoint, wire: seq<Frame>, a: Action, id: nat)
    requires !(a.Receive? || a.Reserve? || a.Advance? || a.ReaderMoves?)
    requires Local(rx) && Ended(rx, id) && Enabled(rx, wire, a)
    ensures Ended(Apply(rx, wire, a), id)
  {
    EndedStays(rx, Apply(rx, wire, a), id);
  }

  lemma StepEnds(rx: Endpoint, wire: seq<Frame>, a: Action, id: nat)
    requires Local(rx) && Ended(rx, id) && Enabled(rx, wire, a) && rx.rcv <= |wire| && Known(rx, wire, id)
    requires a.Receive? && wire[rx.rcv].OpenFrame? ==> wire[rx.rcv].id != id
    ensures Ended(Apply(rx, wire, a), id)
  {
    match a
    case Receive => ReceiveEnds(rx, wire, id);
    case Reserve(t) => ReserveEnds(rx, wire, t, id);
    case Advance(t, ok) => CallEnds(rx, t, ok, id);
    case ReaderMoves(ok) => ReaderEnds(rx, ok, id);
    case _ => OtherStepEnds(rx, wire, a, id);
  }

  /** No open frame for a known id is still to come. */
  lemma KnownIsNotOpened(rx: Endpoint, tx: Endpoint, id: nat)
    requires rx.mux.localId + tx.mux.localId == 1 && WireOk(tx) && Link(rx, tx.out) && rx.rcv < |tx.out| && Known(rx, tx.out, id)
    ensures tx.out[rx.rcv] != OpenFrame(id)
  {
    FrameAt(tx, rx.rcv);
  }

  /** A frame that ends a stream names a known id. */
  lemma EndIsKnown(rx: Endpoint, tx: Endpoint, i: nat)
    requires rx.mux.localId + tx.mux.localId == 1 && WireOk(rx) && Link(tx, rx.out)
    requires EndsOk(tx) && i < rx.rcv <= |tx.out| && EndFrame(tx.out[i])
    ensures Known(rx, tx.out, tx.out[i].id)
  {
    var id := tx.out[i].id;
    assert EndOk(tx, i);
    if OwnId(id, rx.mux.localId) {
      assert PeerId(id, tx.mux.localId);
      OpenedIdsAreBelow(rx, id, tx.rcv);
    } else if PeerId(id, rx.mux.localId) {
      InPrefix(tx.out, OpenFrame(id), i, rx.rcv);
    }
  }

  lemma KnownStays(rx: Endpoint, wire: seq<Frame>, rx': Endpoint, wire': seq<Frame>, id: nat)
    requires rx.rcv <= |wire| && Known(rx, wire, id)
    requires rx'.mux.localId == rx.mux.localId && rx.mux.nextId <= rx'.mux.nextId && rx.rcv <= rx'.rcv <= |wire'| && wire <= wire'
    ensures Known(rx', wire', id)
  {
    if PeerId(id, rx.mux.localId) {
      assert wire'[..rx.rcv] == wire[..rx.rcv];
      InPrefix(wire', OpenFrame(id), rx.rcv, rx'.rcv);
    }
  }

  lemma NextIdGrows(e: Endpoint, wire: seq<Frame>, a: Action)
    requires Local(e) && Enabled(e, wire, a)
    ensures e.mux.nextId <= Apply(e, wire, a).mux.nextId
    ensures Apply(e, wire, a).rcv == if a.Receive? then e.rcv + 1 else e.rcv
  {
    match a
    case Reserve(t) => ReserveGrows(e, wire, t);
    case Advance(t, ok) => CallKeepsNextId(e, t, ok);
    case ReaderMoves(ok) => ReaderKeepsNextId(e, ok);
    case _ =>
  }

  lemma ReserveGrows(e: Endpoint, wire: seq<Frame>, t: nat)
    requires Local(e) && Enabled(e, wire, Reserve(t))
    ensures e.mux.nextId <= Apply(e, wire, Reserve(t)).mux.nextId
  {
    assert e.mux.nextId !in e.mux.streams;
    FirstFreeIsNext(e.mux.nextId, e.mux.table);
  }

  lemma CallKeepsNextId(e: Endpoint, t: nat, ok: bool)
    requires t in e.calls && CallCanAdvance(e, e.calls[t], ok)
    ensures AdvanceCall(e, t, ok).mux.nextId == e.mux.nextId && AdvanceCall(e, t, ok).rcv == e.rcv
  {
  }

  lemma ReaderKeepsNextId(e: Endpoint, ok: bool)
    requires ReaderCanMove(e, ok)
    ensures MoveReader(e, ok).mux.nextId == e.mux.nextId && MoveReader(e, ok).rcv == e.rcv
  {
  }

  lemma OwnStepEndsTaken(rx: Endpoint, tx: Endpoint, a: Action)
    requires Paired(rx, tx) && EndsOk(tx) && EndsTaken(rx, tx.out) && Enabled(rx, tx.out, a)
    ensures EndsTaken(Apply(rx, tx.out, a), tx.out)
  {
    NextIdGrows(rx, tx.out, a);
    OldEndsStay(rx, tx, a);
    if a.Receive? && EndFrame(tx.out[rx.rcv]) {
      NewEndIsSeen(rx, tx);
    }
    OldAndNewEnds(Apply(rx, tx.out, a), tx.out, rx.rcv);
  }

  lemma OldAndNewEnds(rx: Endpoint, wire: seq<Frame>, n: nat)
    requires n <= rx.rcv <= n + 1 && rx.rcv <= |wire|
    requires forall i :: 0 <= i < n && EndFrame(wire[i]) ==> Ended(rx, wire[i].id) && Known(rx, wire, wire[i].id)
    requires rx.rcv == n + 1 && EndFrame(wire[n]) ==> Ended(rx, wire[n].id) && Known(rx, wire, wire[n].id)
    ensures EndsTaken(rx, wire)
  {
  }

  lemma OldEndsStay(rx: Endpoint, tx: Endpoint, a: Action)
    requires Paired(rx, tx) && EndsTaken(rx, tx.out) && Enabled(rx, tx.out, a)
    ensures var rx' := Apply(rx, tx.out, a);
      && rx'.rcv <= |tx.out|
      && forall i :: 0 <= i < rx.rcv && EndFrame(tx.out[i]) ==> Ended(rx', tx.out[i].id) && Known(rx', tx.out, tx.out[i].id)
  {
    NextIdGrows(rx, tx.out, a);
    forall i | 0 <= i < rx.rcv && EndFrame(tx.out[i])
      ensures Ended(Apply(rx, tx.out, a), tx.out[i].id) && Known(Apply(rx, tx.out, a), tx.out, tx.out[i].id)
    {
      TakenEndStays(rx, tx, a, tx.out[i].id);
    }
  }

  lemma NewEndIsSeen(rx: Endpoint, tx: Endpoint)
    requires Paired(rx, tx) && EndsOk(tx) && Enabled(rx, tx.out, Receive) && EndFrame(tx.out[rx.rcv])
    ensures var rx', id := Apply(rx, tx.out, Receive), tx.out[rx.rcv].id;
      rx'.rcv <= |tx.out| && Ended(rx', id) && Known(rx', tx.out, id)
  {
    TakenEndIsSeen(rx, tx);
    KnownStays(rx.(rcv := rx.rcv + 1), tx.out, ReceiveFrame(rx, tx.out[rx.rcv]), tx.out, tx.out[rx.rcv].id);
  }

  lemma TakenEndStays(rx: Endpoint, tx: Endpoint, a: Action, id: nat)
    requires Paired(rx, tx) && Enabled(rx, tx.out, a) && Ended(rx, id) && Known(rx, tx.out, id)
    ensures Ended(Apply(rx, tx.out, a), id)
    ensures Apply(rx, tx.out, a).rcv <= |tx.out| && Known(Apply(rx, tx.out, a), tx.out, id)
  {
    if a.Receive? {
      KnownIsNotOpened(rx, tx, id);
    }
    StepEnds(rx, tx.out, a, id);
    NextIdGrows(rx, tx.out, a);
    LocalIdIsFixed(rx, tx.out, a);
    KnownStays(rx, tx.out, Apply(rx, tx.out, a), tx.out, id);
  }

  lemma TakenEndIsSeen(rx: Endpoint, tx: Endpoint)
    requires Paired(rx, tx) && EndsOk(tx) && Enabled(rx, tx.out, Receive) && EndFrame(tx.out[rx.rcv])
    ensures Ended(ReceiveFrame(rx, tx.out[rx.rcv]), tx.out[rx.rcv].id)
    ensures Known(rx.(rcv := rx.rcv + 1), tx.out, tx.out[rx.rcv].id)
    ensures ReceiveFrame(rx, tx.out[rx.rcv]).rcv == rx.rcv + 1 && ReceiveFrame(rx, tx.out[rx.rcv]).mux == rx.mux
  {
    ReceiveShape(rx, tx.out[rx.rcv]);
    ReceiveEnds(rx, tx.out, tx.out[rx.rcv].id);
    EndIsKnown(rx.(rcv := rx.rcv + 1), tx, rx.rcv);
  }

  lemma PeerStepEndsTaken(rx: Endpoint, tx: Endpoint, a: Action)
    requires EndsTaken(rx, tx.out) && Enabled(tx, rx.out, a)
    ensures EndsTaken(rx, Apply(tx, rx.out, a).out)
  {
    var out' := Apply(tx, rx.out, a).out;
    assert tx.out <= out';
    forall i | 0 <= i < rx.rcv && EndFrame(out'[i]) ensures Known(rx, out', out'[i].id) {
      assert out'[i] == tx.out[i];
      KnownStays(rx, tx.out, rx, out', out'[i].id);
    }
  }
}
