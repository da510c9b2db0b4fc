/** What `Write` puts on the wire, when the writes on a stream do not overlap. */
module MuxWrites {
  import opened Bytes
  import opened MuxProtocol
  import opened MuxInvariant
  import opened MuxLocal
  import opened MuxDelivery
  import opened MuxTheorems

  /** No write can get past its checks any more. */
  predicate Stuck(e: Endpoint, id: nat) {
    e.mux.closed || e.dead || (id in e.mux.streams && e.mux.streams[id].finished)
  }

  predicate WriteOn(c: Call, id: nat) {
    c.IsWrite() && c.id == id
  }

  /** What a write in flight still has to send completes what was asked, unless it is bound to fail. */
  predicate WriteCallOk(e: Endpoint, c: Call)
    requires c.IsWrite()
  {
    || DataBytes(e.out, c.id) + c.rest == e.Asked(c.id)
    || e.dead
    || (!c.WriteSending? && e.mux.closed)
    || (c.WriteHead? && Stuck(e, c.id))
  }

  ghost predicate WritesOk(e: Endpoint, id: nat) {
    && DataBytes(e.out, id) <= e.Asked(id)
    && (forall t :: t in e.calls && WriteOn(e.calls[t], id) ==> WriteCallOk(e, e.calls[t]))
    && (forall t, u :: t in e.calls && u in e.calls && t != u && WriteOn(e.calls[t], id) ==> !WriteOn(e.calls[u], id))
    && ((forall t :: t in e.calls ==> !WriteOn(e.calls[t], id)) ==> DataBytes(e.out, id) == e.Asked(id) || Stuck(e, id))
  }

  ghost predicate OrderlyOk(e: Endpoint, id: nat) {
    id !in e.raced ==> WritesOk(e, id)
  }

  /** Steps that touch neither the wire, the calls nor what was asked, and unstick nothing. */
  lemma IdleStep(e: Endpoint, e': Endpoint, id: nat)
    requires OrderlyOk(e, id)
    requires e'.out == e.out && e'.calls == e.calls && e'.asked == e.asked && e'.raced == e.raced
    requires (e.dead ==> e'.dead) && (e.mux.closed ==> e'.mux.closed) && (Stuck(e, id) ==> Stuck(e', id))
    ensures OrderlyOk(e', id)
  {
  }

  lemma OtherFrame(e: Endpoint, f: Frame, id: nat)
    requires OrderlyOk(e, id) && (f.DataFrame? ==> f.id != id)
    ensures OrderlyOk(e.(out := e.out + [f]), id)
  {
    DataBytesSnoc(e.out, f, id);
    assert DataBytes(e.out, id) + [] == DataBytes(e.out, id);
  }

  /** A call that is not a write on `id` may come, go or move on. */
  lemma OtherCall(e: Endpoint, calls: map<nat, Call>, t: nat, id: nat)
    requires OrderlyOk(e, id)
    requires t in e.calls ==> !WriteOn(e.calls[t], id)
    requires t in calls ==> !WriteOn(calls[t], id)
    requires calls - {t} == e.calls - {t}
    ensures OrderlyOk(e.(calls := calls), id)
  {
    var e' := e.(calls := calls);
    assert forall u :: u != t ==> (u in calls <==> u in calls - {t});
    assert forall u :: u != t ==> (u in e.calls <==> u in e.calls - {t});
    assert forall u :: u != t && u in calls ==> u in e.calls && calls[u] == (calls - {t})[u] == e.calls[u];
    assert forall u :: u in calls && WriteOn(calls[u], id) ==> u in e.calls && calls[u] == e.calls[u];
    if forall u :: u in calls ==> !WriteOn(calls[u], id) {
      forall u | u in e.calls ensures !WriteOn(e.calls[u], id) {
        assert u != t ==> u in calls && calls[u] == e.calls[u];
      }
    }
  }

  lemma StartWriteOrderly(e: Endpoint, t: nat, x: nat, data: seq<byte>, id: nat)
    requires OrderlyOk(e, id) && t !in e.calls
    ensures OrderlyOk(StartWrite(e, t, x, data), id)
  {
    var e' := StartWrite(e, t, x, data);
    if x != id {
      OtherCall(e, e.calls[t := WriteHead(x, data)], t, id);
      assert e'.Asked(id) == e.Asked(id);
    } else if !WriteInFlight(e, id) && id !in e.raced {
      assert forall u :: u in e.calls ==> !WriteOn(e.calls[u], id);
      assert WriteCallOk(e', e'.calls[t]);
      assert WriteOn(e'.calls[t], id);
    }
  }

  /** `t` is the one write on `id`, and it is `c`. */
  ghost predicate SoleWrite(e: Endpoint, t: nat, c: Call) {
    && t in e.calls && e.calls[t] == c && c.IsWrite()
    && (forall u :: u in e.calls && u != t ==> !WriteOn(e.calls[u], c.id))
  }

  lemma TheSoleWrite(e: Endpoint, t: nat)
    requires t in e.calls && e.calls[t].IsWrite() && WritesOk(e, e.calls[t].id)
    ensures SoleWrite(e, t, e.calls[t]) && WriteCallOk(e, e.calls[t])
  {
    assert WriteOn(e.calls[t], e.calls[t].id);
  }

  lemma SoleWriteOk(e: Endpoint, t: nat, c: Call)
    requires SoleWrite(e, t, c) && WriteCallOk(e, c) && DataBytes(e.out, c.id) <= e.Asked(c.id)
    ensures WritesOk(e, c.id)
  {
    assert WriteOn(e.calls[t], c.id);
  }

  lemma NoWriteOk(e: Endpoint, id: nat)
    requires forall t :: t in e.calls ==> !WriteOn(e.calls[t], id)
    requires DataBytes(e.out, id) <= e.Asked(id)
    requires DataBytes(e.out, id) == e.Asked(id) || Stuck(e, id)
    ensures WritesOk(e, id)
  {
  }

  lemma ChunkSent(e: Endpoint, t: nat)
    requires t in e.calls && e.calls[t].WriteSending? && !e.dead && WritesOk(e, e.calls[t].id)
    ensures WritesOk(AdvanceCall(e, t, true), e.calls[t].id)
  {
    var c := e.calls[t];
    TheSoleWrite(e, t);
    var n := ChunkLength(c.rest);
    var e' := e.(out := e.out + [DataFrame(c.id, c.rest[..n])], calls := e.calls[t := WriteHead(c.id, c.rest[n..])]);
    assert AdvanceCall(e, t, true) == e';
    DataBytesSnoc(e.out, DataFrame(c.id, c.rest[..n]), c.id);
    CutAndJoin(DataBytes(e.out, c.id), c.rest, n);
    SoleWriteOk(e', t, WriteHead(c.id, c.rest[n..]));
  }

  lemma CutAndJoin(sent: seq<byte>, rest: seq<byte>, n: nat)
    requires n <= |rest|
    ensures sent + rest[..n] + rest[n..] == sent + rest
  {
  }

  lemma WriteEnds(e: Endpoint, t: nat, ok: bool)
    requires t in e.calls && e.calls[t].IsWrite() && CallCanAdvance(e, e.calls[t], ok) && !ok
    requires WritesOk(e, e.calls[t].id)
    ensures WritesOk(AdvanceCall(e, t, ok), e.calls[t].id)
  {
    var c := e.calls[t];
    TheSoleWrite(e, t);
    assert c.rest == [] ==> DataBytes(e.out, c.id) + c.rest == DataBytes(e.out, c.id);
    NoWriteOk(e.(calls := e.calls - {t}), c.id);
  }

  /** The call holding a write on `id` moves on, or ends. */
  lemma WriteMoves(e: Endpoint, t: nat, ok: bool)
    requires t in e.calls && e.calls[t].IsWrite() && CallCanAdvance(e, e.calls[t], ok)
    requires OrderlyOk(e, e.calls[t].id)
    ensures OrderlyOk(AdvanceCall(e, t, ok), e.calls[t].id)
  {
    var c := e.calls[t];
    if c.id !in e.raced {
      if !ok {
        WriteEnds(e, t, ok);
      } else if c.WriteSending? {
        ChunkSent(e, t);
      } else {
        TheSoleWrite(e, t);
        var c' := if c.WriteHead? then WriteReady(c.id, c.rest) else WriteSending(c.id, c.rest);
        SoleWriteOk(e.(calls := e.calls[t := c']), t, c');
      }
    }
  }

  lemma CallMoves(e: Endpoint, t: nat, ok: bool, id: nat)
    requires t in e.calls && CallCanAdvance(e, e.calls[t], ok) && OrderlyOk(e, id) && !WriteOn(e.calls[t], id)
    ensures OrderlyOk(AdvanceCall(e, t, ok), id)
  {
    var e' := AdvanceCall(e, t, ok);
    OtherCall(e, e'.calls, t, id);
    var e1 := e.(calls := e'.calls);
    CallStepIsQuiet(e, t, ok);
    var e2 := e1;
    if e'.out != e.out {
      var f := e'.out[|e.out|];
      assert e'.out == e.out + [f];
      OtherFrame(e1, f, id);
      e2 := e1.(out := e1.out + [f]);
    }
    IdleStep(e2, e', id);
  }

  lemma ReaderMovesOrderly(e: Endpoint, ok: bool, id: nat)
    requires ReaderCanMove(e, ok) && OrderlyOk(e, id)
    ensures OrderlyOk(MoveReader(e, ok), id)
  {
    var e' := MoveReader(e, ok);
    var e1 := e;
    if e'.out != e.out {
      var f := e'.out[|e.out|];
      assert e'.out == e.out + [f];
      OtherFrame(e, f, id);
      e1 := e.(out := e.out + [f]);
    }
    if !e.reader.Delivering? && !e.reader.Offering? {
      HousekeepingIsQuiet(e, ok);
    }
    IdleStep(e1, e', id);
  }

  /** A step that brings a new stream into the table: the id is new to this side. */
  lemma NewStreamOrderly(e: Endpoint, e': Endpoint, id: nat, newId: nat)
    requires OrderlyOk(e, id) && newId !in e.mux.streams
    requires e'.out == e.out && e'.asked == e.asked && e'.raced == e.raced && e'.dead == e.dead
    requires e'.calls == e.calls
    requires e'.mux.streams == e.mux.streams[newId := EMPTY_STREAM] && e'.mux.closed == e.mux.closed
    ensures OrderlyOk(e', id)
  {
    assert Stuck(e, id) ==> Stuck(e', id);
    IdleStep(e, e', id);
  }

  lemma ReserveOrderly(e: Endpoint, wire: seq<Frame>, t: nat, id: nat)
    requires OrderlyOk(e, id) && TableOk(e) && Enabled(e, wire, Reserve(t))
    ensures OrderlyOk(Apply(e, wire, Reserve(t)), id)
  {
    var e' := Apply(e, wire, Reserve(t));
    var newId := e.mux.nextId;
    assert newId !in e.mux.streams;
    FirstFreeIsNext(newId, e.mux.table);
    OtherCall(e, e'.calls, t, id);
    NewStreamOrderly(e.(calls := e'.calls), e', id, newId);
  }

  lemma ReceiveOrderly(e: Endpoint, wire: seq<Frame>, id: nat)
    requires OrderlyOk(e, id) && Enabled(e, wire, Receive)
    requires wire[e.rcv].OpenFrame? ==> wire[e.rcv].id !in e.mux.streams
    ensures OrderlyOk(Apply(e, wire, Receive), id)
  {
    var e' := Apply(e, wire, Receive);
    ReceiveShape(e, wire[e.rcv]);
    if e'.reader.Inserted? {
      NewStreamOrderly(e, e', id, wire[e.rcv].id);
    } else {
      IdleStep(e, e', id);
    }
  }

  lemma RestOrderly(e: Endpoint, wire: seq<Frame>, a: Action, id: nat)
    requires a.Start? || a.AcceptOne? || a.Fill? || a.Copy? || a.CloseAll? || a.FinishOne? || a.ConnectionFails? || a.ReaderExits?
    requires OrderlyOk(e, id) && Enabled(e, wire, a)
    ensures OrderlyOk(Apply(e, wire, a), id)
  {
    IdleStep(e, Apply(e, wire, a), id);
  }

  lemma StepOrderly(e: Endpoint, wire: seq<Frame>, a: Action, id: nat)
    requires OrderlyOk(e, id) && TableOk(e) && Enabled(e, wire, a)
    requires a.Receive? && wire[e.rcv].OpenFrame? ==> wire[e.rcv].id !in e.mux.streams
    ensures OrderlyOk(Apply(e, wire, a), id)
  {
    match a
    case BeginWrite(t, x, data) => StartWriteOrderly(e, t, x, data, id);
    case BeginClose(t, _) => OtherCall(e, Apply(e, wire, a).calls, t, id);
    case Advance(t, ok) =>
      if WriteOn(e.calls[t], id) { WriteMoves(e, t, ok); } else { CallMoves(e, t, ok, id); }
    case ReaderMoves(ok) => ReaderMovesOrderly(e, ok, id);
    case Reserve(t) => ReserveOrderly(e, wire, t, id);
    case Receive => ReceiveOrderly(e, wire, id);
    case _ => RestOrderly(e, wire, a, id);
  }

  /** The step of one end of a connection. */
  lemma EndStepOrderly(e: Endpoint, tx: Endpoint, a: Action, id: nat)
    requires Paired(e, tx) && OrderlyOk(e, id) && Enabled(e, tx.out, a)
    ensures OrderlyOk(Apply(e, tx.out, a), id)
  {
    if a.Receive? && tx.out[e.rcv].OpenFrame? {
      OpenIsFresh(e, tx);
    }
    StepOrderly(e, tx.out, a, id);
  }

  lemma InitialOrderly(id: nat)
    ensures OrderlyOk(INITIAL.server, id) && OrderlyOk(INITIAL.client, id)
  {
  }

  lemma {:induction false} RunOrderly(s: Net, steps: seq<Step>, id: nat)
    requires Inv(s) && CanRun(s, steps)
    requires OrderlyOk(s.server, id) && OrderlyOk(s.client, id)
    ensures OrderlyOk(Run(s, steps).server, id) && OrderlyOk(Run(s, steps).client, id)
    decreases |steps|
  {
    if steps != [] {
      StepKeepsInv(s, steps[0]);
      match steps[0] {
        case ServerStep(a) => EndStepOrderly(s.server, s.client, a, id);
        case ClientStep(a) => EndStepOrderly(s.client, s.server, a, id);
      }
      RunOrderly(Take(s, steps[0]), steps[1..], id);
    }
  }

  /** On a stream whose writes never overlapped, the wire carries a prefix of all the data passed to
      `Write`, in order; and all of it once no write is in flight and nothing has failed. */
  lemma WireCarriesWhatWasAsked(steps: seq<Step>, s: Net, e: Endpoint, id: nat)
    requires Reaches(steps, s) && (e == s.server || e == s.client) && id !in e.raced
    ensures DataBytes(e.out, id) <= e.Asked(id)
    ensures !WriteInFlight(e, id) && !Stuck(e, id) ==> DataBytes(e.out, id) == e.Asked(id)
  {
    InitialInv();
    InitialOrderly(id);
    RunOrderly(INITIAL, steps, id);
    if !WriteInFlight(e, id) {
      assert forall t :: t in e.calls ==> !WriteOn(e.calls[t], id);
    }
  }
}
