/** What the invariant means for every run of two connected multiplexers. */
module MuxTheorems {
  import opened Bytes
  import opened MuxProtocol
  import opened MuxInvariant
  import opened MuxLocal
  import opened MuxDelivery

  /** `s` is reached from two fresh endpoints by `steps`. */
  predicate Reaches(steps: seq<Step>, s: Net) {
    CanRun(INITIAL, steps) && Run(INITIAL, steps) == s
  }

  lemma ReachableInv(steps: seq<Step>, s: Net)
    requires Reaches(steps, s)
    ensures Inv(s)
  {
    InitialInv();
    RunKeepsInv(INITIAL, steps);
  }

  // ---------- delivery ----------

  /** What has been read from a stream, followed by its read buffer and its queue, is a prefix of
      what the peer put on the wire for that same stream. */
  lemma ReadsArePrefixOfWrites(steps: seq<Step>, s: Net, id: nat)
    requires Reaches(steps, s)
    ensures id in s.server.mux.streams ==> s.server.mux.streams[id].Delivered() <= DataBytes(s.client.out, id)
    ensures id in s.client.mux.streams ==> s.client.mux.streams[id].Delivered() <= DataBytes(s.server.out, id)
  {
    ReachableInv(steps, s);
    DataBytesMonotone(s.client.out, s.server.rcv, id);
    DataBytesMonotone(s.server.out, s.client.rcv, id);
  }

  /** While a stream is in the table and not finished, nothing sent to it and received has been lost. */
  lemma LiveStreamsLoseNothing(steps: seq<Step>, s: Net, id: nat)
    requires Reaches(steps, s)
    ensures id in s.server.mux.table ==> id in s.server.mux.streams && s.server.rcv <= |s.client.out|
    ensures id in s.server.mux.table && !s.server.mux.streams[id].finished
      ==> Lossless(s.server, s.client.out, id)
    ensures id in s.client.mux.table ==> id in s.client.mux.streams && s.client.rcv <= |s.server.out|
    ensures id in s.client.mux.table && !s.client.mux.streams[id].finished
      ==> Lossless(s.client, s.server.out, id)
  {
    ReachableInv(steps, s);
  }

  /** Once a payload for `id` has been dropped, the stream receives nothing more, ever. */
  ghost predicate Deaf(rx: Endpoint, wire: seq<Frame>, id: nat, heard: seq<byte>) {
    && rx.rcv <= |wire| && id in rx.mux.streams
    && Dropped(rx, wire, id) > 0
    && rx.mux.streams[id].Delivered() == heard
  }

  lemma DeafThroughQuiet(rx: Endpoint, rx': Endpoint, wire: seq<Frame>, id: nat, heard: seq<byte>)
    requires Deaf(rx, wire, id, heard) && Quiet(rx.mux, rx'.mux) && rx'.rcv == rx.rcv
    requires |Carried(rx', id)| <= |Carried(rx, id)|
    ensures Deaf(rx', wire, id, heard)
  {
  }

  lemma DeafThroughReceive(rx: Endpoint, wire: seq<Frame>, id: nat, heard: seq<byte>)
    requires Deaf(rx, wire, id, heard) && Enabled(rx, wire, Receive)
    requires wire[rx.rcv].OpenFrame? ==> wire[rx.rcv].id != id
    ensures Deaf(Apply(rx, wire, Receive), wire, id, heard)
  {
    ConsumedGrows(wire, rx.rcv, id);
    ReceiveShape(rx, wire[rx.rcv]);
  }

  lemma ConsumedGrows(wire: seq<Frame>, n: nat, id: nat)
    requires n < |wire|
    ensures |DataBytes(wire[..n + 1], id)| == |DataBytes(wire[..n], id)| + |PayloadFor(wire[n], id)|
  {
    assert wire[..n + 1] == wire[..n] + [wire[n]];
    DataBytesSnoc(wire[..n], wire[n], id);
  }

  lemma DeafThroughReader(rx: Endpoint, wire: seq<Frame>, ok: bool, id: nat, heard: seq<byte>)
    requires Deaf(rx, wire, id, heard) && ReaderCanMove(rx, ok)
    requires rx.reader.Offering? ==> rx.reader.id != id
    ensures Deaf(MoveReader(rx, ok), wire, id, heard)
  {
    if rx.reader.Offering? && ok {
    } else if rx.reader.Delivering? || rx.reader.Offering? {
      DeafThroughQuiet(rx, MoveReader(rx, ok), wire, id, heard);
    } else {
      HousekeepingIsQuiet(rx, ok);
      DeafThroughQuiet(rx, MoveReader(rx, ok), wire, id, heard);
    }
  }

  lemma DeafThroughBuffer(rx: Endpoint, wire: seq<Frame>, a: Action, id: nat, heard: seq<byte>)
    requires Deaf(rx, wire, id, heard) && Enabled(rx, wire, a) && (a.Fill? || a.Copy?)
    ensures Deaf(Apply(rx, wire, a), wire, id, heard)
  {
    if a.Fill? {
      FillDelivered(rx.mux.streams[a.id]);
    } else {
      CopyDelivered(rx.mux.streams[a.id], a.n);
    }
  }

  lemma DeafThroughOther(rx: Endpoint, wire: seq<Frame>, a: Action, id: nat, heard: seq<byte>)
    requires !(a.Receive? || a.Reserve? || a.Fill? || a.Copy? || a.ReaderMoves?)
    requires Deaf(rx, wire, id, heard) && Enabled(rx, wire, a)
    ensures Deaf(Apply(rx, wire, a), wire, id, heard)
  {
    if a.Advance? {
      CallStepIsQuiet(rx, a.call, a.ok);
      DeafThroughQuiet(rx, AdvanceCall(rx, a.call, a.ok), wire, id, heard);
    } else {
      if a.FinishOne? { FinishIsQuiet(rx.mux, a.id); }
      DeafThroughQuiet(rx, Apply(rx, wire, a), wire, id, heard);
    }
  }

  lemma DeafThroughReserve(rx: Endpoint, wire: seq<Frame>, t: nat, id: nat, heard: seq<byte>)
    requires Deaf(rx, wire, id, heard) && TableOk(rx) && Enabled(rx, wire, Reserve(t))
    ensures Deaf(Apply(rx, wire, Reserve(t)), wire, id, heard)
  {
    assert rx.mux.nextId !in rx.mux.streams;
    FirstFreeIsNext(rx.mux.nextId, rx.mux.table);
  }

  lemma DeafThroughOwnStep(rx: Endpoint, tx: Endpoint, a: Action, id: nat, heard: seq<byte>)
    requires Link(rx, tx.out) && TableOk(rx) && WireOk(tx) && rx.mux.localId + tx.mux.localId == 1
    requires Enabled(rx, tx.out, a) && Deaf(rx, tx.out, id, heard)
    ensures Deaf(Apply(rx, tx.out, a), tx.out, id, heard)
  {
    assert StreamOk(rx, tx.out, id);
    match a
    case Receive =>
      if tx.out[rx.rcv].OpenFrame? { OpenIsFresh(rx, tx); }
      DeafThroughReceive(rx, tx.out, id, heard);
    case Reserve(t) => DeafThroughReserve(rx, tx.out, t, id, heard);
    case Fill(_) => DeafThroughBuffer(rx, tx.out, a, id, heard);
    case Copy(_, _) => DeafThroughBuffer(rx, tx.out, a, id, heard);
    case ReaderMoves(ok) => DeafThroughReader(rx, tx.out, ok, id, heard);
    case _ => DeafThroughOther(rx, tx.out, a, id, heard);
  }

  lemma DeafThroughPeerStep(rx: Endpoint, tx: Endpoint, a: Action, id: nat, heard: seq<byte>)
    requires Enabled(tx, rx.out, a) && Deaf(rx, tx.out, id, heard)
    ensures Deaf(rx, Apply(tx, rx.out, a).out, id, heard)
  {
    var out' := Apply(tx, rx.out, a).out;
    assert out'[..rx.rcv] == tx.out[..rx.rcv];
  }

  lemma {:induction false} DropsAreForGood(s: Net, steps: seq<Step>, id: nat, heard: seq<byte>)
    requires Inv(s) && CanRun(s, steps)
    ensures Deaf(s.server, s.client.out, id, heard) ==> Deaf(Run(s, steps).server, Run(s, steps).client.out, id, heard)
    ensures Deaf(s.client, s.server.out, id, heard) ==> Deaf(Run(s, steps).client, Run(s, steps).server.out, id, heard)
    decreases |steps|
  {
    if steps != [] {
      var s' := Take(s, steps[0]);
      StepKeepsInv(s, steps[0]);
      match steps[0] {
        case ServerStep(a) =>
          if Deaf(s.server, s.client.out, id, heard) { DeafThroughOwnStep(s.server, s.client, a, id, heard); }
          if Deaf(s.client, s.server.out, id, heard) { DeafThroughPeerStep(s.client, s.server, a, id, heard); }
        case ClientStep(a) =>
          if Deaf(s.client, s.server.out, id, heard) { DeafThroughOwnStep(s.client, s.server, a, id, heard); }
          if Deaf(s.server, s.client.out, id, heard) { DeafThroughPeerStep(s.server, s.client, a, id, heard); }
      }
      DropsAreForGood(s', steps[1..], id, heard);
    }
  }

  // ---------- resets ----------

  predicate HonestReset(f: Frame) {
    f.ResetFrame? ==> f.reason == AcceptQueueFull
  }

  predicate HonestReader(r: Reader) {
    r.Resetting? || r.ResetSending? ==> r.reason == AcceptQueueFull
  }

  /** Neither side ever decides on, or writes, an "invalid stream id" or "duplicate stream id" reset. */
  lemma NoInvalidOrDuplicateReset(steps: seq<Step>, s: Net)
    requires Reaches(steps, s)
    ensures HonestReader(s.server.reader) && HonestReader(s.client.reader)
    ensures forall f :: f in s.server.out ==> HonestReset(f)
    ensures forall f :: f in s.client.out ==> HonestReset(f)
  {
    ReachableInv(steps, s);
    ResetsAreHonest(s.server);
    ResetsAreHonest(s.client);
  }

  lemma ResetsAreHonest(e: Endpoint)
    requires WireOk(e) && ReaderOk(e)
    ensures HonestReader(e.reader) && forall f :: f in e.out ==> HonestReset(f)
  {
    forall f | f in e.out ensures HonestReset(f) {
      var i :| 0 <= i < |e.out| && e.out[i] == f;
      FrameAt(e, i);
    }
  }

  // ---------- the stream table ----------

  /** While a mux is open it keeps stream 0 and at most 256 streams, and the ids of its own parity
      are ones its allocator has passed; a closed mux keeps none. */
  lemma TableBounds(steps: seq<Step>, s: Net, e: Endpoint)
    requires Reaches(steps, s) && (e == s.server || e == s.client)
    ensures if e.mux.closed then e.mux.table == {} else 0 in e.mux.table && |e.mux.table| <= MAX_MUX_STREAMS
    ensures forall id :: id in e.mux.table && OwnId(id, e.mux.localId) ==> id < e.mux.nextId
  {
    ReachableInv(steps, s);
  }

  /** Once `closeAll` has run, every stream a caller holds or can still accept is finished. */
  lemma AfterCloseAllEveryStreamIsFinished(steps: seq<Step>, s: Net, e: Endpoint, id: nat)
    requires Reaches(steps, s) && (e == s.server || e == s.client)
    requires e.mux.closed && e.closing == {}
    requires id in e.handles || id in e.mux.accept
    ensures id in e.mux.streams && e.mux.streams[id].finished
  {
    ReachableInv(steps, s);
    assert Held(e, id);
  }

  /** A mux that has closed stays closed, and a finished `closeAll` has nothing left to do. */
  ghost predicate ClosedForGood(e: Endpoint, finished: bool) {
    e.mux.closed && e.mux.table == {} && (finished ==> e.closing == {})
  }

  lemma CloseThroughReader(e: Endpoint, ok: bool, finished: bool)
    requires ReaderCanMove(e, ok) && ClosedForGood(e, finished)
    ensures ClosedForGood(MoveReader(e, ok), finished)
  {
    if !e.reader.Delivering? && !e.reader.Offering? {
      HousekeepingIsQuiet(e, ok);
    }
  }

  lemma CloseThroughStep(e: Endpoint, wire: seq<Frame>, a: Action, finished: bool)
    requires Enabled(e, wire, a) && ClosedForGood(e, finished)
    ensures ClosedForGood(Apply(e, wire, a), finished)
  {
    match a
    case Advance(t, ok) => CallStepIsQuiet(e, t, ok);
    case ReaderMoves(ok) => CloseThroughReader(e, ok, finished);
    case _ =>
  }

  lemma {:induction false} CloseIsForGood(s: Net, steps: seq<Step>, finished: bool)
    requires CanRun(s, steps)
    ensures ClosedForGood(s.server, finished) ==> ClosedForGood(Run(s, steps).server, finished)
    ensures ClosedForGood(s.client, finished) ==> ClosedForGood(Run(s, steps).client, finished)
    decreases |steps|
  {
    if steps != [] {
      match steps[0] {
        case ServerStep(a) =>
          if ClosedForGood(s.server, finished) { CloseThroughStep(s.server, s.client.out, a, finished); }
        case ClientStep(a) =>
          if ClosedForGood(s.client, finished) { CloseThroughStep(s.client, s.server.out, a, finished); }
      }
      CloseIsForGood(Take(s, steps[0]), steps[1..], finished);
    }
  }
}
