/** What becomes of streams and calls in every run of two connected multiplexers. */
module MuxEnds {
  import opened Bytes
  import opened MuxProtocol
  import opened MuxInvariant
  import opened MuxLocal
  import opened MuxDelivery
  import opened MuxTheorems
  import opened MuxTidy

  ghost predicate AllTidy(e: Endpoint) {
    EndsOk(e) && forall id :: Tidy(e, id)
  }

  ghost predicate TidyInv(s: Net) {
    && Inv(s) && AllTidy(s.server) && AllTidy(s.client)
    && EndsTaken(s.server, s.client.out) && EndsTaken(s.client, s.server.out)
  }

  lemma NewEndpointTidy(first: nat)
    requires first == 1 || first == 2
    ensures AllTidy(NewEndpoint(first)) && EndsTaken(NewEndpoint(first), [])
  {
  }

  lemma StepAllTidy(rx: Endpoint, tx: Endpoint, a: Action)
    requires Paired(rx, tx) && AllTidy(rx) && Enabled(rx, tx.out, a)
    ensures AllTidy(Apply(rx, tx.out, a))
  {
    if a.Receive? && tx.out[rx.rcv].OpenFrame? {
      OpenIsFresh(rx, tx);
    }
    forall id ensures Tidy(Apply(rx, tx.out, a), id) {
      StepTidy(rx, tx.out, a, id);
    }
    StepEndsOk(rx, tx.out, a);
  }

  lemma StepKeepsTidyInv(s: Net, step: Step)
    requires TidyInv(s) && StepEnabled(s, step)
    ensures TidyInv(Take(s, step))
  {
    StepKeepsInv(s, step);
    match step
    case ServerStep(a) =>
      StepAllTidy(s.server, s.client, a);
      OwnStepEndsTaken(s.server, s.client, a);
      PeerStepEndsTaken(s.client, s.server, a);
    case ClientStep(a) =>
      StepAllTidy(s.client, s.server, a);
      OwnStepEndsTaken(s.client, s.server, a);
      PeerStepEndsTaken(s.server, s.client, a);
  }

  lemma {:induction false} RunKeepsTidyInv(s: Net, steps: seq<Step>)
    requires TidyInv(s) && CanRun(s, steps)
    ensures TidyInv(Run(s, steps))
    decreases |steps|
  {
    if steps != [] {
      StepKeepsTidyInv(s, steps[0]);
      RunKeepsTidyInv(Take(s, steps[0]), steps[1..]);
    }
  }

  lemma ReachableTidy(steps: seq<Step>, s: Net)
    requires Reaches(steps, s)
    ensures TidyInv(s)
  {
    InitialInv();
    NewEndpointTidy(1);
    NewEndpointTidy(2);
    RunKeepsTidyInv(INITIAL, steps);
  }

  /** `e` and `wire` are one end of `s` and what the other end has written to it. */
  predicate IsEnd(s: Net, e: Endpoint, wire: seq<Frame>) {
    (e == s.server && wire == s.client.out) || (e == s.client && wire == s.server.out)
  }

  /** Once a close or reset frame has been taken off the wire, its stream is out of the table or finished,
      unless the read loop is just about to finish it; and out of the table, unless it is the control stream
      or the read loop is still ending it. */
  lemma TakenEndsTakeEffect(steps: seq<Step>, s: Net, e: Endpoint, wire: seq<Frame>, i: nat)
    requires Reaches(steps, s) && IsEnd(s, e, wire) && i < e.rcv
    ensures e.rcv <= |wire|
    requires i < |wire| && EndFrame(wire[i])
    ensures var id := wire[i].id;
      && (id !in e.mux.table || (id in e.mux.streams && e.mux.streams[id].finished) || e.reader == Ending(id))
      && (id == 0 || id !in e.mux.table || e.reader == Ending(id) || e.reader == Removing(id))
  {
    ReachableTidy(steps, s);
  }

  /** No stream lingers: in the table of an open mux every stream but the control stream is held by a caller,
      queued for accept or on its way to one of these or out; and a finished one is about to be removed. */
  lemma NoStreamLingers(steps: seq<Step>, s: Net, e: Endpoint, wire: seq<Frame>, id: nat)
    requires Reaches(steps, s) && IsEnd(s, e, wire) && id in e.mux.table && id != 0
    ensures id in e.mux.streams && Claimed(e, id) && (e.mux.streams[id].finished ==> Leaving(e, id))
  {
    ReachableTidy(steps, s);
    assert Tidy(e, id);
  }

  /** Every stream of the peer that was taken in has been handed on, is queued or about to be, or is refused
      with a reset for a full queue, unless the mux closes or the connection dies first. */
  lemma OpenedStreamsAreAnswered(steps: seq<Step>, s: Net, e: Endpoint, wire: seq<Frame>, id: nat)
    requires Reaches(steps, s) && IsEnd(s, e, wire) && id in e.mux.streams && PeerId(id, e.mux.localId)
    ensures Answered(e, id)
  {
    ReachableTidy(steps, s);
    assert Tidy(e, id);
  }

  /** An open frame taken with the mux open and room in the table brings its stream into the table, empty;
      with room in the queue too, the only thing the read loop can do next is queue it for accept. */
  lemma OpenFrameIsTakenIn(steps: seq<Step>, s: Net, e: Endpoint, wire: seq<Frame>)
    requires Reaches(steps, s) && IsEnd(s, e, wire) && Enabled(e, wire, Receive) && wire[e.rcv].OpenFrame?
    requires !e.mux.closed && |e.mux.table| < MAX_MUX_STREAMS
    ensures var id, e' := wire[e.rcv].id, Apply(e, wire, Receive);
      && id !in e.mux.table && e'.mux.table == e.mux.table + {id}
      && id in e'.mux.streams && e'.mux.streams[id] == EMPTY_STREAM && e'.reader == Inserted(id)
  {
    ReachableTidy(steps, s);
    if e == s.server && wire == s.client.out {
      OpenIsFresh(s.server, s.client);
    } else {
      OpenIsFresh(s.client, s.server);
    }
  }

  lemma OfferedStreamIsQueued(e: Endpoint, wire: seq<Frame>, id: nat, ok: bool)
    requires e.reader == Inserted(id) && Enabled(e, wire, ReaderMoves(ok)) && !e.mux.closed
    ensures ok <==> |e.mux.accept| < ACCEPT_CAPACITY
    ensures ok ==> Apply(e, wire, ReaderMoves(ok)).mux.accept == e.mux.accept + [id] && Apply(e, wire, ReaderMoves(ok)).reader == Reading
  {
  }

  // ---------- closing a stream ----------

  predicate CallsClose(step: Step, server: bool, id: nat) {
    step.ServerStep? == server && step.a.BeginClose? && step.a.id == id
  }

  lemma StepCloses(e: Endpoint, wire: seq<Frame>, a: Action, id: nat)
    requires Enabled(e, wire, a)
    ensures id in Apply(e, wire, a).closes <==> id in e.closes || (a.BeginClose? && a.id == id)
  {
    match a
    case Advance(t, ok) => CallKeepsCloses(e, t, ok);
    case ReaderMoves(ok) => ReaderKeepsCloses(e, ok);
    case _ =>
  }

  lemma CallKeepsCloses(e: Endpoint, t: nat, ok: bool)
    requires t in e.calls && CallCanAdvance(e, e.calls[t], ok)
    ensures AdvanceCall(e, t, ok).closes == e.closes
  {
  }

  lemma ReaderKeepsCloses(e: Endpoint, ok: bool)
    requires ReaderCanMove(e, ok)
    ensures MoveReader(e, ok).closes == e.closes
  {
  }

  lemma {:induction false} RunCloses(s: Net, steps: seq<Step>, id: nat)
    requires CanRun(s, steps)
    ensures id in Run(s, steps).server.closes <==> id in s.server.closes || exists i :: 0 <= i < |steps| && CallsClose(steps[i], true, id)
    ensures id in Run(s, steps).client.closes <==> id in s.client.closes || exists i :: 0 <= i < |steps| && CallsClose(steps[i], false, id)
    decreases |steps|
  {
    if steps != [] {
      RunCloses(Take(s, steps[0]), steps[1..], id);
      OneStepCloses(s, steps[0], id);
      FirstOrLater(steps, true, id);
      FirstOrLater(steps, false, id);
    }
  }

  lemma OneStepCloses(s: Net, step: Step, id: nat)
    requires StepEnabled(s, step)
    ensures id in Take(s, step).server.closes <==> id in s.server.closes || CallsClose(step, true, id)
    ensures id in Take(s, step).client.closes <==> id in s.client.closes || CallsClose(step, false, id)
  {
    match step
    case ServerStep(a) => StepCloses(s.server, s.client.out, a, id);
    case ClientStep(a) => StepCloses(s.client, s.server.out, a, id);
  }

  lemma FirstOrLater(steps: seq<Step>, server: bool, id: nat)
    requires steps != []
    ensures (exists i :: 0 <= i < |steps| && CallsClose(steps[i], server, id)) <==>
      CallsClose(steps[0], server, id) || exists i :: 0 <= i < |steps[1..]| && CallsClose(steps[1..][i], server, id)
  {
    if i :| 0 <= i < |steps[1..]| && CallsClose(steps[1..][i], server, id) {
      assert CallsClose(steps[i + 1], server, id);
    }
    if i :| 0 <= i < |steps| && CallsClose(steps[i], server, id) {
      assert i > 0 ==> CallsClose(steps[1..][i - 1], server, id);
    }
  }

  /** Once `Close` has been called on a stream and no such call is in flight any more, the stream is finished
      and out of the table, and a close frame has gone out unless the mux closed or the connection died. */
  lemma CloseTakesEffect(steps: seq<Step>, s: Net, server: bool, id: nat)
    requires Reaches(steps, s) && exists i :: 0 <= i < |steps| && CallsClose(steps[i], server, id)
    ensures var e := if server then s.server else s.client;
      !Closing(e, id) ==> Gone(e, id) && (CloseFrame(id) in e.out || e.mux.closed || e.dead)
  {
    ReachableTidy(steps, s);
    RunCloses(INITIAL, steps, id);
    assert Tidy(if server then s.server else s.client, id);
  }

  // ---------- nothing gets stuck ----------

  /** The read loop waits for room in the queue of an unfinished stream. */
  predicate WaitsForRoom(e: Endpoint) {
    && e.reader.Offering? && e.reader.id in e.mux.streams
    && |e.mux.streams[e.reader.id].inbound| >= INBOUND_CAPACITY && !e.mux.streams[e.reader.id].finished
  }

  lemma ReachableEnd(steps: seq<Step>, s: Net, e: Endpoint, wire: seq<Frame>)
    requires Reaches(steps, s) && IsEnd(s, e, wire)
    ensures CallsOk(e) && ReaderOk(e)
  {
    ReachableInv(steps, s);
  }

  /** In every reachable state each call in flight can take its next step. */
  lemma CallsNeverStick(steps: seq<Step>, s: Net, e: Endpoint, wire: seq<Frame>, t: nat)
    requires Reaches(steps, s) && IsEnd(s, e, wire) && t in e.calls
    ensures Enabled(e, wire, Advance(t, true)) || Enabled(e, wire, Advance(t, false))
  {
    ReachableEnd(steps, s, e, wire);
    assert CallOk(e, e.calls[t]);
    CallMayMove(e, e.calls[t]);
  }

  /** In every reachable state the read loop can take its next step unless it waits for a frame, has exited,
      or waits for room in the queue of an unfinished stream. */
  lemma OnlyFullQueuesBlock(steps: seq<Step>, s: Net, e: Endpoint, wire: seq<Frame>)
    requires Reaches(steps, s) && IsEnd(s, e, wire)
    ensures e.reader.Reading? || e.reader.Exited? || WaitsForRoom(e)
      || Enabled(e, wire, ReaderMoves(true)) || Enabled(e, wire, ReaderMoves(false))
  {
    ReachableEnd(steps, s, e, wire);
    ReaderMayMove(e);
  }

  lemma CallMayMove(e: Endpoint, c: Call)
    requires CallOk(e, c)
    ensures CallCanAdvance(e, c, true) || CallCanAdvance(e, c, false)
  {
  }

  lemma ReaderMayMove(e: Endpoint)
    requires ReaderOk(e)
    ensures e.reader.Reading? || e.reader.Exited? || WaitsForRoom(e) || ReaderCanMove(e, true) || ReaderCanMove(e, false)
  {
  }
}
