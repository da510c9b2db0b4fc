/** One whole exchange: that what the protocol promises can come about, for every message. */
module MuxExchange {
  import opened Bytes
  import opened MuxProtocol
  import opened MuxTheorems
  import opened MuxDatagrams

  /** The run may go on with a step that is possible where it has got to. */
  lemma {:induction false} GoesOn(s: Net, steps: seq<Step>, step: Step)
    requires CanRun(s, steps) && StepEnabled(Run(s, steps), step)
    ensures CanRun(s, steps + [step]) && Run(s, steps + [step]) == Take(Run(s, steps), step)
    decreases |steps|
  {
    if steps == [] {
      assert [step][1..] == [];
    } else {
      assert (steps + [step])[1..] == steps[1..] + [step];
      GoesOn(Take(s, steps[0]), steps[1..], step);
    }
  }

  /** A state some run reaches. */
  ghost predicate CanBe(s: Net) {
    exists steps :: Reaches(steps, s)
  }

  lemma Next(s: Net, step: Step) returns (s': Net)
    requires CanBe(s) && StepEnabled(s, step)
    ensures CanBe(s') && s' == Take(s, step)
  {
    var steps :| Reaches(steps, s);
    GoesOn(INITIAL, steps, step);
    s' := Take(s, step);
    assert Reaches(steps + [step], s');
  }

  const C := 8

  /** The client has `rest` still to write on stream 2, and the server has read `got` and nothing is under way. */
  predicate Flowing(s: Net, rest: seq<byte>, got: seq<byte>) {
    && Good(s.client) && Good(s.server) && s.server.rcv == |s.client.out| && s.server.mux.streams[2] == Stream([], [], false, got)
    && s.client.calls == map[C := WriteHead(2, rest)] && s.server.calls == map[]
  }

  predicate Good(e: Endpoint) {
    && e.mux.started && !e.mux.closed && !e.dead && e.reader == Reading
    && 2 in e.mux.table && 2 in e.mux.streams && !e.mux.streams[2].finished && 2 in e.handles
  }

  /** The client has sent its open frame for stream 2, and the server has not looked. */
  predicate Opened(s: Net) {
    && Good(s.client) && s.client.calls == map[] && s.client.out == [OpenFrame(2)]
    && s.server == NewEndpoint(1).(mux := NewMux(1).(started := true))
  }

  lemma Opening() returns (s: Net)
    ensures CanBe(s) && Opened(s)
  {
    assert Reaches([], INITIAL);
    s := Next(INITIAL, ClientStep(Start));
    s := Next(s, ServerStep(Start));
    s := Next(s, ClientStep(Reserve(C)));
    s := Next(s, ClientStep(Advance(C, true)));
    s := Next(s, ClientStep(Advance(C, true)));
  }

  lemma Accepting(s: Net, data: seq<byte>) returns (s': Net)
    requires CanBe(s) && Opened(s)
    ensures CanBe(s') && Flowing(s', data, [])
  {
    s' := Next(s, ServerStep(Receive));
    s' := Next(s', ServerStep(ReaderMoves(true)));
    s' := Next(s', ServerStep(AcceptOne));
    s' := Next(s', ClientStep(BeginWrite(C, 2, data)));
  }

  /** The next chunk is on the wire, and the server has not looked. */
  predicate Sent(s: Net, chunk: seq<byte>, rest: seq<byte>, got: seq<byte>) {
    && Good(s.client) && Good(s.server) && s.client.calls == map[C := WriteHead(2, rest)]
    && |s.client.out| == s.server.rcv + 1 && s.client.out[s.server.rcv] == DataFrame(2, chunk)
    && s.server.mux.streams[2] == Stream([], [], false, got) && s.server.calls == map[]
  }

  lemma Sending(s: Net, rest: seq<byte>, got: seq<byte>) returns (s': Net)
    requires CanBe(s) && Flowing(s, rest, got) && rest != []
    ensures var n := ChunkLength(rest); CanBe(s') && Sent(s', rest[..n], rest[n..], got)
  {
    s' := Next(s, ClientStep(Advance(C, true)));
    s' := Next(s', ClientStep(Advance(C, true)));
    s' := Next(s', ClientStep(Advance(C, true)));
  }

  lemma Receiving(s: Net, chunk: seq<byte>, rest: seq<byte>, got: seq<byte>) returns (s': Net)
    requires CanBe(s) && Sent(s, chunk, rest, got)
    ensures CanBe(s') && Flowing(s', rest, got + chunk)
  {
    s' := Next(s, ServerStep(Receive));
    s' := Next(s', ServerStep(ReaderMoves(true)));
    s' := Next(s', ServerStep(ReaderMoves(true)));
    s' := Consuming(s', chunk, rest, got);
  }

  lemma Consuming(s: Net, chunk: seq<byte>, rest: seq<byte>, got: seq<byte>) returns (s': Net)
    requires CanBe(s) && Good(s.client) && Good(s.server) && s.server.rcv == |s.client.out|
    requires s.client.calls == map[C := WriteHead(2, rest)] && s.server.calls == map[]
    requires s.server.mux.streams[2] == Stream([chunk], [], false, got)
    ensures CanBe(s') && Flowing(s', rest, got + chunk)
  {
    s' := Next(s, ServerStep(Fill(2)));
    assert s'.server.mux.streams[2].readBuf == chunk && chunk[..|chunk|] == chunk;
    s' := Next(s', ServerStep(Copy(2, |chunk|)));
  }

  lemma {:induction false} AllGoesAcross(s: Net, rest: seq<byte>, got: seq<byte>) returns (s': Net)
    requires CanBe(s) && Flowing(s, rest, got)
    ensures CanBe(s') && Flowing(s', [], got + rest)
    decreases |rest|
  {
    if rest == [] {
      assert got + rest == got;
      return s;
    }
    var n := ChunkLength(rest);
    var s1 := Sending(s, rest, got);
    var s2 := Receiving(s1, rest[..n], rest[n..], got);
    s' := AllGoesAcross(s2, rest[n..], got + rest[..n]);
    assert got + rest[..n] + rest[n..] == got + rest;
  }

  /** The client has closed stream 2, and the server has not looked. */
  predicate Closed(s: Net, got: seq<byte>) {
    && s.client.calls == map[] && Over(s.client.mux)
    && Good(s.server) && |s.client.out| == s.server.rcv + 1 && s.client.out[s.server.rcv] == CloseFrame(2)
    && s.server.mux.streams[2].returned == got && s.server.calls == map[]
  }

  predicate Over(m: Mux) {
    2 !in m.table && 2 in m.streams && m.streams[2].finished
  }

  lemma Closing(s: Net, got: seq<byte>) returns (s': Net)
    requires CanBe(s) && Flowing(s, [], got)
    ensures CanBe(s') && Closed(s', got)
  {
    s' := Next(s, ClientStep(Advance(C, false)));
    s' := Next(s', ClientStep(BeginClose(C, 2)));
    s' := Next(s', ClientStep(Advance(C, true)));
    s' := Next(s', ClientStep(Advance(C, true)));
    s' := Next(s', ClientStep(Advance(C, true)));
    s' := Next(s', ClientStep(Advance(C, true)));
  }

  lemma Ended(s: Net, got: seq<byte>) returns (s': Net)
    requires CanBe(s) && Closed(s, got)
    ensures CanBe(s') && Over(s'.client.mux) && Over(s'.server.mux) && s'.server.mux.streams[2].returned == got
    ensures s'.client.calls == map[] && s'.server.calls == map[] && s'.server.reader == Reading
  {
    s' := Next(s, ServerStep(Receive));
    s' := Next(s', ServerStep(ReaderMoves(true)));
    s' := Next(s', ServerStep(ReaderMoves(true)));
  }

  /** For every message there is a run in which the client opens a stream, writes the message and closes the
      stream, and the server accepts the stream and reads the message, all of it; and then the stream is
      finished and out of both tables, and no call is left. */
  lemma EveryMessageCanArrive(data: seq<byte>) returns (steps: seq<Step>, s: Net)
    ensures Reaches(steps, s) && s.server.mux.streams.Keys >= {2} && s.server.mux.streams[2].returned == data
    ensures Over(s.client.mux) && Over(s.server.mux) && s.client.calls == map[] && s.server.calls == map[]
  {
    s := Opening();
    s := Accepting(s, data);
    s := AllGoesAcross(s, data, []);
    assert [] + data == data;
    s := Closing(s, data);
    s := Ended(s, data);
    steps :| Reaches(steps, s);
  }

  // ---------- from any state ----------

  function StepOf(server: bool, a: Action): Step {
    if server then ServerStep(a) else ClientStep(a)
  }

  /** From every reachable state a caller that holds a stream can read all that has been delivered to it, and
      nothing else need change. */
  lemma {:induction false} DeliveredCanBeRead(s: Net, server: bool, id: nat) returns (s': Net)
    requires CanBe(s) && id in Side(s, server).handles && id in Side(s, server).mux.streams
    ensures CanBe(s') && Side(s', !server) == Side(s, !server) && id in Side(s', server).mux.streams
    ensures Side(s', server).mux.streams[id] == Stream([], [], Side(s, server).mux.streams[id].finished, Side(s, server).mux.streams[id].Delivered())
    decreases |Side(s, server).mux.streams[id].inbound|
  {
    var st := Side(s, server).mux.streams[id];
    s' := Next(s, StepOf(server, Copy(id, |st.readBuf|)));
    assert st.readBuf[..|st.readBuf|] == st.readBuf;
    if st.inbound == [] {
      assert st.returned + st.readBuf + [] == st.returned + st.readBuf;
    } else {
      s' := Next(s', StepOf(server, Fill(id)));
      assert Concat(st.inbound) == st.inbound[0] + Concat(st.inbound[1..]);
      assert Side(s', server).mux.streams[id].Delivered() == st.Delivered();
      s' := DeliveredCanBeRead(s', server, id);
    }
  }

  /** From every reachable state either side can be shut down: closed, with every stream it had finished. */
  lemma CanShutDown(s: Net, server: bool) returns (s': Net)
    requires CanBe(s)
    ensures CanBe(s') && Side(s', server).mux.closed && Side(s', server).closing == {} && Side(s', server).mux.table == {}
  {
    s' := s;
    if !Side(s, server).mux.closed {
      s' := Next(s, StepOf(server, CloseAll));
    }
    s' := FinishesAll(s', server);
  }

  lemma {:induction false} FinishesAll(s: Net, server: bool) returns (s': Net)
    requires CanBe(s) && Side(s, server).mux.closed
    ensures CanBe(s') && Side(s', server).mux.closed && Side(s', server).closing == {} && Side(s', server).mux.table == {}
    decreases |Side(s, server).closing|
  {
    var steps :| Reaches(steps, s);
    ReachableInv(steps, s);
    s' := s;
    if Side(s, server).closing != {} {
      var id :| id in Side(s, server).closing;
      s' := Next(s, StepOf(server, FinishOne(id)));
      s' := FinishesAll(s', server);
    }
  }
}
