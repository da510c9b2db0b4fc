/** Datagrams over a multiplexed stream, and mux frames over the connection's bytes. */
module MuxDatagrams {
  import opened Bytes
  import opened Options
  import opened Framing
  import opened MuxProtocol
  import opened MuxInvariant
  import opened MuxDelivery
  import opened MuxTheorems
  import opened MuxWrites

  // ---------- what a run writes ----------

  /** The data the step passes to `Write` on stream `id` of the server, or of the client. */
  function WrittenBy(step: Step, server: bool, id: nat): seq<seq<byte>> {
    if step.ServerStep? == server && step.a.BeginWrite? && step.a.id == id then [step.a.data] else []
  }

  /** The arguments of all calls of `Write` on that stream, in order. */
  function WritesOn(steps: seq<Step>, server: bool, id: nat): seq<seq<byte>> {
    if steps == [] then [] else WrittenBy(steps[0], server, id) + WritesOn(steps[1..], server, id)
  }

  function Side(s: Net, server: bool): Endpoint {
    if server then s.server else s.client
  }

  lemma CallAsksNothing(e: Endpoint, t: nat, ok: bool)
    requires t in e.calls && CallCanAdvance(e, e.calls[t], ok)
    ensures AdvanceCall(e, t, ok).asked == e.asked
  {
  }

  lemma ReaderAsksNothing(e: Endpoint, ok: bool)
    requires ReaderCanMove(e, ok)
    ensures MoveReader(e, ok).asked == e.asked
  {
  }

  lemma StepAsks(e: Endpoint, wire: seq<Frame>, a: Action, id: nat)
    requires Enabled(e, wire, a)
    ensures Apply(e, wire, a).Asked(id) == e.Asked(id) + (if a.BeginWrite? && a.id == id then a.data else [])
  {
    match a
    case Advance(t, ok) => CallAsksNothing(e, t, ok);
    case ReaderMoves(ok) => ReaderAsksNothing(e, ok);
    case _ =>
  }

  lemma {:induction false} RunAsks(s: Net, steps: seq<Step>, server: bool, id: nat)
    requires CanRun(s, steps)
    ensures Side(Run(s, steps), server).Asked(id) == Side(s, server).Asked(id) + Concat(WritesOn(steps, server, id))
    decreases |steps|
  {
    if steps != [] {
      RunAsks(Take(s, steps[0]), steps[1..], server, id);
      OneStepAsks(s, steps[0], server, id);
      Joined(Side(s, server).Asked(id), WrittenBy(steps[0], server, id), WritesOn(steps[1..], server, id));
    }
  }

  lemma Joined(asked: seq<byte>, first: seq<seq<byte>>, rest: seq<seq<byte>>)
    ensures asked + Concat(first) + Concat(rest) == asked + Concat(first + rest)
  {
    ConcatAppend(first, rest);
  }

  lemma OneStepAsks(s: Net, step: Step, server: bool, id: nat)
    requires StepEnabled(s, step)
    ensures Side(Take(s, step), server).Asked(id) == Side(s, server).Asked(id) + Concat(WrittenBy(step, server, id))
  {
    match step {
      case ServerStep(a) => StepAsks(s.server, s.client.out, a, id);
      case ClientStep(a) => StepAsks(s.client, s.server.out, a, id);
    }
    assert step.a.BeginWrite? ==> Concat([step.a.data]) == step.a.data + Concat([]);
  }

  // ---------- datagrams ----------

  /** The two writes `WriteDatagramFrame` makes for each datagram: its length, then its bytes. */
  function DatagramWrites(datagrams: seq<seq<byte>>): seq<seq<byte>>
    requires forall i :: 0 <= i < |datagrams| ==> ValidBody(datagrams[i])
  {
    if datagrams == [] then []
    else
      assert ValidBody(datagrams[0]);
      [PutUint32(|datagrams[0]|), datagrams[0]] + DatagramWrites(datagrams[1..])
  }

  lemma {:induction false} DatagramWritesEncode(datagrams: seq<seq<byte>>)
    requires forall i :: 0 <= i < |datagrams| ==> ValidBody(datagrams[i])
    ensures Concat(DatagramWrites(datagrams)) == EncodeAll(datagrams)
  {
    if datagrams != [] {
      assert ValidBody(datagrams[0]);
      var length, body := PutUint32(|datagrams[0]|), datagrams[0];
      DatagramWritesEncode(datagrams[1..]);
      ConcatAppend([length, body], DatagramWrites(datagrams[1..]));
      TwoParts(length, body);
    }
  }

  lemma TwoParts(x: seq<byte>, y: seq<byte>)
    ensures Concat([x, y]) == x + y
  {
    assert [x, y][1..] == [y] && [y][1..] == [];
    assert Concat([y]) == y;
  }

  /** One side writes datagrams on stream `id`, one after another without overlap, and has got some way; the
      bytes read at the other end, cut wherever they are, are the first few of those datagrams, each with
      its own boundaries, followed by an incomplete one at most. */
  lemma DatagramsArriveInOrder(steps: seq<Step>, s: Net, server: bool, id: nat, datagrams: seq<seq<byte>>)
    returns (k: nat)
    requires Reaches(steps, s)
    requires forall i :: 0 <= i < |datagrams| ==> ValidBody(datagrams[i])
    requires id !in Side(s, server).raced && WritesOn(steps, server, id) <= DatagramWrites(datagrams)
    requires id in Side(s, !server).mux.streams
    ensures var returned := Side(s, !server).mux.streams[id].returned;
      && k <= |datagrams|
      && ParseAll(returned).0 == datagrams[..k]
      && (ParseAll(returned).1 == Eof || ParseAll(returned).1 == UnexpectedEof)
      && (|returned| == |EncodeAll(datagrams)| ==> k == |datagrams|)
  {
    var st := Side(s, !server).mux.streams[id];
    AskedIsEncoded(steps, s, server, id, datagrams);
    ReadsArePrefixOfWrites(steps, s, id);
    WireCarriesWhatWasAsked(steps, s, Side(s, server), id);
    assert st.returned <= st.Delivered();
    k := ParseTruncated(datagrams, st.returned);
    if |st.returned| == |EncodeAll(datagrams)| {
      assert st.returned == EncodeAll(datagrams);
      RoundTrip(datagrams);
    }
  }

  lemma AskedIsEncoded(steps: seq<Step>, s: Net, server: bool, id: nat, datagrams: seq<seq<byte>>)
    requires Reaches(steps, s)
    requires forall i :: 0 <= i < |datagrams| ==> ValidBody(datagrams[i])
    requires WritesOn(steps, server, id) <= DatagramWrites(datagrams)
    ensures Side(s, server).Asked(id) <= EncodeAll(datagrams)
  {
    RunAsks(INITIAL, steps, server, id);
    assert Side(INITIAL, server).Asked(id) == [];
    ConcatMonotone(WritesOn(steps, server, id), DatagramWrites(datagrams));
    DatagramWritesEncode(datagrams);
  }

  // ---------- mux frames as bytes ----------

  /** The protobuf encoding of a mux frame body, taken as a pair of functions. */
  datatype Codec = Codec(marshal: Frame -> seq<byte>, unmarshal: seq<byte> -> Option<Frame>)

  predicate WritableFrame(f: Frame) {
    && !(f.OpenFrame? && f.id == 0)
    && (f.DataFrame? ==> |f.payload| <= MAX_MUX_PAYLOAD)
  }

  /** Decoding undoes encoding, and no writable frame encodes to nothing or to more than a frame holds. */
  ghost predicate Lawful(codec: Codec) {
    forall f: Frame :: WritableFrame(f) ==> codec.unmarshal(codec.marshal(f)) == Some(f) && ValidBody(codec.marshal(f))
  }

  function Marshalled(codec: Codec, frames: seq<Frame>): (bodies: seq<seq<byte>>)
    ensures |bodies| == |frames|
    ensures forall i :: 0 <= i < |frames| ==> bodies[i] == codec.marshal(frames[i])
  {
    seq(|frames|, i requires 0 <= i < |frames| => codec.marshal(frames[i]))
  }

  /** `ReadMuxFrame` in a loop: decode each body, stopping at one that does not decode or breaks a limit. */
  function DecodeBodies(codec: Codec, bodies: seq<seq<byte>>): seq<Frame> {
    if bodies == [] then []
    else
      match codec.unmarshal(bodies[0])
      case None => []
      case Some(f) =>
        if f.DataFrame? && |f.payload| > MAX_MUX_PAYLOAD then [] else [f] + DecodeBodies(codec, bodies[1..])
  }

  lemma {:induction false} DecodeMarshalled(codec: Codec, frames: seq<Frame>)
    requires Lawful(codec) && forall i :: 0 <= i < |frames| ==> WritableFrame(frames[i])
    ensures DecodeBodies(codec, Marshalled(codec, frames)) == frames
  {
    if frames != [] {
      DecodeMarshalled(codec, frames[1..]);
      assert Marshalled(codec, frames)[1..] == Marshalled(codec, frames[1..]);
    }
  }

  /** However the connection is cut, the frames read from it are the first few that were written:
      the channel between two muxes is first in, first out. */
  lemma ConnectionIsFifo(codec: Codec, frames: seq<Frame>, received: seq<byte>) returns (k: nat)
    requires Lawful(codec) && forall i :: 0 <= i < |frames| ==> WritableFrame(frames[i])
    requires received <= EncodeAll(Marshalled(codec, frames))
    ensures k <= |frames|
    ensures DecodeBodies(codec, ParseAll(received).0) == frames[..k]
    ensures received == EncodeAll(Marshalled(codec, frames)) ==> k == |frames|
  {
    var bodies := Marshalled(codec, frames);
    k := ParseTruncated(bodies, received);
    assert bodies[..k] == Marshalled(codec, frames[..k]);
    DecodeMarshalled(codec, frames[..k]);
    if received == EncodeAll(bodies) {
      RoundTrip(bodies);
    }
  }

  /** Every frame of a reachable state is one `WriteMuxFrame` accepts. */
  lemma WireFramesAreWritable(steps: seq<Step>, s: Net, f: Frame)
    requires Reaches(steps, s) && (f in s.server.out || f in s.client.out)
    ensures WritableFrame(f) && (f.DataFrame? ==> f.payload != [])
  {
    ReachableInv(steps, s);
    if f in s.server.out {
      var i :| 0 <= i < |s.server.out| && s.server.out[i] == f;
      FrameAt(s.server, i);
    } else {
      var i :| 0 <= i < |s.client.out| && s.client.out[i] == f;
      FrameAt(s.client, i);
    }
  }
}
