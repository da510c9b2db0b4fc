/**
 `tcpTLSMux` and `muxStream` as the objects they are: each method is one of the code's, run without
 interference, and is proved to change the object as the protocol model says. Interleavings are the
 business of module MuxProtocol.
 */
module Mux {
  import opened Bytes
  import P = MuxProtocol

  /** The connection under a mux: it takes `room` more frames, each whole, and fails from then on. */
  class Conn {
    var sent: seq<P.Frame>
    var room: nat

    constructor (room: nat)
      ensures sent == [] && this.room == room
    {
      sent, this.room := [], room;
    }

    method WriteFrame(f: P.Frame) returns (ok: bool)
      modifies this
      ensures ok == (old(room) > 0)
      ensures ok ==> sent == old(sent) + [f] && room == old(room) - 1
      ensures !ok ==> sent == old(sent) && room == old(room)
    {
      if room == 0 {
        return false;
      }
      sent, room := sent + [f], room - 1;
      return true;
    }
  }

  datatype ReadOutcome = Got(data: seq<byte>) | EndOfFile | WouldBlock

  datatype DeliverOutcome = Pushed | Dropped | Blocked

  class MuxStream {
    const id: nat
    var inbound: seq<seq<byte>>
    var readBuf: seq<byte>
    var finished: bool
    ghost var returned: seq<byte>

    constructor (id: nat)
      ensures this.id == id && View() == P.EMPTY_STREAM
    {
      this.id := id;
      inbound, readBuf, finished, returned := [], [], false, [];
    }

    ghost function View(): P.Stream
      reads this
    {
      P.Stream(inbound, readBuf, finished, returned)
    }

    /** `Read` into a buffer of `size` bytes. When the queue and the end are both ready either may be taken;
        `takeEnd` says which. There is data for the caller exactly when some is buffered, or queued and not
        passed over for the end; a short read empties the buffer. */
    method Read(size: nat, takeEnd: bool) returns (res: ReadOutcome)
      modifies this
      ensures View().Delivered() == old(View().Delivered()) && finished == old(finished)
      ensures returned == if res.Got? then old(returned) + res.data else old(returned)
      ensures res.Got? <==> old(readBuf) != [] || (!(finished && takeEnd) && old(Concat(inbound)) != [])
      ensures res.EndOfFile? ==> finished
      ensures res.WouldBlock? ==> !finished
      ensures !res.Got? ==> readBuf == [] && (inbound == [] || takeEnd)
      ensures res.Got? ==> |res.data| <= size && (|res.data| == size || (readBuf == [] && res.data != []))
    {
      while readBuf == []
        invariant View().Delivered() == old(View().Delivered())
        invariant finished == old(finished) && returned == old(returned)
        invariant old(readBuf) != [] ==> readBuf == old(readBuf)
        invariant old(readBuf) == [] ==> readBuf + Concat(inbound) == old(Concat(inbound))
        invariant readBuf != [] && old(readBuf) == [] ==> !(finished && takeEnd) && old(Concat(inbound)) != []
        decreases |inbound|
      {
        if finished && (takeEnd || inbound == []) {
          return EndOfFile;
        }
        if inbound == [] {
          return WouldBlock;
        }
        readBuf, inbound := inbound[0], inbound[1..];
      }
      var n := if size < |readBuf| then size else |readBuf|;
      var data := readBuf[..n];
      assert returned + readBuf == returned + data + readBuf[n..];
      readBuf := readBuf[n..];
      returned := returned + data;
      return Got(data);
    }

    /** `deliver`, called by the read loop. */
    method Deliver(payload: seq<byte>) returns (res: DeliverOutcome)
      modifies this
      ensures res == Pushed <==> !old(finished) && |old(inbound)| < P.INBOUND_CAPACITY
      ensures res == Pushed ==> View() == old(View()).(inbound := old(inbound) + [payload])
      ensures res != Pushed ==> View() == old(View())
      ensures res == Dropped <==> finished
    {
      if finished {
        return Dropped;
      }
      if |inbound| < P.INBOUND_CAPACITY {
        inbound := inbound + [payload];
        return Pushed;
      }
      return Blocked;
    }

    method Finish()
      modifies this
      ensures View() == old(View()).(finished := true)
    {
      finished := true;
    }
  }

  // ---------- the chunks of a write ----------

  function Chunks(p: seq<byte>): (chunks: seq<seq<byte>>)
    ensures Concat(chunks) == p
    ensures forall i :: 0 <= i < |chunks| ==> 1 <= |chunks[i]| <= P.MAX_MUX_PAYLOAD
  {
    if p == [] then []
    else
      var n := P.ChunkLength(p);
      assert p[..n] + p[n..] == p;
      [p[..n]] + Chunks(p[n..])
  }

  /** Whole chunks first: cutting after `k` whole chunks cuts between two chunks. */
  lemma {:induction false} ChunksSnoc(p: seq<byte>, k: nat)
    requires k * P.MAX_MUX_PAYLOAD < |p| <= (k + 1) * P.MAX_MUX_PAYLOAD
    ensures Chunks(p) == Chunks(p[..k * P.MAX_MUX_PAYLOAD]) + [p[k * P.MAX_MUX_PAYLOAD..]]
  {
    var w := k * P.MAX_MUX_PAYLOAD;
    if k == 0 {
      OnlyChunk(p);
    } else {
      var n := P.MAX_MUX_PAYLOAD;
      ChunksSnoc(p[n..], k - 1);
      FirstChunk(p);
      FirstChunk(p[..w]);
      CutTwice(p, n, w);
    }
  }

  lemma CutTwice(p: seq<byte>, n: nat, w: nat)
    requires n <= w <= |p|
    ensures p[n..][..w - n] == p[..w][n..] && p[n..][w - n..] == p[w..] && p[..w][..n] == p[..n]
  {
  }

  lemma OnlyChunk(p: seq<byte>)
    requires 0 < |p| <= P.MAX_MUX_PAYLOAD
    ensures p[..0] == [] && p[0..] == p && Chunks(p) == Chunks([]) + [p]
  {
    assert p[..|p|] == p && p[|p|..] == [];
  }

  lemma FirstChunk(p: seq<byte>)
    requires |p| >= P.MAX_MUX_PAYLOAD
    ensures Chunks(p) == [p[..P.MAX_MUX_PAYLOAD]] + Chunks(p[P.MAX_MUX_PAYLOAD..])
  {
  }

  function DataFrames(id: nat, chunks: seq<seq<byte>>): seq<P.Frame> {
    seq(|chunks|, i requires 0 <= i < |chunks| => P.DataFrame(id, chunks[i]))
  }

  lemma ChunkWritten(id: nat, p: seq<byte>, k: nat, end: nat)
    requires k * P.MAX_MUX_PAYLOAD < end <= |p| && end <= (k + 1) * P.MAX_MUX_PAYLOAD
    ensures DataFrames(id, Chunks(p[..end]))
      == DataFrames(id, Chunks(p[..k * P.MAX_MUX_PAYLOAD])) + [P.DataFrame(id, p[k * P.MAX_MUX_PAYLOAD..end])]
  {
    var w := k * P.MAX_MUX_PAYLOAD;
    ChunksSnoc(p[..end], k);
    assert p[..end][..w] == p[..w] && p[..end][w..] == p[w..end];
  }

  function Min(x: nat, y: nat): nat {
    if x <= y then x else y
  }

  /** How many bytes of `p` its first `k` chunks hold. */
  function FirstBytes(p: seq<byte>, k: nat): nat {
    Min(|p|, k * P.MAX_MUX_PAYLOAD)
  }

  lemma FewestChunks(n: nat, k: nat, limit: nat)
    requires k <= limit && n <= k * P.MAX_MUX_PAYLOAD
    ensures n <= limit * P.MAX_MUX_PAYLOAD
  {
  }

  // ---------- stream ids ----------

  lemma SmallMod(n: nat)
    requires n < 2 * P.TWO_TO_THE_64
    ensures n % P.TWO_TO_THE_64 == if n < P.TWO_TO_THE_64 then n else n - P.TWO_TO_THE_64
  {
  }

  lemma SameParity(a: nat, b: nat, k: int)
    requires a == b + 2 * k
    ensures a % 2 == b % 2
  {
  }

  lemma NextIdKeepsParity(id: nat)
    requires id < P.TWO_TO_THE_64
    ensures P.NextId(id) % 2 == id % 2 && P.NextId(id) < P.TWO_TO_THE_64
  {
    SmallMod(id + 2);
  }

  lemma Wraps(n: nat)
    ensures (n + P.TWO_TO_THE_64) % P.TWO_TO_THE_64 == n % P.TWO_TO_THE_64
  {
  }

  /** The id a walk that starts at `next` reaches after `tries` steps. */
  function Walk(next: nat, tries: nat): nat
    decreases tries
  {
    if tries == 0 then next else Walk(P.NextId(next), tries - 1)
  }

  lemma {:induction false} WalkClosedForm(next: nat, tries: nat)
    requires next < P.TWO_TO_THE_64
    ensures Walk(next, tries) == (next + 2 * tries) % P.TWO_TO_THE_64
    decreases tries
  {
    if tries > 0 {
      WalkClosedForm(P.NextId(next), tries - 1);
      SmallMod(next + 2);
      Wraps(P.NextId(next) + 2 * (tries - 1));
    }
  }

  /** A walk does not come back to where it started within 2^63 steps, and keeps its parity. */
  lemma WalkGoesOn(next: nat, tries: nat)
    requires next < P.TWO_TO_THE_64 && tries <= P.MAX_MUX_STREAMS
    ensures tries > 0 ==> Walk(next, tries) != next
    ensures Walk(next, tries) % 2 == next % 2 && Walk(next, tries) < P.TWO_TO_THE_64
  {
    var n := next + 2 * tries;
    var w := Walk(next, tries);
    assert w == if n < P.TWO_TO_THE_64 then n else n - P.TWO_TO_THE_64 by {
      WalkClosedForm(next, tries);
      SmallMod(n);
    }
    SameParity(w, next, if n < P.TWO_TO_THE_64 then tries else tries - P.TWO_TO_THE_64 / 2);
  }

  /** The allocator stops after at most one try per stream in use, on an id that is unused, keeps the
      parity, and is not 0 because stream 0 is always in use. */
  lemma {:induction false} FirstFreeFound(next: nat, table: set<nat>) returns (tries: nat)
    requires next < P.TWO_TO_THE_64 && |table| <= P.MAX_MUX_STREAMS
    ensures tries <= |table|
    ensures P.FirstFree(next, table) == Walk(next, tries)
    ensures P.FirstFree(next, table) !in table
    ensures P.FirstFree(next, table) % 2 == next % 2 && P.FirstFree(next, table) < P.TWO_TO_THE_64
    ensures forall j: nat :: j < tries ==> Walk(next, j) in table
    decreases |table|
  {
    if next !in table {
      return 0;
    }
    var tries' := FirstFreeFound(P.NextId(next), table - {next});
    tries := tries' + 1;
    WalkGoesOn(next, tries);
    forall j: nat | j < tries ensures Walk(next, j) in table {
      if j > 0 {
        assert Walk(P.NextId(next), j - 1) in table - {next};
      }
    }
  }

  ghost function Ids(list: seq<MuxStream>): seq<nat> {
    seq(|list|, i requires 0 <= i < |list| => list[i].id)
  }

  lemma PutAndTake<T>(m: map<nat, T>, id: nat, x: T)
    requires id !in m
    ensures m[id := x] - {id} == m
  {
  }

  datatype OpenOutcome = Opened(stream: MuxStream) | MuxClosed | TooManyStreams | WriteFailed

  datatype AcceptOutcome = Offered | Ignored | Rejected(reason: P.ResetReason)

  /** What comes of an open frame for `id`. */
  function OpenVerdict(m: P.Mux, id: nat): AcceptOutcome {
    if id == 0 || id % 2 == m.localId then Rejected(P.InvalidStreamId)
    else if m.closed || |m.table| >= P.MAX_MUX_STREAMS then Ignored
    else if id in m.table then Rejected(P.DuplicateStreamId)
    else if |m.accept| < P.ACCEPT_CAPACITY then Offered
    else Rejected(P.AcceptQueueFull)
  }

  /** The mux after an open frame for `id`, by what came of it. */
  function AfterOpen(m: P.Mux, id: nat, res: AcceptOutcome): P.Mux {
    var m' := P.InsertStream(m, id);
    if res == Offered then m'.(accept := m'.accept + [id])
    else if res == Rejected(P.AcceptQueueFull) then P.RemoveStream(P.FinishStream(m', id), id)
    else m
  }

  /** The mux after a data frame for `id` that did not block. */
  function AfterData(m: P.Mux, id: nat, payload: seq<byte>, ok: bool): P.Mux {
    if ok && id in m.table && id in m.streams && !m.streams[id].finished then P.PushPayload(m, id, payload) else m
  }

  /** The mux after a close or reset frame for `id`. */
  function AfterEnd(m: P.Mux, id: nat): P.Mux {
    if id in m.table && id in m.streams then P.RemoveStream(P.FinishStream(m, id), id) else m
  }

  class TcpTlsMux {
    const conn: Conn
    const localId: nat
    var started: bool
    var closed: bool
    var nextId: nat
    var streams: map<nat, MuxStream>
    var accept: seq<MuxStream>
    ghost var all: map<nat, MuxStream>   // the latest stream object of each id, in the table or not

    ghost predicate Valid()
      reads this
    {
      && localId < 2 && nextId < P.TWO_TO_THE_64 && nextId % 2 == localId
      && (forall id :: id in all ==> all[id].id == id)
      && (forall id :: id in streams ==> id in all && all[id] == streams[id])
      && (if closed then streams == map[] else 0 in streams && |streams| <= P.MAX_MUX_STREAMS)
    }

    ghost function StreamViews(): map<nat, P.Stream>
      reads this`all, all.Values
    {
      map id | id in all :: all[id].View()
    }

    ghost function View(): P.Mux
      reads this, all.Values
    {
      P.Mux(localId, started, closed, nextId, streams.Keys, Ids(accept), StreamViews())
    }

    constructor (conn: Conn, nextId: nat)
      requires nextId < P.TWO_TO_THE_64
      ensures Valid() && fresh(all.Values) && this.conn == conn
      ensures View() == P.NewMux(nextId)
    {
      this.conn := conn;
      localId := nextId % 2;
      started, closed := false, false;
      this.nextId := nextId;
      accept := [];
      var control := new MuxStream(0);
      streams := map[0 := control];
      all := map[0 := control];
    }

    method Start()
      requires Valid()
      modifies this
      ensures Valid() && all == old(all)
      ensures View() == old(View()).(started := old(started) || !closed)
    {
      if started || closed {
        return;
      }
      started := true;
    }

    method NextAvailableStreamId() returns (id: nat)
      requires Valid() && !closed
      modifies this`nextId
      ensures Valid()
      ensures id == P.FirstFree(old(nextId), streams.Keys)
      ensures nextId == P.NextId(id)
      ensures id !in streams && id != 0 && id % 2 == localId
    {
      ghost var left := streams.Keys;
      ghost var _ := FirstFreeFound(nextId, left);
      while true
        invariant Valid()
        invariant left <= streams.Keys
        invariant P.FirstFree(nextId, left) == P.FirstFree(old(nextId), streams.Keys)
        invariant P.FirstFree(nextId, left) !in streams
        invariant nextId in streams ==> nextId in left
        decreases |left|
      {
        id := nextId;
        NextIdKeepsParity(nextId);
        nextId := P.NextId(nextId);
        if id !in streams {
          return;
        }
        left := left - {id};
      }
    }

    /** A new stream enters the table. */
    method InsertStream(id: nat) returns (stream: MuxStream)
      requires Valid() && !closed && |streams| < P.MAX_MUX_STREAMS
      modifies this`streams, this`all
      ensures Valid() && fresh(stream) && stream.id == id
      ensures streams == old(streams)[id := stream] && all == old(all)[id := stream]
      ensures View() == P.InsertStream(old(View()), id)
    {
      stream := new MuxStream(id);
      streams := streams[id := stream];
      all := all[id := stream];
      InsertedView(id);
    }

    twostate lemma InsertedView(id: nat)
      requires id in all && all == old(all)[id := all[id]] && streams.Keys == old(streams).Keys + {id}
      requires accept == old(accept) && started == old(started) && closed == old(closed) && nextId == old(nextId)
      requires all[id].View() == P.EMPTY_STREAM
      requires forall i :: i in old(all) && i != id ==> all[i].View() == old(all[i].View())
      ensures View() == P.InsertStream(old(View()), id)
    {
      InsertedStreams(id);
    }

    twostate lemma InsertedStreams(id: nat)
      requires id in all && all == old(all)[id := all[id]] && all[id].View() == P.EMPTY_STREAM
      requires forall i :: i in old(all) && i != id ==> all[i].View() == old(all[i].View())
      ensures StreamViews() == old(StreamViews())[id := P.EMPTY_STREAM]
    {
    }

    /** The part of `OpenStream` under the lock. */
    method ReserveStream() returns (res: OpenOutcome)
      requires Valid()
      modifies this
      ensures Valid() && conn.sent == old(conn.sent) && conn.room == old(conn.room)
      ensures res.MuxClosed? <==> closed
      ensures res.TooManyStreams? <==> !closed && |old(streams)| >= P.MAX_MUX_STREAMS
      ensures !res.WriteFailed?
      ensures !res.Opened? ==> View() == old(View()) && all == old(all)
      ensures res.Opened? ==>
        && View() == P.ReserveStream(old(View()))
        && fresh(res.stream) && all == old(all)[res.stream.id := res.stream]
        && res.stream.id == P.FirstFree(old(nextId), old(streams).Keys)
        && streams == old(streams)[res.stream.id := res.stream]
        && res.stream.id != 0 && res.stream.id % 2 == localId && res.stream.id !in old(streams)
    {
      if closed {
        return MuxClosed;
      }
      if |streams| >= P.MAX_MUX_STREAMS {
        return TooManyStreams;
      }
      var id := NextAvailableStreamId();
      var stream := InsertStream(id);
      return Opened(stream);
    }

    method RemoveStream(id: nat)
      requires Valid()
      modifies this`streams
      ensures Valid() && View() == P.RemoveStream(old(View()), id)
      ensures streams == if id == 0 then old(streams) else old(streams) - {id}
    {
      if id == 0 {
        return;
      }
      streams := streams - {id};
    }

    /** `writeFrame`: nothing goes out on a closed mux. */
    method SendFrame(f: P.Frame) returns (ok: bool)
      modifies conn
      ensures View() == old(View())
      ensures ok == (!closed && old(conn.room) > 0)
      ensures conn.sent == if ok then old(conn.sent) + [f] else old(conn.sent)
      ensures conn.room == if ok then old(conn.room) - 1 else old(conn.room)
    {
      if closed {
        return false;
      }
      ok := conn.WriteFrame(f);
    }

    method OpenStream() returns (res: OpenOutcome)
      requires Valid() && started
      modifies this, conn
      ensures Valid()
      ensures res.MuxClosed? <==> closed
      ensures res.TooManyStreams? <==> !closed && |old(streams)| >= P.MAX_MUX_STREAMS
      ensures res.WriteFailed? <==> !closed && |old(streams)| < P.MAX_MUX_STREAMS && old(conn.room) == 0
      ensures res.Opened? ==>
        && View() == P.ReserveStream(old(View())) && fresh(res.stream)
        && conn.sent == old(conn.sent) + [P.OpenFrame(res.stream.id)]
      ensures res.WriteFailed? ==>
        && View() == P.RemoveStream(P.ReserveStream(old(View())), P.FirstFree(old(nextId), old(streams).Keys))
        && streams == old(streams) && conn.sent == old(conn.sent)
      ensures res.MuxClosed? || res.TooManyStreams? ==> View() == old(View()) && conn.sent == old(conn.sent)
    {
      res := ReserveStream();
      if !res.Opened? {
        return;
      }
      var ok := SendFrame(P.OpenFrame(res.stream.id));
      if !ok {
        RemoveStream(res.stream.id);
        PutAndTake(old(streams), res.stream.id, res.stream);
        return WriteFailed;
      }
    }

    /** When the queue and the end are both ready either may be taken; `takeDone` says which. */
    method AcceptStream(takeDone: bool) returns (res: OpenOutcome)
      requires Valid() && (accept != [] || closed)
      modifies this`accept
      ensures Valid()
      ensures res.Opened? <==> old(accept) != [] && !(closed && takeDone)
      ensures res.Opened? ==> old(accept) == [res.stream] + accept
      ensures !res.Opened? ==> res == MuxClosed && accept == old(accept)
    {
      if closed && (takeDone || accept == []) {
        return MuxClosed;
      }
      var stream := accept[0];
      accept := accept[1..];
      return Opened(stream);
    }

    /** `remoteClose`, and the end of `muxStream.Close`. */
    method FinishAndRemove(stream: MuxStream)
      requires Valid() && stream.id in all && all[stream.id] == stream
      modifies this`streams, stream
      ensures Valid() && View() == P.RemoveStream(P.FinishStream(old(View()), stream.id), stream.id)
    {
      stream.Finish();
      assert View().streams == P.FinishStream(old(View()), stream.id).streams;
      RemoveStream(stream.id);
    }

    /** A stream the peer has opened is inserted and offered to `AcceptStream`. */
    method OfferStream(id: nat) returns (offered: bool)
      requires Valid() && !closed && |streams| < P.MAX_MUX_STREAMS && id !in streams && id != 0
      modifies this`streams, this`all, this`accept
      ensures Valid() && offered == (|old(accept)| < P.ACCEPT_CAPACITY)
      ensures View() ==
        var m := P.InsertStream(old(View()), id);
        if offered then m.(accept := m.accept + [id]) else P.RemoveStream(P.FinishStream(m, id), id)
    {
      var stream := InsertStream(id);
      if |accept| < P.ACCEPT_CAPACITY {
        accept := accept + [stream];
        return true;
      }
      FinishAndRemove(stream);
      return false;
    }

    /** `handleOpen` up to the reset it may send. */
    method TakeOpen(id: nat) returns (res: AcceptOutcome)
      requires Valid()
      modifies this`streams, this`all, this`accept
      ensures Valid()
      ensures res == OpenVerdict(old(View()), id)
      ensures View() == AfterOpen(old(View()), id, res)
    {
      if id == 0 || id % 2 == localId {
        return Rejected(P.InvalidStreamId);
      }
      if closed || |streams| >= P.MAX_MUX_STREAMS {
        return Ignored;
      }
      if id in streams {
        return Rejected(P.DuplicateStreamId);
      }
      var offered := OfferStream(id);
      return if offered then Offered else Rejected(P.AcceptQueueFull);
    }

    method HandleOpen(id: nat) returns (res: AcceptOutcome)
      requires Valid()
      modifies this`streams, this`all, this`accept, conn
      ensures Valid()
      ensures res == OpenVerdict(old(View()), id)
      ensures View() == AfterOpen(old(View()), id, res)
      ensures conn.sent ==
        if res.Rejected? && !closed && old(conn.room) > 0 then old(conn.sent) + [P.ResetFrame(id, res.reason)] else old(conn.sent)
    {
      res := TakeOpen(id);
      if res.Rejected? {
        var _ := SendFrame(P.ResetFrame(id, res.reason));
      }
    }

    /** `muxStream.Close`: whether or not the frame goes out, the stream is finished and leaves the table. */
    method CloseStream(stream: MuxStream)
      requires Valid() && stream.id in all && all[stream.id] == stream
      modifies this`streams, stream, conn
      ensures Valid() && View() == P.RemoveStream(P.FinishStream(old(View()), stream.id), stream.id)
      ensures conn.sent == if !closed && old(conn.room) > 0 then old(conn.sent) + [P.CloseFrame(stream.id)] else old(conn.sent)
    {
      var _ := SendFrame(P.CloseFrame(stream.id));
      FinishAndRemove(stream);
    }

    /** A data frame reaches the stream it names, if that is in the table. */
    method DeliverTo(id: nat, payload: seq<byte>) returns (res: DeliverOutcome)
      requires Valid()
      modifies if id in streams then {streams[id]} else {}
      ensures Valid() && all == old(all)
      ensures res == Pushed <==> id in streams && !old(View()).streams[id].finished && |old(View()).streams[id].inbound| < P.INBOUND_CAPACITY
      ensures res == Blocked <==> id in streams && !old(View()).streams[id].finished && |old(View()).streams[id].inbound| >= P.INBOUND_CAPACITY
      ensures View() == if res == Pushed then P.PushPayload(old(View()), id, payload) else old(View())
    {
      if id !in streams {
        return Dropped;
      }
      res := streams[id].Deliver(payload);
      assert View().streams == (if res == Pushed then P.PushPayload(old(View()), id, payload) else old(View())).streams;
    }

    /** One turn of `readLoop`, run without interference; `false` when the loop would block on a full queue. */
    method HandleFrame(f: P.Frame) returns (ok: bool)
      requires Valid()
      modifies this`streams, this`all, this`accept, conn, if f.id in streams then {streams[f.id]} else {}
      ensures Valid()
      ensures f.OpenFrame? ==> ok && View() == AfterOpen(old(View()), f.id, OpenVerdict(old(View()), f.id))
      ensures f.DataFrame? ==> ok == (f.id !in old(streams) || old(View()).streams[f.id].finished || |old(View()).streams[f.id].inbound| < P.INBOUND_CAPACITY)
      ensures f.DataFrame? ==> View() == AfterData(old(View()), f.id, f.payload, ok)
      ensures f.CloseFrame? || f.ResetFrame? ==> ok && View() == AfterEnd(old(View()), f.id)
    {
      match f
      case OpenFrame(id) =>
        var _ := HandleOpen(id);
        return true;
      case DataFrame(id, payload) =>
        var res := DeliverTo(id, payload);
        return res != Blocked;
      case _ =>
        if f.id in streams {
          FinishAndRemove(streams[f.id]);
        }
        return true;
    }

    /** `closeAll`: every stream that was in the table is finished, no other stream changes, and the
        table is empty for good. */
    method CloseAll()
      requires Valid()
      modifies this, all.Values
      ensures Valid() && closed && streams == map[] && all == old(all) && accept == old(accept)
      ensures forall id :: id in all ==>
        all[id].View() == (if id in old(streams) then old(all[id].View()).(finished := true) else old(all[id].View()))
    {
      if closed {
        return;
      }
      closed := true;
      var todo := streams;
      streams := map[];
      FinishAll(todo);
    }

    method FinishAll(todo: map<nat, MuxStream>)
      requires forall id :: id in all ==> all[id].id == id
      requires forall id :: id in todo ==> id in all && todo[id] == all[id]
      modifies todo.Values
      ensures forall id :: id in all ==>
        all[id].View() == (if id in todo then old(all[id].View()).(finished := true) else old(all[id].View()))
    {
      var left := todo.Keys;
      while left != {}
        modifies todo.Values
        invariant left <= todo.Keys
        invariant forall id :: id in all ==>
          all[id].View() == (if id in todo && id !in left then old(all[id].View()).(finished := true) else old(all[id].View()))
        decreases |left|
      {
        var id :| id in left;
        todo[id].Finish();
        left := left - {id};
      }
    }

    /** `muxStream.Write`. Before chunk `stopAt`, counting from 0, another goroutine finishes the stream or
        closes the mux. What goes out is the chunks that fit before that and before the connection fails; the
        write succeeds exactly when that is all of them. */
    method WriteStream(stream: MuxStream, p: seq<byte>, stopAt: nat) returns (n: nat, ok: bool)
      requires Valid()
      modifies conn
      ensures n == if stream.finished || closed then 0 else FirstBytes(p, Min(stopAt, old(conn.room)))
      ensures conn.sent == old(conn.sent) + DataFrames(stream.id, Chunks(p[..n]))
      ensures ok <==> !stream.finished && (p == [] || (!closed && |p| <= Min(stopAt, old(conn.room)) * P.MAX_MUX_PAYLOAD))
    {
      if stream.finished {
        return 0, false;
      }
      var k := 0;
      n := 0;
      while n < |p|
        invariant k <= stopAt && k <= old(conn.room) && conn.room == old(conn.room) - k
        invariant n == FirstBytes(p, k) && (k > 0 ==> (k - 1) * P.MAX_MUX_PAYLOAD < |p| && !closed)
        invariant conn.sent == old(conn.sent) + DataFrames(stream.id, Chunks(p[..n]))
      {
        var end := if n + P.MAX_MUX_PAYLOAD < |p| then n + P.MAX_MUX_PAYLOAD else |p|;
        if k == stopAt {
          return n, false;
        }
        var written := SendFrame(P.DataFrame(stream.id, p[n..end]));
        if !written {
          return n, false;
        }
        ChunkWritten(stream.id, p, k, end);
        n, k := end, k + 1;
      }
      FewestChunks(|p|, k, Min(stopAt, old(conn.room)));
      return n, true;
    }
  }
}
