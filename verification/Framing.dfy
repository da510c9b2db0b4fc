/**
 Length-prefixed framing: four big-endian length bytes, then a body of 1 to 2^20 bytes.

 `WriteDatagramFrame` and `ReadDatagramFrame` work step by step on a writer that may fail part-way
 and on a reader that may return fewer bytes than asked. They are proved against `Encode` and
 `Parse`, and the round trips are proved about those.
 */
module Framing {
  import opened Bytes

  const MAX_FRAME_SIZE := 1048576
  const LENGTH_SIZE := 4

  // ---------- the length prefix ----------

  function PutUint32(n: nat): (b: seq<byte>)
    requires n < 0x1_0000_0000
    ensures |b| == LENGTH_SIZE
  {
    [n / 0x100_0000, n / 0x1_0000 % 0x100, n / 0x100 % 0x100, n % 0x100]
  }

  function Uint32(b: seq<byte>): (n: nat)
    requires |b| == LENGTH_SIZE
  {
    b[0] as nat * 0x100_0000 + b[1] as nat * 0x1_0000 + b[2] as nat * 0x100 + b[3] as nat
  }

  lemma LengthRoundTrip(n: nat)
    requires n < 0x1_0000_0000
    ensures Uint32(PutUint32(n)) == n
  {
    assert n / 0x100 == n / 0x1_0000 * 0x100 + n / 0x100 % 0x100;
    assert n / 0x1_0000 == n / 0x100_0000 * 0x100 + n / 0x1_0000 % 0x100;
  }

  /** `a` comes before `b` in a dictionary: it is smaller at the first byte where they differ. */
  ghost predicate InOrder(a: seq<byte>, b: seq<byte>)
    requires |a| == |b|
  {
    exists i :: 0 <= i < |a| && a[..i] == b[..i] && a[i] < b[i]
  }

  /** The length goes most significant byte first: shorter frames have the length bytes that come first. */
  lemma LengthIsBigEndian(m: nat, n: nat)
    requires m < n < 0x1_0000_0000
    ensures InOrder(PutUint32(m), PutUint32(n))
  {
    LengthRoundTrip(m);
    LengthRoundTrip(n);
    FirstDifference(PutUint32(m), PutUint32(n));
  }

  lemma FirstDifference(a: seq<byte>, b: seq<byte>)
    requires |a| == |b| == LENGTH_SIZE && Uint32(a) < Uint32(b)
    ensures InOrder(a, b)
  {
    var i := if a[0] != b[0] then 0 else if a[1] != b[1] then 1 else if a[2] != b[2] then 2 else 3;
    assert a[..i] == b[..i] && a[i] < b[i];
  }

  // ---------- one frame ----------

  predicate ValidBody(body: seq<byte>) {
    1 <= |body| <= MAX_FRAME_SIZE
  }

  function Encode(body: seq<byte>): seq<byte>
    requires ValidBody(body)
  {
    PutUint32(|body|) + body
  }

  datatype ReadError = Eof | UnexpectedEof | EmptyFrame | FrameTooLarge(size: nat)

  datatype ReadResult = Frame(body: seq<byte>, rest: seq<byte>) | Failed(error: ReadError)

  /** Reading one frame off a reader that will yield `input` and then end. */
  function Parse(input: seq<byte>): (r: ReadResult)
    ensures r.Frame? ==> ValidBody(r.body) && |r.rest| < |input|
  {
    if input == [] then Failed(Eof)
    else if |input| < LENGTH_SIZE then Failed(UnexpectedEof)
    else
      var size := Uint32(input[..LENGTH_SIZE]);
      var rest := input[LENGTH_SIZE..];
      if size == 0 then Failed(EmptyFrame)
      else if size > MAX_FRAME_SIZE then Failed(FrameTooLarge(size))
      else if rest == [] then Failed(Eof)
      else if |rest| < size then Failed(UnexpectedEof)
      else Frame(rest[..size], rest[size..])
  }

  /** What reads as a frame is exactly what was written as one, and the ways to fail are told apart: nothing
      was there, an empty frame, one that is too long, or one that ends too soon. */
  lemma ParseIff(input: seq<byte>, body: seq<byte>, rest: seq<byte>, n: nat)
    requires n < 0x1_0000_0000
    ensures Parse(input) == Frame(body, rest) <==> ValidBody(body) && input == Encode(body) + rest
    ensures Parse(input) == Failed(EmptyFrame) <==> PutUint32(0) <= input
    ensures Parse(input) == Failed(FrameTooLarge(n)) <==> n > MAX_FRAME_SIZE && PutUint32(n) <= input
    ensures Parse(input) == Failed(Eof) <==> input == [] || (|input| == LENGTH_SIZE && 1 <= Uint32(input) <= MAX_FRAME_SIZE)
  {
    LengthRoundTrip(0);
    LengthRoundTrip(n);
    if ValidBody(body) && input == Encode(body) + rest {
      ParseEncoded(body, rest);
    }
    if |input| >= LENGTH_SIZE {
      var length := input[..LENGTH_SIZE];
      LengthRead(length);
      assert input == length + input[LENGTH_SIZE..];
      assert Parse(input) == Frame(body, rest) ==> input[LENGTH_SIZE..] == body + rest;
    }
  }

  lemma LengthRead(b: seq<byte>)
    requires |b| == LENGTH_SIZE
    ensures Uint32(b) < 0x1_0000_0000 && PutUint32(Uint32(b)) == b
  {
    DigitsOf(b[0] as nat, b[1] as nat, b[2] as nat, b[3] as nat);
  }

  lemma DigitsOf(d0: nat, d1: nat, d2: nat, d3: nat)
    requires d0 < 0x100 && d1 < 0x100 && d2 < 0x100 && d3 < 0x100
    ensures var n := d0 * 0x100_0000 + d1 * 0x1_0000 + d2 * 0x100 + d3;
      n / 0x100_0000 == d0 && n / 0x1_0000 % 0x100 == d1 && n / 0x100 % 0x100 == d2 && n % 0x100 == d3
  {
    var n := d0 * 0x100_0000 + d1 * 0x1_0000 + d2 * 0x100 + d3;
    assert n / 0x1_0000 == d0 * 0x100 + d1;
    assert n / 0x100 == (d0 * 0x100 + d1) * 0x100 + d2;
  }

  // ---------- many frames ----------

  function EncodeAll(bodies: seq<seq<byte>>): seq<byte>
    requires forall i :: 0 <= i < |bodies| ==> ValidBody(bodies[i])
  {
    if bodies == [] then [] else Encode(bodies[0]) + EncodeAll(bodies[1..])
  }

  /** Reading frame after frame until the first error. */
  function ParseAll(input: seq<byte>): (seq<seq<byte>>, ReadError)
    decreases |input|
  {
    match Parse(input)
    case Failed(error) => ([], error)
    case Frame(body, rest) => var (bodies, error) := ParseAll(rest); ([body] + bodies, error)
  }

  lemma ParseEncoded(body: seq<byte>, rest: seq<byte>)
    requires ValidBody(body)
    ensures Parse(Encode(body) + rest) == Frame(body, rest)
  {
    var input := Encode(body) + rest;
    LengthRoundTrip(|body|);
    assert input[..LENGTH_SIZE] == PutUint32(|body|);
    assert input[LENGTH_SIZE..] == body + rest;
  }

  lemma ParseAllEncoded(body: seq<byte>, rest: seq<byte>)
    requires ValidBody(body)
    ensures ParseAll(Encode(body) + rest) == ([body] + ParseAll(rest).0, ParseAll(rest).1)
  {
    ParseEncoded(body, rest);
  }

  /** Every cut of an encoded frame is refused, so a reader never sees part of a frame as a frame. */
  lemma ParseCut(body: seq<byte>, cut: seq<byte>)
    requires ValidBody(body) && cut < Encode(body)
    ensures Parse(cut) == Failed(if |cut| == 0 || |cut| == LENGTH_SIZE then Eof else UnexpectedEof)
  {
    if |cut| >= LENGTH_SIZE {
      LengthRoundTrip(|body|);
      assert cut[..LENGTH_SIZE] == Encode(body)[..LENGTH_SIZE] == PutUint32(|body|);
    }
  }

  /** What was written, cut anywhere, reads back as exactly the frames the cut left whole, and then fails. */
  lemma {:induction false} ParseTruncated(bodies: seq<seq<byte>>, input: seq<byte>) returns (k: nat)
    requires forall i :: 0 <= i < |bodies| ==> ValidBody(bodies[i])
    requires input <= EncodeAll(bodies)
    ensures k <= |bodies|
    ensures ParseAll(input).0 == bodies[..k]
    ensures EncodeAll(bodies[..k]) <= input
    ensures k < |bodies| ==> |input| < |EncodeAll(bodies[..k])| + |Encode(bodies[k])|
    ensures ParseAll(input).1 == Eof || ParseAll(input).1 == UnexpectedEof
  {
    if bodies == [] {
      return 0;
    }
    var first := Encode(bodies[0]);
    if |input| < |first| {
      assert input == EncodeAll(bodies)[..|input|] == first[..|input|];
      ParseCut(bodies[0], input);
      return 0;
    }
    var rest := input[|first|..];
    assert input == first + rest;
    assert rest == EncodeAll(bodies[1..])[..|rest|];
    ParseAllEncoded(bodies[0], rest);
    var k' := ParseTruncated(bodies[1..], rest);
    k := k' + 1;
    FirstBodies(bodies, k');
  }

  lemma FirstBodies(bodies: seq<seq<byte>>, k: nat)
    requires k < |bodies| && forall i :: 0 <= i < |bodies| ==> ValidBody(bodies[i])
    ensures bodies[..k + 1] == [bodies[0]] + bodies[1..][..k]
    ensures EncodeAll(bodies[..k + 1]) == Encode(bodies[0]) + EncodeAll(bodies[1..][..k])
  {
    assert bodies[..k + 1][0] == bodies[0] && bodies[..k + 1][1..] == bodies[1..][..k];
  }

  /** The whole of what was written reads back as exactly what was written, and every byte is used. */
  lemma {:induction false} RoundTrip(bodies: seq<seq<byte>>)
    requires forall i :: 0 <= i < |bodies| ==> ValidBody(bodies[i])
    ensures ParseAll(EncodeAll(bodies)) == (bodies, Eof)
  {
    if bodies != [] {
      ParseAllEncoded(bodies[0], EncodeAll(bodies[1..]));
      RoundTrip(bodies[1..]);
      assert [bodies[0]] + bodies[1..] == bodies;
    }
  }

  lemma {:induction false} EncodeAllAppend(front: seq<seq<byte>>, back: seq<seq<byte>>)
    requires forall i :: 0 <= i < |front| ==> ValidBody(front[i])
    requires forall i :: 0 <= i < |back| ==> ValidBody(back[i])
    ensures forall i :: 0 <= i < |front + back| ==> ValidBody((front + back)[i])
    ensures EncodeAll(front + back) == EncodeAll(front) + EncodeAll(back)
  {
    if front == [] {
      assert front + back == back;
    } else {
      assert (front + back)[1..] == front[1..] + back;
      EncodeAllAppend(front[1..], back);
    }
  }

  // ---------- the code, step by step ----------

  /** The first `n` bytes of `p`, or all of them. */
  function Front(p: seq<byte>, n: nat): seq<byte> {
    if n < |p| then p[..n] else p
  }

  /** An `io.Writer` that takes `room` more bytes and fails on the next, whatever it has taken of a write by then. */
  class Writer {
    var written: seq<byte>
    var room: nat

    constructor (room: nat)
      ensures written == [] && this.room == room
    {
      written, this.room := [], room;
    }

    method Write(p: seq<byte>) returns (ok: bool)
      modifies this
      ensures ok == (|p| <= old(room))
      ensures written == old(written) + Front(p, old(room))
      ensures room == if ok then old(room) - |p| else 0
    {
      if |p| > room {
        written, room := written + p[..room], 0;
        return false;
      }
      written, room := written + p, room - |p|;
      return true;
    }
  }

  /** An `io.Reader` with `pending` still to yield before its end. */
  class Reader {
    var pending: seq<byte>

    constructor (input: seq<byte>)
      ensures pending == input
    {
      pending := input;
    }

    /** Returns between 1 and `size` bytes, or nothing at the end. */
    method Read(size: nat) returns (p: seq<byte>)
      requires size > 0
      modifies this
      ensures old(pending) == p + pending
      ensures |p| <= size
      ensures p == [] <==> old(pending) == []
    {
      if pending == [] {
        return [];
      }
      var n: nat :| 1 <= n <= size && n <= |pending|;
      p, pending := pending[..n], pending[n..];
    }
  }

  datatype FullRead = Full(data: seq<byte>) | Short(error: ReadError)

  /** `io.ReadFull`: exactly `size` bytes, or an error that tells whether any byte came first. */
  method ReadFull(r: Reader, size: nat) returns (res: FullRead)
    requires size > 0
    modifies r
    ensures |old(r.pending)| >= size ==> res == Full(old(r.pending)[..size]) && r.pending == old(r.pending)[size..]
    ensures |old(r.pending)| < size ==> r.pending == [] && res == Short(if old(r.pending) == [] then Eof else UnexpectedEof)
  {
    var data: seq<byte> := [];
    while |data| < size
      invariant |data| <= size
      invariant old(r.pending) == data + r.pending
    {
      var p := r.Read(size - |data|);
      if p == [] {
        return Short(if data == [] then Eof else UnexpectedEof);
      }
      data := data + p;
    }
    return Full(data);
  }

  method ReadDatagramFrame(r: Reader) returns (res: ReadResult)
    modifies r
    ensures res.Frame? <==> Parse(old(r.pending)).Frame?
    ensures res.Frame? ==> res == Parse(old(r.pending)) && r.pending == res.rest
    ensures res.Failed? ==> res == Parse(old(r.pending))
  {
    var length := ReadFull(r, LENGTH_SIZE);
    if length.Short? {
      return Failed(length.error);
    }
    var size := Uint32(length.data);
    if size == 0 {
      return Failed(EmptyFrame);
    }
    if size > MAX_FRAME_SIZE {
      return Failed(FrameTooLarge(size));
    }
    var payload := ReadFull(r, size);
    if payload.Short? {
      return Failed(payload.error);
    }
    return Frame(payload.data, r.pending);
  }

  datatype WriteOutcome = Written | Refused | Broken

  /** One write and then another, when the first goes through. */
  lemma FrontOfBoth(before: seq<byte>, first: seq<byte>, second: seq<byte>, room: nat)
    requires |first| <= room
    ensures before + Front(first, room) + Front(second, room - |first|) == before + Front(first + second, room)
  {
  }

  method WriteDatagramFrame(w: Writer, payload: seq<byte>) returns (res: WriteOutcome)
    modifies w
    ensures res == Refused <==> !ValidBody(payload)
    ensures res == Refused ==> w.written == old(w.written) && w.room == old(w.room)
    ensures res == Written <==> ValidBody(payload) && |Encode(payload)| <= old(w.room)
    ensures ValidBody(payload) ==> w.written == old(w.written) + Front(Encode(payload), old(w.room))
    ensures res == Written ==> w.room == old(w.room) - |Encode(payload)|
  {
    if |payload| == 0 || |payload| > MAX_FRAME_SIZE {
      return Refused;
    }
    var length := PutUint32(|payload|);
    var ok := w.Write(length);
    if !ok {
      return Broken;
    }
    ok := w.Write(payload);
    FrontOfBoth(old(w.written), length, payload, old(w.room));
    return if ok then Written else Broken;
  }

  lemma EncodeAllSnoc(front: seq<seq<byte>>, next: seq<byte>)
    requires ValidBody(next) && forall i :: 0 <= i < |front| ==> ValidBody(front[i])
    ensures EncodeAll(front + [next]) == EncodeAll(front) + Encode(next)
  {
    OneEncoded(next);
    EncodeAllAppend(front, [next]);
  }

  lemma OneEncoded(body: seq<byte>)
    requires ValidBody(body)
    ensures EncodeAll([body]) == Encode(body)
  {
    assert [body][1..] == [];
  }

  lemma EncodeAllPrefix(payloads: seq<seq<byte>>, n: nat)
    requires n <= |payloads| && forall i :: 0 <= i < |payloads| ==> ValidBody(payloads[i])
    ensures EncodeAll(payloads[..n]) <= EncodeAll(payloads)
  {
    assert payloads == payloads[..n] + payloads[n..];
    EncodeAllAppend(payloads[..n], payloads[n..]);
  }

  lemma OneMoreDatagram(payloads: seq<seq<byte>>, sent: nat, lead: seq<seq<byte>>)
    requires sent < |payloads| && lead == payloads[..sent] + [payloads[sent]]
    requires forall i :: 0 <= i < |payloads| ==> ValidBody(payloads[i])
    ensures lead == payloads[..sent + 1]
    ensures EncodeAll(lead) == EncodeAll(payloads[..sent]) + Encode(payloads[sent])
  {
    EncodeAllSnoc(payloads[..sent], payloads[sent]);
  }

  /** Where the room ends inside datagram `sent`, it ends there for all of them together. */
  lemma CutShort(payloads: seq<seq<byte>>, sent: nat, room: nat)
    requires sent < |payloads| && forall i :: 0 <= i < |payloads| ==> ValidBody(payloads[i])
    requires |EncodeAll(payloads[..sent])| <= room
    requires room - |EncodeAll(payloads[..sent])| < |Encode(payloads[sent])|
    ensures EncodeAll(payloads[..sent]) + Front(Encode(payloads[sent]), room - |EncodeAll(payloads[..sent])|) == Front(EncodeAll(payloads), room)
    ensures room < |EncodeAll(payloads)| && room < |EncodeAll(payloads[..sent + 1])|
  {
    OneMoreDatagram(payloads, sent, payloads[..sent] + [payloads[sent]]);
    EncodeAllPrefix(payloads, sent + 1);
    CutInside(EncodeAll(payloads[..sent]), Encode(payloads[sent]), EncodeAll(payloads), room);
  }

  lemma CutInside(done: seq<byte>, next: seq<byte>, all: seq<byte>, room: nat)
    requires done + next <= all && |done| <= room < |done| + |next|
    ensures done + Front(next, room - |done|) == Front(all, room)
  {
  }

  /** Writing datagrams until one is refused or the writer breaks leaves a prefix of their encoding. */
  method WriteDatagrams(w: Writer, payloads: seq<seq<byte>>) returns (sent: nat, res: WriteOutcome)
    requires w.written == []
    requires forall i :: 0 <= i < |payloads| ==> ValidBody(payloads[i])
    modifies w
    ensures w.written == Front(EncodeAll(payloads), old(w.room))
    ensures res == Written <==> |EncodeAll(payloads)| <= old(w.room)
    ensures sent <= |payloads| && EncodeAll(payloads[..sent]) <= w.written
    ensures res == Written ==> sent == |payloads|
    ensures res != Written ==> sent < |payloads| && |w.written| < |EncodeAll(payloads[..sent + 1])|
  {
    sent := 0;
    while sent < |payloads|
      invariant sent <= |payloads|
      invariant w.written == EncodeAll(payloads[..sent])
      invariant w.room == old(w.room) - |w.written|
    {
      OneMoreDatagram(payloads, sent, payloads[..sent] + [payloads[sent]]);
      EncodeAllPrefix(payloads, sent + 1);
      res := WriteDatagramFrame(w, payloads[sent]);
      if res != Written {
        CutShort(payloads, sent, old(w.room));
        return;
      }
      sent := sent + 1;
    }
    assert payloads[..sent] == payloads;
    res := Written;
  }

  /** Reading datagrams until the first error. */
  method ReadDatagrams(r: Reader) returns (payloads: seq<seq<byte>>, error: ReadError)
    modifies r
    ensures (payloads, error) == ParseAll(old(r.pending))
  {
    payloads := [];
    var res := ReadDatagramFrame(r);
    ghost var left := old(r.pending);
    assert [] + ParseAll(left).0 == ParseAll(left).0;
    while res.Frame?
      invariant res == Parse(left)
      invariant res.Frame? ==> r.pending == res.rest
      invariant ParseAll(old(r.pending)) == (payloads + ParseAll(left).0, ParseAll(left).1)
      decreases |left|
    {
      assert ParseAll(left).0 == [res.body] + ParseAll(res.rest).0;
      assert payloads + ([res.body] + ParseAll(res.rest).0) == payloads + [res.body] + ParseAll(res.rest).0;
      payloads := payloads + [res.body];
      left := res.rest;
      res := ReadDatagramFrame(r);
    }
    error := res.error;
    assert payloads + [] == payloads;
  }
}
