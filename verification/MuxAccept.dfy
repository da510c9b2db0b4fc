/** Streams are accepted in the order in which the peer opened them. */
module MuxAccept {
  import opened Bytes
  import opened MuxProtocol
  import opened MuxInvariant
  import opened MuxLocal
  import opened MuxTheorems
  import opened MuxEnds

  /** The streams opened by `frames`, in order. */
  function OpenIds(frames: seq<Frame>): seq<nat> {
    if frames == [] then []
    else
      var f := frames[|frames| - 1];
      OpenIds(frames[..|frames| - 1]) + if f.OpenFrame? then [f.id] else []
  }

  /** `some` is `all` without some of its members. */
  predicate Subsequence(some: seq<nat>, all: seq<nat>) {
    some == [] ||
    (all != [] &&
      var front, last := all[..|all| - 1], all[|all| - 1];
      (some[|some| - 1] == last && Subsequence(some[..|some| - 1], front)) || Subsequence(some, front))
  }

  lemma OneMoreInAll(some: seq<nat>, all: seq<nat>, more: seq<nat>)
    requires Subsequence(some, all) && |more| <= 1
    ensures Subsequence(some, all + more)
  {
    if more == [] {
      assert all + more == all;
    } else {
      assert (all + more)[..|all|] == all;
    }
  }

  lemma OneMoreInBoth(some: seq<nat>, all: seq<nat>, id: nat)
    requires Subsequence(some, all)
    ensures Subsequence(some + [id], all + [id])
  {
    assert (some + [id])[..|some|] == some && (all + [id])[..|all|] == all;
  }

  function Passed(e: Endpoint): seq<nat> {
    e.accepted + e.mux.accept
  }

  /** What has been accepted or queued comes in the order of the open frames taken; a stream on its way into
      the queue was opened by the last of them. */
  ghost predicate InOrder(e: Endpoint, wire: seq<Frame>) {
    && e.rcv <= |wire|
    && Subsequence(Passed(e), OpenIds(wire[..e.rcv]))
    && (e.reader.Inserted? ==>
         e.rcv > 0 && wire[e.rcv - 1] == OpenFrame(e.reader.id) && Subsequence(Passed(e), OpenIds(wire[..e.rcv - 1])))
  }

  lemma OneMoreFrame(wire: seq<Frame>, n: nat)
    requires n < |wire|
    ensures OpenIds(wire[..n + 1]) == OpenIds(wire[..n]) + if wire[n].OpenFrame? then [wire[n].id] else []
  {
    assert wire[..n + 1][..n] == wire[..n];
  }

  lemma ReceiveInOrder(e: Endpoint, wire: seq<Frame>)
    requires InOrder(e, wire) && Enabled(e, wire, Receive)
    ensures InOrder(Apply(e, wire, Receive), wire)
  {
    ReceiveShape(e, wire[e.rcv]);
    OneMoreFrame(wire, e.rcv);
    OneMoreInAll(Passed(e), OpenIds(wire[..e.rcv]), if wire[e.rcv].OpenFrame? then [wire[e.rcv].id] else []);
  }

  lemma ReaderInOrder(e: Endpoint, wire: seq<Frame>, ok: bool)
    requires InOrder(e, wire) && ReaderCanMove(e, ok)
    ensures InOrder(MoveReader(e, ok), wire)
  {
    var e' := MoveReader(e, ok);
    ReaderPasses(e, ok);
    if e.reader.Inserted? && ok {
      OneMoreFrame(wire, e.rcv - 1);
      OneMoreInBoth(Passed(e), OpenIds(wire[..e.rcv - 1]), e.reader.id);
    }
  }

  lemma ReaderPasses(e: Endpoint, ok: bool)
    requires ReaderCanMove(e, ok)
    ensures var e' := MoveReader(e, ok);
      && e'.rcv == e.rcv && !e'.reader.Inserted?
      && Passed(e') == Passed(e) + if e.reader.Inserted? && ok then [e.reader.id] else []
  {
  }

  lemma CallPasses(e: Endpoint, t: nat, ok: bool)
    requires t in e.calls && CallCanAdvance(e, e.calls[t], ok)
    ensures var e' := AdvanceCall(e, t, ok); e'.rcv == e.rcv && e'.reader == e.reader && Passed(e') == Passed(e)
  {
  }

  lemma StepInOrder(e: Endpoint, wire: seq<Frame>, a: Action)
    requires InOrder(e, wire) && Enabled(e, wire, a)
    ensures InOrder(Apply(e, wire, a), wire)
  {
    match a
    case Receive => ReceiveInOrder(e, wire);
    case ReaderMoves(ok) => ReaderInOrder(e, wire, ok);
    case Advance(t, ok) => CallPasses(e, t, ok);
    case AcceptOne => assert Passed(Apply(e, wire, a)) == Passed(e);
    case _ =>
  }

  lemma PeerStepInOrder(e: Endpoint, tx: Endpoint, a: Action)
    requires InOrder(e, tx.out) && Enabled(tx, e.out, a)
    ensures InOrder(e, Apply(tx, e.out, a).out)
  {
    var out' := Apply(tx, e.out, a).out;
    assert tx.out <= out';
    assert out'[..e.rcv] == tx.out[..e.rcv];
    assert e.rcv > 0 ==> out'[..e.rcv - 1] == tx.out[..e.rcv - 1];
  }

  lemma {:induction false} RunInOrder(s: Net, steps: seq<Step>)
    requires CanRun(s, steps) && InOrder(s.server, s.client.out) && InOrder(s.client, s.server.out)
    ensures var s' := Run(s, steps); InOrder(s'.server, s'.client.out) && InOrder(s'.client, s'.server.out)
    decreases |steps|
  {
    if steps != [] {
      match steps[0] {
        case ServerStep(a) =>
          StepInOrder(s.server, s.client.out, a);
          PeerStepInOrder(s.client, s.server, a);
        case ClientStep(a) =>
          StepInOrder(s.client, s.server.out, a);
          PeerStepInOrder(s.server, s.client, a);
      }
      RunInOrder(Take(s, steps[0]), steps[1..]);
    }
  }

  /** In every run the streams accepted so far, and then those queued, come in the order in which the peer's
      open frames for them were taken off the wire. */
  lemma AcceptsInOpenOrder(steps: seq<Step>, s: Net, e: Endpoint, wire: seq<Frame>)
    requires Reaches(steps, s) && IsEnd(s, e, wire)
    ensures e.rcv <= |wire| && Subsequence(e.accepted + e.mux.accept, OpenIds(wire[..e.rcv]))
  {
    RunInOrder(INITIAL, steps);
  }
}
