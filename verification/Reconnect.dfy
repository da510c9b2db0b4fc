/**
 How long the client waits before it connects again: the delay doubles from one failure to the next,
 in 64-bit arithmetic, up to a maximum, and starts over after a session that was established.
 */
module Reconnect {
  import opened Powers

  const INT64_LIMIT: int := 0x8000_0000_0000_0000

  type Int64 = x: int | -INT64_LIMIT <= x < INT64_LIMIT

  /** Two's complement wrap-around. */
  function Wrap(x: int): Int64 {
    (x + INT64_LIMIT) % (2 * INT64_LIMIT) - INT64_LIMIT
  }

  function NextReconnectDelay(current: Int64, maxDelay: Int64): Int64 {
    if current >= maxDelay then maxDelay
    else
      var next := Wrap(current * 2);
      if next < current || next > maxDelay then maxDelay else next
  }

  function Min(x: int, y: int): int {
    if x <= y then x else y
  }

  /** The `k`-th wait in a row, in unbounded arithmetic. */
  function Wait(initial: int, maxDelay: int, k: nat): int {
    Min(initial * Pow2(k), maxDelay)
  }

  lemma WaitIsInt64(initial: Int64, maxDelay: Int64, k: nat)
    requires 0 < initial <= maxDelay
    ensures initial <= Wait(initial, maxDelay, k) <= maxDelay
  {
    AtLeastOnce(initial, Pow2(k));
  }

  lemma AtLeastOnce(x: int, p: nat)
    requires x > 0 && p > 0
    ensures x * p >= x
  {
    assert x * p == x * (p - 1) + x;
  }

  lemma Doubles(x: int, k: nat)
    ensures x * Pow2(k + 1) == 2 * (x * Pow2(k))
  {
    assert x * (2 * Pow2(k)) == 2 * (x * Pow2(k));
  }

  /** Overflow or not, the next delay is the next wait. */
  lemma NextIsNextWait(initial: Int64, maxDelay: Int64, k: nat)
    requires 0 < initial <= maxDelay
    ensures initial <= Wait(initial, maxDelay, k) <= maxDelay
    ensures NextReconnectDelay(Wait(initial, maxDelay, k), maxDelay) == Wait(initial, maxDelay, k + 1)
  {
    WaitIsInt64(initial, maxDelay, k);
    Doubles(initial, k);
  }

  /** Waits never get shorter, and from some wait on they are the maximum. */
  lemma WaitsGrowToMax(initial: Int64, maxDelay: Int64, j: nat, k: nat)
    requires 0 < initial <= maxDelay && j <= k
    ensures Wait(initial, maxDelay, j) <= Wait(initial, maxDelay, k)
    ensures k >= maxDelay ==> Wait(initial, maxDelay, k) == maxDelay
  {
    Pow2IsMonotone(j, k);
    Pow2Outgrows(k);
    Scale(initial, Pow2(j), Pow2(k));
    Scale(Pow2(k), 1, initial);
  }

  lemma Scale(x: nat, p: nat, q: nat)
    requires p <= q
    ensures x * p <= x * q
  {
    assert x * q == x * p + x * (q - p);
  }

  // ---------- the loop ----------

  datatype Ending = Finished | Permanent | Failed

  /** One session: whether it was established, how it ended, and whether the client was stopped during
      the wait after it. */
  datatype Session = Session(connected: bool, ending: Ending, stoppedInWait: bool) {
    predicate Last() { !ending.Failed? || stoppedInWait }
  }

  /** How many failures there were in a row before session `i`, since the last one established. */
  function Streak(sessions: seq<Session>, i: nat): nat
    requires i < |sessions|
  {
    if sessions[i].connected || i == 0 then 0 else Streak(sessions, i - 1) + 1
  }

  /** `waits` are the right ones for the first sessions. */
  ghost predicate RightWaits(initial: int, maxDelay: int, sessions: seq<Session>, waits: seq<Int64>)
    requires |waits| <= |sessions|
  {
    forall i :: 0 <= i < |waits| ==> waits[i] == Wait(initial, maxDelay, Streak(sessions, i))
  }

  lemma OneMoreWait(initial: int, maxDelay: int, sessions: seq<Session>, waits: seq<Int64>, wait: Int64)
    requires |waits| < |sessions| && RightWaits(initial, maxDelay, sessions, waits)
    requires wait == Wait(initial, maxDelay, Streak(sessions, |waits|))
    ensures RightWaits(initial, maxDelay, sessions, waits + [wait])
  {
  }

  /** Runs through the sessions until one is the last; `waits` are the delays waited for. */
  method RunClient(initial: Int64, maxDelay: Int64, sessions: seq<Session>) returns (waits: seq<Int64>, failed: bool)
    requires 0 < initial <= maxDelay
    ensures |waits| <= |sessions| && RightWaits(initial, maxDelay, sessions, waits)
    ensures forall i :: 0 <= i < |waits| ==> sessions[i].ending.Failed?
    ensures forall i :: 0 <= i < |waits| - 1 ==> !sessions[i].Last()
    ensures |waits| < |sessions| ==> (|waits| > 0 && sessions[|waits| - 1].Last()) || !sessions[|waits|].ending.Failed?
    ensures failed <==> |waits| < |sessions| && sessions[|waits|].ending.Permanent? && (|waits| == 0 || !sessions[|waits| - 1].Last())
  {
    waits := [];
    var delay := initial;
    ghost var k := 0;
    assert Wait(initial, maxDelay, 0) == initial;
    for i := 0 to |sessions|
      invariant |waits| == i
      invariant delay == Wait(initial, maxDelay, k)
      invariant i > 0 ==> k == Streak(sessions, i - 1) + 1
      invariant i == 0 ==> k == 0
      invariant RightWaits(initial, maxDelay, sessions, waits)
      invariant forall j :: 0 <= j < i ==> !sessions[j].Last()
    {
      var session := sessions[i];
      if session.ending.Finished? {
        return waits, false;
      }
      if session.connected {
        delay, k := initial, 0;
      }
      if session.ending.Permanent? {
        return waits, true;
      }
      assert k == Streak(sessions, i);
      OneMoreWait(initial, maxDelay, sessions, waits, delay);
      waits := waits + [delay];
      if session.stoppedInWait {
        return waits, false;
      }
      NextIsNextWait(initial, maxDelay, k);
      delay, k := NextReconnectDelay(delay, maxDelay), k + 1;
    }
    return waits, false;
  }
}
