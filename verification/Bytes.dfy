/** Byte strings, and the prefix and concatenation facts the wire modules share. */
module Bytes {

  type byte = b: int | 0 <= b < 256

  /** All the parts of `parts`, one after the other. */
  function Concat<T>(parts: seq<seq<T>>): seq<T> {
    if parts == [] then [] else parts[0] + Concat(parts[1..])
  }

  lemma {:induction false} ConcatAppend<T>(front: seq<seq<T>>, back: seq<seq<T>>)
    ensures Concat(front + back) == Concat(front) + Concat(back)
  {
    if front == [] {
      assert front + back == back;
    } else {
      assert (front + back)[1..] == front[1..] + back;
      ConcatAppend(front[1..], back);
    }
  }

  lemma ConcatSnoc<T>(parts: seq<seq<T>>, last: seq<T>)
    ensures Concat(parts + [last]) == Concat(parts) + last
  {
    ConcatAppend(parts, [last]);
    assert Concat([last]) == last + Concat([]);
  }

  lemma {:induction false} ConcatMonotone<T>(front: seq<seq<T>>, whole: seq<seq<T>>)
    requires front <= whole
    ensures Concat(front) <= Concat(whole)
  {
    assert whole == front + whole[|front|..];
    ConcatAppend(front, whole[|front|..]);
  }
}
