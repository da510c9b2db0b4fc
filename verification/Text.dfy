/** The few functions of Go's `strings` package that hosts and paths go through. */
module Text {

  /** The characters `strings.TrimSpace` trims: Unicode's White_Space. */
  predicate IsSpace(c: char) {
    var n := c as int;
    9 <= n <= 13 || n == 0x20 || n == 0x85 || n == 0xA0 || n == 0x1680 || 0x2000 <= n <= 0x200A
    || n == 0x2028 || n == 0x2029 || n == 0x202F || n == 0x205F || n == 0x3000
  }

  function TrimLeft(s: string, trim: char -> bool): string {
    if s != [] && trim(s[0]) then TrimLeft(s[1..], trim) else s
  }

  function TrimRight(s: string, trim: char -> bool): string {
    if s != [] && trim(s[|s| - 1]) then TrimRight(s[..|s| - 1], trim) else s
  }

  function TrimSpace(s: string): string {
    TrimRight(TrimLeft(s, IsSpace), IsSpace)
  }

  function TrimPrefix(s: string, prefix: string): string {
    if prefix <= s then s[|prefix|..] else s
  }

  function TrimSuffix(s: string, suffix: string): string {
    if |suffix| <= |s| && s[|s| - |suffix|..] == suffix then s[..|s| - |suffix|] else s
  }

  predicate Contains(s: string, part: string) {
    part <= s || (s != "" && Contains(s[1..], part))
  }

  predicate ContainsAny(s: string, chars: string) {
    exists i :: 0 <= i < |s| && s[i] in chars
  }

  function ToLower(s: string): (r: string)
    ensures |r| == |s|
  {
    seq(|s|, i requires 0 <= i < |s| => if 'A' <= s[i] <= 'Z' then (s[i] as int + 32) as char else s[i])
  }

  lemma {:induction false} TrimLeftFrom(s: string, trim: char -> bool) returns (k: nat)
    ensures k <= |s| && TrimLeft(s, trim) == s[k..]
    ensures k < |s| ==> !trim(s[k])
    ensures forall i :: 0 <= i < k ==> trim(s[i])
  {
    if s != [] && trim(s[0]) {
      var k' := TrimLeftFrom(s[1..], trim);
      k := k' + 1;
    } else {
      k := 0;
    }
  }

  lemma {:induction false} TrimRightTo(s: string, trim: char -> bool) returns (k: nat)
    ensures k <= |s| && TrimRight(s, trim) == s[..k]
    ensures k > 0 ==> !trim(s[k - 1])
    ensures forall i :: k <= i < |s| ==> trim(s[i])
  {
    if s != [] && trim(s[|s| - 1]) {
      k := TrimRightTo(s[..|s| - 1], trim);
      assert s[..|s| - 1][..k] == s[..k];
    } else {
      k := |s|;
      assert s[..k] == s;
    }
  }

  lemma TrimNothing(s: string, trim: char -> bool)
    requires s == [] || (!trim(s[0]) && !trim(s[|s| - 1]))
    ensures TrimLeft(s, trim) == s && TrimRight(s, trim) == s
  {
  }

  /** Trimming space leaves nothing to trim. */
  lemma TrimSpaceEnds(s: string)
    ensures var t := TrimSpace(s); t != [] ==> !IsSpace(t[0]) && !IsSpace(t[|t| - 1])
    ensures TrimSpace(TrimSpace(s)) == TrimSpace(s)
  {
    var left := TrimLeft(s, IsSpace);
    var k := TrimLeftFrom(s, IsSpace);
    var n := TrimRightTo(left, IsSpace);
    TrimNothing(TrimSpace(s), IsSpace);
  }

  // ---------- splitting ----------

  /** `strings.Split` by a character. */
  function Split(s: string, sep: char): (parts: seq<string>)
    ensures |parts| > 0
  {
    if s == "" then [""]
    else
      var rest := Split(s[1..], sep);
      if s[0] == sep then [""] + rest else [[s[0]] + rest[0]] + rest[1..]
  }

  function Join(parts: seq<string>, sep: char): string {
    if parts == [] then ""
    else if |parts| == 1 then parts[0]
    else parts[0] + [sep] + Join(parts[1..], sep)
  }

  /** Joining puts back what splitting took apart. */
  lemma {:induction false} JoinOfSplit(s: string, sep: char)
    ensures Join(Split(s, sep), sep) == s
  {
    if s != "" {
      JoinOfSplit(s[1..], sep);
      var rest := Split(s[1..], sep);
      assert s == [s[0]] + s[1..];
      if s[0] == sep {
        assert ([""] + rest)[1..] == rest;
      } else if |rest| > 1 {
        assert ([[s[0]] + rest[0]] + rest[1..])[1..] == rest[1..];
      }
    }
  }

  lemma SplitStep(s: string, sep: char)
    requires s != ""
    ensures var rest := Split(s[1..], sep);
      Split(s, sep) == if s[0] == sep then [""] + rest else [[s[0]] + rest[0]] + rest[1..]
  {
  }

  lemma {:induction false} SplitAtSeparator(a: string, b: string, sep: char)
    ensures Split(a + [sep] + b, sep) == Split(a, sep) + Split(b, sep)
  {
    var s := a + [sep] + b;
    SplitStep(s, sep);
    if a == "" {
      assert s[1..] == b;
    } else {
      SplitAtSeparator(a[1..], b, sep);
      SplitStep(a, sep);
      assert s[1..] == a[1..] + [sep] + b && s[0] == a[0];
      HeadOfBoth(Split(a[1..], sep), Split(b, sep), a[0]);
    }
  }

  lemma HeadOfBoth(front: seq<string>, back: seq<string>, c: char)
    requires front != []
    ensures [""] + (front + back) == ([""] + front) + back
    ensures [[c] + (front + back)[0]] + (front + back)[1..] == ([[c] + front[0]] + front[1..]) + back
  {
    assert (front + back)[1..] == front[1..] + back;
  }

  lemma {:induction false} SplitOnePart(s: string, sep: char)
    requires forall i :: 0 <= i < |s| ==> s[i] != sep
    ensures Split(s, sep) == [s]
  {
    if s != "" {
      SplitOnePart(s[1..], sep);
      assert [s[0]] + s[1..] == s;
    }
  }

  /** Splitting finds the parts that were joined, when they do not hold the separator. */
  lemma {:induction false} SplitOfJoin(parts: seq<string>, sep: char)
    requires parts != [] && forall i, j :: 0 <= i < |parts| && 0 <= j < |parts[i]| ==> parts[i][j] != sep
    ensures Split(Join(parts, sep), sep) == parts
  {
    SplitOnePart(parts[0], sep);
    if |parts| > 1 {
      SplitOfJoin(parts[1..], sep);
      SplitAtSeparator(parts[0], Join(parts[1..], sep), sep);
      assert [parts[0]] + parts[1..] == parts;
    }
  }

  lemma {:induction false} JoinBoth(front: seq<string>, back: seq<string>, sep: char)
    requires front != [] && back != []
    ensures Join(front + back, sep) == Join(front, sep) + [sep] + Join(back, sep)
  {
    if |front| == 1 {
      assert (front + back)[1..] == back;
    } else {
      assert (front + back)[1..] == front[1..] + back;
      JoinBoth(front[1..], back, sep);
      assert front[0] + [sep] + (Join(front[1..], sep) + [sep] + Join(back, sep)) == front[0] + [sep] + Join(front[1..], sep) + [sep] + Join(back, sep);
    }
  }

  /** The parts of one text begin those of another exactly when they are the same text, or the first stands
      before a separator in the second. */
  lemma PartsBeginIff(a: string, b: string, sep: char)
    ensures Split(a, sep) <= Split(b, sep) <==> a == b || a + [sep] <= b
  {
    if a + [sep] <= b {
      BeforeSeparator(a, b, sep);
    }
    if Split(a, sep) <= Split(b, sep) {
      FirstParts(a, b, sep);
    }
  }

  lemma BeforeSeparator(a: string, b: string, sep: char)
    requires a + [sep] <= b
    ensures Split(a, sep) <= Split(b, sep)
  {
    var rest := b[|a| + 1..];
    assert a + [sep] + rest == b;
    SplitAtSeparator(a, rest, sep);
  }

  lemma FirstParts(a: string, b: string, sep: char)
    requires Split(a, sep) <= Split(b, sep)
    ensures a == b || a + [sep] <= b
  {
    var parts, rest := Split(a, sep), Split(b, sep)[|Split(a, sep)|..];
    assert Split(b, sep) == parts + rest;
    JoinOfSplit(a, sep);
    JoinOfSplit(b, sep);
    if rest == [] {
      assert parts + rest == parts;
    } else {
      JoinBoth(parts, rest, sep);
    }
  }

  lemma {:induction false} ContainsChar(s: string, c: char)
    ensures Contains(s, [c]) <==> c in s
  {
    if s != "" {
      ContainsChar(s[1..], c);
      assert s == [s[0]] + s[1..];
      assert [c] <= s <==> s[0] == c;
    }
  }

  lemma {:induction false} ContainsHasChars(s: string, part: string, i: nat)
    requires Contains(s, part) && i < |part|
    ensures part[i] in s
  {
    if !(part <= s) {
      ContainsHasChars(s[1..], part, i);
    }
  }
}
