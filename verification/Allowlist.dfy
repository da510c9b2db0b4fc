/** The allowlist of local targets: normalising its entries keeps their meaning, and does nothing twice. */
module Allowlist {
  import opened Options
  import opened Text
  import opened Addresses
  import opened SortKeys

  type Port = n: nat | n <= 65535

  /** An entry as it is written; both ports zero means all ports. */
  datatype Entry = Entry(cidr: string, portStart: int, portEnd: int)

  datatype Normal = Normal(cidr: string, portStart: Port, portEnd: Port, prefix: Prefix) {
    function Value(): Entry { Entry(cidr, portStart, portEnd) }

    /** What the code deduplicates by. */
    function Key(): string { cidr + ":" + Itoa(portStart) + ":" + Itoa(portEnd) }

    /** What the code sorts by. */
    function SortKey(): string { cidr + ":" + Pad(portStart, 5) + ":" + Pad(portEnd, 5) }
  }

  /** Go's `netip` texts: reading an address or a prefix, and writing a prefix. */
  datatype NetIp = NetIp(parseAddr: string -> Option<Addr>, parsePrefix: string -> Option<Prefix>, format: Prefix -> string)

  /** What is read is valid, and a written prefix reads back as that prefix and not as an address. */
  ghost predicate Lawful(net: NetIp) {
    && (forall s :: net.parseAddr(s).Some? ==> net.parseAddr(s).value.Valid())
    && (forall s :: net.parsePrefix(s).Some? ==> net.parsePrefix(s).value.Valid())
    && (forall p: Prefix :: p.Valid() ==> ReadsBack(net, p, net.format(p)))
  }

  predicate ReadsBack(net: NetIp, p: Prefix, text: string) {
    TrimSpace(text) == text && net.parseAddr(text).None? && net.parsePrefix(text) == Some(p)
  }

  function ParsePrefix(net: NetIp, cidr: string): Option<Prefix> {
    var text := TrimSpace(cidr);
    var address := net.parseAddr(text);
    if address.Some? then Some(OfAddress(address.value))
    else
      var prefix := net.parsePrefix(text);
      if prefix.None? then None else OfPrefix(prefix.value)
  }

  predicate PortsOk(e: Entry) {
    (e.portStart == 0 && e.portEnd == 0) || 0 < e.portStart <= e.portEnd <= 65535
  }

  function NormalOf(net: NetIp, e: Entry): Option<Normal> {
    var prefix := ParsePrefix(net, e.cidr);
    if prefix.None? || !PortsOk(e) then None
    else Some(Normal(net.format(prefix.value), e.portStart, e.portEnd, prefix.value))
  }

  // ---------- meaning ----------

  predicate PortCovers(e: Entry, port: int) {
    (e.portStart == 0 && e.portEnd == 0) || e.portStart <= port <= e.portEnd
  }

  /** Which addresses a written CIDR stands for. */
  predicate CidrCovers(net: NetIp, cidr: string, a: Addr) {
    var text := TrimSpace(cidr);
    if net.parseAddr(text).Some? then AddressCovers(net.parseAddr(text).value, a)
    else net.parsePrefix(text).Some? && WideBits(net.parsePrefix(text).value) <= 128 && PrefixCovers(net.parsePrefix(text).value, a)
  }

  predicate EntryCovers(net: NetIp, e: Entry, a: Addr, port: int) {
    CidrCovers(net, e.cidr, a) && PortCovers(e, port)
  }

  /** The code's test of one normalised entry. */
  predicate NormalCovers(n: Normal, a: Addr, port: int) {
    n.prefix.bits <= n.prefix.addr.BitLen() && n.prefix.Contains(a.Unmap()) && (n.portStart == 0 || n.portStart <= port <= n.portEnd)
  }

  lemma ParsedIsKept(net: NetIp, cidr: string)
    requires Lawful(net) && ParsePrefix(net, cidr).Some?
    ensures ParsePrefix(net, cidr).value.Valid()
    ensures OfPrefix(ParsePrefix(net, cidr).value) == ParsePrefix(net, cidr)
  {
    var text := TrimSpace(cidr);
    if net.parseAddr(text).Some? {
      var a := net.parseAddr(text).value;
      AddressMeaning(a, a);
      KeptAddressIsKept(a);
    } else {
      PrefixKept(net.parsePrefix(text).value);
      KeptIsKept(net.parsePrefix(text).value);
    }
  }

  /** Normalising an entry keeps what it covers. */
  lemma NormalMeaning(net: NetIp, e: Entry, a: Addr, port: int)
    requires Lawful(net) && a.Valid() && NormalOf(net, e).Some?
    ensures NormalCovers(NormalOf(net, e).value, a, port) <==> EntryCovers(net, e, a, port)
  {
    ParsedIsKept(net, e.cidr);
    var text := TrimSpace(e.cidr);
    if net.parseAddr(text).Some? {
      AddressMeaning(net.parseAddr(text).value, a);
    } else {
      PrefixMeaning(net.parsePrefix(text).value, a);
    }
  }

  /** A normalised entry normalises to itself. */
  ghost predicate IsNormal(net: NetIp, n: Normal) {
    n.prefix.Valid() && n.cidr == net.format(n.prefix) && NormalOf(net, n.Value()) == Some(n)
  }

  lemma NormalOfIsNormal(net: NetIp, e: Entry)
    requires Lawful(net) && NormalOf(net, e).Some?
    ensures IsNormal(net, NormalOf(net, e).value)
  {
    var n := NormalOf(net, e).value;
    ParsedIsKept(net, e.cidr);
    assert ReadsBack(net, n.prefix, net.format(n.prefix));
  }

  /** The ports of an entry are accepted exactly when they say "all", or cover some port and only ports. */
  lemma PortsOkIff(e: Entry)
    ensures PortsOk(e) <==>
      || (e.portStart == 0 && e.portEnd == 0)
      || ((exists port :: PortCovers(e, port)) && forall port :: PortCovers(e, port) ==> 1 <= port <= 65535)
  {
    if e.portStart <= e.portEnd {
      assert PortCovers(e, e.portStart) && PortCovers(e, e.portEnd);
    }
  }

  /** An entry is refused exactly when its CIDR is neither an address nor a prefix, is an IPv4-mapped prefix
      shorter than the mapping, or its ports are not accepted. */
  lemma RefusedIff(net: NetIp, e: Entry)
    requires Lawful(net)
    ensures var text := TrimSpace(e.cidr);
      NormalOf(net, e).None? <==>
        || (net.parseAddr(text).None? && net.parsePrefix(text).None?)
        || (net.parseAddr(text).None? && net.parsePrefix(text).value.addr.Is4In6() && net.parsePrefix(text).value.bits < 96)
        || !PortsOk(e)
  {
    var text := TrimSpace(e.cidr);
    if net.parseAddr(text).None? && net.parsePrefix(text).Some? {
      PrefixKept(net.parsePrefix(text).value);
    }
  }

  // ---------- keys ----------

  lemma SameCidr(net: NetIp, m: Normal, n: Normal)
    requires Lawful(net) && IsNormal(net, m) && IsNormal(net, n) && m.cidr == n.cidr
    ensures m.prefix == n.prefix
  {
    assert ReadsBack(net, m.prefix, net.format(m.prefix)) && ReadsBack(net, n.prefix, net.format(n.prefix));
  }

  /** Entries are told apart by their keys. */
  lemma KeyIsExact(net: NetIp, m: Normal, n: Normal)
    requires Lawful(net) && IsNormal(net, m) && IsNormal(net, n) && m.Key() == n.Key()
    ensures m == n
  {
    LastColon(m.cidr + ":" + Itoa(m.portStart), Itoa(m.portEnd), n.cidr + ":" + Itoa(n.portStart), Itoa(n.portEnd));
    LastColon(m.cidr, Itoa(m.portStart), n.cidr, Itoa(n.portStart));
    ItoaIsInjective(m.portStart, n.portStart);
    ItoaIsInjective(m.portEnd, n.portEnd);
    SameCidr(net, m, n);
  }

  lemma SortKeyIsExact(net: NetIp, m: Normal, n: Normal)
    requires Lawful(net) && IsNormal(net, m) && IsNormal(net, n) && m.SortKey() == n.SortKey()
    ensures m == n
  {
    var s := m.SortKey();
    var k := |s| - 12;
    assert s[..k] == m.cidr && s[..k] == n.cidr;
    assert s[k + 1..k + 6] == Pad(m.portStart, 5) && s[k + 1..k + 6] == Pad(n.portStart, 5);
    assert s[k + 7..] == Pad(m.portEnd, 5) && s[k + 7..] == Pad(n.portEnd, 5);
    assert Pow10(5) == 100000;
    PadIsInjective(m.portStart, n.portStart, 5);
    PadIsInjective(m.portEnd, n.portEnd, 5);
    SameCidr(net, m, n);
  }

  // ---------- sorting ----------

  predicate Before(m: Normal, n: Normal) { Less(m.SortKey(), n.SortKey()) }

  predicate Sorted(s: seq<Normal>) {
    |s| <= 1 || (Before(s[0], s[1]) && Sorted(s[1..]))
  }

  function InsertSorted(n: Normal, s: seq<Normal>): seq<Normal> {
    if s == [] || Before(n, s[0]) then [n] + s else [s[0]] + InsertSorted(n, s[1..])
  }

  /** `slices.SortFunc`; with distinct keys every sort has this result. */
  function SortEntries(s: seq<Normal>): seq<Normal> {
    if s == [] then [] else InsertSorted(s[0], SortEntries(s[1..]))
  }

  lemma {:induction false} HeadIsLeast(s: seq<Normal>, n: Normal)
    requires Sorted(s) && s != [] && n in s[1..]
    ensures Before(s[0], n)
  {
    if n != s[1] {
      HeadIsLeast(s[1..], n);
      LessIsTransitive(s[0].SortKey(), s[1].SortKey(), n.SortKey());
    }
  }

  lemma {:induction false} InsertKeepsMembers(n: Normal, s: seq<Normal>, x: Normal)
    ensures x in InsertSorted(n, s) <==> x == n || x in s
  {
    if s != [] && !Before(n, s[0]) {
      InsertKeepsMembers(n, s[1..], x);
    }
  }

  lemma {:induction false} InsertKeepsSorted(n: Normal, s: seq<Normal>)
    requires Sorted(s) && forall x :: x in s ==> x.SortKey() != n.SortKey()
    ensures Sorted(InsertSorted(n, s))
  {
    if s != [] && !Before(n, s[0]) {
      LessIsStrict(n.SortKey(), s[0].SortKey());
      InsertKeepsSorted(n, s[1..]);
    }
  }

  ghost predicate NoRepeats(s: seq<Normal>) {
    forall i, j :: 0 <= i < j < |s| ==> s[i] != s[j]
  }

  ghost predicate AllNormal(net: NetIp, s: seq<Normal>) {
    forall n :: n in s ==> IsNormal(net, n)
  }

  lemma {:induction false} SortIsSorted(net: NetIp, s: seq<Normal>)
    requires Lawful(net) && AllNormal(net, s) && NoRepeats(s)
    ensures Sorted(SortEntries(s))
    ensures forall x :: x in SortEntries(s) <==> x in s
  {
    if s != [] {
      SortIsSorted(net, s[1..]);
      forall x | x in s[1..] ensures x.SortKey() != s[0].SortKey() {
        if x.SortKey() == s[0].SortKey() {
          SortKeyIsExact(net, x, s[0]);
        }
      }
      InsertKeepsSorted(s[0], SortEntries(s[1..]));
      forall x ensures x in SortEntries(s) <==> x in s {
        InsertKeepsMembers(s[0], SortEntries(s[1..]), x);
      }
    }
  }

  /** A sorted sequence is fixed by its members. */
  lemma {:induction false} SortedIsUnique(s: seq<Normal>, t: seq<Normal>)
    requires Sorted(s) && Sorted(t) && forall x :: x in s <==> x in t
    ensures s == t
  {
    assert t == [] || t[0] in t;
    if s != [] {
      assert s[0] in t;
      SameHead(s, t);
      forall x ensures x in s[1..] <==> x in t[1..] {
        TailMembers(s, x);
        TailMembers(t, x);
      }
      SortedIsUnique(s[1..], t[1..]);
    }
  }

  lemma SameHead(s: seq<Normal>, t: seq<Normal>)
    requires Sorted(s) && Sorted(t) && s != [] && t != [] && s[0] in t && t[0] in s
    ensures s[0] == t[0]
  {
    if s[0] != t[0] {
      HeadIsLeast(s, t[0]);
      HeadIsLeast(t, s[0]);
      LessIsStrict(s[0].SortKey(), t[0].SortKey());
    }
  }

  lemma TailMembers(s: seq<Normal>, x: Normal)
    requires Sorted(s) && s != []
    ensures x in s[1..] <==> x in s && x != s[0]
  {
    if x in s[1..] {
      HeadIsLeast(s, x);
      LessIsStrict(x.SortKey(), x.SortKey());
    }
  }

  // ---------- normalising a list ----------

  ghost predicate Gives(net: NetIp, entries: seq<Entry>, n: Normal) {
    exists e :: e in entries && NormalOf(net, e) == Some(n)
  }

  ghost predicate AllValid(net: NetIp, entries: seq<Entry>) {
    forall e :: e in entries ==> NormalOf(net, e).Some?
  }

  /** What normalising must give: nothing for an empty list or a bad entry, otherwise the normal forms of
      all entries, each once, in order. */
  ghost predicate Normalised(net: NetIp, entries: seq<Entry>, res: Option<seq<Normal>>) {
    match res
    case None => entries == [] || !AllValid(net, entries)
    case Some(s) => entries != [] && AllValid(net, entries) && Sorted(s) && forall n :: n in s <==> Gives(net, entries, n)
  }

  lemma GivesOneMore(net: NetIp, entries: seq<Entry>, e: Entry, n: Normal)
    ensures Gives(net, entries + [e], n) <==> Gives(net, entries, n) || NormalOf(net, e) == Some(n)
  {
    if Gives(net, entries, n) {
      var x :| x in entries && NormalOf(net, x) == Some(n);
      assert x in entries + [e];
    }
    assert e in entries + [e];
  }

  /** The loop's state: the normal forms so far, each once, and their keys. */
  ghost predicate Collected(net: NetIp, entries: seq<Entry>, seen: set<string>, result: seq<Normal>) {
    && AllNormal(net, result) && NoRepeats(result)
    && (forall n :: n in result <==> Gives(net, entries, n))
    && seen == set n | n in result :: n.Key()
  }

  lemma CollectOneMore(net: NetIp, entries: seq<Entry>, seen: set<string>, result: seq<Normal>, e: Entry)
    requires Lawful(net) && Collected(net, entries, seen, result) && NormalOf(net, e).Some?
    ensures var n := NormalOf(net, e).value;
      if n.Key() in seen then Collected(net, entries + [e], seen, result)
      else Collected(net, entries + [e], seen + {n.Key()}, result + [n])
  {
    var n := NormalOf(net, e).value;
    NormalOfIsNormal(net, e);
    forall x ensures Gives(net, entries + [e], x) <==> Gives(net, entries, x) || x == n {
      GivesOneMore(net, entries, e, x);
    }
    if n.Key() in seen {
      var m :| m in result && m.Key() == n.Key();
      KeyIsExact(net, m, n);
    } else {
      assert n !in result;
    }
  }

  method NormalizeEntry(net: NetIp, entry: Entry) returns (res: Option<Normal>)
    ensures res == NormalOf(net, entry)
  {
    var prefix := ParsePrefix(net, entry.cidr);
    if prefix.None? || !PortsOk(entry) {
      return None;
    }
    return Some(Normal(net.format(prefix.value), entry.portStart, entry.portEnd, prefix.value));
  }

  method NormalizeEntries(net: NetIp, entries: seq<Entry>) returns (res: Option<seq<Normal>>)
    requires Lawful(net)
    ensures Normalised(net, entries, res)
    ensures res.Some? ==> res.value != [] && AllNormal(net, res.value)
  {
    if |entries| == 0 {
      return None;
    }
    var seen: set<string> := {};
    var result: seq<Normal> := [];
    for i := 0 to |entries|
      invariant AllValid(net, entries[..i])
      invariant Collected(net, entries[..i], seen, result)
    {
      var n := NormalizeEntry(net, entries[i]);
      if n.None? {
        return None;
      }
      CollectOneMore(net, entries[..i], seen, result, entries[i]);
      assert entries[..i + 1] == entries[..i] + [entries[i]];
      if n.value.Key() in seen {
        continue;
      }
      seen := seen + {n.value.Key()};
      result := result + [n.value];
    }
    assert entries[..|entries|] == entries;
    SortedResult(net, entries, seen, result);
    return Some(SortEntries(result));
  }

  lemma SortedResult(net: NetIp, entries: seq<Entry>, seen: set<string>, result: seq<Normal>)
    requires Lawful(net) && entries != [] && AllValid(net, entries) && Collected(net, entries, seen, result)
    ensures Normalised(net, entries, Some(SortEntries(result)))
    ensures SortEntries(result) != [] && AllNormal(net, SortEntries(result))
  {
    SortIsSorted(net, result);
    assert Gives(net, entries, NormalOf(net, entries[0]).value);
  }

  // ---------- the laws ----------

  function Values(s: seq<Normal>): (r: seq<Entry>)
    ensures |r| == |s|
  {
    seq(|s|, i requires 0 <= i < |s| => s[i].Value())
  }

  predicate Allows(s: seq<Normal>, a: Addr, port: int) {
    exists i :: 0 <= i < |s| && NormalCovers(s[i], a, port)
  }

  ghost predicate SomeEntryCovers(net: NetIp, entries: seq<Entry>, a: Addr, port: int) {
    exists e :: e in entries && EntryCovers(net, e, a, port)
  }

  /** Normalising keeps the meaning of the list: an address and port are allowed exactly when some entry,
      as it was written, covers them. */
  lemma NormalisingKeepsMeaning(net: NetIp, entries: seq<Entry>, s: seq<Normal>, a: Addr, port: int)
    requires Lawful(net) && a.Valid() && Normalised(net, entries, Some(s))
    ensures Allows(s, a, port) <==> SomeEntryCovers(net, entries, a, port)
  {
    if Allows(s, a, port) {
      var i :| 0 <= i < |s| && NormalCovers(s[i], a, port);
      assert Gives(net, entries, s[i]);
      var e :| e in entries && NormalOf(net, e) == Some(s[i]);
      NormalMeaning(net, e, a, port);
    }
    if SomeEntryCovers(net, entries, a, port) {
      var e :| e in entries && EntryCovers(net, e, a, port);
      NormalMeaning(net, e, a, port);
      var n := NormalOf(net, e).value;
      assert Gives(net, entries, n);
      var i :| 0 <= i < |s| && s[i] == n;
    }
  }

  /** The result depends only on which entries there are, not on their order or repetition. */
  lemma NormalisedIsUnique(net: NetIp, entries: seq<Entry>, others: seq<Entry>, s: seq<Normal>, t: seq<Normal>)
    requires Normalised(net, entries, Some(s)) && Normalised(net, others, Some(t))
    requires forall e :: e in entries <==> e in others
    ensures s == t
  {
    forall n ensures n in s <==> n in t {
      assert Gives(net, entries, n) <==> Gives(net, others, n);
    }
    SortedIsUnique(s, t);
  }

  /** Normalising the entries of a snapshot gives the same snapshot. */
  lemma SnapshotIsSettled(net: NetIp, entries: seq<Entry>, s: seq<Normal>, again: Option<seq<Normal>>)
    requires Lawful(net) && Normalised(net, entries, Some(s)) && s != [] && AllNormal(net, s)
    requires Normalised(net, Values(s), again)
    ensures again == Some(s)
  {
    ValuesGive(net, s);
    if again.Some? {
      SortedIsUnique(s, again.value);
    }
  }

  lemma ValuesGive(net: NetIp, s: seq<Normal>)
    requires AllNormal(net, s)
    ensures AllValid(net, Values(s))
    ensures forall n :: n in s <==> Gives(net, Values(s), n)
  {
    forall e | e in Values(s) ensures exists n :: n in s && NormalOf(net, e) == Some(n) {
      var i :| 0 <= i < |s| && Values(s)[i] == e;
      assert IsNormal(net, s[i]);
    }
    forall n | n in s ensures Gives(net, Values(s), n) {
      var i :| 0 <= i < |s| && s[i] == n;
      assert Values(s)[i] == n.Value() && IsNormal(net, n);
    }
  }

  // ---------- the policy ----------

  method Matches(s: seq<Normal>, ghost a: Addr, target: Addr, port: int) returns (found: bool)
    requires target == a.Unmap() && 0 < port && forall n :: n in s ==> n.prefix.Valid()
    ensures found <==> Allows(s, a, port)
  {
    for i := 0 to |s|
      invariant forall j :: 0 <= j < i ==> !NormalCovers(s[j], a, port)
    {
      var n := s[i];
      if !n.prefix.Contains(target) {
        continue;
      }
      if n.portStart == 0 || (port >= n.portStart && port <= n.portEnd) {
        assert NormalCovers(s[i], a, port);
        return true;
      }
    }
    return false;
  }

  datatype Denial = Allowed | NotAnAddress | BadPort | NoMatch

  /** The policy in force, and the repository behind it. */
  class Policy {
    const net: NetIp
    var repository: seq<Entry>
    var snapshot: seq<Normal>

    ghost predicate Valid()
      reads this
    {
      && Lawful(net) && snapshot != [] && AllNormal(net, snapshot)
      && Normalised(net, repository, Some(snapshot))
    }

    /** `LoadPolicy`, once the stored entries have been normalised. */
    constructor (net: NetIp, stored: seq<Entry>, normalized: seq<Normal>)
      requires Lawful(net) && normalized != [] && AllNormal(net, normalized) && Normalised(net, stored, Some(normalized))
      ensures Valid() && this.net == net && repository == stored && snapshot == normalized
    {
      this.net, repository, snapshot := net, stored, normalized;
    }

    /** A target is allowed exactly when it is an address, the port is a port, and some stored entry covers both. */
    method ValidateTarget(host: string, port: int) returns (res: Denial)
      requires Valid()
      ensures var address := net.parseAddr(TrimSpace(host));
        res.Allowed? <==> address.Some? && 0 < port <= 65535 && SomeEntryCovers(net, repository, address.value, port)
      ensures res.NotAnAddress? <==> net.parseAddr(TrimSpace(host)).None?
    {
      var address := net.parseAddr(TrimSpace(host));
      if address.None? {
        return NotAnAddress;
      }
      NormalisingKeepsMeaning(net, repository, snapshot, address.value, port);
      var target := address.value.Unmap();
      if port <= 0 || port > 65535 {
        return BadPort;
      }
      var matched := Matches(snapshot, address.value, target, port);
      return if matched then Allowed else NoMatch;
    }

    function Snapshot(): (entries: seq<Entry>)
      reads this
      ensures |entries| == |snapshot|
    {
      Values(snapshot)
    }

    /** Replacing either changes nothing or puts the new entries in force, in their normal form; a
        snapshot put back leaves the policy as it was. The repository may fail. */
    method Replace(entries: seq<Entry>, repositoryOk: bool) returns (ok: bool)
      requires Valid()
      modifies this
      ensures Valid()
      ensures ok <==> entries != [] && AllValid(net, entries) && repositoryOk
      ensures !ok ==> snapshot == old(snapshot) && repository == old(repository)
      ensures ok ==> repository == Snapshot() && Normalised(net, entries, Some(snapshot))
      ensures entries == old(Snapshot()) ==> snapshot == old(snapshot)
    {
      var normalized := NormalizeEntries(net, entries);
      if entries == Snapshot() {
        SnapshotIsSettled(net, repository, snapshot, normalized);
      }
      if normalized.None? || !repositoryOk {
        return false;
      }
      ValuesGive(net, normalized.value);
      repository := Values(normalized.value);
      snapshot := normalized.value;
      return true;
    }
  }
}
