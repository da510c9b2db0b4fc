/** Bind hosts: their normal form, the wildcard, and which texts the services accept. */
module Hosts {
  import opened Options
  import opened Text

  /** `net.ParseIP`, taken as functions: the canonical text of an IP address, and whether that is the
      unspecified address. */
  datatype IpRules = IpRules(canonical: string -> Option<string>, unspecified: string -> bool)

  /** Canonical text parses to itself and carries no brackets or space; hex digits ignore case. */
  ghost predicate Lawful(ip: IpRules) {
    && (forall h :: ip.canonical(h).Some? ==>
      var c := ip.canonical(h).value; ip.canonical(c) == Some(c) && c != "" && TrimBrackets(c) == c)
    && (forall h :: ip.canonical(ToLower(h)) == ip.canonical(h))
  }

  function TrimBrackets(host: string): string {
    TrimSuffix(TrimPrefix(TrimSpace(host), "["), "]")
  }

  function NormalizeBindHost(ip: IpRules, host: string): string {
    var h := TrimBrackets(TrimSpace(host));
    if h == "" then ""
    else if ip.canonical(h).Some? then ip.canonical(h).value
    else ToLower(h)
  }

  predicate IsWildcardBindHost(ip: IpRules, host: string) {
    var h := NormalizeBindHost(ip, host);
    h == "" || (ip.canonical(h).Some? && ip.unspecified(h))
  }

  /** A host is a wildcard exactly when, inside its brackets, it is empty or an unspecified address. */
  lemma WildcardIff(ip: IpRules, host: string)
    requires Lawful(ip)
    ensures var h := TrimBrackets(host);
      IsWildcardBindHost(ip, host) <==> h == "" || (ip.canonical(h).Some? && ip.unspecified(ip.canonical(h).value))
  {
    TrimBracketsOfTrimmed(host);
    var h := TrimBrackets(host);
    assert ip.canonical(ToLower(h)) == ip.canonical(h);
    assert ip.canonical("").Some? ==> TrimBrackets("") == "";
  }

  /** Two texts have the same normal form exactly when, inside their brackets, both are empty, both are the
      same address, or both are names that differ in case at most. */
  lemma SameHostIff(ip: IpRules, left: string, right: string)
    requires Lawful(ip)
    ensures var l, r := TrimBrackets(left), TrimBrackets(right);
      NormalizeBindHost(ip, left) == NormalizeBindHost(ip, right) <==>
        || (l == "" && r == "")
        || (l != "" && r != "" && ip.canonical(l) == ip.canonical(r) && (ip.canonical(l).Some? || ToLower(l) == ToLower(r)))
  {
    TrimBracketsOfTrimmed(left);
    TrimBracketsOfTrimmed(right);
    var l, r := TrimBrackets(left), TrimBrackets(right);
    assert ip.canonical(ToLower(l)) == ip.canonical(l) && ip.canonical(ToLower(r)) == ip.canonical(r);
    assert ip.canonical(l).Some? ==> ip.canonical(ip.canonical(l).value) == ip.canonical(l);
    assert ip.canonical(r).Some? ==> ip.canonical(ip.canonical(r).value) == ip.canonical(r);
  }

  predicate HostnameChar(c: char) {
    'a' <= c <= 'z' || 'A' <= c <= 'Z' || '0' <= c <= '9' || c == '-'
  }

  function Labels(s: string): (labels: seq<string>)
    ensures |labels| > 0
  {
    Split(s, '.')
  }

  predicate ValidLabel(part: string) {
    && 1 <= |part| <= 63
    && (forall i :: 0 <= i < |part| ==> HostnameChar(part[i]))
    && part[0] != '-' && part[|part| - 1] != '-'
  }

  predicate ValidHostname(host: string) {
    |host| <= 253 && forall i :: 0 <= i < |Labels(host)| ==> ValidLabel(Labels(host)[i])
  }

  predicate ValidBindHost(ip: IpRules, host: string) {
    var t := TrimSpace(host);
    if t == "" then true
    else if Contains(t, "://") || Contains(t, "/") then false
    else
      var h := TrimBrackets(t);
      ip.canonical(h).Some? || (!Contains(h, ":") && ValidHostname(h))
  }

  /** Normalising once is enough. */
  predicate SettledHost(ip: IpRules, host: string) {
    NormalizeBindHost(ip, NormalizeBindHost(ip, host)) == NormalizeBindHost(ip, host)
  }

  // ---------- every accepted host is settled ----------

  lemma {:induction false} LabelChars(s: string)
    requires forall i :: 0 <= i < |Labels(s)| ==> forall j :: 0 <= j < |Labels(s)[i]| ==> HostnameChar(Labels(s)[i][j])
    ensures forall i :: 0 <= i < |s| ==> HostnameChar(s[i]) || s[i] == '.'
  {
    if s != "" {
      var rest := Labels(s[1..]);
      var labels := Labels(s);
      forall i | 0 <= i < |rest| ensures forall j :: 0 <= j < |rest[i]| ==> HostnameChar(rest[i][j]) {
        if s[0] == '.' {
          assert rest[i] == labels[i + 1];
        } else if i == 0 {
          assert forall j :: 0 <= j < |rest[0]| ==> rest[0][j] == labels[0][j + 1];
        } else {
          assert rest[i] == labels[i];
        }
      }
      LabelChars(s[1..]);
      assert s[0] != '.' ==> labels[0][0] == s[0];
    }
  }

  predicate PlainChar(c: char) { HostnameChar(c) || c == '.' }

  lemma PlainIsTrimmed(s: string)
    requires forall i :: 0 <= i < |s| ==> PlainChar(s[i])
    ensures TrimSpace(s) == s && TrimBrackets(s) == s
  {
    TrimNothing(s, IsSpace);
  }

  lemma LowerPlain(s: string)
    requires forall i :: 0 <= i < |s| ==> PlainChar(s[i])
    ensures forall i :: 0 <= i < |s| ==> PlainChar(ToLower(s)[i])
    ensures ToLower(ToLower(s)) == ToLower(s)
  {
  }

  /** A hostname is at most 253 characters of valid labels joined by dots. */
  lemma ValidHostnameIff(host: string)
    ensures ValidHostname(host) <==> |host| <= 253 && exists labels :: IsHostname(labels, host)
  {
    if ValidHostname(host) {
      JoinOfSplit(host, '.');
      assert IsHostname(Labels(host), host);
    }
    if labels :| IsHostname(labels, host) {
      SplitOfJoin(labels, '.');
    }
  }

  ghost predicate IsHostname(labels: seq<string>, host: string) {
    labels != [] && host == Join(labels, '.') && forall i :: 0 <= i < |labels| ==> ValidLabel(labels[i])
  }

  /** A bind host is accepted exactly when it is blank, or has no slash and is, inside its brackets, an
      address or a hostname. */
  lemma AcceptedHostsIff(ip: IpRules, host: string)
    ensures var t := TrimSpace(host);
      ValidBindHost(ip, host) <==> t == "" || ('/' !in t && (ip.canonical(TrimBrackets(t)).Some? || ValidHostname(TrimBrackets(t))))
  {
    var t := TrimSpace(host);
    var h := TrimBrackets(t);
    ContainsChar(t, '/');
    if Contains(t, "://") {
      ContainsHasChars(t, "://", 1);
    }
    ContainsChar(h, ':');
    if ValidHostname(h) {
      LabelChars(h);
    }
  }

  lemma AcceptedHostsAreSettled(ip: IpRules, host: string)
    requires Lawful(ip) && ValidBindHost(ip, host)
    ensures SettledHost(ip, host)
  {
    var h := TrimBrackets(TrimSpace(host));
    var n := NormalizeBindHost(ip, host);
    if TrimSpace(host) == "" || h == "" {
      assert n == "" || ip.canonical("").Some?;
      assert TrimSpace("") == "" && TrimBrackets("") == "";
    } else if ip.canonical(h).Some? {
      CanonicalIsSettled(ip, h);
    } else {
      LabelChars(h);
      LowerPlain(h);
      PlainIsTrimmed(ToLower(h));
    }
  }

  lemma CanonicalIsSettled(ip: IpRules, h: string)
    requires Lawful(ip) && ip.canonical(h).Some?
    ensures var c := ip.canonical(h).value; TrimBrackets(TrimSpace(c)) == c && NormalizeBindHost(ip, c) == c
  {
    var c := ip.canonical(h).value;
    assert TrimBrackets(c) == c;
    TrimSpaceEnds(c);
    assert |TrimBrackets(c)| <= |TrimSpace(c)|;
    SpaceTrimShortens(c);
  }

  // ---------- exactly which hosts are settled ----------

  lemma {:induction false} LowerTrimLeft(s: string)
    ensures TrimLeft(ToLower(s), IsSpace) == ToLower(TrimLeft(s, IsSpace))
  {
    if s != "" {
      assert ToLower(s)[1..] == ToLower(s[1..]);
      LowerTrimLeft(s[1..]);
    }
  }

  lemma {:induction false} LowerTrimRight(s: string)
    ensures TrimRight(ToLower(s), IsSpace) == ToLower(TrimRight(s, IsSpace))
  {
    if s != "" {
      assert ToLower(s)[..|s| - 1] == ToLower(s[..|s| - 1]);
      LowerTrimRight(s[..|s| - 1]);
    }
  }

  lemma LowerTrimPrefix(s: string)
    ensures TrimPrefix(ToLower(s), "[") == ToLower(TrimPrefix(s, "["))
  {
    if s != "" {
      assert ToLower(s)[1..] == ToLower(s[1..]);
    }
  }

  lemma LowerTrimSuffix(s: string)
    ensures TrimSuffix(ToLower(s), "]") == ToLower(TrimSuffix(s, "]"))
  {
    if s != "" {
      assert s[|s| - 1..] == [s[|s| - 1]] && ToLower(s)[|s| - 1..] == [ToLower(s)[|s| - 1]];
      assert ToLower(s)[..|s| - 1] == ToLower(s[..|s| - 1]);
    }
  }

  lemma LowerTrimBrackets(s: string)
    ensures TrimBrackets(ToLower(s)) == ToLower(TrimBrackets(s))
  {
    LowerTrimLeft(s);
    LowerTrimRight(TrimLeft(s, IsSpace));
    LowerTrimPrefix(TrimSpace(s));
    LowerTrimSuffix(TrimPrefix(TrimSpace(s), "["));
  }

  lemma LowerIsSettled(s: string)
    ensures ToLower(ToLower(s)) == ToLower(s)
  {
  }

  lemma TrimBracketsOfTrimmed(s: string)
    ensures TrimBrackets(TrimSpace(s)) == TrimBrackets(s)
  {
    TrimSpaceEnds(s);
  }

  lemma TrimBracketsShortens(s: string)
    ensures |TrimBrackets(s)| <= |s| && (|TrimBrackets(s)| == |s| ==> TrimBrackets(s) == s)
  {
    SpaceTrimShortens(s);
  }

  /** Normalising a host twice is normalising it once exactly when, inside its outer brackets, it is empty, an
      address, or has nothing more to trim. */
  lemma SettledHostIff(ip: IpRules, host: string)
    requires Lawful(ip)
    ensures var h := TrimBrackets(host);
      SettledHost(ip, host) <==> h == "" || ip.canonical(h).Some? || TrimBrackets(h) == h
  {
    TrimBracketsOfTrimmed(host);
    var h := TrimBrackets(host);
    if h == "" {
      assert NormalizeBindHost(ip, "") == "";
    } else if ip.canonical(h).Some? {
      CanonicalIsSettled(ip, h);
    } else {
      OtherTextSettledIff(ip, h);
    }
  }

  lemma OtherTextSettledIff(ip: IpRules, h: string)
    requires Lawful(ip) && h != "" && ip.canonical(h).None?
    ensures NormalizeBindHost(ip, ToLower(h)) == ToLower(h) <==> TrimBrackets(h) == h
  {
    var t := TrimBrackets(h);
    LowerTrimBrackets(h);
    TrimBracketsOfTrimmed(ToLower(h));
    assert NormalizeBindHost(ip, ToLower(h)) == NormalForm(ip, ToLower(t));
    NormalFormIsOwn(ip, h, t);
    TrimBracketsShortens(h);
  }

  /** The normal form of a text that has nothing to trim. */
  function NormalForm(ip: IpRules, h: string): string {
    if h == "" then "" else if ip.canonical(h).Some? then ip.canonical(h).value else ToLower(h)
  }

  lemma NormalFormIsOwn(ip: IpRules, h: string, t: string)
    requires Lawful(ip) && h != "" && ip.canonical(h).None?
    ensures NormalForm(ip, ToLower(t)) == ToLower(h) ==> |t| == |h|
    ensures t == h ==> NormalForm(ip, ToLower(t)) == ToLower(h)
  {
    assert ip.canonical(ToLower(h)).None? && ip.canonical(ToLower(t)) == ip.canonical(t);
    LowerIsSettled(t);
    if ip.canonical(t).Some? {
      assert ip.canonical(ip.canonical(t).value).Some?;
    }
  }

  lemma SpaceTrimShortens(s: string)
    ensures |TrimSpace(s)| <= |s| && (|TrimSpace(s)| == |s| ==> TrimSpace(s) == s)
  {
    var k := TrimLeftFrom(s, IsSpace);
    var n := TrimRightTo(TrimLeft(s, IsSpace), IsSpace);
  }

  lemma BracketsComeOffOnce(h: string)
    ensures TrimSpace("[" + h + "]") == "[" + h + "]"
    ensures TrimBrackets("[" + h + "]") == h
  {
    var s := "[" + h + "]";
    TrimNothing(s, IsSpace);
    assert s[1..] == h + "]";
    assert (h + "]")[..|h|] == h;
  }

  /** Two pairs of brackets: normalising strips one pair at a time. */
  lemma NestedBracketsAreNotSettled(ip: IpRules)
    requires ip.canonical("[127.0.0.1]").None? && ip.canonical("127.0.0.1") == Some("127.0.0.1")
    ensures NormalizeBindHost(ip, "[[127.0.0.1]]") == "[127.0.0.1]"
    ensures NormalizeBindHost(ip, "[127.0.0.1]") == "127.0.0.1"
    ensures !SettledHost(ip, "[[127.0.0.1]]")
  {
    TwoPairs(ip);
    OnePair(ip);
  }

  lemma TwoPairs(ip: IpRules)
    requires ip.canonical("[127.0.0.1]").None?
    ensures NormalizeBindHost(ip, "[[127.0.0.1]]") == "[127.0.0.1]"
  {
    BracketsComeOffOnce("[127.0.0.1]");
    assert "[" + "[127.0.0.1]" + "]" == "[[127.0.0.1]]";
    assert ToLower("[127.0.0.1]") == "[127.0.0.1]";
  }

  lemma OnePair(ip: IpRules)
    requires ip.canonical("127.0.0.1") == Some("127.0.0.1")
    ensures NormalizeBindHost(ip, "[127.0.0.1]") == "127.0.0.1"
  {
    BracketsComeOffOnce("127.0.0.1");
    assert "[" + "127.0.0.1" + "]" == "[127.0.0.1]";
  }
}
