/** Which listener a proxy or a domain entry asks for, and when two listeners cannot coexist. */
module Listeners {
  import opened Options
  import opened Hosts
  import opened Text

  datatype ProxyType = TCP | UDP | HTTP | HTTPS | Web | Forward {
    predicate IsWeb() { Web? || HTTP? || HTTPS? }
    predicate HasListener() { TCP? || UDP? }
  }

  datatype ProxyStatus = Enabled | Disabled | OtherStatus

  /** `details` stands for the fields no listener or route depends on. */
  datatype Proxy = Proxy(
    id: string,
    clientId: string,
    ptype: ProxyType,
    status: ProxyStatus,
    domainId: string,
    pathPrefix: string,
    entryBindHost: string,
    entryHost: string,
    entryPort: int,
    details: string)

  datatype ListenerProtocol = TcpListener | UdpListener | HttpListener | HttpsListener

  datatype Network = TcpNetwork | UdpNetwork

  datatype Defaults = Defaults(tcpBindHost: string, httpBindHost: string, httpPort: int, httpsBindHost: string, httpsPort: int)

  datatype ProxyEntry = ProxyEntry(protocol: ListenerProtocol, network: Network, bindHost: string, port: int, routeHost: string)

  datatype ListenerClaim = ListenerClaim(protocol: ListenerProtocol, network: Network, bindHost: string, port: int, resourceId: string)

  predicate ValidPort(port: int) {
    0 < port <= 65535
  }

  function OrDefault(ip: IpRules, host: string, fallback: string): string {
    var h := NormalizeBindHost(ip, host);
    if h == "" then NormalizeBindHost(ip, fallback) else h
  }

  function NormalizeRouteHost(host: string): string {
    ToLower(TrimSpace(host))
  }

  function EffectiveProxyEntry(ip: IpRules, p: Proxy, d: Defaults): (entry: Option<ProxyEntry>)
    ensures entry.Some? ==> ValidPort(entry.value.port)
  {
    var entry := match p.ptype {
      case TCP => Some(ProxyEntry(TcpListener, TcpNetwork, OrDefault(ip, p.entryBindHost, d.tcpBindHost), p.entryPort, ""))
      case UDP => Some(ProxyEntry(UdpListener, UdpNetwork, OrDefault(ip, p.entryBindHost, d.tcpBindHost), p.entryPort, ""))
      case HTTP => Some(ProxyEntry(HttpListener, TcpNetwork, OrDefault(ip, p.entryBindHost, d.httpBindHost),
        if p.entryPort == 0 then d.httpPort else p.entryPort, NormalizeRouteHost(p.entryHost)))
      case HTTPS => Some(ProxyEntry(HttpsListener, TcpNetwork, OrDefault(ip, p.entryBindHost, d.httpsBindHost),
        if p.entryPort == 0 then d.httpsPort else p.entryPort, NormalizeRouteHost(p.entryHost)))
      case Web => None
      case Forward => None
    };
    if entry.Some? && !ValidPort(entry.value.port) then None else entry
  }

  datatype DomainEntry = DomainEntry(secure: bool, bindHost: string, port: int, domainEnabled: bool)

  function EffectiveDomainEntry(ip: IpRules, e: DomainEntry, d: Defaults): (entry: Option<ProxyEntry>)
    ensures entry.Some? ==> ValidPort(entry.value.port)
  {
    var entry := if e.secure
      then ProxyEntry(HttpsListener, TcpNetwork, OrDefault(ip, e.bindHost, d.httpsBindHost), if e.port == 0 then d.httpsPort else e.port, "")
      else ProxyEntry(HttpListener, TcpNetwork, OrDefault(ip, e.bindHost, d.httpBindHost), if e.port == 0 then d.httpPort else e.port, "");
    if ValidPort(entry.port) then Some(entry) else None
  }

  /** A host or an HTTP port left out is the same as the default written out, and there is an entry exactly
      for a proxy with a listener of its own and a port in range. */
  lemma LeftOutIsDefault(ip: IpRules, p: Proxy, d: Defaults)
    ensures var host := if p.ptype.HTTP? then d.httpBindHost else if p.ptype.HTTPS? then d.httpsBindHost else d.tcpBindHost;
      EffectiveProxyEntry(ip, p.(entryBindHost := ""), d) == EffectiveProxyEntry(ip, p.(entryBindHost := host), d)
    ensures p.ptype.HTTP? ==> EffectiveProxyEntry(ip, p.(entryPort := 0), d) == EffectiveProxyEntry(ip, p.(entryPort := d.httpPort), d)
    ensures p.ptype.HTTPS? ==> EffectiveProxyEntry(ip, p.(entryPort := 0), d) == EffectiveProxyEntry(ip, p.(entryPort := d.httpsPort), d)
    ensures p.ptype.HasListener() ==> (EffectiveProxyEntry(ip, p, d).Some? <==> ValidPort(p.entryPort))
    ensures p.ptype.Web? || p.ptype.Forward? ==> EffectiveProxyEntry(ip, p, d).None?
  {
    assert NormalizeBindHost(ip, "") == "";
  }

  /** An entry is on the protocol and network of its proxy's type, on the host and port given where they are. */
  lemma EntryIsAsGiven(ip: IpRules, p: Proxy, d: Defaults)
    requires EffectiveProxyEntry(ip, p, d).Some?
    ensures var e := EffectiveProxyEntry(ip, p, d).value;
      && (e.network.UdpNetwork? <==> p.ptype.UDP?) && (e.protocol.UdpListener? <==> p.ptype.UDP?)
      && (e.protocol.TcpListener? <==> p.ptype.TCP?) && (e.protocol.HttpsListener? <==> p.ptype.HTTPS?)
      && (NormalizeBindHost(ip, p.entryBindHost) != "" ==> e.bindHost == NormalizeBindHost(ip, p.entryBindHost))
      && (p.entryPort != 0 ==> e.port == p.entryPort)
      && e.routeHost == if p.ptype.HTTP? || p.ptype.HTTPS? then ToLower(TrimSpace(p.entryHost)) else ""
  {
  }

  /** A secure domain entry is on HTTPS and another on HTTP, on the host and port given where they are. */
  lemma DomainEntryIsAsGiven(ip: IpRules, e: DomainEntry, d: Defaults)
    requires EffectiveDomainEntry(ip, e, d).Some?
    ensures var r := EffectiveDomainEntry(ip, e, d).value;
      && r.network.TcpNetwork? && (if e.secure then r.protocol.HttpsListener? else r.protocol.HttpListener?)
      && (NormalizeBindHost(ip, e.bindHost) != "" ==> r.bindHost == NormalizeBindHost(ip, e.bindHost))
      && (e.port != 0 ==> r.port == e.port)
  {
  }

  lemma LeftOutIsDefaultForDomains(ip: IpRules, e: DomainEntry, d: Defaults)
    ensures EffectiveDomainEntry(ip, e.(bindHost := ""), d)
      == EffectiveDomainEntry(ip, e.(bindHost := if e.secure then d.httpsBindHost else d.httpBindHost), d)
    ensures EffectiveDomainEntry(ip, e.(port := 0), d)
      == EffectiveDomainEntry(ip, e.(port := if e.secure then d.httpsPort else d.httpPort), d)
  {
    assert NormalizeBindHost(ip, "") == "";
  }

  function ListenerClaimForProxy(ip: IpRules, p: Proxy, d: Defaults): Option<ListenerClaim> {
    var entry := EffectiveProxyEntry(ip, p, d);
    if entry.None? then None
    else Some(ListenerClaim(entry.value.protocol, entry.value.network, entry.value.bindHost, entry.value.port, p.id))
  }

  predicate BindHostsConflict(ip: IpRules, left: string, right: string) {
    var l, r := NormalizeBindHost(ip, left), NormalizeBindHost(ip, right);
    l == r || IsWildcardBindHost(ip, l) || IsWildcardBindHost(ip, r)
  }

  predicate Shareable(left: ListenerProtocol, right: ListenerProtocol) {
    left == right && (left.HttpListener? || left.HttpsListener?)
  }

  predicate Conflicts(ip: IpRules, left: ListenerClaim, right: ListenerClaim) {
    && left.network == right.network && left.port == right.port
    && BindHostsConflict(ip, left.bindHost, right.bindHost)
    && !Shareable(left.protocol, right.protocol)
  }

  /** The addresses a listener bound to the normal form of `host` answers on: every one when that is, inside
      its brackets if it has any left, empty or an unspecified address; and else the one it names. */
  predicate AnswersOn(ip: IpRules, host: string, address: string) {
    var name := NormalizeBindHost(ip, host);
    NamesNoAddress(name) || NamesUnspecified(ip, name) || name == address
  }

  predicate NamesNoAddress(name: string) {
    TrimBrackets(name) == ""
  }

  predicate NamesUnspecified(ip: IpRules, name: string) {
    var address := ip.canonical(TrimBrackets(name));
    address.Some? && ip.unspecified(address.value)
  }

  ghost predicate Overlap(ip: IpRules, left: string, right: string) {
    exists address :: AnswersOn(ip, left, address) && AnswersOn(ip, right, address)
  }

  /** Two claims conflict exactly when they would answer on the same address, port and network, unless they
      share an HTTP or an HTTPS listener. */
  lemma ConflictsAreOverlaps(ip: IpRules, left: ListenerClaim, right: ListenerClaim)
    requires Lawful(ip)
    ensures Conflicts(ip, left, right) <==>
      && left.network == right.network && left.port == right.port
      && Overlap(ip, left.bindHost, right.bindHost)
      && !(left.protocol == right.protocol && (left.protocol.HttpListener? || left.protocol.HttpsListener?))
  {
    HostsOverlapIff(ip, left.bindHost, right.bindHost);
  }

  /** A TCP or UDP listener without an address, or on an unspecified one, leaves no room on its port. */
  lemma UnspecifiedTakesThePort(ip: IpRules, left: ListenerClaim, right: ListenerClaim)
    requires Lawful(ip) && (left.protocol.TcpListener? || left.protocol.UdpListener?)
    requires left.network == right.network && left.port == right.port
    requires left.bindHost == "" || (ip.canonical(left.bindHost) == Some(left.bindHost) && ip.unspecified(left.bindHost))
    ensures Conflicts(ip, left, right) && Conflicts(ip, right, left)
  {
    if left.bindHost != "" {
      CanonicalIsSettled(ip, left.bindHost);
    }
    assert NormalizeBindHost(ip, "") == "";
  }

  lemma HostsOverlapIff(ip: IpRules, left: string, right: string)
    requires Lawful(ip)
    ensures BindHostsConflict(ip, left, right) <==> Overlap(ip, left, right)
  {
    var l, r := NormalizeBindHost(ip, left), NormalizeBindHost(ip, right);
    WildcardIff(ip, l);
    WildcardIff(ip, r);
    if BindHostsConflict(ip, left, right) {
      var address := if IsWildcardBindHost(ip, l) then r else l;
      assert AnswersOn(ip, left, address) && AnswersOn(ip, right, address);
    }
  }

  lemma ConflictsIsSymmetric(ip: IpRules, left: ListenerClaim, right: ListenerClaim)
    ensures Conflicts(ip, left, right) == Conflicts(ip, right, left)
  {
  }

  method FindListenerConflict(ip: IpRules, existing: seq<ListenerClaim>, proposed: ListenerClaim) returns (res: Option<ListenerClaim>)
    ensures res.Some? ==> res.value in existing && Conflicts(ip, res.value, proposed)
    ensures res.None? ==> forall c :: c in existing ==> !Conflicts(ip, c, proposed)
  {
    for i := 0 to |existing|
      invariant forall j :: 0 <= j < i ==> !Conflicts(ip, existing[j], proposed)
    {
      if Conflicts(ip, existing[i], proposed) {
        return Some(existing[i]);
      }
    }
    return None;
  }
}
