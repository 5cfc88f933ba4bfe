/** The API server's URL, the names that its certificate covers, and the service and ingress they come from. */
module ServerUrl {
  import opened Basics
  import opened Text

  datatype LoadBalancerConfig = LoadBalancerConfig(serverPort: Option<int>, etcdPort: Option<int>)
  datatype NodePortConfig = NodePortConfig(serverPort: Option<int>, etcdPort: Option<int>)
  datatype Expose = Expose(ingress: bool, loadBalancer: Option<LoadBalancerConfig>, nodePort: Option<NodePortConfig>)

  /** The names of the cluster's service, short and with the namespace, come with the spec. */
  datatype Spec = Spec(sans: seq<string>, expose: Option<Expose>, serviceName: string, qualifiedName: string)

  datatype ServiceType = ClusterIP | NodePort | LoadBalancer | ExternalName
  /** `nodePort` is 0 until one is assigned. */
  datatype Port = Port(name: string, number: int, nodePort: int)
  datatype LoadBalancerIngress = LoadBalancerIngress(ip: string, hostname: string)
  datatype Service = Service(kind: ServiceType, clusterIP: string, ports: seq<Port>, ingress: seq<LoadBalancerIngress>)

  const HTTPS := 443
  const ETCD := 2379
  const SERVER_PORT := Port("k3s-server-port", HTTPS, 0)
  const ETCD_PORT := Port("k3s-etcd-port", ETCD, 0)
  const LB_SERVER_PORT_NAME := "k3s-server-lb-port"

  // ---------------------------------------------------------------------------------------------
  // The certificate's names
  // ---------------------------------------------------------------------------------------------

  function IngressNames(i: LoadBalancerIngress): seq<string> {
    (if i.ip != "" then [i.ip] else []) + if i.hostname != "" then [i.hostname] else []
  }

  function NamesOfIngress(ingress: seq<LoadBalancerIngress>): seq<string> {
    if ingress == [] then [] else NamesOfIngress(ingress[..|ingress| - 1]) + IngressNames(ingress[|ingress| - 1])
  }

  /** The addresses that a load balancer has assigned. */
  method LoadBalancerSANs(s: Service) returns (sans: seq<string>)
    ensures sans == if s.kind == LoadBalancer then NamesOfIngress(s.ingress) else []
  {
    sans := [];
    if s.kind != LoadBalancer { return; }
    for i := 0 to |s.ingress|
      invariant sans == NamesOfIngress(s.ingress[..i])
    {
      assert s.ingress[..i + 1][..i] == s.ingress[..i];
      var before := sans;
      if s.ingress[i].ip != "" { sans := sans + [s.ingress[i].ip]; }
      if s.ingress[i].hostname != "" { sans := sans + [s.ingress[i].hostname]; }
      assert sans == before + IngressNames(s.ingress[i]);
    }
    assert s.ingress[..|s.ingress|] == s.ingress;
  }

  /** An address is assigned: as the IP or the hostname of one of the entries. */
  predicate Assigned(ingress: seq<LoadBalancerIngress>, x: string) {
    x != "" && exists i :: 0 <= i < |ingress| && (ingress[i].ip == x || ingress[i].hostname == x)
  }

  lemma {:induction false} AddressesAssigned(ingress: seq<LoadBalancerIngress>)
    ensures forall x :: x in NamesOfIngress(ingress) <==> Assigned(ingress, x)
  {
    if ingress != [] {
      var front, last := ingress[..|ingress| - 1], ingress[|ingress| - 1];
      AddressesAssigned(front);
      forall x ensures Assigned(ingress, x) <==> Assigned(front, x) || (x != "" && (last.ip == x || last.hostname == x)) {
        assert ingress == front + [last];
      }
    }
  }

  /** They come in the order of the entries, the IP of an entry first. */
  lemma {:induction false} AddressesInOrder(before: seq<LoadBalancerIngress>, i: LoadBalancerIngress, after: seq<LoadBalancerIngress>)
    ensures NamesOfIngress(before + [i] + after) == NamesOfIngress(before) + NamesOfIngress([i]) + NamesOfIngress(after)
    ensures i.ip != "" && i.hostname != "" ==> NamesOfIngress([i]) == [i.ip, i.hostname]
    ensures i.ip != "" && i.hostname == "" ==> NamesOfIngress([i]) == [i.ip]
    ensures i.ip == "" && i.hostname != "" ==> NamesOfIngress([i]) == [i.hostname]
    decreases |after|
  {
    var all := before + [i] + after;
    assert [i][..0] == [];
    if after == [] {
      assert all == before + [i] && all[..|all| - 1] == before;
    } else {
      var n := |after| - 1;
      AddressesInOrder(before, i, after[..n]);
      assert all[..|all| - 1] == before + [i] + after[..n];
    }
  }

  /** Every name that the certificate is made for. */
  function SanSet(spec: Spec, s: Service, extra: seq<string>): set<string> {
    (set x | x in spec.sans) + (set x | x in extra) + {s.clusterIP, spec.serviceName, spec.qualifiedName}
    + if s.kind == LoadBalancer then (set x | x in NamesOfIngress(s.ingress)) else {}
  }

  class Cluster {
    const spec: Spec
    var statusSANs: seq<string>

    constructor (spec: Spec)
      ensures this.spec == spec && statusSANs == []
    {
      this.spec, statusSANs := spec, [];
    }

    /** Records the certificate's names, sorted and without duplicates. */
    method BuildServerConfig(s: Service, extra: seq<string>)
      modifies this
      ensures statusSANs == Listing(SanSet(spec, s, extra))
      // in ascending order, the names asked for, the service's names and address, and those of its load balancer
      ensures Ascending(statusSANs)
      ensures forall x :: x in statusSANs <==>
        || x in spec.sans || x in extra || x == s.clusterIP || x == spec.serviceName || x == spec.qualifiedName
        || (s.kind == LoadBalancer && Assigned(s.ingress, x))
    {
      AddressesAssigned(s.ingress);
      var sans := (set x | x in spec.sans) + (set x | x in extra);
      sans := sans + {s.clusterIP, spec.serviceName, spec.qualifiedName};
      var addresses := LoadBalancerSANs(s);
      sans := sans + (set x | x in addresses);
      var listed: seq<string> := [];
      ghost var all := sans;
      while sans != {}
        invariant forall i, j :: 0 <= i < j < |listed| ==> listed[i] != listed[j]
        invariant forall x :: x in listed <==> x in all && x !in sans
        invariant sans <= all
        decreases sans
      {
        var x :| x in sans;
        listed, sans := listed + [x], sans - {x};
      }
      assert (set x | x in listed) == all == SanSet(spec, s, extra);
      statusSANs := SortNames(listed);
    }
  }

  // ---------------------------------------------------------------------------------------------
  // The URL
  // ---------------------------------------------------------------------------------------------

  /** The host, in brackets if it has a ':' or a '%', and the port. */
  function JoinHostPort(host: string, port: nat): string {
    (if ':' in host || '%' in host then "[" + host + "]" else host) + ":" + Decimal(port)
  }

  /** The authority of the https URL: with the port only if it is not the default one. */
  function BuildUrl(host: string, port: nat): string {
    if port != HTTPS then JoinHostPort(host, port) else host
  }

  /** `authority` is the URL's, for this host and port; otherwise the reason why there is none. */
  datatype Answer = Url(authority: string, host: string, port: nat) | NotFound | LoadBalancerNotReady

  predicate UsesIngress(spec: Spec) {
    spec.expose.Some? && spec.expose.value.ingress
  }

  /** The ingress, if the spec has one, answers before the service does: with the first rule's host. */
  function IngressHost(spec: Spec, ingress: Option<seq<string>>): Option<string> {
    if UsesIngress(spec) && ingress.Some? && |ingress.value| > 0 && ingress.value[0] != "" then Some(ingress.value[0]) else None
  }

  /** The status lists the certificate's names, for this spec and service, and the ingress has hosts of the spec only. */
  ghost predicate Certified(spec: Spec, statusSANs: seq<string>, ingress: Option<seq<string>>, service: Option<Service>) {
    && (exists s: Service, extra: seq<string> ::
          statusSANs == Listing(SanSet(spec, s, extra)) && (service.Some? ==> SameAddresses(s, service.value)))
    && (ingress.Some? ==> forall h :: h in ingress.value ==> h in spec.sans)
  }

  predicate SameAddresses(s: Service, t: Service) {
    s.kind == t.kind && s.clusterIP == t.clusterIP && s.ingress == t.ingress
  }

  /** The URL for a client that asks for `hostServerIP`: an internal one if that is the service's own address.
      `ingress` are the hosts of the ingress' rules, if the ingress exists, `service` the service. Ports that the API
      server has accepted are not negative. */
  method URL(cluster: Cluster, hostServerIP: string, ingress: Option<seq<string>>, service: Option<Service>) returns (r: Answer)
    requires service.Some? ==> forall p :: p in service.value.ports ==> p.number >= 0 && p.nodePort >= 0
    ensures r.Url? ==> r.authority == BuildUrl(r.host, r.port)
    // the certificate covers the host
    ensures r.Url? && Certified(cluster.spec, cluster.statusSANs, ingress, service) ==> r.host in cluster.statusSANs
    // the first rule's host goes before the service
    ensures var rules := if ingress.Some? then ingress.value else [];
      cluster.spec.expose.Some? && cluster.spec.expose.value.ingress && rules != [] && rules[0] != "" ==>
        r == Url(rules[0], rules[0], 443)
    // of a load balancer, the first address; inside, the service's own
    ensures r.Url? && IngressHost(cluster.spec, ingress).None? && service.Some? && service.value.kind == LoadBalancer ==>
      var s := service.value;
      if hostServerIP == s.clusterIP then r.host == s.clusterIP
      else NamesOfIngress(s.ingress) != [] && r.host == NamesOfIngress(s.ingress)[0]
    // of any other service, its own address or the one asked for, unless the certificate has others only
    ensures r.Url? && IngressHost(cluster.spec, ingress).None? && service.Some? && service.value.kind != LoadBalancer ==>
      var address := if service.value.kind == ClusterIP then service.value.clusterIP else hostServerIP;
      r.host == if address in cluster.statusSANs then address
                else if cluster.spec.sans != [] then cluster.spec.sans[0]
                else if cluster.statusSANs != [] then cluster.statusSANs[0]
                else address
    // which port it is
    ensures r.Url? && IngressHost(cluster.spec, ingress).None? ==>
      service.Some? && r.port == ServerPort(service.value, hostServerIP)
    // and exactly when there is no URL
    ensures r == NotFound <==>
      || (cluster.spec.expose.Some? && cluster.spec.expose.value.ingress && ingress.None?)
      || (service.None? && IngressHost(cluster.spec, ingress).None?)
    ensures r == LoadBalancerNotReady <==>
      && r != NotFound && IngressHost(cluster.spec, ingress).None? && service.value.kind == LoadBalancer
      && hostServerIP != service.value.clusterIP && NamesOfIngress(service.value.ingress) == []
  {
    if UsesIngress(cluster.spec) {
      if ingress.None? { return NotFound; }
      if |ingress.value| > 0 && ingress.value[0] != "" {
        return Url(ingress.value[0], ingress.value[0], HTTPS);
      }
    }
    if service.None? { return NotFound; }
    var s := service.value;
    var host, port := hostServerIP, HTTPS;
    if |s.ports| > 0 { port := s.ports[0].number; }
    match s.kind {
    case ClusterIP =>
      host := s.clusterIP;
    case NodePort =>
      if hostServerIP != s.clusterIP {
        if |s.ports| > 0 { port := s.ports[0].nodePort; }
      } else {
        host := s.clusterIP;
      }
    case LoadBalancer =>
      if hostServerIP == s.clusterIP { return Url(BuildUrl(s.clusterIP, port), s.clusterIP, port); }
      var sans := LoadBalancerSANs(s);
      if sans == [] { return LoadBalancerNotReady; }
      for i := 0 to |s.ports|
        invariant port == LastNamed(s.ports[..i], LB_SERVER_PORT_NAME, if |s.ports| > 0 then s.ports[0].number else HTTPS)
        invariant port >= 0
      {
        assert s.ports[..i + 1][..i] == s.ports[..i];
        if s.ports[i].name == LB_SERVER_PORT_NAME { port := s.ports[i].number; }
      }
      assert s.ports[..|s.ports|] == s.ports;
      return Url(BuildUrl(sans[0], port), sans[0], port);
    case ExternalName =>
    }
    if host !in cluster.statusSANs {
      if |cluster.spec.sans| > 0 { host := cluster.spec.sans[0]; }
      else if |cluster.statusSANs| > 0 { host := cluster.statusSANs[0]; }
    }
    r := Url(BuildUrl(host, port), host, port);
  }

  /** The number of the last port of that name. */
  function LastNamed(ports: seq<Port>, name: string, otherwise: int): int {
    if ports == [] then otherwise
    else if ports[|ports| - 1].name == name then ports[|ports| - 1].number
    else LastNamed(ports[..|ports| - 1], name, otherwise)
  }

  /** The port of the URL, as far as the service decides it. */
  function ServerPort(s: Service, hostServerIP: string): int {
    var first := if |s.ports| > 0 then s.ports[0].number else HTTPS;
    if s.kind == NodePort && hostServerIP != s.clusterIP && |s.ports| > 0 then s.ports[0].nodePort
    else if s.kind == LoadBalancer && hostServerIP != s.clusterIP then LastNamed(s.ports, LB_SERVER_PORT_NAME, first)
    else first
  }

  /** Inside, and at a service of no external kind, it is the first port's number; from outside, a node port service has
      the first node port, and a load balancer the last port with the name for custom ports, if there is one. */
  lemma PortOfService(s: Service, hostServerIP: string, i: int)
    ensures var port := ServerPort(s, hostServerIP);
      && (s.ports == [] ==> port == 443)
      && (s.ports != [] && (s.kind == ClusterIP || s.kind == ExternalName || hostServerIP == s.clusterIP) ==> port == s.ports[0].number)
      && (s.ports != [] && s.kind == NodePort && hostServerIP != s.clusterIP ==> port == s.ports[0].nodePort)
    ensures s.kind == LoadBalancer && hostServerIP != s.clusterIP ==>
      && (IsLast(s.ports, i, "k3s-server-lb-port") ==> ServerPort(s, hostServerIP) == s.ports[i].number)
      && (s.ports != [] && (forall p :: p in s.ports ==> p.name != "k3s-server-lb-port") ==>
            ServerPort(s, hostServerIP) == s.ports[0].number)
  {
    if s.kind == LoadBalancer { LastNamedIsLast(s.ports, "k3s-server-lb-port", if |s.ports| > 0 then s.ports[0].number else 443, i); }
  }

  predicate IsLast(ports: seq<Port>, i: int, name: string) {
    0 <= i < |ports| && ports[i].name == name && forall j :: i < j < |ports| ==> ports[j].name != name
  }

  lemma {:induction false} LastNamedIsLast(ports: seq<Port>, name: string, otherwise: int, i: int)
    ensures IsLast(ports, i, name) ==> LastNamed(ports, name, otherwise) == ports[i].number
    ensures (forall p :: p in ports ==> p.name != name) ==> LastNamed(ports, name, otherwise) == otherwise
    decreases |ports|
  {
    if ports != [] {
      LastNamedIsLast(ports[..|ports| - 1], name, otherwise, i);
      assert ports[|ports| - 1] in ports && forall p :: p in ports[..|ports| - 1] ==> p in ports;
    }
  }

  /** The default port is left out, and a host with a ':' or a '%' is put in brackets before any other port. */
  lemma UrlText(host: string, port: nat)
    ensures port == 443 ==> BuildUrl(host, port) == host
    ensures port != 443 && (':' in host || '%' in host) ==> BuildUrl(host, port) == "[" + host + "]:" + Decimal(port)
    ensures port != 443 && ':' !in host && '%' !in host ==> BuildUrl(host, port) == host + ":" + Decimal(port)
  {
    assert "[" + host + "]" + ":" == "[" + host + "]:";
  }

  // ---------------------------------------------------------------------------------------------
  // The ingress
  // ---------------------------------------------------------------------------------------------

  /** The names that are not IP addresses. */
  function FilterDNSNames(names: seq<string>, isIP: string -> bool): seq<string> {
    if names == [] then []
    else FilterDNSNames(names[..|names| - 1], isIP) + if isIP(names[|names| - 1]) then [] else [names[|names| - 1]]
  }

  /** `at` are the positions in `names` of the entries of `picked`, in order, and all those of entries that are no IP. */
  ghost predicate Picks(names: seq<string>, isIP: string -> bool, picked: seq<string>, at: seq<nat>) {
    && |at| == |picked| && (forall i :: 0 <= i < |at| ==> at[i] < |names| && names[at[i]] == picked[i])
    && (forall i, j :: 0 <= i < j < |at| ==> at[i] < at[j])
    && forall k :: 0 <= k < |names| ==> (k in at <==> !isIP(names[k]))
  }

  /** Exactly the names that are not IP addresses are kept, each as often as it is there and in the same order. */
  lemma {:induction false} FilterDNSNamesKeeps(names: seq<string>, isIP: string -> bool) returns (at: seq<nat>)
    ensures Picks(names, isIP, FilterDNSNames(names, isIP), at)
  {
    at := [];
    if names != [] {
      var n := |names| - 1;
      var picked := FilterDNSNames(names[..n], isIP);
      at := FilterDNSNamesKeeps(names[..n], isIP);
      PicksOneMore(names[..n], names[n], isIP, picked, at);
      assert names == names[..n] + [names[n]];
      if isIP(names[n]) { assert FilterDNSNames(names, isIP) == picked; } else { at := at + [n]; }
    }
  }

  lemma PicksOneMore(names: seq<string>, x: string, isIP: string -> bool, picked: seq<string>, at: seq<nat>)
    requires Picks(names, isIP, picked, at)
    ensures isIP(x) ==> Picks(names + [x], isIP, picked, at)
    ensures !isIP(x) ==> Picks(names + [x], isIP, picked + [x], at + [|names|])
  {
    var longer := names + [x];
    assert forall i :: 0 <= i < |at| ==> at[i] in at && at[i] < |names|;
    assert |names| !in at;
    forall k | 0 <= k < |names| ensures longer[k] == names[k] {}
  }

  /** The hosts of the ingress' rules: none without an ingress, else one for each DNS name of the spec, in order. */
  method IngressRules(spec: Spec, isIP: string -> bool) returns (hosts: seq<string>)
    ensures hosts == if UsesIngress(spec) then FilterDNSNames(spec.sans, isIP) else []
    ensures forall h :: h in hosts ==> h in spec.sans
  {
    hosts := [];
    if !UsesIngress(spec) { return; }
    for i := 0 to |spec.sans|
      invariant hosts == FilterDNSNames(spec.sans[..i], isIP)
    {
      assert spec.sans[..i + 1][..i] == spec.sans[..i];
      if !isIP(spec.sans[i]) { hosts := hosts + [spec.sans[i]]; }
    }
    assert spec.sans[..|spec.sans|] == spec.sans;
    ghost var at := FilterDNSNamesKeeps(spec.sans, isIP);
    assert forall h :: h in hosts ==> exists i :: 0 <= i < |at| && hosts[i] == h;
  }

  // ---------------------------------------------------------------------------------------------
  // Reading a URL back
  // ---------------------------------------------------------------------------------------------

  /** The authority of an https URL in the syntax of section 3.2 of RFC 3986, without user information: a host, in
      brackets if it has a ':', and a port after a ':' unless it is the default one. */
  datatype Authority = Authority(host: string, port: nat) | Invalid

  function ParsePort(s: string, host: string): Authority {
    if s == "" then Authority(host, HTTPS)
    else if s[0] == ':' && |s| > 1 && (forall c :: c in s[1..] ==> IsDigit(c)) then Authority(host, Number(s[1..]))
    else Invalid
  }

  function ParseAuthority(s: string): Authority {
    if s != "" && s[0] == '[' then
      var i := IndexOf(s, ']');
      if i < |s| then ParsePort(s[i + 1..], s[1..i]) else Invalid
    else
      var i := IndexOf(s, ':');
      ParsePort(s[i..], s[..i])
  }

  lemma ParsePortOfDecimal(host: string, port: nat)
    ensures ParsePort(":" + Decimal(port), host) == Authority(host, port)
  {
    assert (":" + Decimal(port))[1..] == Decimal(port);
    NumberOfDecimal(port);
  }

  lemma ParsePlain(host: string, rest: string)
    requires '[' !in host && ':' !in host && (rest == "" || rest[0] == ':')
    ensures ParseAuthority(host + rest) == ParsePort(rest, host)
  {
    var s := host + rest;
    if rest == "" {
      assert s == host;
      NotThere(host, ':');
      assert s[|s|..] == "" && s[..|s|] == host;
    } else {
      CutAtFirst(host, ':', rest[1..]);
      assert s == host + [':'] + rest[1..];
      assert s[|host|..] == rest && s[..|host|] == host;
    }
    if s != "" && host != "" { assert s[0] == host[0] && host[0] in host; }
  }

  lemma {:induction false} NotThere(s: string, c: char)
    requires c !in s
    ensures IndexOf(s, c) == |s|
  {
  }

  lemma ParseBracketed(host: string, port: nat)
    requires ']' !in host
    ensures ParseAuthority("[" + host + "]" + ":" + Decimal(port)) == Authority(host, port)
  {
    var rest := ":" + Decimal(port);
    var s := "[" + host + "]" + ":" + Decimal(port);
    assert s == ("[" + host) + [']'] + rest;
    CutAtFirst("[" + host, ']', rest);
    assert s[1..|host| + 1] == host && s[|host| + 2..] == rest;
    ParsePortOfDecimal(host, port);
  }

  /** A URL leads back to its host and port exactly when the port is not the default one or the host has no ':', for
      every host without brackets: an IPv6 address at the default port is not put in brackets. */
  lemma UrlRoundTrip(host: string, port: nat)
    requires '[' !in host && ']' !in host
    ensures ParseAuthority(BuildUrl(host, port)) == Authority(host, port) <==> port != HTTPS || ':' !in host
  {
    if port != HTTPS {
      if ':' in host || '%' in host {
        ParseBracketed(host, port);
      } else {
        ParsePlain(host, ":" + Decimal(port));
        assert host + (":" + Decimal(port)) == host + ":" + Decimal(port);
        ParsePortOfDecimal(host, port);
      }
    } else if ':' !in host {
      ParsePlain(host, "");
      assert host + "" == host;
    } else {
      ColonEndsHost(host);
    }
  }

  lemma ColonEndsHost(host: string)
    requires '[' !in host && ':' in host
    ensures ParseAuthority(host).Invalid? || |ParseAuthority(host).host| < |host|
  {
  }

  // ---------------------------------------------------------------------------------------------
  // The service
  // ---------------------------------------------------------------------------------------------

  predicate InNodePortRange(p: int) {
    30000 <= p <= 32767
  }

  method AddLoadBalancerPorts(ports: seq<Port>, c: LoadBalancerConfig) returns (r: seq<Port>)
    ensures r == ports + LoadBalancerPorts(c)
  {
    r := ports + [SERVER_PORT];
    var serverPort := SERVER_PORT.number;
    if c.serverPort.Some? { serverPort := c.serverPort.value; }
    if serverPort > 0 && serverPort != SERVER_PORT.number {
      r := r + [Port(LB_SERVER_PORT_NAME, serverPort, 0)];
    }
    if c.etcdPort.None? { r := r + [ETCD_PORT]; }
    else if c.etcdPort.value > 0 { r := r + [ETCD_PORT.(number := c.etcdPort.value)]; }
  }

  method AddNodePortPorts(ports: seq<Port>, c: NodePortConfig) returns (r: seq<Port>)
    ensures r == ports + NodePortPorts(c)
  {
    r := ports;
    if c.serverPort.None? { r := r + [SERVER_PORT]; }
    else if InNodePortRange(c.serverPort.value) { r := r + [SERVER_PORT.(nodePort := c.serverPort.value)]; }
    if c.etcdPort.None? { r := r + [ETCD_PORT]; }
    else if InNodePortRange(c.etcdPort.value) { r := r + [ETCD_PORT.(nodePort := c.etcdPort.value)]; }
  }

  function LoadBalancerPorts(c: LoadBalancerConfig): seq<Port> {
    [SERVER_PORT]
    + (if c.serverPort.Some? && c.serverPort.value > 0 && c.serverPort.value != HTTPS
       then [Port(LB_SERVER_PORT_NAME, c.serverPort.value, 0)] else [])
    + (if c.etcdPort.None? then [ETCD_PORT] else if c.etcdPort.value > 0 then [ETCD_PORT.(number := c.etcdPort.value)] else [])
  }

  function NodePortPorts(c: NodePortConfig): seq<Port> {
    (if c.serverPort.None? then [SERVER_PORT]
     else if InNodePortRange(c.serverPort.value) then [SERVER_PORT.(nodePort := c.serverPort.value)] else [])
    + (if c.etcdPort.None? then [ETCD_PORT]
       else if InNodePortRange(c.etcdPort.value) then [ETCD_PORT.(nodePort := c.etcdPort.value)] else [])
  }

  /** The type and ports of the cluster's service, before the API server fills in addresses and node ports. */
  method MakeService(spec: Spec) returns (kind: ServiceType, ports: seq<Port>)
    ensures kind == MadeKind(spec) && ports == MadePorts(spec)
    ensures kind == LoadBalancer <==> spec.expose.Some? && spec.expose.value.loadBalancer.Some?
    ensures kind == NodePort <==> spec.expose.Some? && spec.expose.value.loadBalancer.None? && spec.expose.value.nodePort.Some?
    ensures kind != ExternalName
  {
    if spec.expose.None? { return ClusterIP, [SERVER_PORT, ETCD_PORT]; }
    var e := spec.expose.value;
    if e.loadBalancer.Some? {
      kind := LoadBalancer;
      ports := AddLoadBalancerPorts([], e.loadBalancer.value);
    } else if e.nodePort.Some? {
      kind := NodePort;
      ports := AddNodePortPorts([], e.nodePort.value);
    } else {
      kind, ports := ClusterIP, [SERVER_PORT, ETCD_PORT];
    }
  }

  function MadeKind(spec: Spec): ServiceType {
    if spec.expose.None? then ClusterIP
    else if spec.expose.value.loadBalancer.Some? then LoadBalancer
    else if spec.expose.value.nodePort.Some? then NodePort
    else ClusterIP
  }

  function MadePorts(spec: Spec): seq<Port> {
    match MadeKind(spec)
    case LoadBalancer => LoadBalancerPorts(spec.expose.value.loadBalancer.value)
    case NodePort => NodePortPorts(spec.expose.value.nodePort.value)
    case _ => [SERVER_PORT, ETCD_PORT]
  }

  /** What is asked for, in ports: the server at 443 and etcd at 2379. */
  predicate AskedInside(p: Port) {
    p == Port("k3s-server-port", 443, 0) || p == Port("k3s-etcd-port", 2379, 0)
  }

  /** At a load balancer, the server's configured port as an additional one, and etcd's in place of the other; a port that
      is not positive is left out. */
  predicate AskedBalanced(c: LoadBalancerConfig, p: Port) {
    || p == Port("k3s-server-port", 443, 0)
    || (c.serverPort == Some(p.number) && p.number > 0 && p.number != 443 && p == Port("k3s-server-lb-port", p.number, 0))
    || (p.number > 0 && p == Port("k3s-etcd-port", if c.etcdPort.Some? then c.etcdPort.value else 2379, 0))
  }

  /** At a node port service, the configured ports as node ports; one outside of their range is left out. */
  predicate AskedOnNodes(c: NodePortConfig, p: Port) {
    || (p == Port("k3s-server-port", 443, p.nodePort) && AskedOnNode(c.serverPort, p.nodePort))
    || (p == Port("k3s-etcd-port", 2379, p.nodePort) && AskedOnNode(c.etcdPort, p.nodePort))
  }

  predicate AskedOnNode(configured: Option<int>, nodePort: int) {
    if configured.None? then nodePort == 0 else configured == Some(nodePort) && 30000 <= nodePort <= 32767
  }

  predicate Asked(spec: Spec, p: Port) {
    if spec.expose.Some? && spec.expose.value.loadBalancer.Some? then AskedBalanced(spec.expose.value.loadBalancer.value, p)
    else if spec.expose.Some? && spec.expose.value.nodePort.Some? then AskedOnNodes(spec.expose.value.nodePort.value, p)
    else AskedInside(p)
  }

  /** The server's port comes before the others, etcd's after them, and no name is there twice. */
  predicate ServerFirst(ports: seq<Port>) {
    forall i, j :: 0 <= i < j < |ports| ==>
      ports[i].name != ports[j].name && ports[i].name != "k3s-etcd-port" && ports[j].name != "k3s-server-port"
  }

  lemma BalancedAsAsked(c: LoadBalancerConfig)
    ensures forall p :: p in LoadBalancerPorts(c) <==> AskedBalanced(c, p)
  {
  }

  lemma OnNodesAsAsked(c: NodePortConfig)
    ensures forall p :: p in NodePortPorts(c) <==> AskedOnNodes(c, p)
  {
  }

  lemma ServerComesFirst(spec: Spec)
    ensures ServerFirst(MadePorts(spec)) && |MadePorts(spec)| <= 3
  {
    PortNames();
  }

  /** The service has exactly these ports, once each, the server's before the others and etcd's last. */
  lemma MadeAsAsked(spec: Spec)
    ensures forall p :: p in MadePorts(spec) <==> Asked(spec, p)
    ensures ServerFirst(MadePorts(spec))
  {
    match MadeKind(spec)
    case LoadBalancer => BalancedAsAsked(spec.expose.value.loadBalancer.value);
    case NodePort => OnNodesAsAsked(spec.expose.value.nodePort.value);
    case _ =>
    ServerComesFirst(spec);
  }

  /** The stored service: as made, with node ports assigned where none were asked for. */
  predicate StoredAs(spec: Spec, s: Service) {
    && s.kind == MadeKind(spec) && |s.ports| == |MadePorts(spec)|
    && forall i :: 0 <= i < |s.ports| ==>
         var made := MadePorts(spec)[i];
         s.ports[i].name == made.name && s.ports[i].number == made.number && (made.nodePort != 0 ==> s.ports[i].nodePort == made.nodePort)
  }

  /** The server is reached from outside at this port: the node port, or the number, of a port that leads to it. */
  predicate LeadsToServer(s: Service, port: int) {
    exists i :: 0 <= i < |s.ports| && s.ports[i].name in [SERVER_PORT.name, LB_SERVER_PORT_NAME]
                && port == if s.kind == NodePort then s.ports[i].nodePort else s.ports[i].number
  }

  /** From outside, the URL of a load balancer's service always leads to the server, at the custom port if there is one.
      That of a node port service does if and only if the server's node port is not configured outside of the range: else
      the URL has the port of etcd, or of nothing at all. No two ports of a service have the same node port. */
  lemma ExternalPort(spec: Spec, s: Service, hostServerIP: string)
    requires StoredAs(spec, s) && hostServerIP != s.clusterIP
    requires s.kind == NodePort ==> forall i, j :: 0 <= i < j < |s.ports| ==> s.ports[i].nodePort != s.ports[j].nodePort
    ensures s.kind == LoadBalancer ==>
      var c := spec.expose.value.loadBalancer.value.serverPort;
      && LeadsToServer(s, ServerPort(s, hostServerIP))
      && ServerPort(s, hostServerIP) == if c.Some? && c.value > 0 then c.value else HTTPS
    ensures s.kind == NodePort ==>
      var c := spec.expose.value.nodePort.value.serverPort;
      LeadsToServer(s, ServerPort(s, hostServerIP)) <==> c.None? || InNodePortRange(c.value)
  {
    PortNames();
    if s.kind == LoadBalancer {
      LoadBalancerPort(spec, s, hostServerIP);
    } else if s.kind == NodePort {
      var c := spec.expose.value.nodePort.value;
      if c.serverPort.None? || InNodePortRange(c.serverPort.value) {
        assert s.ports[0].name == SERVER_PORT.name;
      } else {
        forall i | 0 <= i < |s.ports| ensures s.ports[i].name == ETCD_PORT.name { assert MadePorts(spec)[i].name == ETCD_PORT.name; }
      }
    }
  }

  lemma PortNames()
    ensures SERVER_PORT.name != ETCD_PORT.name && SERVER_PORT.name != LB_SERVER_PORT_NAME && ETCD_PORT.name != LB_SERVER_PORT_NAME
  {
  }

  lemma LoadBalancerPort(spec: Spec, s: Service, hostServerIP: string)
    requires StoredAs(spec, s) && hostServerIP != s.clusterIP && s.kind == LoadBalancer
    ensures var c := spec.expose.value.loadBalancer.value.serverPort;
      && LeadsToServer(s, ServerPort(s, hostServerIP))
      && ServerPort(s, hostServerIP) == if c.Some? && c.value > 0 then c.value else HTTPS
  {
    PortNames();
    var ports, name := s.ports, LB_SERVER_PORT_NAME;
    assert ports[0].name == SERVER_PORT.name && ports[0].number == HTTPS;
    if |ports| >= 2 { assert ports[..2][..1] == ports[..1]; }
    if |ports| >= 3 { assert ports[..3][..2] == ports[..2] && ports[..3] == ports; }
    assert |ports| == 2 ==> ports[..2] == ports;
    assert |ports| == 1 ==> ports[..1] == ports;
    assert ports[..1][..0] == [];
    assert LastNamed(ports[..1], name, HTTPS) == HTTPS;
    var c := spec.expose.value.loadBalancer.value;
    if c.serverPort.Some? && c.serverPort.value > 0 && c.serverPort.value != HTTPS {
      assert ports[1].name == name && ports[1].number == c.serverPort.value;
      assert LastNamed(ports[..2], name, HTTPS) == c.serverPort.value;
    }
  }
}
