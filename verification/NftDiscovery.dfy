/** Service discovery: the verdict maps that lead packets to service chains, the delta between two
    service snapshots, and the full configuration. */
module NftDiscovery {
  import opened Wrappers
  import opened NftNames
  import opened NftModel
  import opened NftCompiler

  type Pair = (Service, ServicePort)

  function PortPairs(svc: Service, ports: seq<ServicePort>): (r: seq<Pair>)
    ensures |r| == |ports|
  {
    seq(|ports|, i requires 0 <= i < |ports| => (svc, ports[i]))
  }

  /** Every service port, in the order the services list them. */
  function Pairs(services: seq<Service>): seq<Pair> {
    if services == [] then []
    else
      var n := |services| - 1;
      Pairs(services[..n]) + PortPairs(services[n], services[n].ports)
  }

  // ---------- Lookup maps ----------

  function SeenIps(pairs: seq<Pair>): set<(string, string, int)> {
    set i | 0 <= i < |pairs| && ValidClusterIp(pairs[i].0).Some? ::
      (ValidClusterIp(pairs[i].0).value, Proto(pairs[i].1), pairs[i].1.port)
  }

  function SeenNodePorts(pairs: seq<Pair>): set<(string, int)> {
    set i | 0 <= i < |pairs| && pairs[i].1.nodePort.Some? :: (Proto(pairs[i].1), pairs[i].1.nodePort.value)
  }

  function ClusterElement(ip: string, pair: Pair): Element {
    Element(ClusterKey(L4ProtoNumber(Proto(pair.1)), ip, AsU32(pair.1.port)), MarkChainName(ChainOf(pair.0, pair.1)))
  }

  function NodeElement(nodePort: int, pair: Pair): Element {
    Element(NodeKey(L4ProtoNumber(Proto(pair.1)), AsU32(nodePort)), ChainOf(pair.0, pair.1))
  }

  /** One element per distinct address, protocol and port; the first service port wins. */
  function ClusterElements(pairs: seq<Pair>): seq<Element> {
    if pairs == [] then []
    else
      var front, last := pairs[..|pairs| - 1], pairs[|pairs| - 1];
      match ValidClusterIp(last.0)
      case None => ClusterElements(front)
      case Some(ip) =>
        if (ip, Proto(last.1), last.1.port) in SeenIps(front) then ClusterElements(front)
        else ClusterElements(front) + [ClusterElement(ip, last)]
  }

  function NodeElements(pairs: seq<Pair>): seq<Element> {
    if pairs == [] then []
    else
      var front, last := pairs[..|pairs| - 1], pairs[|pairs| - 1];
      match last.1.nodePort
      case None => NodeElements(front)
      case Some(np) =>
        if (Proto(last.1), np) in SeenNodePorts(front) then NodeElements(front)
        else NodeElements(front) + [NodeElement(np, last)]
  }

  /** The elements of one transport: UDP, or everything else. */
  function Transport(es: seq<Element>, udp: bool): seq<Element> {
    if es == [] then []
    else
      var front, last := es[..|es| - 1], es[|es| - 1];
      if (last.key.proto == 17) == udp then Transport(front, udp) + [last] else Transport(front, udp)
  }

  datatype LookupMaps = LookupMaps(ipsTcp: seq<Element>, ipsUdp: seq<Element>, portsTcp: seq<Element>, portsUdp: seq<Element>)

  function LookupOf(pairs: seq<Pair>): LookupMaps {
    var c, n := ClusterElements(pairs), NodeElements(pairs);
    LookupMaps(Transport(c, false), Transport(c, true), Transport(n, false), Transport(n, true))
  }

  lemma SeenSnoc(pairs: seq<Pair>, last: Pair)
    ensures SeenIps(pairs + [last]) == SeenIps(pairs)
      + if ValidClusterIp(last.0).Some? then {(ValidClusterIp(last.0).value, Proto(last.1), last.1.port)} else {}
    ensures SeenNodePorts(pairs + [last]) == SeenNodePorts(pairs)
      + if last.1.nodePort.Some? then {(Proto(last.1), last.1.nodePort.value)} else {}
  {
    hide ValidClusterIp, Proto;
    var all := pairs + [last];
    assert forall i :: 0 <= i < |pairs| ==> all[i] == pairs[i];
    assert all[|pairs|] == last;
  }

  lemma TransportSnoc(es: seq<Element>, last: Element, udp: bool)
    ensures Transport(es + [last], udp) == if (last.key.proto == 17) == udp then Transport(es, udp) + [last] else Transport(es, udp)
  {
    assert (es + [last])[..|es|] == es;
  }

  /** One service port through both lookup tables. */
  method AddPair(maps: LookupMaps, seenIps: set<(string, string, int)>, seenPorts: set<(string, int)>,
                 ghost done: seq<Pair>, svc: Service, p: ServicePort)
    returns (maps': LookupMaps, seenIps': set<(string, string, int)>, seenPorts': set<(string, int)>)
    requires maps == LookupOf(done) && seenIps == SeenIps(done) && seenPorts == SeenNodePorts(done)
    ensures var all := done + [(svc, p)];
            maps' == LookupOf(all) && seenIps' == SeenIps(all) && seenPorts' == SeenNodePorts(all)
  {
    hide ValidClusterIp, SeenIps, SeenNodePorts, ChainOf, MarkChainName, Transport, AsU32, Lower;
    ghost var pair := (svc, p);
    ghost var all := done + [pair];
    assert all[..|done|] == done && all[|done|] == pair;
    SeenSnoc(done, pair);
    maps', seenIps', seenPorts' := maps, seenIps, seenPorts;
    var protocol := Lower(p.protocol);
    var c := ChainOf(svc, p);
    var clusterIp := ValidClusterIp(svc);
    if clusterIp.Some? {
      var dedup := (clusterIp.value, protocol, p.port);
      if dedup !in seenIps' {
        var entry := Element(ClusterKey(L4ProtoNumber(protocol), clusterIp.value, AsU32(p.port)), MarkChainName(c));
        TransportSnoc(ClusterElements(done), entry, false);
        TransportSnoc(ClusterElements(done), entry, true);
        if protocol == "udp" {
          maps' := maps'.(ipsUdp := maps'.ipsUdp + [entry]);
        } else {
          maps' := maps'.(ipsTcp := maps'.ipsTcp + [entry]);
        }
      }
      seenIps' := seenIps' + {dedup};
    }
    if p.nodePort.Some? {
      var dedup := (protocol, p.nodePort.value);
      if dedup !in seenPorts' {
        var entry := Element(NodeKey(L4ProtoNumber(protocol), AsU32(p.nodePort.value)), c);
        TransportSnoc(NodeElements(done), entry, false);
        TransportSnoc(NodeElements(done), entry, true);
        if protocol == "udp" {
          maps' := maps'.(portsUdp := maps'.portsUdp + [entry]);
        } else {
          maps' := maps'.(portsTcp := maps'.portsTcp + [entry]);
        }
      }
      seenPorts' := seenPorts' + {dedup};
    }
  }

  method BuildServiceLookupMaps(services: seq<Service>) returns (maps: LookupMaps)
    ensures maps == LookupOf(Pairs(services))
  {
    hide LookupOf, SeenIps, SeenNodePorts;
    maps := LookupMaps([], [], [], []);
    var seenIps: set<(string, string, int)> := {};
    var seenPorts: set<(string, int)> := {};
    EmptyLookup();
    for i := 0 to |services|
      invariant maps == LookupOf(Pairs(services[..i]))
      invariant seenIps == SeenIps(Pairs(services[..i])) && seenPorts == SeenNodePorts(Pairs(services[..i]))
    {
      var svc := services[i];
      ghost var before := Pairs(services[..i]);
      assert before + PortPairs(svc, svc.ports[..0]) == before;
      for j := 0 to |svc.ports|
        invariant maps == LookupOf(before + PortPairs(svc, svc.ports[..j]))
        invariant seenIps == SeenIps(before + PortPairs(svc, svc.ports[..j]))
        invariant seenPorts == SeenNodePorts(before + PortPairs(svc, svc.ports[..j]))
      {
        ghost var done := before + PortPairs(svc, svc.ports[..j]);
        assert before + PortPairs(svc, svc.ports[..j + 1]) == done + [(svc, svc.ports[j])];
        maps, seenIps, seenPorts := AddPair(maps, seenIps, seenPorts, done, svc, svc.ports[j]);
      }
      assert svc.ports[..|svc.ports|] == svc.ports;
      assert services[..i + 1][..i] == services[..i];
    }
    assert services[..|services|] == services;
  }

  lemma EmptyLookup()
    ensures LookupOf([]) == LookupMaps([], [], [], []) && SeenIps([]) == {} && SeenNodePorts([]) == {}
  {
  }

  // ---------- Refresh ----------

  function ClusterOrder(services: seq<Service>): seq<Element> {
    var c := ClusterElements(Pairs(services));
    Transport(c, false) + Transport(c, true)
  }

  function NodeOrder(services: seq<Service>): seq<Element> {
    var n := NodeElements(Pairs(services));
    Transport(n, false) + Transport(n, true)
  }

  const LOOKUP_RULES: seq<Rule> := [
    [MatchProto("tcp"), LookupCluster("tcp")],
    [MatchProto("udp"), LookupCluster("udp")],
    [MatchProto("tcp"), LookupNodePort("tcp")],
    [MatchProto("udp"), LookupNodePort("udp")]]

  function AddRules(c: Name, rules: seq<Rule>): seq<Cmd> {
    if rules == [] then [] else AddRules(c, rules[..|rules| - 1]) + [AddRule(c, rules[|rules| - 1])]
  }

  function LookupCommands(): seq<Cmd> {
    [FlushChain(CHAIN_SERVICES)] + AddRules(CHAIN_SERVICES, LOOKUP_RULES) + [FlushMap(ClusterIps), FlushMap(NodePorts)]
  }

  function AddIfAny(m: MapName, es: seq<Element>): seq<Cmd> {
    if es == [] then [] else [AddElements(m, es)]
  }

  function DeleteIfAny(m: MapName, es: seq<Element>): seq<Cmd> {
    if es == [] then [] else [DeleteElements(m, es)]
  }

  function DiscoveryRefresh(services: seq<Service>): seq<Cmd> {
    LookupCommands() + AddIfAny(ClusterIps, ClusterOrder(services)) + AddIfAny(NodePorts, NodeOrder(services))
  }

  method GenerateServicesDiscoveryRefresh(services: seq<Service>) returns (objects: seq<Cmd>)
    ensures objects == DiscoveryRefresh(services)
  {
    hide ClusterElements, NodeElements, Transport;
    objects := [FlushChain(CHAIN_SERVICES)];
    for i := 0 to |LOOKUP_RULES|
      invariant objects == [FlushChain(CHAIN_SERVICES)] + AddRules(CHAIN_SERVICES, LOOKUP_RULES[..i])
    {
      assert LOOKUP_RULES[..i + 1][..i] == LOOKUP_RULES[..i];
      objects := objects + [AddRule(CHAIN_SERVICES, LOOKUP_RULES[i])];
    }
    assert LOOKUP_RULES[..|LOOKUP_RULES|] == LOOKUP_RULES;
    objects := objects + [FlushMap(ClusterIps)];
    objects := objects + [FlushMap(NodePorts)];
    assert objects == LookupCommands();
    var lookup := BuildServiceLookupMaps(services);
    var clusterEntries := lookup.ipsTcp + lookup.ipsUdp;
    var nodeportEntries := lookup.portsTcp + lookup.portsUdp;
    if clusterEntries != [] {
      objects := objects + [AddElements(ClusterIps, clusterEntries)];
    }
    if nodeportEntries != [] {
      objects := objects + [AddElements(NodePorts, nodeportEntries)];
    }
  }

  // ---------- Delta ----------

  /** The members of a set in some order, each once. */
  ghost predicate OrderOf(es: seq<Element>, s: set<Element>) {
    && (forall i :: 0 <= i < |es| ==> es[i] in s)
    && (forall e :: e in s ==> e in es)
    && (forall i, j :: 0 <= i < j < |es| ==> es[i] != es[j])
  }

  datatype Delta = Delta(clusterDeletes: seq<Element>, clusterAdds: seq<Element>,
                         nodeDeletes: seq<Element>, nodeAdds: seq<Element>)

  function ElementSet(es: seq<Element>): set<Element> { set e | e in es }

  /** Elements only in the old snapshot are deleted and elements only in the new one added, in any order. */
  ghost predicate DeltaOf(d: Delta, old_: seq<Service>, new_: seq<Service>) {
    var oldC, newC := ElementSet(ClusterOrder(old_)), ElementSet(ClusterOrder(new_));
    var oldN, newN := ElementSet(NodeOrder(old_)), ElementSet(NodeOrder(new_));
    && OrderOf(d.clusterDeletes, oldC - newC) && OrderOf(d.clusterAdds, newC - oldC)
    && OrderOf(d.nodeDeletes, oldN - newN) && OrderOf(d.nodeAdds, newN - oldN)
  }

  function DeltaCommands(d: Delta): seq<Cmd> {
    DeleteIfAny(ClusterIps, d.clusterDeletes) + AddIfAny(ClusterIps, d.clusterAdds)
    + DeleteIfAny(NodePorts, d.nodeDeletes) + AddIfAny(NodePorts, d.nodeAdds)
  }

  /** The members of a hash set in iteration order. */
  method Drain(s: set<Element>) returns (es: seq<Element>)
    ensures OrderOf(es, s)
  {
    es := [];
    var rest := s;
    while rest != {}
      invariant rest <= s && OrderOf(es, s - rest)
      decreases |rest|
    {
      var e :| e in rest;
      rest := rest - {e};
      es := es + [e];
    }
  }

  method GenerateServicesDiscoveryDelta(oldServices: seq<Service>, newServices: seq<Service>)
    returns (objects: seq<Cmd>, d: Delta)
    ensures DeltaOf(d, oldServices, newServices) && objects == DeltaCommands(d)
  {
    hide OrderOf, ClusterElements, NodeElements, Transport, Pairs;
    var oldLookup := BuildServiceLookupMaps(oldServices);
    var newLookup := BuildServiceLookupMaps(newServices);
    var oldCluster := ElementSet(oldLookup.ipsTcp + oldLookup.ipsUdp);
    var oldNodes := ElementSet(oldLookup.portsTcp + oldLookup.portsUdp);
    var newCluster := ElementSet(newLookup.ipsTcp + newLookup.ipsUdp);
    var newNodes := ElementSet(newLookup.portsTcp + newLookup.portsUdp);
    objects := [];
    var clusterDeletes := Drain(oldCluster - newCluster);
    var clusterAdds := Drain(newCluster - oldCluster);
    if clusterDeletes != [] {
      objects := objects + [DeleteElements(ClusterIps, clusterDeletes)];
    }
    if clusterAdds != [] {
      objects := objects + [AddElements(ClusterIps, clusterAdds)];
    }
    var nodeDeletes := Drain(oldNodes - newNodes);
    var nodeAdds := Drain(newNodes - oldNodes);
    if nodeDeletes != [] {
      objects := objects + [DeleteElements(NodePorts, nodeDeletes)];
    }
    if nodeAdds != [] {
      objects := objects + [AddElements(NodePorts, nodeAdds)];
    }
    d := Delta(clusterDeletes, clusterAdds, nodeDeletes, nodeAdds);
  }

  // ---------- Full configuration ----------

  /** The last endpoint object listed for the service, or one without addresses. */
  function EndpointFor(endpoints: seq<Endpoint>, svc: Service): Endpoint {
    if endpoints == [] then Endpoint(svc.namespace, svc.name, [])
    else
      var last := endpoints[|endpoints| - 1];
      if (last.namespace, last.name) == (svc.namespace, svc.name) then last
      else EndpointFor(endpoints[..|endpoints| - 1], svc)
  }

  function UpdateServices(services: seq<Service>, endpoints: seq<Endpoint>, legacy: bool): seq<Cmd> {
    if services == [] then []
    else
      var n := |services| - 1;
      UpdateServices(services[..n], endpoints, legacy)
      + UpdateService(services[n], EndpointFor(endpoints, services[n]), legacy)
  }

  function AddChains(names: seq<Name>): seq<Cmd> {
    if names == [] then [] else AddChains(names[..|names| - 1]) + [AddChain(names[|names| - 1])]
  }

  const MASQUERADE_RULE: Rule := [MatchMark(SERVICE_TRAFFIC_MARK), Masquerade]

  /** Base chains and the rule each receives. */
  const BASE_FILLS: seq<(Name, Rule)> := [
    (PREROUTING, [Jump(CHAIN_SERVICES)]),
    (OUTPUT, [Jump(CHAIN_SERVICES)]),
    (POSTROUTING, [Jump(CHAIN_MASQUERADE)]),
    (CHAIN_MASQUERADE, MASQUERADE_RULE)]

  function Fill(fills: seq<(Name, Rule)>): seq<Cmd> {
    if fills == [] then []
    else
      var last := fills[|fills| - 1];
      Fill(fills[..|fills| - 1]) + [AddRule(last.0, last.1)]
  }

  function FullConfig(services: seq<Service>, endpoints: seq<Endpoint>, legacy: bool): seq<Cmd> {
    [AddTable, FlushTable] + AddChains(BASE_CHAINS) + Fill(BASE_FILLS) + UpdateServices(services, endpoints, legacy)
  }

  method GenerateNftablesConfig(services: seq<Service>, endpoints: seq<Endpoint>, legacy: bool)
    returns (objects: seq<Cmd>)
    ensures objects == FullConfig(services, endpoints, legacy)
  {
    hide UpdateService;
    objects := [AddTable];
    objects := objects + [FlushTable];
    for i := 0 to |BASE_CHAINS|
      invariant objects == [AddTable, FlushTable] + AddChains(BASE_CHAINS[..i])
    {
      assert BASE_CHAINS[..i + 1][..i] == BASE_CHAINS[..i];
      objects := objects + [AddChain(BASE_CHAINS[i])];
    }
    assert BASE_CHAINS[..|BASE_CHAINS|] == BASE_CHAINS;
    ghost var chains := objects;
    for i := 0 to |BASE_FILLS|
      invariant objects == chains + Fill(BASE_FILLS[..i])
    {
      assert BASE_FILLS[..i + 1][..i] == BASE_FILLS[..i];
      objects := objects + [AddRule(BASE_FILLS[i].0, BASE_FILLS[i].1)];
    }
    assert BASE_FILLS[..|BASE_FILLS|] == BASE_FILLS;
    ghost var head := objects;
    var parsed: map<(string, string), Endpoint> := map[];
    for i := 0 to |endpoints|
      invariant forall svc :: EndpointFor(endpoints[..i], svc) ==
                  if (svc.namespace, svc.name) in parsed then parsed[(svc.namespace, svc.name)]
                  else Endpoint(svc.namespace, svc.name, [])
    {
      assert endpoints[..i + 1][..i] == endpoints[..i];
      parsed := parsed[(endpoints[i].namespace, endpoints[i].name) := endpoints[i]];
    }
    assert endpoints[..|endpoints|] == endpoints;
    for i := 0 to |services|
      invariant objects == head + UpdateServices(services[..i], endpoints, legacy)
    {
      assert services[..i + 1][..i] == services[..i];
      var svc := services[i];
      var ep := if (svc.namespace, svc.name) in parsed then parsed[(svc.namespace, svc.name)]
                else Endpoint(svc.namespace, svc.name, []);
      assert ep == EndpointFor(endpoints, svc);
      var updateObjects := GenerateServiceUpdateObjects(svc, ep, legacy);
      objects := objects + updateObjects;
    }
    assert services[..|services|] == services;
  }
}
