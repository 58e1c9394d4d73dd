/** When the compiled rules do what the services ask. */
module NftMeaning {
  import opened Wrappers
  import opened NftNames
  import opened NftModel
  import opened NftCompiler
  import opened NftDiscovery
  import opened NftMaps
  import opened NftCorrect
  import opened NftTheorem

  /** Two backend lists give the same answer to a draw. */
  predicate SameDraw(a: seq<Backend>, b: seq<Backend>, draw: nat) {
    (a == [] <==> b == []) && (a != [] && b != [] ==> a[draw % |a|] == b[draw % |b|])
  }

  /** The service port a packet is for and the one whose rules its chain ended up with draw the same backend. */
  predicate DrawsAgree(pairs: seq<Pair>, endpoints: seq<Endpoint>, p: Packet, draw: nat) {
    match FirstCluster(pairs, p)
    case Some(i) => SameDraw(PairBackends(pairs[i], endpoints), PairBackends(pairs[LastSharing(pairs, i)], endpoints), draw)
    case None =>
      match FirstNodePort(pairs, p)
      case Some(j) => SameDraw(PairBackends(pairs[j], endpoints), PairBackends(pairs[LastSharing(pairs, j)], endpoints), draw)
      case None => true
  }

  lemma FirstSame(pairs: seq<Pair>, f: Pair -> bool, g: Pair -> bool)
    requires forall i :: 0 <= i < |pairs| ==> f(pairs[i]) == g(pairs[i])
    ensures First(pairs, f) == First(pairs, g)
  {
    hide First;
    var a, b := First(pairs, f), First(pairs, g);
    if a.Some? {
      assert f(pairs[a.value]) == g(pairs[a.value]);
    }
    if b.Some? {
      assert f(pairs[b.value]) == g(pairs[b.value]);
    }
  }

  lemma KeyedIsWanted(pairs: seq<Pair>, p: Packet)
    requires TcpOrUdp(pairs)
    ensures First(pairs, pair => WantsCluster(pair, p)) == FirstCluster(pairs, p)
    ensures First(pairs, pair => WantsNodePort(pair, p)) == FirstNodePort(pairs, p)
  {
    hide First, ValidClusterIp, Lower, AsU32;
    FirstSame(pairs, pair => WantsCluster(pair, p), pair => ClusterKeyed(pair, p));
    FirstSame(pairs, pair => WantsNodePort(pair, p), pair => NodeKeyed(pair, p));
  }

  /** Service ports that share a chain have the same protocol. */
  lemma SharedProtocol(pairs: seq<Pair>, i: nat)
    requires TcpOrUdp(pairs) && i < |pairs|
    ensures Proto(pairs[LastSharing(pairs, i)].1) == Proto(pairs[i].1)
  {
    hide ServiceChainName, Lower;
    var (a, b) := (pairs[LastSharing(pairs, i)], pairs[i]);
    assert DashFree("tcp") && DashFree("udp");
    ProtocolInjective(a.0.namespace, a.0.name, a.1.port, Proto(a.1), b.0.namespace, b.0.name, b.1.port, Proto(b.1));
  }

  /** A chain serves the drawn backend of the last service port sharing it. */
  lemma ReachServes(pairs: seq<Pair>, endpoints: seq<Endpoint>, i: nat, p: Packet, mark: nat, draw: nat)
    requires TcpOrUdp(pairs) && i < |pairs| && L4ProtoNumber(Proto(pairs[i].1)) == p.proto
    ensures Reach(pairs, endpoints, i, p, mark, draw)
         == Serve(PairBackends(pairs[LastSharing(pairs, i)], endpoints), mark, draw)
  {
    hide PairBackends, LastSharing, Lower;
    SharedProtocol(pairs, i);
  }

  lemma ServeSame(a: seq<Backend>, b: seq<Backend>, mark: nat, draw: nat)
    ensures Serve(a, mark, draw) == Serve(b, mark, draw) <==> SameDraw(a, b, draw)
  {
  }

  /** With TCP and UDP ports the rules do what the services ask exactly for the packets and draws on which the
      chain's last owner draws the same backend. */
  lemma MeaningExactly(services: seq<Service>, endpoints: seq<Endpoint>, p: Packet, mark: nat, draw: nat)
    requires TcpOrUdp(Pairs(services))
    ensures RulesetSpec(services, endpoints, p, mark, draw) == PacketSpec(services, endpoints, p, mark, draw) <==>
            DrawsAgree(Pairs(services), endpoints, p, draw)
  {
    hide Pairs, PairBackends, LastSharing, First, Reach, Serve, SameDraw, Lower;
    var pairs := Pairs(services);
    KeyedIsWanted(pairs, p);
    if FirstCluster(pairs, p).Some? {
      var i := FirstCluster(pairs, p).value;
      assert ClusterKeyed(pairs[i], p);
      ReachServes(pairs, endpoints, i, p, SERVICE_TRAFFIC_MARK, draw);
      ServeStops(PairBackends(pairs[LastSharing(pairs, i)], endpoints), SERVICE_TRAFFIC_MARK, draw);
      ServeSame(PairBackends(pairs[i], endpoints), PairBackends(pairs[LastSharing(pairs, i)], endpoints), SERVICE_TRAFFIC_MARK, draw);
    } else if FirstNodePort(pairs, p).Some? {
      var j := FirstNodePort(pairs, p).value;
      assert NodeKeyed(pairs[j], p);
      ReachServes(pairs, endpoints, j, p, mark, draw);
      ServeSame(PairBackends(pairs[j], endpoints), PairBackends(pairs[LastSharing(pairs, j)], endpoints), mark, draw);
    }
  }

  lemma ServeStops(backends: seq<Backend>, mark: nat, draw: nat)
    ensures Serve(backends, mark, draw).Stop?
  {
  }

  // ---------- Whatever the endpoints ----------

  /** Two service ports take their backends from the same place: one service, one port name. */
  predicate SameSource(a: Pair, b: Pair) {
    (a.0.namespace, a.0.name, a.1.name) == (b.0.namespace, b.0.name, b.1.name)
  }

  predicate SharerStandsIn(pairs: seq<Pair>, p: Packet) {
    match FirstCluster(pairs, p)
    case Some(i) => SameSource(pairs[i], pairs[LastSharing(pairs, i)])
    case None =>
      match FirstNodePort(pairs, p)
      case Some(j) => SameSource(pairs[j], pairs[LastSharing(pairs, j)])
      case None => true
  }

  lemma {:induction false} TargetByName(a: ServicePort, b: ServicePort, ports: seq<EndpointPort>)
    requires a.name == b.name
    ensures TargetPort(a, ports) == TargetPort(b, ports)
    decreases |ports|
  {
    if ports != [] {
      TargetByName(a, b, ports[1..]);
    }
  }

  lemma {:induction false} BackendsByName(a: ServicePort, b: ServicePort, subsets: seq<Subset>)
    requires a.name == b.name
    ensures Backends(a, subsets) == Backends(b, subsets)
  {
    hide TargetPort;
    if subsets != [] {
      BackendsByName(a, b, subsets[..|subsets| - 1]);
      TargetByName(a, b, subsets[|subsets| - 1].ports);
    }
  }

  lemma {:induction false} EndpointById(a: Service, b: Service, endpoints: seq<Endpoint>)
    requires (a.namespace, a.name) == (b.namespace, b.name)
    ensures EndpointFor(endpoints, a) == EndpointFor(endpoints, b)
  {
    if endpoints != [] {
      EndpointById(a, b, endpoints[..|endpoints| - 1]);
    }
  }

  lemma SameSourceDraws(a: Pair, b: Pair, endpoints: seq<Endpoint>)
    requires SameSource(a, b)
    ensures PairBackends(a, endpoints) == PairBackends(b, endpoints)
  {
    hide Backends, EndpointFor;
    EndpointById(a.0, b.0, endpoints);
    BackendsByName(a.1, b.1, EndpointFor(endpoints, a.0).subsets);
  }

  lemma BackendsOfOne(p: ServicePort, name: Option<string>)
    ensures Backends(p, [Subset(["10.1.0.1"], [EndpointPort(name, 8080)])]) == []
       <==> p.name != name
  {
    var port := EndpointPort(name, 8080);
    var subset := Subset(["10.1.0.1"], [port]);
    assert [port][1..] == [] && [subset][..0] == [];
    assert TargetPort(p, []) == None && Backends(p, []) == [];
    assert TargetPort(p, [port]) == if name == p.name then Some(port) else None;
    assert Backends(p, [subset]) == SubsetBackends(p, subset);
  }

  /** An endpoint that only one of two different sources draws from. */
  lemma OtherSourceDiffers(a: Pair, b: Pair) returns (endpoints: seq<Endpoint>)
    requires !SameSource(a, b)
    ensures !SameDraw(PairBackends(a, endpoints), PairBackends(b, endpoints), 0)
  {
    hide Backends, EndpointFor;
    var subsets := [Subset(["10.1.0.1"], [EndpointPort(a.1.name, 8080)])];
    endpoints := [Endpoint(a.0.namespace, a.0.name, subsets)];
    BackendsOfOne(a.1, a.1.name);
    BackendsOfOne(b.1, a.1.name);
    NoBackends(b.1);
    EndpointOfOne(endpoints[0], a.0);
    EndpointOfOne(endpoints[0], b.0);
  }

  lemma EndpointOfOne(ep: Endpoint, svc: Service)
    ensures EndpointFor([ep], svc).subsets == if (ep.namespace, ep.name) == (svc.namespace, svc.name) then ep.subsets else []
  {
    assert [ep][..0] == [];
    assert EndpointFor([], svc) == Endpoint(svc.namespace, svc.name, []);
  }

  lemma NoBackends(p: ServicePort)
    ensures Backends(p, []) == []
  {
  }

  /** The rules do what the services ask of a packet, whatever the endpoints, its mark and the draw, exactly when the
      last service port sharing the chain is of the same service and has the same port name. */
  lemma MeaningForAnyEndpoints(services: seq<Service>, p: Packet)
    requires TcpOrUdp(Pairs(services))
    ensures (forall endpoints, mark, draw ::
               RulesetSpec(services, endpoints, p, mark, draw) == PacketSpec(services, endpoints, p, mark, draw)) <==>
            SharerStandsIn(Pairs(services), p)
  {
    hide RulesetSpec, PacketSpec, Pairs, First, LastSharing, PairBackends, SameDraw, SameSource, TcpOrUdp;
    var pairs := Pairs(services);
    if SharerStandsIn(pairs, p) {
      forall endpoints, mark, draw
        ensures RulesetSpec(services, endpoints, p, mark, draw) == PacketSpec(services, endpoints, p, mark, draw)
      {
        StandInAgrees(pairs, endpoints, p, draw);
        MeaningExactly(services, endpoints, p, mark, draw);
      }
    } else {
      var endpoints := StandInDiffers(pairs, p);
      MeaningExactly(services, endpoints, p, 0, 0);
      assert RulesetSpec(services, endpoints, p, 0, 0) != PacketSpec(services, endpoints, p, 0, 0);
    }
  }

  lemma StandInAgrees(pairs: seq<Pair>, endpoints: seq<Endpoint>, p: Packet, draw: nat)
    requires SharerStandsIn(pairs, p)
    ensures DrawsAgree(pairs, endpoints, p, draw)
  {
    hide First, LastSharing, PairBackends, SameSource;
    if FirstCluster(pairs, p).Some? {
      var i := FirstCluster(pairs, p).value;
      SameSourceDraws(pairs[i], pairs[LastSharing(pairs, i)], endpoints);
    } else if FirstNodePort(pairs, p).Some? {
      var j := FirstNodePort(pairs, p).value;
      SameSourceDraws(pairs[j], pairs[LastSharing(pairs, j)], endpoints);
    }
  }

  lemma StandInDiffers(pairs: seq<Pair>, p: Packet) returns (endpoints: seq<Endpoint>)
    requires !SharerStandsIn(pairs, p)
    ensures !DrawsAgree(pairs, endpoints, p, 0)
  {
    hide First, LastSharing, PairBackends, SameSource, SameDraw;
    var i := if FirstCluster(pairs, p).Some? then FirstCluster(pairs, p).value else FirstNodePort(pairs, p).value;
    endpoints := OtherSourceDiffers(pairs[i], pairs[LastSharing(pairs, i)]);
  }

  /** TCP and UDP ports, and no two service ports with the same chain name. */
  ghost predicate Compilable(services: seq<Service>) {
    TcpOrUdp(Pairs(services)) && DistinctChains(Pairs(services))
  }

  lemma DistinctDrawsAgree(pairs: seq<Pair>, endpoints: seq<Endpoint>, p: Packet, draw: nat)
    requires DistinctChains(pairs)
    ensures DrawsAgree(pairs, endpoints, p, draw)
  {
    hide First, PairBackends, ChainOf;
    forall i | 0 <= i < |pairs|
      ensures LastSharing(pairs, i) == i
    {
    }
  }

  /** Compiler correctness: after configuration and refresh every packet, entering from outside or sent
      locally, meets exactly what its services ask. */
  lemma CompilerCorrect(t: Table, services: seq<Service>, endpoints: seq<Endpoint>, legacy: bool,
                        p: Packet, mark: nat, draw: nat, depth: nat)
    requires ClusterIps in t.maps && NodePorts in t.maps && Compilable(services) && depth >= 5
    ensures var r := Exec(t, FullConfig(services, endpoints, legacy) + DiscoveryRefresh(services));
            && r.Some?
            && EvalChain(r.value, PREROUTING, p, mark, draw, depth) == PacketSpec(services, endpoints, p, mark, draw)
            && EvalChain(r.value, OUTPUT, p, mark, draw, depth) == PacketSpec(services, endpoints, p, mark, draw)
  {
    hide Exec, FullConfig, DiscoveryRefresh, RulesetSpec, PacketSpec, EvalChain, Consistent, DrawsAgree, TcpOrUdp, DistinctChains;
    TcpOrUdpIsConsistent(services);
    CompilerExact(t, services, endpoints, legacy, p, mark, draw, depth);
    MeaningExactly(services, endpoints, p, mark, draw);
    DistinctDrawsAgree(Pairs(services), endpoints, p, draw);
  }

  function PairId(pair: Pair): (string, string, int, string) {
    (pair.0.namespace, pair.0.name, pair.1.port, Proto(pair.1))
  }

  /** TCP and UDP services with dash-free namespaces and different ids compile. */
  lemma IdentifiedServicesCompile(services: seq<Service>)
    requires TcpOrUdp(Pairs(services))
    requires forall i :: 0 <= i < |Pairs(services)| ==> DashFree(Pairs(services)[i].0.namespace)
    requires forall i, j :: 0 <= i < j < |Pairs(services)| ==> PairId(Pairs(services)[i]) != PairId(Pairs(services)[j])
    ensures Compilable(services)
  {
    hide ServiceChainName, Lower, Pairs;
    var pairs := Pairs(services);
    assert DashFree("tcp") && DashFree("udp");
    forall i, j | 0 <= i < j < |pairs|
      ensures ChainOf(pairs[i].0, pairs[i].1) != ChainOf(pairs[j].0, pairs[j].1)
    {
      var (s, p, s', p') := (pairs[i].0, pairs[i].1, pairs[j].0, pairs[j].1);
      assert PairId(pairs[i]) != PairId(pairs[j]);
      if ChainOf(s, p) == ChainOf(s', p') {
        ServiceInjective(s.namespace, s.name, p.port, Proto(p), s'.namespace, s'.name, p'.port, Proto(p'));
      }
    }
  }

  // ---------- Services that meet ----------

  const WEB: ServicePort := ServicePort(None, 80, "tcp", None)
  const ONE: Service := Service("a-b", "c", Some("10.0.0.1"), [WEB])
  const TWO: Service := Service("a", "b-c", Some("10.0.0.2"), [WEB])
  const ENDPOINTS: seq<Endpoint> := [
    Endpoint("a-b", "c", [Subset(["10.1.0.1"], [EndpointPort(None, 8080)])]),
    Endpoint("a", "b-c", [Subset(["10.1.0.2"], [EndpointPort(None, 8080)])])]

  lemma LowerTcp()
    ensures Lower("tcp") == "tcp"
  {
  }

  lemma TwoPairs()
    ensures Pairs([ONE, TWO]) == [(ONE, WEB), (TWO, WEB)]
  {
    assert [ONE, TWO][..1] == [ONE] && [ONE][..0] == [];
    assert PortPairs(ONE, [WEB]) == [(ONE, WEB)] && PortPairs(TWO, [WEB]) == [(TWO, WEB)];
    assert Pairs([]) == [] && Pairs([ONE]) == [] + [(ONE, WEB)];
    assert Pairs([ONE, TWO]) == Pairs([ONE]) + [(TWO, WEB)];
  }

  lemma OneBackend(svc: Service, ep: Endpoint, address: string)
    requires ep.subsets == [Subset([address], [EndpointPort(None, 8080)])]
    ensures Backends(WEB, ep.subsets) == [Backend(address, 8080)]
  {
    assert ep.subsets[..0] == [];
    assert TargetPort(WEB, [EndpointPort(None, 8080)]) == Some(EndpointPort(None, 8080));
    assert AsU32(8080) == 8080;
    assert SubsetBackends(WEB, ep.subsets[0])[0] == Backend(address, 8080);
  }

  /** A packet for one service is sent to a backend of another, because their chains have the same name. */
  lemma MisdirectedPacket(mark: nat, draw: nat)
    ensures var p := Packet(6, "10.0.0.1", 80);
            && PacketSpec([ONE, TWO], ENDPOINTS, p, mark, draw) == Stop(Translated(Backend("10.1.0.1", 8080)), SERVICE_TRAFFIC_MARK)
            && RulesetSpec([ONE, TWO], ENDPOINTS, p, mark, draw) == Stop(Translated(Backend("10.1.0.2", 8080)), SERVICE_TRAFFIC_MARK)
  {
    hide Backends, ServiceChainName, Lower, Pairs, LastSharing;
    var p, pairs := Packet(6, "10.0.0.1", 80), [(ONE, WEB), (TWO, WEB)];
    LowerTcp();
    TwoPairs();
    NamesCanMeet(80, "tcp");
    assert WantsCluster(pairs[0], p);
    KeyedIsWanted(pairs, p);
    assert FirstCluster(pairs, p) == Some(0);
    assert LastSharing(pairs, 0) == 1 by {
      assert SameChain(pairs[1], pairs[0]);
    }
    assert ENDPOINTS[..1] == [ENDPOINTS[0]];
    assert EndpointFor(ENDPOINTS, ONE) == ENDPOINTS[0] && EndpointFor(ENDPOINTS, TWO) == ENDPOINTS[1];
    OneBackend(ONE, ENDPOINTS[0], "10.1.0.1");
    OneBackend(TWO, ENDPOINTS[1], "10.1.0.2");
    ReachServes(pairs, ENDPOINTS, 0, p, SERVICE_TRAFFIC_MARK, draw);
  }

  // ---------- A third protocol ----------

  const STREAM: ServicePort := ServicePort(None, 80, "sctp", None)
  const MIXED: Service := Service("a", "b", Some("10.0.0.1"), [WEB, STREAM])

  /** One service with TCP and SCTP on the same port cannot be deployed: both get the key of TCP. */
  lemma MixedPortsRefused(t: Table, endpoints: seq<Endpoint>, legacy: bool)
    requires ClusterIps in t.maps && NodePorts in t.maps
    ensures Exec(t, FullConfig([MIXED], endpoints, legacy) + DiscoveryRefresh([MIXED])).None?
  {
    hide Exec, FullConfig, DiscoveryRefresh, EvalChain, RulesetSpec, Pairs, Consistent;
    CompilerExact(t, [MIXED], endpoints, legacy, Packet(6, "", 0), 0, 0, 5);
    MixedInconsistent();
  }

  lemma MixedInconsistent()
    ensures !Consistent([MIXED])
  {
    hide ServiceChainName, Lower, Pairs, Consistent;
    var pairs := [(MIXED, WEB), (MIXED, STREAM)];
    MixedPairs();
    ConsistentExactly([MIXED]);
    LowerTcp();
    LowerSctp();
    assert KeptCluster(pairs, 0) && KeptCluster(pairs, 1) by {
      assert pairs[..0] == [] && pairs[..1] == [(MIXED, WEB)];
    }
    if ChainOf(MIXED, WEB) == ChainOf(MIXED, STREAM) {
      PortInjective("a", "b", 80, "tcp", 80, "sctp");
    }
    assert !ClusterKeysAgree(pairs);
  }

  lemma MixedPairs()
    ensures Pairs([MIXED]) == [(MIXED, WEB), (MIXED, STREAM)]
  {
    assert [MIXED][..0] == [];
    assert PortPairs(MIXED, [WEB, STREAM]) == [(MIXED, WEB), (MIXED, STREAM)];
  }

  lemma LowerSctp()
    ensures Lower("sctp") == "sctp"
  {
  }
}
