/** The compiled table treats every packet as the services and endpoints ask. */
module NftCorrect {
  import opened Wrappers
  import opened NftNames
  import opened NftModel
  import opened NftCompiler
  import opened NftDiscovery
  import opened NftInstall
  import opened NftMaps

  // ---------- What a packet should meet ----------

  /** The service port's backends take the packet; without backends it is rejected. */
  function Serve(backends: seq<Backend>, mark: nat, draw: nat): Outcome {
    if backends == [] then Stop(Rejected, mark) else Stop(Translated(backends[draw % |backends|]), mark)
  }

  function PairBackends(pair: Pair, endpoints: seq<Endpoint>): seq<Backend> {
    Backends(pair.1, EndpointFor(endpoints, pair.0).subsets)
  }

  predicate WantsCluster(pair: Pair, p: Packet) {
    ValidClusterIp(pair.0) == Some(p.daddr) && ProtoIs(Proto(pair.1), p.proto) && AsU32(pair.1.port) == p.dport
  }

  predicate WantsNodePort(pair: Pair, p: Packet) {
    pair.1.nodePort.Some? && ProtoIs(Proto(pair.1), p.proto) && AsU32(pair.1.nodePort.value) == p.dport
  }

  /** What the services ask: the first service port by cluster IP, marked; else the first by node port,
      unmarked; else nothing. */
  function PacketSpec(services: seq<Service>, endpoints: seq<Endpoint>, p: Packet, mark: nat, draw: nat): Outcome {
    var pairs := Pairs(services);
    match First(pairs, pair => WantsCluster(pair, p))
    case Some(i) => Serve(PairBackends(pairs[i], endpoints), SERVICE_TRAFFIC_MARK, draw)
    case None =>
      match First(pairs, pair => WantsNodePort(pair, p))
      case Some(j) => Serve(PairBackends(pairs[j], endpoints), mark, draw)
      case None => Fall(mark)
  }

  predicate SameChain(a: Pair, b: Pair) { ChainOf(a.0, a.1) == ChainOf(b.0, b.1) }

  /** The last service port that has the same chain: the one whose rules the chain ends up with. */
  function LastSharing(pairs: seq<Pair>, i: nat): (k: nat)
    requires i < |pairs|
    ensures i <= k < |pairs| && SameChain(pairs[k], pairs[i])
    ensures forall j :: k < j < |pairs| ==> !SameChain(pairs[j], pairs[i])
  {
    var n := |pairs| - 1;
    if i == n || SameChain(pairs[n], pairs[i]) then n else LastSharing(pairs[..n], i)
  }

  /** What the chain of a service port does to a packet. */
  function Reach(pairs: seq<Pair>, endpoints: seq<Endpoint>, i: nat, p: Packet, mark: nat, draw: nat): Outcome
    requires i < |pairs|
  {
    var served := pairs[LastSharing(pairs, i)];
    Dispatch(Proto(served.1), PairBackends(served, endpoints), p, mark, draw)
  }

  function NodePart(pairs: seq<Pair>, endpoints: seq<Endpoint>, p: Packet, mark: nat, draw: nat): Outcome {
    match FirstNodePort(pairs, p)
    case Some(j) => Reach(pairs, endpoints, j, p, mark, draw)
    case None => Fall(mark)
  }

  /** What the compiled rules do, whatever the services. */
  function RulesetSpec(services: seq<Service>, endpoints: seq<Endpoint>, p: Packet, mark: nat, draw: nat): Outcome {
    var pairs := Pairs(services);
    match FirstCluster(pairs, p)
    case Some(i) =>
      (match Reach(pairs, endpoints, i, p, SERVICE_TRAFFIC_MARK, draw)
       case Fall(m) => NodePart(pairs, endpoints, p, m, draw)
       case o => o)
    case None => NodePart(pairs, endpoints, p, mark, draw)
  }

  // ---------- Evaluating the generated rules ----------

  lemma EvalSingle(t: Table, r: Rule, p: Packet, mark: nat, draw: nat, depth: nat)
    ensures EvalRules(t, [r], p, mark, draw, depth)
         == match EvalRule(t, r, p, mark, draw, depth) case Next(m) => Fall(m) case Leave(m) => Fall(m) case Done(o) => o
  {
    hide EvalRule;
    assert [r][1..] == [];
  }

  lemma {:induction false} FindAt<T>(entries: seq<(nat, T)>, base: nat, k: nat)
    requires forall i :: 0 <= i < |entries| ==> entries[i].0 == base + i
    ensures Find(entries, k) == if base <= k < base + |entries| then Some(entries[k - base].1) else None
  {
    if entries != [] {
      FindAt(entries[1..], base + 1, k);
    }
  }

  /** The numbered entries cover exactly 0 .. n-1. */
  lemma FindNumbered<T>(xs: seq<T>, k: nat)
    ensures Find(Numbered(xs), k) == if k < |xs| then Some(xs[k]) else None
  {
    FindAt(Numbered(xs), 0, k);
  }

  function Dispatch(protocol: string, backends: seq<Backend>, p: Packet, mark: nat, draw: nat): Outcome {
    if backends == [] || ProtoIs(protocol, p.proto) then Serve(backends, mark, draw) else Fall(mark)
  }

  /** The chain and, in legacy mode, its endpoint chains are in the table. */
  ghost predicate Installed(t: Table, c: Name, protocol: string, backends: seq<Backend>, legacy: bool) {
    && c in t.chains && t.chains[c] == [DispatchRule(c, protocol, backends, legacy)]
    && (legacy ==> forall i :: 0 <= i < |backends| ==>
          EndpointChainName(c, i) in t.chains && t.chains[EndpointChainName(c, i)] == [EndpointRule(protocol, backends[i])])
  }

  lemma EvalEndpoint(t: Table, e: Name, protocol: string, b: Backend, p: Packet, mark: nat, draw: nat, depth: nat)
    requires e in t.chains && t.chains[e] == [EndpointRule(protocol, b)] && depth >= 1
    ensures EvalChain(t, e, p, mark, draw, depth)
         == if ProtoIs(protocol, p.proto) then Stop(Translated(b), mark) else Fall(mark)
  {
    var r := EndpointRule(protocol, b);
    EvalSingle(t, r, p, mark, draw, depth - 1);
    assert r[1..] == [Dnat(b)];
  }

  lemma EvalGoto(t: Table, c: Name, protocol: string, backends: seq<Backend>, p: Packet, mark: nat, draw: nat, depth: nat)
    requires Installed(t, c, protocol, backends, true) && backends != [] && depth >= 2
    ensures EvalChain(t, c, p, mark, draw, depth) == Dispatch(protocol, backends, p, mark, draw)
  {
    hide EndpointChainName, ProtoIs;
    var n := |backends|;
    var r := GotoRule(c, n);
    var k := draw % n;
    FindNumbered(EndpointNames(c, n), k);
    var e := EndpointChainName(c, k);
    EvalEndpoint(t, e, protocol, backends[k], p, mark, draw, depth - 1);
    EvalSingle(t, r, p, mark, draw, depth - 1);
  }

  lemma EvalDnat(t: Table, c: Name, protocol: string, backends: seq<Backend>, p: Packet, mark: nat, draw: nat, depth: nat)
    requires c in t.chains && t.chains[c] == [DnatRule(protocol, backends)] && backends != [] && depth >= 1
    ensures EvalChain(t, c, p, mark, draw, depth) == Dispatch(protocol, backends, p, mark, draw)
  {
    hide ProtoIs;
    var r := DnatRule(protocol, backends);
    FindNumbered(backends, draw % |backends|);
    EvalSingle(t, r, p, mark, draw, depth - 1);
    assert r[1..] == [DnatRandom(|backends|, Numbered(backends))];
  }

  /** Either form of dispatch serves the packet with the drawn backend. */
  lemma EvalServiceChain(t: Table, c: Name, protocol: string, backends: seq<Backend>, legacy: bool,
                         p: Packet, mark: nat, draw: nat, depth: nat)
    requires Installed(t, c, protocol, backends, legacy) && depth >= 2
    ensures EvalChain(t, c, p, mark, draw, depth) == Dispatch(protocol, backends, p, mark, draw)
  {
    if backends == [] {
      EvalSingle(t, [Reject], p, mark, draw, depth - 1);
    } else if legacy {
      EvalGoto(t, c, protocol, backends, p, mark, draw, depth);
    } else {
      EvalDnat(t, c, protocol, backends, p, mark, draw, depth);
    }
  }

  /** Endpoint chains and the single translation map send every packet to the same backend. */
  lemma LegacyEqualsMap(t: Table, t': Table, c: Name, protocol: string, backends: seq<Backend>,
                        p: Packet, mark: nat, draw: nat, depth: nat)
    requires Installed(t, c, protocol, backends, true) && Installed(t', c, protocol, backends, false) && depth >= 2
    ensures EvalChain(t, c, p, mark, draw, depth) == EvalChain(t', c, p, mark, draw, depth)
  {
    EvalServiceChain(t, c, protocol, backends, true, p, mark, draw, depth);
    EvalServiceChain(t', c, protocol, backends, false, p, mark, draw, depth);
  }

  lemma EvalMarkChain(t: Table, m: Name, c: Name, p: Packet, mark: nat, draw: nat, depth: nat)
    requires m in t.chains && t.chains[m] == [MarkRule(c)] && depth >= 1
    ensures EvalChain(t, m, p, mark, draw, depth) == EvalChain(t, c, p, SERVICE_TRAFFIC_MARK, draw, depth - 1)
  {
    var r := MarkRule(c);
    EvalSingle(t, r, p, mark, draw, depth - 1);
    assert r[1..] == [Jump(c)];
    assert EvalRule(t, [Jump(c)], p, SERVICE_TRAFFIC_MARK, draw, depth - 1)
        == JumpTo(t, c, p, SERVICE_TRAFFIC_MARK, draw, depth - 1);
  }

  // ---------- The chains of all services ----------

  function PairsChains(pairs: seq<Pair>, endpoints: seq<Endpoint>, legacy: bool): Chains {
    if pairs == [] then map[]
    else
      var front, last := pairs[..|pairs| - 1], pairs[|pairs| - 1];
      PairsChains(front, endpoints, legacy) + PortChains(last.0, last.1, EndpointFor(endpoints, last.0), legacy)
  }

  lemma {:induction false} PairsChainsOfPorts(pairs: seq<Pair>, svc: Service, ports: seq<ServicePort>,
                                              endpoints: seq<Endpoint>, legacy: bool)
    ensures PairsChains(pairs + PortPairs(svc, ports), endpoints, legacy)
         == PairsChains(pairs, endpoints, legacy) + PortsChains(svc, ports, EndpointFor(endpoints, svc), legacy)
    decreases |ports|
  {
    hide PortChains;
    if ports == [] {
      assert pairs + PortPairs(svc, ports) == pairs;
    } else {
      var front, p := ports[..|ports| - 1], ports[|ports| - 1];
      var all := pairs + PortPairs(svc, ports);
      assert all[..|all| - 1] == pairs + PortPairs(svc, front);
      PairsChainsOfPorts(pairs, svc, front, endpoints, legacy);
      MergeAssociates(PairsChains(pairs, endpoints, legacy), PortsChains(svc, front, EndpointFor(endpoints, svc), legacy),
                      PortChains(svc, p, EndpointFor(endpoints, svc), legacy));
    }
  }

  lemma {:induction false} ExecUpdateServices(t: Table, services: seq<Service>, endpoints: seq<Endpoint>, legacy: bool)
    ensures Exec(t, UpdateServices(services, endpoints, legacy))
         == Some(t.(chains := t.chains + PairsChains(Pairs(services), endpoints, legacy)))
  {
    hide Exec, UpdateService, PortsChains, EndpointFor;
    if services == [] {
      ExecNone(t);
      assert t.chains + map[] == t.chains;
    } else {
      var n := |services| - 1;
      var front, svc := services[..n], services[n];
      var ep := EndpointFor(endpoints, svc);
      var before := PairsChains(Pairs(front), endpoints, legacy);
      ExecUpdateServices(t, front, endpoints, legacy);
      ExecConcat(t, UpdateServices(front, endpoints, legacy), UpdateService(svc, ep, legacy));
      ExecUpdateService(t.(chains := t.chains + before), svc, ep, legacy);
      PairsChainsOfPorts(Pairs(front), svc, svc.ports, endpoints, legacy);
      MergeAssociates(t.chains, before, PortsChains(svc, svc.ports, ep, legacy));
    }
  }

  /** The name is the service chain or belongs to it. */
  ghost predicate Owns(c: Name, n: Name) {
    n == c || n == MarkChainName(c) || exists i: nat :: n == EndpointChainName(c, i)
  }

  lemma OwnsUnique(c: Name, d: Name, n: Name)
    requires KindOf(c) == ServiceChain && KindOf(d) == ServiceChain && Owns(c, n) && Owns(d, n)
    ensures c == d
  {
    hide KindOf, MarkChainName, EndpointChainName;
    OwnedKind(c, n);
    OwnedKind(d, n);
    if n == MarkChainName(c) && n == MarkChainName(d) {
      MarkInjective(c, d);
    } else if n != c && n != d && n != MarkChainName(c) && n != MarkChainName(d) {
      var i: nat :| n == EndpointChainName(c, i);
      var j: nat :| n == EndpointChainName(d, j);
      EndpointInjective(c, i, d, j);
    }
  }

  lemma OwnedKind(c: Name, n: Name)
    requires KindOf(c) == ServiceChain && Owns(c, n)
    ensures n == c <==> KindOf(n) == ServiceChain
    ensures n == MarkChainName(c) <==> KindOf(n) == MarkChain
    ensures KindOf(n) != BaseChain
  {
    hide KindOf, MarkChainName, EndpointChainName;
    MarkKind(c);
    if n != c && n != MarkChainName(c) {
      var i: nat :| n == EndpointChainName(c, i);
      EndpointKind(c, i);
    }
  }

  lemma PortChainsOwned(svc: Service, p: ServicePort, ep: Endpoint, legacy: bool, n: Name)
    requires n in PortChains(svc, p, ep, legacy)
    ensures Owns(ChainOf(svc, p), n)
  {
    hide ChainOf, MarkChainName, EndpointChainName, DispatchRule, EndpointChains;
    var c, backends := ChainOf(svc, p), Backends(p, ep.subsets);
    EndpointChainsKeys(c, Proto(p), backends);
    if n != c && n != MarkChainName(c) {
      assert n in EndpointNames(c, |backends|);
      var i :| 0 <= i < |backends| && EndpointNames(c, |backends|)[i] == n;
    }
  }

  ghost predicate DistinctChains(pairs: seq<Pair>) {
    forall i, j :: 0 <= i < j < |pairs| ==> ChainOf(pairs[i].0, pairs[i].1) != ChainOf(pairs[j].0, pairs[j].1)
  }

  /** The last service port with a chain has its chains undisturbed. */
  lemma {:induction false} PairsChainsLookup(pairs: seq<Pair>, endpoints: seq<Endpoint>, legacy: bool, k: nat, n: Name)
    requires k < |pairs| && forall j :: k < j < |pairs| ==> !SameChain(pairs[j], pairs[k])
    requires n in PortChains(pairs[k].0, pairs[k].1, EndpointFor(endpoints, pairs[k].0), legacy)
    ensures n in PairsChains(pairs, endpoints, legacy)
    ensures PairsChains(pairs, endpoints, legacy)[n]
         == PortChains(pairs[k].0, pairs[k].1, EndpointFor(endpoints, pairs[k].0), legacy)[n]
  {
    hide PortChains, ChainOf, EndpointFor, KindOf;
    var m := |pairs| - 1;
    var last := pairs[m];
    var chains := PortChains(last.0, last.1, EndpointFor(endpoints, last.0), legacy);
    if k < m {
      PairsChainsLookup(pairs[..m], endpoints, legacy, k, n);
      if n in chains {
        PortChainsOwned(last.0, last.1, EndpointFor(endpoints, last.0), legacy, n);
        PortChainsOwned(pairs[k].0, pairs[k].1, EndpointFor(endpoints, pairs[k].0), legacy, n);
        ServiceChainKind(last.0, last.1);
        ServiceChainKind(pairs[k].0, pairs[k].1);
        OwnsUnique(ChainOf(pairs[k].0, pairs[k].1), ChainOf(last.0, last.1), n);
      }
    }
  }

  /** Mark chains are the same for whoever shares them. */
  lemma {:induction false} PairsMarkLookup(pairs: seq<Pair>, endpoints: seq<Endpoint>, legacy: bool, i: nat)
    requires i < |pairs| && ValidClusterIp(pairs[i].0).Some?
    ensures var c := ChainOf(pairs[i].0, pairs[i].1);
            && MarkChainName(c) in PairsChains(pairs, endpoints, legacy)
            && PairsChains(pairs, endpoints, legacy)[MarkChainName(c)] == [MarkRule(c)]
  {
    hide PortChains, ChainOf, EndpointFor, KindOf, MarkChainName, ValidClusterIp;
    var m := |pairs| - 1;
    var last := pairs[m];
    var c := ChainOf(pairs[i].0, pairs[i].1);
    var chains := PortChains(last.0, last.1, EndpointFor(endpoints, last.0), legacy);
    if i < m {
      PairsMarkLookup(pairs[..m], endpoints, legacy, i);
    }
    ServiceChainKind(pairs[i].0, pairs[i].1);
    if i == m || MarkChainName(c) in chains {
      PortMark(last.0, last.1, EndpointFor(endpoints, last.0), legacy, c);
    }
  }

  /** The mark chain among the chains of a service port. */
  lemma PortMark(svc: Service, p: ServicePort, ep: Endpoint, legacy: bool, c: Name)
    requires KindOf(c) == ServiceChain
    ensures var chains := PortChains(svc, p, ep, legacy);
            && (ValidClusterIp(svc).Some? && c == ChainOf(svc, p) ==> MarkChainName(c) in chains)
            && (MarkChainName(c) in chains ==> chains[MarkChainName(c)] == [MarkRule(c)])
  {
    hide ChainOf, EndpointFor, KindOf, MarkChainName, ValidClusterIp, EndpointChains;
    var d, m := ChainOf(svc, p), MarkChainName(c);
    ServiceChainKind(svc, p);
    MarkKind(c);
    EndpointChainsKeys(d, Proto(p), Backends(p, ep.subsets));
    if m in EndpointChains(d, Proto(p), Backends(p, ep.subsets)) {
      EndpointNamesKind(d, |Backends(p, ep.subsets)|, m);
    }
    if m in MarkChains(svc, d) {
      MarkInjective(c, d);
    }
  }

  lemma {:induction false} PairsChainsKind(pairs: seq<Pair>, endpoints: seq<Endpoint>, legacy: bool, n: Name)
    requires n in PairsChains(pairs, endpoints, legacy)
    ensures KindOf(n) != BaseChain
  {
    hide PortChains, ChainOf, EndpointFor, KindOf;
    var m := |pairs| - 1;
    var last := pairs[m];
    if n in PairsChains(pairs[..m], endpoints, legacy) {
      PairsChainsKind(pairs[..m], endpoints, legacy, n);
    } else {
      PortChainsOwned(last.0, last.1, EndpointFor(endpoints, last.0), legacy, n);
      ServiceChainKind(last.0, last.1);
      OwnedKind(ChainOf(last.0, last.1), n);
    }
  }

  // ---------- The base configuration ----------

  /** What filling leaves in the chains. */
  function Filled(fills: seq<(Name, Rule)>): Chains {
    if fills == [] then map[]
    else
      var last := fills[|fills| - 1];
      Filled(fills[..|fills| - 1])[last.0 := [last.1]]
  }

  predicate DistinctFills(fills: seq<(Name, Rule)>) {
    forall i, j :: 0 <= i < j < |fills| ==> fills[i].0 != fills[j].0
  }

  lemma {:induction false} FilledAt(fills: seq<(Name, Rule)>)
    requires DistinctFills(fills)
    ensures forall i :: 0 <= i < |fills| ==> fills[i].0 in Filled(fills) && Filled(fills)[fills[i].0] == [fills[i].1]
    ensures forall n :: n in Filled(fills) ==> exists i :: 0 <= i < |fills| && fills[i].0 == n
  {
    if fills != [] {
      FilledAt(fills[..|fills| - 1]);
    }
  }

  ghost function Empty(names: set<Name>): Chains { map n | n in names :: [] }

  /** The chains after the base part: everything flushed, base chains present, base rules in place. */
  ghost function BaseLayer(t: Table): Chains {
    Empty(t.chains.Keys + set n | n in BASE_CHAINS) + Filled(BASE_FILLS)
  }

  lemma {:induction false} ExecAddChains(t: Table, names: seq<Name>)
    requires forall n :: n in t.chains ==> t.chains[n] == []
    ensures Exec(t, AddChains(names)) == Some(t.(chains := Empty(t.chains.Keys + set n | n in names)))
  {
    hide Exec, Apply;
    if names == [] {
      ExecNone(t);
      assert t.chains == Empty(t.chains.Keys + set n | n in names);
    } else {
      var k := |names| - 1;
      var front, last := names[..k], names[k];
      ExecAddChains(t, front);
      var before := t.chains.Keys + set n | n in front;
      ExecConcat(t, AddChains(front), [AddChain(last)]);
      ApplyAddEmpty(t.(chains := Empty(before)), before, last);
      assert names == front + [last];
      assert before + {last} == t.chains.Keys + set n | n in names;
    }
  }

  lemma ApplyAddEmpty(t: Table, names: set<Name>, last: Name)
    requires t.chains == Empty(names)
    ensures Exec(t, [AddChain(last)]) == Some(t.(chains := Empty(names + {last})))
  {
    hide Exec;
    ExecOne(t, AddChain(last));
    assert Apply(t, AddChain(last)).value.chains == Empty(names + {last});
  }

  lemma MergeUpdate(base: Chains, more: Chains, c: Name, rules: seq<Rule>)
    ensures (base + more)[c := rules] == base + more[c := rules]
  {
  }

  /** Filling distinct empty chains with rules whose targets exist. */
  lemma {:induction false} ExecFill(t: Table, fills: seq<(Name, Rule)>)
    requires DistinctFills(fills)
    requires forall i :: 0 <= i < |fills| ==> fills[i].0 in t.chains && t.chains[fills[i].0] == []
    requires forall i, d :: 0 <= i < |fills| && RuleTargets(fills[i].1, d) ==> d in t.chains
    ensures Exec(t, Fill(fills)) == Some(t.(chains := t.chains + Filled(fills)))
  {
    hide Exec, RuleTargets, Apply;
    if fills == [] {
      ExecNone(t);
      assert t.chains + map[] == t.chains;
    } else {
      var n := |fills| - 1;
      var front, c, r := fills[..n], fills[n].0, fills[n].1;
      var t1 := t.(chains := t.chains + Filled(front));
      ExecFill(t, front);
      FilledAt(front);
      ExecConcat(t, Fill(front), [AddRule(c, r)]);
      ExecOne(t1, AddRule(c, r));
      ApplyFirstRule(t1, c, r);
      MergeUpdate(t.chains, Filled(front), c, [r]);
    }
  }

  lemma JumpTargets(c: Name, d: Name)
    ensures RuleTargets([Jump(c)], d) <==> d == c
  {
    assert StmtTargets([Jump(c)][0], c);
  }

  lemma BaseFillTargets(i: nat, d: Name)
    requires i < |BASE_FILLS| && RuleTargets(BASE_FILLS[i].1, d)
    ensures d == CHAIN_SERVICES || d == CHAIN_MASQUERADE
  {
    JumpTargets(CHAIN_SERVICES, d);
    JumpTargets(CHAIN_MASQUERADE, d);
  }

  /** A name starting with none of the generated prefixes is a base name. */
  lemma BaseKind(n: Name)
    requires |n| >= 3 && n[0] != 'e' && (n[0] == 's' ==> n[1] != 'v') && (n[0] == 'm' ==> n[2] != 'r')
    ensures KindOf(n) == BaseChain
  {
  }

  lemma BaseKinds()
    ensures KindOf(PREROUTING) == BaseChain && KindOf(OUTPUT) == BaseChain && KindOf(POSTROUTING) == BaseChain
    ensures KindOf(CHAIN_SERVICES) == BaseChain && KindOf(CHAIN_MASQUERADE) == BaseChain
  {
    hide KindOf;
    BaseKind(PREROUTING);
    BaseKind(OUTPUT);
    BaseKind(POSTROUTING);
    BaseKind(CHAIN_SERVICES);
    BaseKind(CHAIN_MASQUERADE);
  }

  lemma BaseNames()
    ensures forall i :: 0 <= i < |BASE_FILLS| ==> BASE_FILLS[i].0 in BASE_CHAINS
    ensures CHAIN_SERVICES in BASE_CHAINS && CHAIN_MASQUERADE in BASE_CHAINS
  {
    var b := BASE_CHAINS;
    assert b[0] == PREROUTING && b[1] == OUTPUT && b[2] == POSTROUTING && b[7] == CHAIN_SERVICES && b[8] == CHAIN_MASQUERADE;
  }

  lemma BaseFillsDistinct()
    ensures DistinctFills(BASE_FILLS)
    ensures forall i :: 0 <= i < |BASE_FILLS| ==> BASE_FILLS[i].0 != CHAIN_SERVICES
  {
    assert |PREROUTING| == 14 && |OUTPUT| == 10 && |POSTROUTING| == 15 && |CHAIN_SERVICES| == 8;
    assert CHAIN_MASQUERADE[0] == 'm' && OUTPUT[0] == 'n' && |CHAIN_MASQUERADE| == 10;
  }

  lemma ExecHead(t: Table, names: seq<Name>)
    ensures Exec(t, [AddTable, FlushTable] + AddChains(names)) == Some(t.(chains := Empty(t.chains.Keys + set n | n in names)))
  {
    var t0 := t.(chains := Empty(t.chains.Keys));
    assert Exec(t, [AddTable, FlushTable]) == Some(t0) by {
      assert [AddTable, FlushTable][1..] == [FlushTable] && [FlushTable][1..] == [];
      assert (map n | n in t.chains :: []) == Empty(t.chains.Keys);
    }
    hide Exec;
    assert t0.chains.Keys == t.chains.Keys;
    ExecAddChains(t0, names);
    ExecConcat(t, [AddTable, FlushTable], AddChains(names));
  }

  lemma ExecBase(t: Table)
    ensures Exec(t, [AddTable, FlushTable] + AddChains(BASE_CHAINS) + Fill(BASE_FILLS)) == Some(t.(chains := BaseLayer(t)))
  {
    hide Exec, RuleTargets, Filled, Fill, AddChains, DistinctFills;
    var t1 := t.(chains := Empty(t.chains.Keys + set n | n in BASE_CHAINS));
    BaseNames();
    BaseFillsDistinct();
    forall i, d | 0 <= i < |BASE_FILLS| && RuleTargets(BASE_FILLS[i].1, d)
      ensures d in t1.chains
    {
      BaseFillTargets(i, d);
    }
    ExecHead(t, BASE_CHAINS);
    ExecFill(t1, BASE_FILLS);
    ExecConcat(t, [AddTable, FlushTable] + AddChains(BASE_CHAINS), Fill(BASE_FILLS));
  }

  /** The full configuration succeeds on every table and fixes all its chains. */
  lemma ExecFullConfig(t: Table, services: seq<Service>, endpoints: seq<Endpoint>, legacy: bool)
    ensures Exec(t, FullConfig(services, endpoints, legacy))
         == Some(t.(chains := BaseLayer(t) + PairsChains(Pairs(services), endpoints, legacy)))
  {
    hide Exec, UpdateServices, PairsChains, Pairs, BaseLayer, Fill, AddChains;
    ExecBase(t);
    ExecUpdateServices(t.(chains := BaseLayer(t)), services, endpoints, legacy);
    ExecConcat(t, [AddTable, FlushTable] + AddChains(BASE_CHAINS) + Fill(BASE_FILLS),
               UpdateServices(services, endpoints, legacy));
  }
}
