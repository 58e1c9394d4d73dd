/** Compiler correctness for the service ruleset. */
module NftTheorem {
  import opened Wrappers
  import opened NftNames
  import opened NftModel
  import opened NftCompiler
  import opened NftDiscovery
  import opened NftInstall
  import opened NftMaps
  import opened NftCorrect

  /** A service port is ready: its chain serves the backends of the last service port sharing it, and its mark
      chain leads there. */
  ghost predicate PortReady(t: Table, pairs: seq<Pair>, endpoints: seq<Endpoint>, legacy: bool, i: nat)
    requires i < |pairs|
  {
    var c, served := ChainOf(pairs[i].0, pairs[i].1), pairs[LastSharing(pairs, i)];
    && Installed(t, c, Proto(served.1), PairBackends(served, endpoints), legacy)
    && (ValidClusterIp(pairs[i].0).Some? ==> MarkChainName(c) in t.chains && t.chains[MarkChainName(c)] == [MarkRule(c)])
  }

  ghost predicate BaseReady(t: Table) {
    && CHAIN_SERVICES in t.chains && t.chains[CHAIN_SERVICES] == LOOKUP_RULES
    && (forall i :: 0 <= i < |BASE_FILLS| ==>
          BASE_FILLS[i].0 in t.chains && t.chains[BASE_FILLS[i].0] == [BASE_FILLS[i].1])
  }

  /** The table the configuration and a refresh leave behind, as far as packets can tell. */
  ghost predicate Deployed(t: Table, services: seq<Service>, endpoints: seq<Endpoint>, legacy: bool) {
    && Holds(t, services) && BaseReady(t)
    && (forall i :: 0 <= i < |Pairs(services)| ==> PortReady(t, Pairs(services), endpoints, legacy, i))
  }

  function PairChains(pair: Pair, endpoints: seq<Endpoint>, legacy: bool): Chains {
    PortChains(pair.0, pair.1, EndpointFor(endpoints, pair.0), legacy)
  }

  // ---------- Deployment ----------

  lemma ServicePortInstalled(t: Table, pair: Pair, endpoints: seq<Endpoint>, legacy: bool)
    requires forall n :: n in PairChains(pair, endpoints, legacy) ==>
               n in t.chains && t.chains[n] == PairChains(pair, endpoints, legacy)[n]
    ensures Installed(t, ChainOf(pair.0, pair.1), Proto(pair.1), PairBackends(pair, endpoints), legacy)
    ensures ValidClusterIp(pair.0).Some? ==>
              var m := MarkChainName(ChainOf(pair.0, pair.1));
              m in t.chains && t.chains[m] == [MarkRule(ChainOf(pair.0, pair.1))]
  {
    hide ChainOf, MarkChainName, EndpointChainName, KindOf, EndpointFor, Backends;
    var c, backends := ChainOf(pair.0, pair.1), PairBackends(pair, endpoints);
    ServiceChainKind(pair.0, pair.1);
    MarkKind(c);
    var chains := PairChains(pair, endpoints, legacy);
    EndpointChainsKeys(c, Proto(pair.1), backends);
    assert c in chains;
    forall i | 0 <= i < |backends| && legacy
      ensures EndpointChainName(c, i) in chains && chains[EndpointChainName(c, i)] == [EndpointRule(Proto(pair.1), backends[i])]
    {
      EndpointKind(c, i);
    }
    if ValidClusterIp(pair.0).Some? {
      var m := MarkChainName(c);
      if m in EndpointChains(c, Proto(pair.1), backends) {
        EndpointNamesKind(c, |backends|, m);
      }
      assert m in chains && chains[m] == [MarkRule(c)];
    }
  }

  lemma PairReady(t: Table, chains: Chains, pairs: seq<Pair>, endpoints: seq<Endpoint>, legacy: bool, i: nat)
    requires i < |pairs| && chains == PairsChains(pairs, endpoints, legacy)
    requires forall n :: n in chains ==> n in t.chains && t.chains[n] == chains[n]
    ensures PortReady(t, pairs, endpoints, legacy, i)
  {
    hide PortChains, PairsChains, ChainOf, MarkChainName, ValidClusterIp, Installed, PairBackends, EndpointFor;
    var k := LastSharing(pairs, i);
    forall n | n in PairChains(pairs[k], endpoints, legacy)
      ensures n in t.chains && t.chains[n] == PairChains(pairs[k], endpoints, legacy)[n]
    {
      PairsChainsLookup(pairs, endpoints, legacy, k, n);
    }
    ServicePortInstalled(t, pairs[k], endpoints, legacy);
    if ValidClusterIp(pairs[i].0).Some? {
      PairsMarkLookup(pairs, endpoints, legacy, i);
    }
  }

  lemma DeployedChains(t: Table, t': Table, services: seq<Service>, endpoints: seq<Endpoint>, legacy: bool)
    requires Holds(t', services)
    requires t'.chains == (BaseLayer(t) + PairsChains(Pairs(services), endpoints, legacy))[CHAIN_SERVICES := LOOKUP_RULES]
    ensures Deployed(t', services, endpoints, legacy)
  {
    hide Holds, PortReady, KindOf, Pairs, PairsChains, Filled, DistinctFills;
    var pairs := Pairs(services);
    var chains := PairsChains(pairs, endpoints, legacy);
    BaseKinds();
    BaseFillsDistinct();
    FilledAt(BASE_FILLS);
    forall n | n in chains
      ensures n in t'.chains && t'.chains[n] == chains[n]
    {
      PairsChainsKind(pairs, endpoints, legacy, n);
    }
    forall i | 0 <= i < |pairs|
      ensures PortReady(t', pairs, endpoints, legacy, i)
    {
      PairReady(t', chains, pairs, endpoints, legacy, i);
    }
    forall i | 0 <= i < |BASE_FILLS|
      ensures BASE_FILLS[i].0 in t'.chains && t'.chains[BASE_FILLS[i].0] == [BASE_FILLS[i].1]
    {
      if BASE_FILLS[i].0 in chains {
        PairsChainsKind(pairs, endpoints, legacy, BASE_FILLS[i].0);
      }
    }
  }

  lemma {:induction false} PairsChainsHas(pairs: seq<Pair>, endpoints: seq<Endpoint>, legacy: bool, i: nat, n: Name)
    requires i < |pairs| && n in PairChains(pairs[i], endpoints, legacy)
    ensures n in PairsChains(pairs, endpoints, legacy)
  {
    hide PortChains;
    if i < |pairs| - 1 {
      PairsChainsHas(pairs[..|pairs| - 1], endpoints, legacy, i, n);
    }
  }

  lemma ConfiguredTargets(t: Table, services: seq<Service>, endpoints: seq<Endpoint>, legacy: bool)
    requires forall n :: n in PairsChains(Pairs(services), endpoints, legacy) ==> n in t.chains
    ensures TargetsExist(t, services)
  {
    hide ClusterOrder, NodeOrder, ClusterElements, NodeElements, PairsChains, PortChains, ChainOf, MarkChainName, SeenIps,
         SeenNodePorts;
    SnapshotSets(services);
    var pairs := Pairs(services);
    forall e | e in ClusterSet(services)
      ensures e.target in t.chains
    {
      var i := ClusterElementSource(pairs, e);
      OwnChainNames(pairs[i], endpoints, legacy);
      PairsChainsHas(pairs, endpoints, legacy, i, e.target);
    }
    forall e | e in NodeSet(services)
      ensures e.target in t.chains
    {
      var i := NodeElementSource(pairs, e);
      OwnChainNames(pairs[i], endpoints, legacy);
      PairsChainsHas(pairs, endpoints, legacy, i, e.target);
    }
  }

  lemma OwnChainNames(pair: Pair, endpoints: seq<Endpoint>, legacy: bool)
    ensures ChainOf(pair.0, pair.1) in PairChains(pair, endpoints, legacy)
    ensures ValidClusterIp(pair.0).Some? ==> MarkChainName(ChainOf(pair.0, pair.1)) in PairChains(pair, endpoints, legacy)
  {
    hide ChainOf, MarkChainName;
  }

  /** On every table with the verdict maps the configuration succeeds; the refresh after it succeeds exactly for
      consistent services, and then they are deployed. */
  lemma ConfigThenRefresh(t: Table, services: seq<Service>, endpoints: seq<Endpoint>, legacy: bool)
    requires ClusterIps in t.maps && NodePorts in t.maps
    ensures Exec(t, FullConfig(services, endpoints, legacy)).Some?
    ensures var t1 := Exec(t, FullConfig(services, endpoints, legacy)).value;
            && (Exec(t1, DiscoveryRefresh(services)).Some? <==> Consistent(services))
            && (Consistent(services) ==> Deployed(Exec(t1, DiscoveryRefresh(services)).value, services, endpoints, legacy))
  {
    hide Exec, FullConfig, DiscoveryRefresh, Deployed, PairsChains, Holds, TargetsExist, Filled, Consistent;
    ExecFullConfig(t, services, endpoints, legacy);
    var t1 := Exec(t, FullConfig(services, endpoints, legacy)).value;
    ConfiguredTargets(t1, services, endpoints, legacy);
    BaseNames();
    ExecRefresh(t1, services);
    if Consistent(services) {
      DeployedChains(t, Exec(t1, DiscoveryRefresh(services)).value, services, endpoints, legacy);
    }
  }

  // ---------- Packets ----------

  /** How the chain a rule jumps to ends the rule. */
  function AsRule(o: Outcome): RuleOutcome { if o.Fall? then Next(o.mark) else Done(o) }

  lemma JumpViaItems(t: Table, m: MapName, s: set<Element>, k: Key, target: Option<Name>,
                     p: Packet, mark: nat, draw: nat, depth: nat)
    requires m in t.maps && Items(t.maps[m]) == s && Leads(s, k, target)
    ensures JumpVia(t, m, k, p, mark, draw, depth)
         == match target case None => Next(mark) case Some(n) => JumpTo(t, n, p, mark, draw, depth)
  {
    hide JumpTo;
    if k in t.maps[m] {
      ItemMember(t.maps[m], k);
    }
  }

  lemma HoldsFunctional(t: Table, services: seq<Service>)
    requires Holds(t, services)
    ensures Functional(ElementSet(ClusterElements(Pairs(services)))) && Functional(ElementSet(NodeElements(Pairs(services))))
  {
    hide Pairs, ClusterElements, NodeElements, ClusterOrder, NodeOrder;
    SnapshotSets(services);
    ItemsFunctional(t.maps[ClusterIps]);
    ItemsFunctional(t.maps[NodePorts]);
  }

  lemma EvalReady(t: Table, pairs: seq<Pair>, endpoints: seq<Endpoint>, legacy: bool, i: nat,
                  p: Packet, mark: nat, draw: nat, depth: nat)
    requires i < |pairs| && PortReady(t, pairs, endpoints, legacy, i) && depth >= 2
    ensures EvalChain(t, ChainOf(pairs[i].0, pairs[i].1), p, mark, draw, depth) == Reach(pairs, endpoints, i, p, mark, draw)
  {
    hide ChainOf, EvalChain, Installed, Dispatch, PairBackends;
    var served := pairs[LastSharing(pairs, i)];
    EvalServiceChain(t, ChainOf(pairs[i].0, pairs[i].1), Proto(served.1), PairBackends(served, endpoints), legacy,
                     p, mark, draw, depth);
  }

  lemma ClusterRule(t: Table, services: seq<Service>, endpoints: seq<Endpoint>, legacy: bool,
                    p: Packet, mark: nat, draw: nat, depth: nat)
    requires Deployed(t, services, endpoints, legacy) && depth >= 3
    ensures JumpVia(t, ClusterIps, ClusterKey(p.proto, p.daddr, p.dport), p, mark, draw, depth)
         == match FirstCluster(Pairs(services), p)
            case None => Next(mark)
            case Some(i) => AsRule(Reach(Pairs(services), endpoints, i, p, SERVICE_TRAFFIC_MARK, draw))
  {
    hide ClusterOrder, NodeOrder, ClusterElements, NodeElements, EvalChain, JumpVia, ChainOf, MarkChainName,
         Installed, Reach, First, Functional, ValidClusterIp, Pairs;
    var pairs := Pairs(services);
    SnapshotSets(services);
    HoldsFunctional(t, services);
    ClusterLookup(pairs, p);
    JumpViaItems(t, ClusterIps, ClusterSet(services), ClusterKey(p.proto, p.daddr, p.dport), ClusterTarget(pairs, p),
                 p, mark, draw, depth);
    if FirstCluster(pairs, p).Some? {
      var i := FirstCluster(pairs, p).value;
      var c := ChainOf(pairs[i].0, pairs[i].1);
      assert ClusterKeyed(pairs[i], p) && PortReady(t, pairs, endpoints, legacy, i);
      EvalMarkChain(t, MarkChainName(c), c, p, mark, draw, depth);
      EvalReady(t, pairs, endpoints, legacy, i, p, SERVICE_TRAFFIC_MARK, draw, depth - 1);
    }
  }

  lemma NodeRule(t: Table, services: seq<Service>, endpoints: seq<Endpoint>, legacy: bool,
                 p: Packet, mark: nat, draw: nat, depth: nat)
    requires Deployed(t, services, endpoints, legacy) && depth >= 2
    ensures JumpVia(t, NodePorts, NodeKey(p.proto, p.dport), p, mark, draw, depth)
         == AsRule(NodePart(Pairs(services), endpoints, p, mark, draw))
  {
    hide ClusterOrder, NodeOrder, ClusterElements, NodeElements, EvalChain, JumpVia, ChainOf, MarkChainName,
         Installed, Reach, First, Functional, Pairs;
    var pairs := Pairs(services);
    SnapshotSets(services);
    HoldsFunctional(t, services);
    NodeLookup(pairs, p);
    JumpViaItems(t, NodePorts, NodeSet(services), NodeKey(p.proto, p.dport), NodeTarget(pairs, p), p, mark, draw, depth);
    if FirstNodePort(pairs, p).Some? {
      var i := FirstNodePort(pairs, p).value;
      assert PortReady(t, pairs, endpoints, legacy, i);
      EvalReady(t, pairs, endpoints, legacy, i, p, mark, draw, depth);
    }
  }

  /** A rule that matches a protocol and then looks up a map. */
  lemma EvalLookupRule(t: Table, protocol: string, s: Stmt, o: RuleOutcome, p: Packet, mark: nat, draw: nat, depth: nat)
    requires s == LookupCluster(protocol) ==>
               o == JumpVia(t, ClusterIps, ClusterKey(p.proto, p.daddr, p.dport), p, mark, draw, depth)
    requires s == LookupNodePort(protocol) ==> o == JumpVia(t, NodePorts, NodeKey(p.proto, p.dport), p, mark, draw, depth)
    requires s == LookupCluster(protocol) || s == LookupNodePort(protocol)
    ensures EvalRule(t, [MatchProto(protocol), s], p, mark, draw, depth)
         == if ProtoIs(protocol, p.proto) then o else Next(mark)
  {
    hide JumpVia, ProtoIs;
    assert [MatchProto(protocol), s][1..] == [s];
  }

  lemma EvalMiss(t: Table, protocol: string, s: Stmt, p: Packet, mark: nat, draw: nat, depth: nat)
    requires !ProtoIs(protocol, p.proto)
    ensures EvalRule(t, [MatchProto(protocol), s], p, mark, draw, depth) == Next(mark)
  {
  }

  lemma JumpNeverLeaves(t: Table, m: MapName, k: Key, p: Packet, mark: nat, draw: nat, depth: nat)
    ensures !JumpVia(t, m, k, p, mark, draw, depth).Leave?
  {
    hide EvalChain;
  }

  /** The two rules of one lookup: the packet's own transport decides. */
  lemma EvalTwoRules(t: Table, i: nat, s: Stmt, s': Stmt, o: RuleOutcome, p: Packet, mark: nat, draw: nat, depth: nat)
    requires i + 2 <= |LOOKUP_RULES| && LOOKUP_RULES[i] == [MatchProto("tcp"), s] && LOOKUP_RULES[i + 1] == [MatchProto("udp"), s']
    requires p.proto == 6 ==> EvalRule(t, [MatchProto("tcp"), s], p, mark, draw, depth) == o
    requires p.proto == 17 ==> EvalRule(t, [MatchProto("udp"), s'], p, mark, draw, depth) == o
    requires !o.Leave?
    ensures EvalRules(t, LOOKUP_RULES[i..], p, mark, draw, depth)
         == if p.proto != 6 && p.proto != 17 then EvalRules(t, LOOKUP_RULES[i + 2..], p, mark, draw, depth)
            else if o.Done? then o.outcome
            else EvalRules(t, LOOKUP_RULES[i + 2..], p, o.mark, draw, depth)
  {
    hide EvalRule, EvalRules;
    var r := LOOKUP_RULES;
    EvalRulesFrom(t, r, i, p, mark, draw, depth);
    EvalRulesFrom(t, r, i + 1, p, mark, draw, depth);
    if p.proto != 6 {
      EvalMiss(t, "tcp", s, p, mark, draw, depth);
    }
    if p.proto != 17 {
      EvalMiss(t, "udp", s', p, mark, draw, depth);
      if o.Next? {
        EvalMiss(t, "udp", s', p, o.mark, draw, depth);
        EvalRulesFrom(t, r, i + 1, p, o.mark, draw, depth);
      }
    }
  }

  lemma EvalLookupRules(t: Table, c: RuleOutcome, n: RuleOutcome, p: Packet, mark: nat, draw: nat, depth: nat)
    requires c == JumpVia(t, ClusterIps, ClusterKey(p.proto, p.daddr, p.dport), p, mark, draw, depth)
    requires n == JumpVia(t, NodePorts, NodeKey(p.proto, p.dport), p, if c.Next? then c.mark else mark, draw, depth)
    ensures EvalRules(t, LOOKUP_RULES, p, mark, draw, depth)
         == if p.proto != 6 && p.proto != 17 then Fall(mark)
            else if c.Done? then c.outcome
            else if n.Done? then n.outcome
            else Fall(n.mark)
  {
    hide JumpVia, EvalRule, EvalRules;
    var r, m := LOOKUP_RULES, if c.Next? then c.mark else mark;
    JumpNeverLeaves(t, ClusterIps, ClusterKey(p.proto, p.daddr, p.dport), p, mark, draw, depth);
    JumpNeverLeaves(t, NodePorts, NodeKey(p.proto, p.dport), p, m, draw, depth);
    EvalLookupRule(t, "tcp", LookupCluster("tcp"), c, p, mark, draw, depth);
    EvalLookupRule(t, "udp", LookupCluster("udp"), c, p, mark, draw, depth);
    EvalTwoRules(t, 0, LookupCluster("tcp"), LookupCluster("udp"), c, p, mark, draw, depth);
    EvalLookupRule(t, "tcp", LookupNodePort("tcp"), n, p, m, draw, depth);
    EvalLookupRule(t, "udp", LookupNodePort("udp"), n, p, m, draw, depth);
    if p.proto == 6 || p.proto == 17 {
      EvalTwoRules(t, 2, LookupNodePort("tcp"), LookupNodePort("udp"), n, p, m, draw, depth);
      if n.Next? {
        EvalRulesFrom(t, r, 4, p, n.mark, draw, depth);
      }
    } else {
      EvalTwoRules(t, 2, LookupNodePort("tcp"), LookupNodePort("udp"), n, p, mark, draw, depth);
      EvalRulesFrom(t, r, 4, p, mark, draw, depth);
    }
    assert r[0..] == r;
  }

  lemma EvalRulesFrom(t: Table, rules: seq<Rule>, i: nat, p: Packet, mark: nat, draw: nat, depth: nat)
    requires i <= |rules|
    ensures EvalRules(t, rules[i..], p, mark, draw, depth)
         == if i == |rules| then Fall(mark)
            else match EvalRule(t, rules[i], p, mark, draw, depth)
                 case Next(m) => EvalRules(t, rules[i + 1..], p, m, draw, depth)
                 case Leave(m) => Fall(m)
                 case Done(o) => o
  {
    hide EvalRule;
    if i < |rules| {
      assert rules[i..][1..] == rules[i + 1..];
    }
  }

  lemma NoKeyWithoutTransport(pairs: seq<Pair>, p: Packet)
    requires p.proto != 6 && p.proto != 17
    ensures FirstCluster(pairs, p).None? && FirstNodePort(pairs, p).None?
  {
    hide First;
    assert forall i :: 0 <= i < |pairs| ==> !ClusterKeyed(pairs[i], p) && !NodeKeyed(pairs[i], p);
  }

  lemma EvalServices(t: Table, services: seq<Service>, endpoints: seq<Endpoint>, legacy: bool,
                     p: Packet, mark: nat, draw: nat, depth: nat)
    requires Deployed(t, services, endpoints, legacy) && depth >= 4
    ensures EvalChain(t, CHAIN_SERVICES, p, mark, draw, depth) == RulesetSpec(services, endpoints, p, mark, draw)
  {
    hide JumpVia, EvalRules, EvalRule, Holds, Reach, NodePart, Pairs, PortReady, First;
    ClusterRule(t, services, endpoints, legacy, p, mark, draw, depth - 1);
    var c := JumpVia(t, ClusterIps, ClusterKey(p.proto, p.daddr, p.dport), p, mark, draw, depth - 1);
    var m := if c.Next? then c.mark else mark;
    NodeRule(t, services, endpoints, legacy, p, m, draw, depth - 1);
    EvalLookupRules(t, c, JumpVia(t, NodePorts, NodeKey(p.proto, p.dport), p, m, draw, depth - 1), p, mark, draw, depth - 1);
    if p.proto != 6 && p.proto != 17 {
      NoKeyWithoutTransport(Pairs(services), p);
      NoNodePart(Pairs(services), endpoints, p, mark, draw);
    }
    NodePartEnds(Pairs(services), endpoints, p, m, draw);
  }

  lemma NoNodePart(pairs: seq<Pair>, endpoints: seq<Endpoint>, p: Packet, mark: nat, draw: nat)
    requires FirstNodePort(pairs, p).None?
    ensures NodePart(pairs, endpoints, p, mark, draw) == Fall(mark)
  {
  }

  lemma NodePartEnds(pairs: seq<Pair>, endpoints: seq<Endpoint>, p: Packet, mark: nat, draw: nat)
    ensures NodePart(pairs, endpoints, p, mark, draw).Fall? ==> NodePart(pairs, endpoints, p, mark, draw) == Fall(mark)
  {
  }

  lemma EvalJumpChain(t: Table, c: Name, target: Name, p: Packet, mark: nat, draw: nat, depth: nat)
    requires c in t.chains && t.chains[c] == [[Jump(target)]] && depth >= 1
    ensures EvalChain(t, c, p, mark, draw, depth) == EvalChain(t, target, p, mark, draw, depth - 1)
  {
    EvalSingle(t, [Jump(target)], p, mark, draw, depth - 1);
    assert EvalRule(t, [Jump(target)], p, mark, draw, depth - 1) == JumpTo(t, target, p, mark, draw, depth - 1);
  }

  lemma EvalDeployed(t: Table, services: seq<Service>, endpoints: seq<Endpoint>, legacy: bool,
                     p: Packet, mark: nat, draw: nat, depth: nat)
    requires Deployed(t, services, endpoints, legacy) && depth >= 5
    ensures EvalChain(t, PREROUTING, p, mark, draw, depth) == RulesetSpec(services, endpoints, p, mark, draw)
    ensures EvalChain(t, OUTPUT, p, mark, draw, depth) == RulesetSpec(services, endpoints, p, mark, draw)
    ensures EvalChain(t, POSTROUTING, p, mark, draw, depth)
         == if mark == SERVICE_TRAFFIC_MARK then Stop(Masqueraded, mark) else Fall(mark)
  {
    hide RulesetSpec, EvalChain, PortReady, Holds;
    assert BASE_FILLS[0].0 in t.chains && BASE_FILLS[1].0 in t.chains && BASE_FILLS[2].0 in t.chains && BASE_FILLS[3].0 in t.chains;
    EvalJumpChain(t, PREROUTING, CHAIN_SERVICES, p, mark, draw, depth);
    EvalJumpChain(t, OUTPUT, CHAIN_SERVICES, p, mark, draw, depth);
    EvalJumpChain(t, POSTROUTING, CHAIN_MASQUERADE, p, mark, draw, depth);
    EvalServices(t, services, endpoints, legacy, p, mark, draw, depth - 1);
    EvalMasquerade(t, p, mark, draw, depth - 1);
  }

  /** What the compiler produces, for all services: configuration and refresh succeed exactly when the services
      are consistent, and then every packet, entering from outside or sent locally, meets the ruleset's meaning,
      whatever is drawn and however deep jumps may nest. */
  lemma CompilerExact(t: Table, services: seq<Service>, endpoints: seq<Endpoint>, legacy: bool,
                      p: Packet, mark: nat, draw: nat, depth: nat)
    requires ClusterIps in t.maps && NodePorts in t.maps && depth >= 5
    ensures var r := Exec(t, FullConfig(services, endpoints, legacy) + DiscoveryRefresh(services));
            && (r.Some? <==> Consistent(services))
            && (r.Some? ==>
                  && EvalChain(r.value, PREROUTING, p, mark, draw, depth) == RulesetSpec(services, endpoints, p, mark, draw)
                  && EvalChain(r.value, OUTPUT, p, mark, draw, depth) == RulesetSpec(services, endpoints, p, mark, draw)
                  && EvalChain(r.value, POSTROUTING, p, mark, draw, depth)
                     == if mark == SERVICE_TRAFFIC_MARK then Stop(Masqueraded, mark) else Fall(mark))
  {
    hide Exec, FullConfig, DiscoveryRefresh, RulesetSpec, EvalChain, Deployed, Consistent;
    ConfigThenRefresh(t, services, endpoints, legacy);
    ExecConcat(t, FullConfig(services, endpoints, legacy), DiscoveryRefresh(services));
    if Consistent(services) {
      var t' := Exec(t, FullConfig(services, endpoints, legacy) + DiscoveryRefresh(services)).value;
      EvalDeployed(t', services, endpoints, legacy, p, mark, draw, depth);
    }
  }

  lemma EvalMasquerade(t: Table, p: Packet, mark: nat, draw: nat, depth: nat)
    requires CHAIN_MASQUERADE in t.chains && t.chains[CHAIN_MASQUERADE] == [MASQUERADE_RULE] && depth >= 1
    ensures EvalChain(t, CHAIN_MASQUERADE, p, mark, draw, depth)
         == if mark == SERVICE_TRAFFIC_MARK then Stop(Masqueraded, mark) else Fall(mark)
  {
    EvalSingle(t, MASQUERADE_RULE, p, mark, draw, depth - 1);
    assert MASQUERADE_RULE[1..] == [Masquerade];
  }
}
