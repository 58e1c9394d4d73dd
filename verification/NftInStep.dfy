/** Tables in step with a list of services: what a full sync, a new service and a change of endpoints leave. */
module NftInStep {
  import opened Wrappers
  import opened NftNames
  import opened NftModel
  import opened NftCompiler
  import opened NftDiscovery
  import opened NftInstall
  import opened NftMaps
  import opened NftCorrect
  import opened NftTheorem
  import opened NftUpdates

  // ---------- Chains of service lists ----------

  lemma {:induction false} PairsAppend(a: seq<Service>, b: seq<Service>)
    ensures Pairs(a + b) == Pairs(a) + Pairs(b)
  {
    if b == [] {
      assert a + b == a;
    } else {
      var n := |b| - 1;
      assert (a + b)[..|a + b| - 1] == a + b[..n];
      PairsAppend(a, b[..n]);
    }
  }

  lemma {:induction false} ChainsAppend(a: seq<Pair>, b: seq<Pair>, endpoints: seq<Endpoint>, legacy: bool)
    ensures PairsChains(a + b, endpoints, legacy) == PairsChains(a, endpoints, legacy) + PairsChains(b, endpoints, legacy)
    decreases |b|
  {
    hide PortChains, EndpointFor;
    if b == [] {
      assert a + b == a;
    } else {
      var n := |b| - 1;
      assert (a + b)[..|a + b| - 1] == a + b[..n];
      ChainsAppend(a, b[..n], endpoints, legacy);
      MergeAssociates(PairsChains(a, endpoints, legacy), PairsChains(b[..n], endpoints, legacy),
                      PortChains(b[n].0, b[n].1, EndpointFor(endpoints, b[n].0), legacy));
    }
  }

  lemma {:induction false} ChainsSource(pairs: seq<Pair>, endpoints: seq<Endpoint>, legacy: bool, n: Name) returns (i: nat)
    requires n in PairsChains(pairs, endpoints, legacy)
    ensures i < |pairs| && n in PairChains(pairs[i], endpoints, legacy)
    ensures PairsChains(pairs, endpoints, legacy)[n] == PairChains(pairs[i], endpoints, legacy)[n]
  {
    hide PortChains, EndpointFor;
    i := |pairs| - 1;
    if n !in PairChains(pairs[i], endpoints, legacy) {
      i := ChainsSource(pairs[..i], endpoints, legacy, n);
    }
  }

  /** Lists of service ports without a common chain own different names. */
  lemma ChainsDisjoint(a: seq<Pair>, b: seq<Pair>, endpoints: seq<Endpoint>, legacy: bool, n: Name)
    requires forall i, j :: 0 <= i < |a| && 0 <= j < |b| ==> !SameChain(a[i], b[j])
    requires n in PairsChains(a, endpoints, legacy)
    ensures n !in PairsChains(b, endpoints, legacy)
    ensures forall j :: 0 <= j < |b| ==> !Owns(ChainOf(b[j].0, b[j].1), n)
  {
    hide PortChains, ChainOf, EndpointFor, KindOf, Owns;
    var i := ChainsSource(a, endpoints, legacy, n);
    PortChainsOwned(a[i].0, a[i].1, EndpointFor(endpoints, a[i].0), legacy, n);
    ServiceChainKind(a[i].0, a[i].1);
    forall j | 0 <= j < |b|
      ensures !Owns(ChainOf(b[j].0, b[j].1), n)
    {
      assert !SameChain(a[i], b[j]);
      ServiceChainKind(b[j].0, b[j].1);
      if Owns(ChainOf(b[j].0, b[j].1), n) {
        OwnsUnique(ChainOf(a[i].0, a[i].1), ChainOf(b[j].0, b[j].1), n);
      }
    }
    if n in PairsChains(b, endpoints, legacy) {
      var j := ChainsSource(b, endpoints, legacy, n);
      PortChainsOwned(b[j].0, b[j].1, EndpointFor(endpoints, b[j].0), legacy, n);
    }
  }

  lemma {:induction false} ChainsSame(pairs: seq<Pair>, e: seq<Endpoint>, e': seq<Endpoint>, legacy: bool)
    requires forall i :: 0 <= i < |pairs| ==> EndpointFor(e, pairs[i].0) == EndpointFor(e', pairs[i].0)
    ensures PairsChains(pairs, e, legacy) == PairsChains(pairs, e', legacy)
  {
    hide PortChains, EndpointFor;
    if pairs != [] {
      ChainsSame(pairs[..|pairs| - 1], e, e', legacy);
    }
  }

  predicate SameId(a: Service, namespace: string, name: string) { (a.namespace, a.name) == (namespace, name) }

  lemma EndpointAdded(endpoints: seq<Endpoint>, ep: Endpoint, svc: Service)
    ensures EndpointFor(endpoints + [ep], svc) == if SameId(svc, ep.namespace, ep.name) then ep else EndpointFor(endpoints, svc)
  {
    assert (endpoints + [ep])[..|endpoints|] == endpoints;
  }

  lemma {:induction false} PairsServices(services: seq<Service>, i: nat) returns (k: nat)
    requires i < |Pairs(services)|
    ensures k < |services| && Pairs(services)[i].0 == services[k]
  {
    var n := |services| - 1;
    if i < |Pairs(services[..n])| {
      k := PairsServices(services[..n], i);
    } else {
      k := n;
    }
  }

  /** A new endpoint changes only the chains of its own service. */
  lemma OthersUnchanged(services: seq<Service>, endpoints: seq<Endpoint>, ep: Endpoint, legacy: bool)
    requires forall k :: 0 <= k < |services| ==> !SameId(services[k], ep.namespace, ep.name)
    ensures PairsChains(Pairs(services), endpoints + [ep], legacy) == PairsChains(Pairs(services), endpoints, legacy)
  {
    hide Pairs, EndpointFor, PairsChains;
    forall i | 0 <= i < |Pairs(services)|
      ensures EndpointFor(endpoints, Pairs(services)[i].0) == EndpointFor(endpoints + [ep], Pairs(services)[i].0)
    {
      var k := PairsServices(services, i);
      EndpointAdded(endpoints, ep, services[k]);
    }
    ChainsSame(Pairs(services), endpoints, endpoints + [ep], legacy);
  }

  lemma OneService(svc: Service, endpoints: seq<Endpoint>, legacy: bool)
    ensures Pairs([svc]) == PortPairs(svc, svc.ports)
    ensures PairsChains(Pairs([svc]), endpoints, legacy) == PortsChains(svc, svc.ports, EndpointFor(endpoints, svc), legacy)
  {
    assert [svc][..0] == [];
    assert Pairs([]) == [] && [] + PortPairs(svc, svc.ports) == PortPairs(svc, svc.ports);
    PairsChainsOfPorts([], svc, svc.ports, endpoints, legacy);
    assert map[] + PortsChains(svc, svc.ports, EndpointFor(endpoints, svc), legacy)
        == PortsChains(svc, svc.ports, EndpointFor(endpoints, svc), legacy);
  }

  /** The chains of a list around one of its services. */
  lemma ChainsAround(pre: seq<Service>, svc: Service, post: seq<Service>, endpoints: seq<Endpoint>, legacy: bool)
    ensures PairsChains(Pairs(pre + [svc] + post), endpoints, legacy)
         == PairsChains(Pairs(pre), endpoints, legacy) + PortsChains(svc, svc.ports, EndpointFor(endpoints, svc), legacy)
            + PairsChains(Pairs(post), endpoints, legacy)
    ensures PairsChains(Pairs(pre + post), endpoints, legacy)
         == PairsChains(Pairs(pre), endpoints, legacy) + PairsChains(Pairs(post), endpoints, legacy)
  {
    hide Pairs, PairsChains, PortsChains, EndpointFor;
    PairsAppend(pre + [svc], post);
    PairsAppend(pre, [svc]);
    PairsAppend(pre, post);
    OneService(svc, endpoints, legacy);
    ChainsAppend(Pairs(pre) + Pairs([svc]), Pairs(post), endpoints, legacy);
    ChainsAppend(Pairs(pre), Pairs([svc]), endpoints, legacy);
    ChainsAppend(Pairs(pre), Pairs(post), endpoints, legacy);
  }

  /** With distinct chains a service owns none of the names of the others. */
  lemma OwnNames(pre: seq<Service>, svc: Service, post: seq<Service>, endpoints: seq<Endpoint>, legacy: bool, n: Name)
    requires DistinctChains(Pairs(pre + [svc] + post))
    requires n in PortsChains(svc, svc.ports, EndpointFor(endpoints, svc), legacy)
    ensures n !in PairsChains(Pairs(pre), endpoints, legacy) && n !in PairsChains(Pairs(post), endpoints, legacy)
    ensures forall j :: 0 <= j < |Pairs(pre + post)| ==> !Owns(ChainOf(Pairs(pre + post)[j].0, Pairs(pre + post)[j].1), n)
  {
    hide Pairs, PairsChains, PortsChains, EndpointFor, ChainOf, Owns;
    OneService(svc, endpoints, legacy);
    Apart(pre, svc, post);
    PairsAppend(pre, post);
    ChainsDisjoint(Pairs([svc]), Pairs(pre + post), endpoints, legacy, n);
    ChainsAppend(Pairs(pre), Pairs(post), endpoints, legacy);
  }

  lemma Apart(pre: seq<Service>, svc: Service, post: seq<Service>)
    requires DistinctChains(Pairs(pre + [svc] + post))
    ensures forall i, j :: 0 <= i < |Pairs([svc])| && 0 <= j < |Pairs(pre + post)| ==> !SameChain(Pairs([svc])[i], Pairs(pre + post)[j])
    ensures DistinctChains(Pairs(pre + post)) && DistinctPorts(svc, svc.ports)
  {
    hide Pairs, ChainOf;
    PairsAppend(pre + [svc], post);
    PairsAppend(pre, [svc]);
    PairsAppend(pre, post);
    OneService(svc, [], false);
    var a, s, b := Pairs(pre), Pairs([svc]), Pairs(post);
    var all, rest := a + s + b, a + b;
    forall i, j | 0 <= i < |s| && 0 <= j < |rest|
      ensures !SameChain(s[i], rest[j])
    {
      assert all[|a| + i] == s[i];
      assert rest[j] == all[if j < |a| then j else |s| + j];
    }
    forall i, j | 0 <= i < j < |rest|
      ensures ChainOf(rest[i].0, rest[i].1) != ChainOf(rest[j].0, rest[j].1)
    {
      assert rest[i] == all[if i < |a| then i else |s| + i] && rest[j] == all[if j < |a| then j else |s| + j];
    }
    forall i, j | 0 <= i < j < |svc.ports|
      ensures ChainOf(svc, svc.ports[i]) != ChainOf(svc, svc.ports[j])
    {
      assert all[|a| + i] == (svc, svc.ports[i]) && all[|a| + j] == (svc, svc.ports[j]);
    }
  }

  // ---------- In step ----------

  /** What a chain that belongs to no service holds. */
  ghost function BaseRules(n: Name): seq<Rule> {
    if n == CHAIN_SERVICES then LOOKUP_RULES else if n in Filled(BASE_FILLS) then Filled(BASE_FILLS)[n] else []
  }

  /** The services' chains over the base chains; any other chain is empty. */
  ghost predicate Layered(t: Table, chains: Chains) {
    && (forall n :: n in chains || n == CHAIN_SERVICES || n in Filled(BASE_FILLS) ==> n in t.chains)
    && (forall n :: n in t.chains ==> t.chains[n] == if n in chains then chains[n] else BaseRules(n))
  }

  ghost predicate InStep(t: Table, services: seq<Service>, endpoints: seq<Endpoint>, legacy: bool) {
    && Layered(t, PairsChains(Pairs(services), endpoints, legacy))
    && Holds(t, services) && (HostPorts in t.maps ==> t.maps[HostPorts] == map[])
    && DistinctChains(Pairs(services))
  }

  /** A table in step is deployed. */
  lemma InStepIsDeployed(t: Table, services: seq<Service>, endpoints: seq<Endpoint>, legacy: bool)
    requires InStep(t, services, endpoints, legacy)
    ensures Deployed(t, services, endpoints, legacy)
  {
    hide Holds, PortReady, KindOf, Pairs, PairsChains, Filled, DistinctFills, DistinctChains;
    var chains := PairsChains(Pairs(services), endpoints, legacy);
    BaseKinds();
    BaseFillsDistinct();
    FilledAt(BASE_FILLS);
    forall i | 0 <= i < |BASE_FILLS|
      ensures BASE_FILLS[i].0 in t.chains && t.chains[BASE_FILLS[i].0] == [BASE_FILLS[i].1]
    {
      if BASE_FILLS[i].0 in chains {
        PairsChainsKind(Pairs(services), endpoints, legacy, BASE_FILLS[i].0);
      }
    }
    if CHAIN_SERVICES in chains {
      PairsChainsKind(Pairs(services), endpoints, legacy, CHAIN_SERVICES);
    }
    forall i | 0 <= i < |Pairs(services)|
      ensures PortReady(t, Pairs(services), endpoints, legacy, i)
    {
      PairReady(t, chains, Pairs(services), endpoints, legacy, i);
    }
  }

  /** A full sync is accepted exactly for consistent services, and then puts any table in step. */
  lemma FullSyncWorks(t: Table, services: seq<Service>, endpoints: seq<Endpoint>, legacy: bool)
    requires ClusterIps in t.maps && NodePorts in t.maps && (HostPorts in t.maps ==> t.maps[HostPorts] == map[])
    requires DistinctChains(Pairs(services))
    ensures var r := Exec(t, FullConfig(services, endpoints, legacy) + DiscoveryRefresh(services));
            (r.Some? <==> Consistent(services)) && (r.Some? ==> InStep(r.value, services, endpoints, legacy))
  {
    hide Exec, FullConfig, DiscoveryRefresh, PairsChains, Pairs, Holds, TargetsExist, Filled, Consistent, DistinctChains, KindOf;
    var chains := PairsChains(Pairs(services), endpoints, legacy);
    ExecFullConfig(t, services, endpoints, legacy);
    var t1 := Exec(t, FullConfig(services, endpoints, legacy)).value;
    ConfiguredTargets(t1, services, endpoints, legacy);
    BaseNames();
    BaseKinds();
    ExecRefresh(t1, services);
    ExecConcat(t, FullConfig(services, endpoints, legacy), DiscoveryRefresh(services));
    if CHAIN_SERVICES in chains {
      PairsChainsKind(Pairs(services), endpoints, legacy, CHAIN_SERVICES);
    }
    if Consistent(services) {
      LayeredOverBase(t, Exec(t1, DiscoveryRefresh(services)).value, chains);
    }
  }

  lemma LayeredOverBase(t: Table, t': Table, chains: Chains)
    requires CHAIN_SERVICES !in chains && t'.chains == (BaseLayer(t) + chains)[CHAIN_SERVICES := LOOKUP_RULES]
    ensures Layered(t', chains)
  {
    hide Filled;
    FilledNames();
  }

  lemma FilledNames()
    ensures CHAIN_SERVICES !in Filled(BASE_FILLS)
  {
    hide Filled, DistinctFills;
    BaseFillsDistinct();
    FilledAt(BASE_FILLS);
  }

  // ---------- Events ----------

  lemma LayerAdded(t: Table, a: Chains, s: Chains, b: Chains)
    requires Layered(t, a + b) && forall n :: n in s ==> n !in b
    ensures Layered(t.(chains := t.chains + s), a + s + b)
  {
    hide BaseRules, Filled;
  }

  /** A new service, its update and the delta of the snapshots in one transaction: accepted exactly when the services
      stay consistent, and then in step. */
  lemma SeenWorks(t: Table, pre: seq<Service>, svc: Service, post: seq<Service>, endpoints: seq<Endpoint>, ep: Endpoint,
                  d: Delta, legacy: bool)
    requires InStep(t, pre + post, endpoints, legacy) && SameId(svc, ep.namespace, ep.name)
    requires forall k :: 0 <= k < |pre + post| ==> !SameId((pre + post)[k], ep.namespace, ep.name)
    requires DistinctChains(Pairs(pre + [svc] + post)) && DeltaOf(d, pre + post, pre + [svc] + post)
    ensures var r := Exec(t, UpdateService(svc, ep, legacy) + DeltaCommands(d));
            && (r.Some? <==> Consistent(pre + [svc] + post))
            && (r.Some? ==> InStep(r.value, pre + [svc] + post, endpoints + [ep], legacy))
  {
    hide Exec, UpdateService, DeltaCommands, DeltaOf, Pairs, PairsChains, PortsChains, EndpointFor, DistinctChains, Consistent,
         Holds, Layered, TargetsExist;
    var e := endpoints + [ep];
    var a, s, b := PairsChains(Pairs(pre), e, legacy), PortsChains(svc, svc.ports, ep, legacy), PairsChains(Pairs(post), e, legacy);
    OthersUnchanged(pre + post, endpoints, ep, legacy);
    EndpointAdded(endpoints, ep, svc);
    ChainsAround(pre, svc, post, e, legacy);
    ExecUpdateService(t, svc, ep, legacy);
    var t1 := t.(chains := t.chains + s);
    forall n | n in s
      ensures n !in b
    {
      OwnNames(pre, svc, post, e, legacy, n);
    }
    LayerAdded(t, a, s, b);
    LayeredHas(t1, a + s + b);
    ConfiguredTargets(t1, pre + [svc] + post, e, legacy);
    HoldsSameMaps(t, t1, pre + post);
    ExecDelta(t1, pre + post, pre + [svc] + post, d);
    ExecConcat(t, UpdateService(svc, ep, legacy), DeltaCommands(d));
    if Consistent(pre + [svc] + post) {
      LayeredSame(t1, Exec(t1, DeltaCommands(d)).value, a + s + b);
    }
  }

  lemma LayeredHas(t: Table, chains: Chains)
    requires Layered(t, chains)
    ensures forall n :: n in chains ==> n in t.chains
  {
  }

  lemma HoldsSameMaps(t: Table, t': Table, services: seq<Service>)
    requires Holds(t, services) && t'.maps == t.maps
    ensures Holds(t', services)
  {
  }

  lemma LayeredSame(t: Table, t': Table, chains: Chains)
    requires Layered(t, chains) && t'.chains == t.chains
    ensures Layered(t', chains)
  {
  }

  lemma LayerReplaced(t: Table, a: Chains, m: Chains, d: Chains, d': Chains, b: Chains)
    requires Layered(t, a + (m + d) + b) && d.Keys == d'.Keys && forall n :: n in d ==> n !in b
    ensures Layered(t.(chains := t.chains + d'), a + (m + d') + b)
  {
    hide BaseRules, Filled;
  }

  /** Changed endpoints of a service, without per-endpoint chains: the endpoint-only update. */
  lemma EndpointsWork(t: Table, pre: seq<Service>, svc: Service, post: seq<Service>, endpoints: seq<Endpoint>, ep: Endpoint)
    requires InStep(t, pre + [svc] + post, endpoints, false) && SameId(svc, ep.namespace, ep.name)
    requires forall k :: 0 <= k < |pre + post| ==> !SameId((pre + post)[k], ep.namespace, ep.name)
    ensures var r := Exec(t, RefreshPorts(svc, svc.ports, ep));
            r.Some? && InStep(r.value, pre + [svc] + post, endpoints + [ep], false)
  {
    hide Exec, RefreshPorts, Pairs, PairsChains, PortsChains, EndpointFor, DistinctChains, Holds, Layered, DispatchChains,
         PortsMarks, ChainOf;
    var e, was := endpoints + [ep], EndpointFor(endpoints, svc);
    var a, b := PairsChains(Pairs(pre), endpoints, false), PairsChains(Pairs(post), endpoints, false);
    var m, d, d' := PortsMarks(svc, svc.ports), DispatchChains(svc, svc.ports, was), DispatchChains(svc, svc.ports, ep);
    ChainsAround(pre, svc, post, endpoints, false);
    ChainsAround(pre, svc, post, e, false);
    PartsUnchanged(pre, post, endpoints, ep, false);
    EndpointAdded(endpoints, ep, svc);
    MapModeChains(svc, svc.ports, was);
    MapModeChains(svc, svc.ports, ep);
    DispatchChainsKeys(svc, svc.ports, was);
    DispatchChainsKeys(svc, svc.ports, ep);
    assert d.Keys == d'.Keys;
    forall n | n in d
      ensures n !in b
    {
      OwnNames(pre, svc, post, endpoints, false, n);
    }
    LayeredHas(t, a + (m + d) + b);
    forall i | 0 <= i < |svc.ports|
      ensures ChainOf(svc, svc.ports[i]) in t.chains
    {
      assert ChainOf(svc, svc.ports[i]) in d;
    }
    ExecRefreshPorts(t, svc, svc.ports, ep);
    LayerReplaced(t, a, m, d, d', b);
    HoldsSameMaps(t, t.(chains := t.chains + d'), pre + [svc] + post);
  }

  lemma PartsUnchanged(pre: seq<Service>, post: seq<Service>, endpoints: seq<Endpoint>, ep: Endpoint, legacy: bool)
    requires forall k :: 0 <= k < |pre + post| ==> !SameId((pre + post)[k], ep.namespace, ep.name)
    ensures PairsChains(Pairs(pre), endpoints + [ep], legacy) == PairsChains(Pairs(pre), endpoints, legacy)
    ensures PairsChains(Pairs(post), endpoints + [ep], legacy) == PairsChains(Pairs(post), endpoints, legacy)
  {
    hide Pairs, PairsChains;
    assert forall k :: 0 <= k < |pre| ==> pre[k] == (pre + post)[k];
    assert forall k :: 0 <= k < |post| ==> post[k] == (pre + post)[|pre| + k];
    OthersUnchanged(pre, endpoints, ep, legacy);
    OthersUnchanged(post, endpoints, ep, legacy);
  }
}
