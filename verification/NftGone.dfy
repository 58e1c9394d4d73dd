/** A deleted service: when the delta and the deletion the controller sends in one transaction go through. */
module NftGone {
  import opened Wrappers
  import opened NftNames
  import opened NftModel
  import opened NftCompiler
  import opened NftDiscovery
  import opened NftInstall
  import opened NftMaps
  import opened NftCorrect
  import opened NftTheorem
  import opened NftUpdates
  import opened NftShadow
  import opened NftInStep

  // ---------- A deleted service ----------

  lemma BaseRulesTargets(x: Name, n: Name)
    requires ChainTargets(BaseRules(x), n)
    ensures KindOf(n) == BaseChain
  {
    hide KindOf, Filled, DistinctFills, RuleTargets;
    BaseKinds();
    BaseFillsDistinct();
    FilledAt(BASE_FILLS);
    LookupTargets(n);
    NoRulesNoTargets(n);
    if x in Filled(BASE_FILLS) {
      var i :| 0 <= i < |BASE_FILLS| && BASE_FILLS[i].0 == x;
      if RuleTargets(BASE_FILLS[i].1, n) {
        BaseFillTargets(i, n);
      }
    }
  }

  lemma LookupTargets(n: Name)
    ensures !ChainTargets(LOOKUP_RULES, n)
  {
    assert forall i :: 0 <= i < |LOOKUP_RULES| ==> !RuleTargets(LOOKUP_RULES[i], n);
  }

  lemma {:induction false} ServiceNameKind(svc: Service, ep: Endpoint, legacy: bool, ports: seq<ServicePort>, n: Name)
    requires n in PortsChains(svc, ports, ep, legacy)
    ensures KindOf(n) != BaseChain
  {
    hide PortChains, ChainOf, KindOf, Owns;
    var k := |ports| - 1;
    if n in PortsChains(svc, ports[..k], ep, legacy) {
      ServiceNameKind(svc, ep, legacy, ports[..k], n);
    } else {
      PortChainsOwned(svc, ports[k], ep, legacy, n);
      ServiceChainKind(svc, ports[k]);
      OwnedKind(ChainOf(svc, ports[k]), n);
    }
  }

  /** Rules of other services do not lead to a name none of them owns. */
  lemma ChainsDoNotLead(pairs: seq<Pair>, endpoints: seq<Endpoint>, legacy: bool, x: Name, n: Name)
    requires x in PairsChains(pairs, endpoints, legacy) && ChainTargets(PairsChains(pairs, endpoints, legacy)[x], n)
    ensures exists i :: 0 <= i < |pairs| && Owns(ChainOf(pairs[i].0, pairs[i].1), n)
  {
    hide PortChains, ChainOf, EndpointFor, ChainTargets, Owns;
    var i := ChainsSource(pairs, endpoints, legacy, x);
    PortTargets(pairs[i].0, pairs[i].1, EndpointFor(endpoints, pairs[i].0), legacy, x, n);
  }

  /** Nor do the entries of the lookup maps. */
  lemma EntriesDoNotLead(t: Table, services: seq<Service>, m: MapName, k: Key, n: Name)
    requires Holds(t, services) && (HostPorts in t.maps ==> t.maps[HostPorts] == map[])
    requires m in t.maps && k in t.maps[m] && t.maps[m][k] == n
    ensures exists i :: 0 <= i < |Pairs(services)| && Owns(ChainOf(Pairs(services)[i].0, Pairs(services)[i].1), n)
  {
    hide Pairs, ChainOf, MarkChainName, ClusterOrder, NodeOrder, ClusterElements, NodeElements, SeenIps, SeenNodePorts;
    SnapshotSets(services);
    ItemMember(t.maps[m], k);
    match m
    case ClusterIps =>
      var i := ClusterElementSource(Pairs(services), Element(k, n));
      assert Owns(ChainOf(Pairs(services)[i].0, Pairs(services)[i].1), n);
    case NodePorts =>
      var i := NodeElementSource(Pairs(services), Element(k, n));
      assert Owns(ChainOf(Pairs(services)[i].0, Pairs(services)[i].1), n);
    case HostPorts =>
  }

  /** Without a service, nothing in the table knows its names. */
  lemma ForgottenNames(t: Table, pre: seq<Service>, svc: Service, post: seq<Service>, endpoints: seq<Endpoint>, legacy: bool)
    requires Layered(t, PairsChains(Pairs(pre + post), endpoints, legacy)) && Holds(t, pre + post)
    requires HostPorts in t.maps ==> t.maps[HostPorts] == map[]
    requires DistinctChains(Pairs(pre + [svc] + post))
    requires forall n :: n in PortsNames(svc, svc.ports, EndpointFor(endpoints, svc), legacy) ==> n !in t.chains
    ensures FreshFor(t, svc, EndpointFor(endpoints, svc), legacy)
  {
    hide Pairs, PairsChains, PortsChains, EndpointFor, DistinctChains, Holds, BaseRules, Filled, ChainTargets, KindOf, Owns, ChainOf;
    var ep := EndpointFor(endpoints, svc);
    var pairs := Pairs(pre + post);
    forall n | n in PortsNames(svc, svc.ports, ep, legacy)
      ensures !Referenced(t, n)
    {
      OwnNames(pre, svc, post, endpoints, legacy, n);
      ServiceNameKind(svc, ep, legacy, svc.ports, n);
      forall x | x in t.chains
        ensures !ChainTargets(t.chains[x], n)
      {
        if ChainTargets(t.chains[x], n) {
          if x in PairsChains(pairs, endpoints, legacy) {
            ChainsDoNotLead(pairs, endpoints, legacy, x, n);
          } else {
            BaseRulesTargets(x, n);
          }
        }
      }
      forall m, k | m in t.maps && k in t.maps[m]
        ensures t.maps[m][k] != n
      {
        if t.maps[m][k] == n {
          EntriesDoNotLead(t, pre + post, m, k, n);
        }
      }
    }
  }

  lemma LayerRemoved(t: Table, a: Chains, s: Chains, b: Chains)
    requires Layered(t, a + s + b) && forall n :: n in s ==> n !in a && n !in b && n != CHAIN_SERVICES && n !in Filled(BASE_FILLS)
    ensures Layered(t.(chains := t.chains - s.Keys), a + b) && t.chains == t.chains - s.Keys + s
  {
    hide BaseRules, Filled;
  }

  lemma ServiceNamesAreNotBase(svc: Service, ep: Endpoint, legacy: bool, n: Name)
    requires n in PortsChains(svc, svc.ports, ep, legacy)
    ensures n != CHAIN_SERVICES && n !in Filled(BASE_FILLS)
  {
    hide PortsChains, KindOf, Filled, DistinctFills;
    ServiceNameKind(svc, ep, legacy, svc.ports, n);
    BaseKinds();
    BaseFillsDistinct();
    FilledAt(BASE_FILLS);
  }

  /** The commands for a deleted service: an optional detach, the delta to the remaining snapshot, the delete. */
  function GoneCommands(svc: Service, ep: Endpoint, d: Delta, detach: bool, legacy: bool): seq<Cmd> {
    (if detach then DetachPorts(svc, svc.ports, Some(ep), legacy) else []) + DeltaCommands(d)
    + DeletePorts(svc, svc.ports, Some(ep), legacy)
  }

  lemma DetachedTable(t: Table, rest: Chains, svc: Service, ep: Endpoint, detach: bool, legacy: bool)
    requires t.chains == rest + PortsChains(svc, svc.ports, ep, legacy)
    ensures var names := PortsNames(svc, svc.ports, ep, legacy);
            var content := if detach then Empty(names) else PortsChains(svc, svc.ports, ep, legacy);
            && Exec(t, if detach then DetachPorts(svc, svc.ports, Some(ep), legacy) else []) == Some(t.(chains := rest + content))
            && OverlayOf(content, svc, ep, legacy)
  {
    hide Exec, DetachPorts, PortsChains;
    if detach {
      ExecDetachPorts(t, svc, svc.ports, ep, legacy);
      assert t.chains + Empty(PortsNames(svc, svc.ports, ep, legacy)) == rest + Empty(PortsNames(svc, svc.ports, ep, legacy));
    } else {
      ExecNone(t);
    }
  }

  // ---------- The rebuilt snapshot ----------

  lemma MovedPairs(pre: seq<Service>, svc: Service, post: seq<Service>)
    ensures Pairs(pre + [svc] + post) == Pairs(pre) + PortPairs(svc, svc.ports) + Pairs(post)
    ensures Pairs(pre + post + [svc]) == Pairs(pre) + Pairs(post) + PortPairs(svc, svc.ports)
    ensures Pairs(pre + post) == Pairs(pre) + Pairs(post)
  {
    hide Pairs;
    OneService(svc, [], false);
    PairsAppend(pre + [svc], post);
    PairsAppend(pre, [svc]);
    PairsAppend(pre, post);
    PairsAppend(pre + post, [svc]);
  }

  lemma OwnEntries(pre: seq<Service>, svc: Service, post: seq<Service>)
    requires DistinctChains(Pairs(pre + [svc] + post))
    ensures var (s, rest) := (PortPairs(svc, svc.ports), Pairs(pre) + Pairs(post));
            TellApart(s, rest, ClusterEntry) && TellApart(s, rest, NodeEntry)
  {
    hide Pairs, ChainOf, MarkChainName, ValidClusterIp, Proto, AsU32;
    var s, rest := PortPairs(svc, svc.ports), Pairs(pre) + Pairs(post);
    Apart(pre, svc, post);
    MovedPairs(pre, svc, post);
    OneService(svc, [], false);
    forall i, j | 0 <= i < j < |s|
      ensures ClusterEntry(s[i]) != ClusterEntry(s[j]) && NodeEntry(s[i]) != NodeEntry(s[j])
    {
      EntryChains(s[i], s[j]);
    }
    forall i, j | 0 <= i < |s| && 0 <= j < |rest|
      ensures ClusterEntry(s[i]) != ClusterEntry(rest[j]) && NodeEntry(s[i]) != NodeEntry(rest[j])
    {
      assert !SameChain(s[i], rest[j]);
      EntryChains(s[i], rest[j]);
    }
  }

  lemma EntryChains(a: Pair, b: Pair)
    requires !SameChain(a, b)
    ensures ClusterEntry(a) != ClusterEntry(b) && NodeEntry(a) != NodeEntry(b)
  {
    hide ChainOf, ValidClusterIp, Proto, AsU32, MarkChainName;
    if MarkChainName(ChainOf(a.0, a.1)) == MarkChainName(ChainOf(b.0, b.1)) {
      MarkInjective(ChainOf(a.0, a.1), ChainOf(b.0, b.1));
    }
  }

  /** The snapshot with the deleted service at its end has the entries of the snapshot with the service in its place
      exactly when no later service has a key of its that no earlier one has. */
  lemma RebuiltEntries(pre: seq<Service>, svc: Service, post: seq<Service>)
    requires DistinctChains(Pairs(pre + [svc] + post))
    ensures SameEntries(pre + post + [svc], pre + [svc] + post) <==> !Shadowing(pre, svc, post)
  {
    hide Pairs, Entries, Shadows, TellApart, DistinctChains, ClusterSet, NodeSet;
    var a, s, b := Pairs(pre), PortPairs(svc, svc.ports), Pairs(post);
    MovedPairs(pre, svc, post);
    OwnEntries(pre, svc, post);
    EntriesOfServices(pre + post + [svc]);
    EntriesOfServices(pre + [svc] + post);
    if Shadows(a, s, b, ClusterTuple) {
      var i := MovedLoses(a, s, b, ClusterTuple, ClusterEntry);
    } else {
      MovedSame(a, s, b, ClusterTuple, ClusterEntry);
    }
    if Shadows(a, s, b, NodeTuple) {
      var i := MovedLoses(a, s, b, NodeTuple, NodeEntry);
    } else {
      MovedSame(a, s, b, NodeTuple, NodeEntry);
    }
  }

  /** The delta only deletes, and only entries the maps hold. */
  lemma DeltaOnlyDeletes(pre: seq<Service>, svc: Service, post: seq<Service>)
    ensures ClusterSet(pre + post) <= ClusterSet(pre + post + [svc]) && NodeSet(pre + post) <= NodeSet(pre + post + [svc])
    ensures ClusterSet(pre + post + [svc]) - ClusterSet(pre + post) <= ClusterSet(pre + [svc] + post)
    ensures NodeSet(pre + post + [svc]) - NodeSet(pre + post) <= NodeSet(pre + [svc] + post)
  {
    hide Pairs, Entries, ClusterSet, NodeSet;
    MovedPairs(pre, svc, post);
    EntriesOfServices(pre + post);
    EntriesOfServices(pre + post + [svc]);
    EntriesOfServices(pre + [svc] + post);
    MovedEntries(Pairs(pre), PortPairs(svc, svc.ports), Pairs(post), ClusterTuple, ClusterEntry);
    MovedEntries(Pairs(pre), PortPairs(svc, svc.ports), Pairs(post), NodeTuple, NodeEntry);
  }

  lemma RestConsistent(t: Table, pre: seq<Service>, svc: Service, post: seq<Service>)
    requires Holds(t, pre + [svc] + post) && SameEntries(pre + post + [svc], pre + [svc] + post)
    ensures Consistent(pre + post)
  {
    hide ClusterSet, NodeSet;
    ItemsFunctional(t.maps[ClusterIps]);
    ItemsFunctional(t.maps[NodePorts]);
    DeltaOnlyDeletes(pre, svc, post);
  }

  /** Otherwise some entry leads to a chain of the service and is not among those deleted. */
  lemma LeftOver(pre: seq<Service>, svc: Service, post: seq<Service>) returns (m: MapName, i: nat, e: Element)
    requires DistinctChains(Pairs(pre + [svc] + post)) && Shadowing(pre, svc, post)
    ensures i < |svc.ports|
    ensures || (m == ClusterIps && ValidClusterIp(svc).Some? && e.target == MarkChainName(ChainOf(svc, svc.ports[i]))
                && e in ClusterSet(pre + [svc] + post) && e !in ClusterSet(pre + post + [svc]))
            || (m == NodePorts && e.target == ChainOf(svc, svc.ports[i])
                && e in NodeSet(pre + [svc] + post) && e !in NodeSet(pre + post + [svc]))
  {
    hide Pairs, Entries, Shadows, TellApart, DistinctChains, ClusterSet, NodeSet, ValidClusterIp, ChainOf, MarkChainName, Proto;
    var a, s, b := Pairs(pre), PortPairs(svc, svc.ports), Pairs(post);
    MovedPairs(pre, svc, post);
    OwnEntries(pre, svc, post);
    EntriesOfServices(pre + post + [svc]);
    EntriesOfServices(pre + [svc] + post);
    if Shadows(a, s, b, ClusterTuple) {
      i := MovedLoses(a, s, b, ClusterTuple, ClusterEntry);
      m, e := ClusterIps, ClusterEntry(s[i]);
    } else {
      i := MovedLoses(a, s, b, NodeTuple, NodeEntry);
      m, e := NodePorts, NodeEntry(s[i]);
    }
  }

  // ---------- A deletion that is refused ----------

  ghost predicate OnlyChains(cmds: seq<Cmd>) {
    forall k :: 0 <= k < |cmds| ==> cmds[k].FlushChain? || cmds[k].DeleteChain?
  }

  /** A chain that a map leads to cannot be deleted. */
  lemma {:induction false} DeleteBlocked(t: Table, cmds: seq<Cmd>, m: MapName, k: Key, n: Name)
    requires OnlyChains(cmds) && DeleteChain(n) in cmds
    requires m in t.maps && k in t.maps[m] && t.maps[m][k] == n
    ensures Exec(t, cmds).None?
    decreases |cmds|
  {
    hide ChainTargets;
    assert Referenced(t, n);
    assert cmds == [cmds[0]] + cmds[1..];
    match Apply(t, cmds[0])
    case None =>
    case Some(t') =>
      assert t'.maps == t.maps && cmds[0] != DeleteChain(n);
      DeleteBlocked(t', cmds[1..], m, k, n);
  }

  lemma {:induction false} FlushDeleteOnlyChains(names: seq<Name>)
    ensures OnlyChains(FlushDeleteAll(names))
  {
    if names != [] {
      FlushDeleteOnlyChains(names[..|names| - 1]);
    }
  }

  lemma {:induction false} DeletePortsOnlyChains(svc: Service, ports: seq<ServicePort>, ep: Option<Endpoint>, legacy: bool)
    ensures OnlyChains(DeletePorts(svc, ports, ep, legacy))
  {
    hide ChainOf, MarkChainName, OwnedEndpoints, FlushDeleteAll, ValidClusterIp;
    if ports != [] {
      DeletePortsOnlyChains(svc, ports[..|ports| - 1], ep, legacy);
      FlushDeleteOnlyChains(OwnedEndpoints(svc, ports[|ports| - 1], ep, legacy));
    }
  }

  lemma {:induction false} DeletePortsDelete(svc: Service, ports: seq<ServicePort>, ep: Option<Endpoint>, legacy: bool, i: nat)
    requires i < |ports|
    ensures DeleteChain(ChainOf(svc, ports[i])) in DeletePorts(svc, ports, ep, legacy)
    ensures ValidClusterIp(svc).Some? ==> DeleteChain(MarkChainName(ChainOf(svc, ports[i]))) in DeletePorts(svc, ports, ep, legacy)
  {
    hide ChainOf, MarkChainName, OwnedEndpoints, FlushDeleteAll, FlushPort, ValidClusterIp;
    if i < |ports| - 1 {
      DeletePortsDelete(svc, ports[..|ports| - 1], ep, legacy, i);
    }
  }

  /** A delta that only deletes entries the maps hold goes through. */
  lemma ExecShrink(t: Table, services: seq<Service>, old_: seq<Service>, new_: seq<Service>, d: Delta)
    requires Holds(t, services) && DeltaOf(d, old_, new_)
    requires ClusterSet(new_) <= ClusterSet(old_) && ClusterSet(old_) - ClusterSet(new_) <= ClusterSet(services)
    requires NodeSet(new_) <= NodeSet(old_) && NodeSet(old_) - NodeSet(new_) <= NodeSet(services)
    ensures var r := Exec(t, DeltaCommands(d));
            && r.Some? && r.value.maps.Keys == t.maps.Keys
            && Items(r.value.maps[ClusterIps]) == ClusterSet(services) - (ClusterSet(old_) - ClusterSet(new_))
            && Items(r.value.maps[NodePorts]) == NodeSet(services) - (NodeSet(old_) - NodeSet(new_))
  {
    hide Exec, ClusterOrder, NodeOrder, DeleteIfAny, Items;
    OrderSet(d.clusterDeletes, ClusterSet(old_) - ClusterSet(new_));
    OrderSet(d.clusterAdds, ClusterSet(new_) - ClusterSet(old_));
    OrderSet(d.nodeDeletes, NodeSet(old_) - NodeSet(new_));
    OrderSet(d.nodeAdds, NodeSet(new_) - NodeSet(old_));
    var cd, nd := DeleteIfAny(ClusterIps, d.clusterDeletes), DeleteIfAny(NodePorts, d.nodeDeletes);
    assert DeltaCommands(d) == cd + nd by {
      NoElements(d.clusterAdds, ClusterSet(new_) - ClusterSet(old_));
      NoElements(d.nodeAdds, NodeSet(new_) - NodeSet(old_));
    }
    ExecDelete(t, ClusterIps, d.clusterDeletes);
    ExecDelete(Exec(t, cd).value, NodePorts, d.nodeDeletes);
    ExecConcat(t, cd, nd);
  }

  lemma NoElements(es: seq<Element>, s: set<Element>)
    requires OrderOf(es, s)
    ensures s == {} ==> es == []
  {
    if es != [] {
      assert es[0] in s;
    }
  }

  lemma GoneRefused(t: Table, pre: seq<Service>, svc: Service, post: seq<Service>, endpoints: seq<Endpoint>,
                    d: Delta, detach: bool, legacy: bool)
    requires InStep(t, pre + [svc] + post, endpoints, legacy) && DeltaOf(d, pre + post + [svc], pre + post)
    requires Shadowing(pre, svc, post)
    ensures Exec(t, GoneCommands(svc, EndpointFor(endpoints, svc), d, detach, legacy)).None?
  {
    hide Exec, DetachPorts, DeletePorts, DeltaCommands, DeltaOf, Pairs, PairsChains, PortsChains, EndpointFor, DistinctChains,
         Layered, OverlayOf, Shadowing, OnlyChains, ClusterSet, NodeSet, ChainOf, MarkChainName, ValidClusterIp, Items;
    var ep, all := EndpointFor(endpoints, svc), pre + [svc] + post;
    var first := if detach then DetachPorts(svc, svc.ports, Some(ep), legacy) else [];
    var last := DeletePorts(svc, svc.ports, Some(ep), legacy);
    var t0 := DetachedMaps(t, pre, svc, post, endpoints, detach, legacy);
    HoldsSameMaps(t, t0, all);
    DeltaOnlyDeletes(pre, svc, post);
    ExecShrink(t0, all, pre + post + [svc], pre + post, d);
    var t1 := Exec(t0, DeltaCommands(d)).value;
    var m, i, e := LeftOver(pre, svc, post);
    ItemIn(t1.maps[m], e);
    DeletePortsOnlyChains(svc, svc.ports, Some(ep), legacy);
    DeletePortsDelete(svc, svc.ports, Some(ep), legacy, i);
    DeleteBlocked(t1, last, m, e.key, e.target);
    ExecConcat(t, first, DeltaCommands(d));
    ExecConcat(t, first + DeltaCommands(d), last);
  }

  lemma ItemIn(m: map<Key, Name>, e: Element)
    requires e in Items(m)
    ensures e.key in m && m[e.key] == e.target
  {
  }

  lemma DetachedMaps(t: Table, pre: seq<Service>, svc: Service, post: seq<Service>, endpoints: seq<Endpoint>,
                     detach: bool, legacy: bool) returns (t0: Table)
    requires InStep(t, pre + [svc] + post, endpoints, legacy)
    ensures Exec(t, if detach then DetachPorts(svc, svc.ports, Some(EndpointFor(endpoints, svc)), legacy) else []) == Some(t0)
    ensures t0.maps == t.maps
  {
    hide Exec, DetachPorts, Pairs, PairsChains, PortsChains, EndpointFor, DistinctChains, Holds, Layered, OverlayOf, Filled;
    var ep := EndpointFor(endpoints, svc);
    var a, s, b := PairsChains(Pairs(pre), endpoints, legacy), PortsChains(svc, svc.ports, ep, legacy), PairsChains(Pairs(post), endpoints, legacy);
    ChainsAround(pre, svc, post, endpoints, legacy);
    forall n | n in s
      ensures n !in a && n !in b && n != CHAIN_SERVICES && n !in Filled(BASE_FILLS)
    {
      OwnNames(pre, svc, post, endpoints, legacy, n);
      ServiceNamesAreNotBase(svc, ep, legacy, n);
    }
    LayerRemoved(t, a, s, b);
    DetachedTable(t, t.chains - s.Keys, svc, ep, detach, legacy);
    t0 := Exec(t, if detach then DetachPorts(svc, svc.ports, Some(ep), legacy) else []).value;
  }

  // ---------- Accepted and refused ----------

  lemma GoneAccepted(t: Table, pre: seq<Service>, svc: Service, post: seq<Service>, endpoints: seq<Endpoint>,
                     d: Delta, detach: bool, legacy: bool)
    requires InStep(t, pre + [svc] + post, endpoints, legacy) && DeltaOf(d, pre + post + [svc], pre + post)
    requires !Shadowing(pre, svc, post)
    ensures var r := Exec(t, GoneCommands(svc, EndpointFor(endpoints, svc), d, detach, legacy));
            r.Some? && InStep(r.value, pre + post, endpoints, legacy)
  {
    hide Exec, DetachPorts, DeletePorts, DeltaCommands, DeltaOf, Pairs, PairsChains, PortsChains, EndpointFor, DistinctChains,
         Consistent, Holds, Layered, TargetsExist, FreshFor, OverlayOf, AllRemovable, DistinctPorts, Filled,
         Shadowing;
    var ep := EndpointFor(endpoints, svc);
    var from := pre + post + [svc];
    RebuiltEntries(pre, svc, post);
    RestConsistent(t, pre, svc, post);
    var a, s, b := PairsChains(Pairs(pre), endpoints, legacy), PortsChains(svc, svc.ports, ep, legacy), PairsChains(Pairs(post), endpoints, legacy);
    ChainsAround(pre, svc, post, endpoints, legacy);
    Apart(pre, svc, post);
    forall n | n in s
      ensures n !in a && n !in b && n != CHAIN_SERVICES && n !in Filled(BASE_FILLS)
    {
      OwnNames(pre, svc, post, endpoints, legacy, n);
      ServiceNamesAreNotBase(svc, ep, legacy, n);
    }
    LayerRemoved(t, a, s, b);
    var rest := t.chains - s.Keys;
    DetachedTable(t, rest, svc, ep, detach, legacy);
    var content := if detach then Empty(PortsNames(svc, svc.ports, ep, legacy)) else s;
    var t0 := t.(chains := rest + content);
    LayeredHas(t.(chains := rest), a + b);
    ConfiguredTargets(t0, pre + post, endpoints, legacy);
    HoldsFrom(t, t0, from, pre + [svc] + post);
    ExecDelta(t0, from, pre + post, d);
    var t1 := Exec(t0, DeltaCommands(d)).value;
    var left := t1.(chains := rest);
    HoldsSameMaps(t1, left, pre + post);
    LayeredSame(t.(chains := rest), left, a + b);
    ForgottenNames(left, pre, svc, post, endpoints, legacy);
    OverlaidRemovable(left, content, svc, ep, legacy);
    OverlayKeys(content, svc, ep, legacy);
    ExecDeletePorts(t1, svc, svc.ports, ep, legacy);
    FreshRestores(left, content, svc, ep, legacy);
    var first := if detach then DetachPorts(svc, svc.ports, Some(ep), legacy) else [];
    ExecConcat(t, first, DeltaCommands(d));
    ExecConcat(t, first + DeltaCommands(d), DeletePorts(svc, svc.ports, Some(ep), legacy));
  }

  lemma OverlayKeys(content: Chains, svc: Service, ep: Endpoint, legacy: bool)
    requires OverlayOf(content, svc, ep, legacy)
    ensures content.Keys == PortsNames(svc, svc.ports, ep, legacy)
  {
  }

  lemma HoldsFrom(t: Table, t': Table, from: seq<Service>, services: seq<Service>)
    requires Holds(t, services) && t'.maps == t.maps && SameEntries(from, services)
    ensures Holds(t', from)
  {
    hide ClusterOrder, NodeOrder;
  }

  /** The transaction for a deleted service is accepted exactly when no later service has an address and port, or a
      node port, of the deleted one that no earlier service has; then the table is in step with the rest. */
  lemma GoneExactly(t: Table, pre: seq<Service>, svc: Service, post: seq<Service>, endpoints: seq<Endpoint>,
                    d: Delta, detach: bool, legacy: bool)
    requires InStep(t, pre + [svc] + post, endpoints, legacy) && DeltaOf(d, pre + post + [svc], pre + post)
    ensures var r := Exec(t, GoneCommands(svc, EndpointFor(endpoints, svc), d, detach, legacy));
            && (r.Some? <==> !Shadowing(pre, svc, post))
            && (r.Some? ==> InStep(r.value, pre + post, endpoints, legacy))
  {
    hide Exec, GoneCommands, InStep, DeltaOf, Shadowing, EndpointFor;
    if Shadowing(pre, svc, post) {
      GoneRefused(t, pre, svc, post, endpoints, d, detach, legacy);
    } else {
      GoneAccepted(t, pre, svc, post, endpoints, d, detach, legacy);
    }
  }
}
