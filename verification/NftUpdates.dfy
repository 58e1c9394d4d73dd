/** Incremental updates: endpoint-only refreshes equal full updates, and delete undoes install. */
module NftUpdates {
  import opened Wrappers
  import opened NftNames
  import opened NftModel
  import opened NftCompiler
  import opened NftDiscovery
  import opened NftInstall
  import opened NftCorrect

  // ---------- Endpoint-only updates ----------

  function PortDispatch(svc: Service, p: ServicePort, ep: Endpoint): Rule {
    DispatchRule(ChainOf(svc, p), Proto(p), Backends(p, ep.subsets), false)
  }

  function DispatchChains(svc: Service, ports: seq<ServicePort>, ep: Endpoint): Chains {
    if ports == [] then map[]
    else
      var p := ports[|ports| - 1];
      DispatchChains(svc, ports[..|ports| - 1], ep) + map[ChainOf(svc, p) := [PortDispatch(svc, p, ep)]]
  }

  function PortsMarks(svc: Service, ports: seq<ServicePort>): Chains {
    if ports == [] then map[]
    else PortsMarks(svc, ports[..|ports| - 1]) + MarkChains(svc, ChainOf(svc, ports[|ports| - 1]))
  }

  lemma {:induction false} DispatchChainsKeys(svc: Service, ports: seq<ServicePort>, ep: Endpoint)
    ensures forall n :: n in DispatchChains(svc, ports, ep) <==> exists i :: 0 <= i < |ports| && n == ChainOf(svc, ports[i])
    ensures forall n :: n in DispatchChains(svc, ports, ep) ==> KindOf(n) == ServiceChain
  {
    hide ChainOf, KindOf, PortDispatch;
    if ports != [] {
      var m := |ports| - 1;
      DispatchChainsKeys(svc, ports[..m], ep);
      ServiceChainKind(svc, ports[m]);
      forall n
        ensures n in DispatchChains(svc, ports, ep) <==> exists i :: 0 <= i < |ports| && n == ChainOf(svc, ports[i])
      {
        if n in DispatchChains(svc, ports[..m], ep) {
          var i :| 0 <= i < m && n == ChainOf(svc, ports[..m][i]);
          assert n == ChainOf(svc, ports[i]);
        }
        if i :| 0 <= i < |ports| && n == ChainOf(svc, ports[i]) {
          assert i < m ==> n == ChainOf(svc, ports[..m][i]);
        }
      }
    }
  }

  lemma {:induction false} PortsMarksKind(svc: Service, ports: seq<ServicePort>)
    ensures forall n :: n in PortsMarks(svc, ports) ==> KindOf(n) == MarkChain
  {
    hide ChainOf, KindOf, MarkChainName;
    if ports != [] {
      PortsMarksKind(svc, ports[..|ports| - 1]);
      MarkChainsKind(svc, ChainOf(svc, ports[|ports| - 1]));
    }
  }

  /** Without endpoint chains a service owns its mark chains and its dispatch chains, nothing else. */
  lemma {:induction false} MapModeChains(svc: Service, ports: seq<ServicePort>, ep: Endpoint)
    ensures PortsChains(svc, ports, ep, false) == PortsMarks(svc, ports) + DispatchChains(svc, ports, ep)
  {
    hide ChainOf, KindOf, MarkChains, PortChains, PortDispatch;
    if ports != [] {
      var front, p := ports[..|ports| - 1], ports[|ports| - 1];
      MapModeChains(svc, front, ep);
      DispatchChainsKeys(svc, front, ep);
      MarkChainsKind(svc, ChainOf(svc, p));
      MapModePort(svc, p, ep);
      var m, d := MarkChains(svc, ChainOf(svc, p)), map[ChainOf(svc, p) := [PortDispatch(svc, p, ep)]];
      Interleave(PortsMarks(svc, front), DispatchChains(svc, front, ep), m, d);
    }
  }

  lemma MapModePort(svc: Service, p: ServicePort, ep: Endpoint)
    ensures PortChains(svc, p, ep, false)
         == MarkChains(svc, ChainOf(svc, p)) + map[ChainOf(svc, p) := [PortDispatch(svc, p, ep)]]
  {
    hide ChainOf, MarkChains, DispatchRule;
    assert MarkChains(svc, ChainOf(svc, p)) + map[] == MarkChains(svc, ChainOf(svc, p));
  }

  lemma Interleave(a: Chains, b: Chains, c: Chains, d: Chains)
    requires forall n :: n in b ==> n !in c
    ensures (a + b) + (c + d) == (a + c) + (b + d)
  {
  }

  lemma {:induction false} ExecRefreshPorts(t: Table, svc: Service, ports: seq<ServicePort>, ep: Endpoint)
    requires forall i :: 0 <= i < |ports| ==> ChainOf(svc, ports[i]) in t.chains
    ensures Exec(t, RefreshPorts(svc, ports, ep)) == Some(t.(chains := t.chains + DispatchChains(svc, ports, ep)))
  {
    hide Exec, ChainOf, KindOf, DispatchCommands, DispatchRule, Apply;
    if ports == [] {
      ExecNone(t);
      assert t.chains + map[] == t.chains;
    } else {
      var front, p := ports[..|ports| - 1], ports[|ports| - 1];
      var c, backends := ChainOf(svc, p), Backends(p, ep.subsets);
      var dispatch := DispatchCommands(c, Proto(p), backends, false);
      var t1 := t.(chains := t.chains + DispatchChains(svc, front, ep));
      var t2 := t.(chains := t1.chains[c := []]);
      ExecRefreshPorts(t, svc, front, ep);
      ExecFlush(t1, c);
      ServiceChainKind(svc, p);
      ExecDispatch(t2, c, Proto(p), backends, false);
      ExecConcat(t1, [FlushChain(c)], dispatch);
      ExecConcat(t, RefreshPorts(svc, front, ep), [FlushChain(c)] + dispatch);
      OverlayOne(t.chains, DispatchChains(svc, front, ep), c, [PortDispatch(svc, p, ep)]);
    }
  }

  lemma OverlayOne(base: Chains, d: Chains, c: Name, rules: seq<Rule>)
    ensures (base + d)[c := []] + map[] + map[c := rules] == base + (d + map[c := rules])
  {
  }

  lemma ExecFlush(t: Table, n: Name)
    requires n in t.chains
    ensures Exec(t, [FlushChain(n)]) == Some(t.(chains := t.chains[n := []]))
  {
    assert [FlushChain(n)][1..] == [];
  }

  /** The endpoint-only updates for a sequence of endpoints. */
  function EndpointRun(svc: Service, eps: seq<Endpoint>): seq<Cmd> {
    if eps == [] then [] else EndpointRun(svc, eps[..|eps| - 1]) + RefreshPorts(svc, svc.ports, eps[|eps| - 1])
  }

  /** After installation, any run of endpoint-only updates equals one full update with the last endpoint. */
  lemma {:induction false} EndpointRunEqualsFullUpdate(t: Table, svc: Service, first: Endpoint, eps: seq<Endpoint>)
    ensures Exec(t, UpdateService(svc, first, false) + EndpointRun(svc, eps))
         == Exec(t, UpdateService(svc, if eps == [] then first else eps[|eps| - 1], false))
    ensures Exec(t, UpdateService(svc, first, false)).Some?
    decreases |eps|
  {
    hide Exec, UpdateService, RefreshPorts, ChainOf, PortsChains, PortsMarks, DispatchChains;
    ExecUpdateService(t, svc, first, false);
    if eps == [] {
      assert UpdateService(svc, first, false) + EndpointRun(svc, eps) == UpdateService(svc, first, false);
    } else {
      var front, ep := eps[..|eps| - 1], eps[|eps| - 1];
      var prev := if front == [] then first else front[|front| - 1];
      EndpointRunEqualsFullUpdate(t, svc, first, front);
      ExecUpdateService(t, svc, prev, false);
      ExecUpdateService(t, svc, ep, false);
      var t1 := t.(chains := t.chains + PortsChains(svc, svc.ports, prev, false));
      assert UpdateService(svc, first, false) + EndpointRun(svc, eps)
          == UpdateService(svc, first, false) + EndpointRun(svc, front) + RefreshPorts(svc, svc.ports, ep);
      ExecConcat(t, UpdateService(svc, first, false) + EndpointRun(svc, front), RefreshPorts(svc, svc.ports, ep));
      MapModeChains(svc, svc.ports, prev);
      MapModeChains(svc, svc.ports, ep);
      DispatchChainsKeys(svc, svc.ports, prev);
      DispatchChainsKeys(svc, svc.ports, ep);
      forall i | 0 <= i < |svc.ports|
        ensures ChainOf(svc, svc.ports[i]) in t1.chains
      {
        assert ChainOf(svc, svc.ports[i]) in DispatchChains(svc, svc.ports, prev);
      }
      ExecRefreshPorts(t1, svc, svc.ports, ep);
      Replace(t.chains, PortsMarks(svc, svc.ports), DispatchChains(svc, svc.ports, prev), DispatchChains(svc, svc.ports, ep));
    }
  }

  lemma Replace(base: Chains, marks: Chains, old_: Chains, new_: Chains)
    requires forall n :: n in old_ ==> n in new_
    ensures base + (marks + old_) + new_ == base + (marks + new_)
  {
  }

  // ---------- Delete ----------

  /** No chain of the set is referenced. */
  ghost predicate Quiet(t: Table, names: set<Name>) {
    forall n :: n in names ==> !Referenced(t, n)
  }

  lemma FlushKeepsQuiet(t: Table, n: Name, names: set<Name>)
    requires Quiet(t, names)
    ensures Quiet(t.(chains := t.chains[n := []]), names)
  {
    hide RuleTargets;
  }

  lemma DeleteKeepsQuiet(t: Table, n: Name, names: set<Name>)
    requires Quiet(t, names)
    ensures Quiet(t.(chains := t.chains - {n}), names)
  {
    hide RuleTargets;
  }

  lemma {:induction false} ExecFlushDelete(t: Table, doomed: seq<Name>, names: set<Name>)
    requires Quiet(t, names)
    requires forall i :: 0 <= i < |doomed| ==> doomed[i] in names && doomed[i] in t.chains
    requires forall i, j :: 0 <= i < j < |doomed| ==> doomed[i] != doomed[j]
    ensures Exec(t, FlushDeleteAll(doomed)) == Some(t.(chains := t.chains - set n | n in doomed))
    ensures Quiet(t.(chains := t.chains - set n | n in doomed), names)
  {
    hide Exec, Referenced;
    if doomed == [] {
      ExecNone(t);
      assert t.chains - (set n | n in doomed) == t.chains;
    } else {
      var k := |doomed| - 1;
      var front, e := doomed[..k], doomed[k];
      ExecFlushDelete(t, front, names);
      var t1 := t.(chains := t.chains - set n | n in front);
      var t2 := t1.(chains := t1.chains[e := []]);
      ExecFlush(t1, e);
      FlushKeepsQuiet(t1, e, names);
      ExecOne(t2, DeleteChain(e));
      DeleteKeepsQuiet(t2, e, names);
      ExecConcat(t1, [FlushChain(e)], [DeleteChain(e)]);
      assert [FlushChain(e)] + [DeleteChain(e)] == [FlushChain(e), DeleteChain(e)];
      ExecConcat(t, FlushDeleteAll(front), [FlushChain(e), DeleteChain(e)]);
      assert doomed == front + [e];
      assert t2.chains - {e} == t.chains - set n | n in doomed;
    }
  }

  /** The port's chains exist, and nothing but its own mark and service chains refers to any of them. */
  ghost predicate Removable(t: Table, svc: Service, p: ServicePort, ep: Endpoint, legacy: bool) {
    var c, names := ChainOf(svc, p), PortChains(svc, p, ep, legacy).Keys;
    && names <= t.chains.Keys
    && (forall x, n :: x in t.chains && n in names && ChainTargets(t.chains[x], n) ==>
          x == c || (x == MarkChainName(c) && ValidClusterIp(svc).Some?))
    && (forall m, k :: m in t.maps && k in t.maps[m] ==> t.maps[m][k] !in names)
  }

  lemma PortNames(svc: Service, p: ServicePort, ep: Endpoint, legacy: bool)
    ensures var c, m := ChainOf(svc, p), MarkChainName(ChainOf(svc, p));
            var owned := set n | n in OwnedEndpoints(svc, p, Some(ep), legacy);
            && PortChains(svc, p, ep, legacy).Keys == owned + {c} + (if ValidClusterIp(svc).Some? then {m} else {})
            && c !in owned && m !in owned && c != m
  {
    hide ChainOf, MarkChainName, EndpointChainName, KindOf, Backends, DispatchRule;
    var c := ChainOf(svc, p);
    ServiceChainKind(svc, p);
    MarkKind(c);
    var names := OwnedEndpoints(svc, p, Some(ep), legacy);
    EndpointChainsKeys(c, Proto(p), Backends(p, ep.subsets));
    forall n | n in names
      ensures n != c && n != MarkChainName(c)
    {
      EndpointNamesKind(c, |names|, n);
    }
  }

  lemma OwnedDistinct(svc: Service, p: ServicePort, ep: Option<Endpoint>, legacy: bool)
    ensures var names := OwnedEndpoints(svc, p, ep, legacy);
            forall i, j :: 0 <= i < j < |names| ==> names[i] != names[j]
  {
    hide ChainOf, EndpointChainName;
    var names := OwnedEndpoints(svc, p, ep, legacy);
    forall i, j | 0 <= i < j < |names|
      ensures names[i] != names[j]
    {
      if names[i] == names[j] {
        EndpointInjective(ChainOf(svc, p), i, ChainOf(svc, p), j);
      }
    }
  }

  /** The mark and service chains flushed. */
  ghost function Flushed(t: Table, svc: Service, p: ServicePort): Table {
    var c := ChainOf(svc, p);
    var chains := if ValidClusterIp(svc).Some? then t.chains[MarkChainName(c) := []] else t.chains;
    t.(chains := chains[c := []])
  }

  lemma ExecFlushPort(t: Table, svc: Service, p: ServicePort, ep: Endpoint, legacy: bool)
    requires PortChains(svc, p, ep, legacy).Keys <= t.chains.Keys
    ensures Exec(t, FlushPort(svc, p)) == Some(Flushed(t, svc, p))
  {
    hide Exec, ChainOf, MarkChainName, PortChains;
    var c, m := ChainOf(svc, p), MarkChainName(ChainOf(svc, p));
    PortNames(svc, p, ep, legacy);
    ExecFlush(t, c);
    if ValidClusterIp(svc).Some? {
      ExecFlush(t, m);
      ExecFlush(t.(chains := t.chains[m := []]), c);
      ExecConcat(t, [FlushChain(m)], [FlushChain(c)]);
    } else {
      assert [] + [FlushChain(c)] == [FlushChain(c)];
    }
  }

  lemma FlushedIsQuiet(t: Table, svc: Service, p: ServicePort, ep: Endpoint, legacy: bool)
    requires Removable(t, svc, p, ep, legacy)
    ensures Quiet(Flushed(t, svc, p), PortChains(svc, p, ep, legacy).Keys)
  {
    hide ChainOf, MarkChainName, PortChains, RuleTargets;
  }

  lemma ExecDeleteOne(t: Table, n: Name, names: set<Name>)
    requires Quiet(t, names) && n in names && n in t.chains && t.chains[n] == []
    ensures Exec(t, [DeleteChain(n)]) == Some(t.(chains := t.chains - {n}))
    ensures Quiet(t.(chains := t.chains - {n}), names)
  {
    hide Referenced;
    assert [DeleteChain(n)][1..] == [];
    DeleteKeepsQuiet(t, n, names);
  }

  /** Deleting the two flushed chains of a port, the mark chain only if the service has one. */
  lemma ExecDeletePair(t: Table, c: Name, m: Name, marked: bool, names: set<Name>)
    requires Quiet(t, names) && c != m && c in names && c in t.chains && t.chains[c] == []
    requires marked ==> m in names && m in t.chains && t.chains[m] == []
    ensures Exec(t, [DeleteChain(c)] + if marked then [DeleteChain(m)] else [])
         == Some(t.(chains := t.chains - {c} - if marked then {m} else {}))
  {
    hide Exec, Quiet;
    ExecDeleteOne(t, c, names);
    var t1 := t.(chains := t.chains - {c});
    if marked {
      ExecDeleteOne(t1, m, names);
      ExecConcat(t, [DeleteChain(c)], [DeleteChain(m)]);
    } else {
      assert [DeleteChain(c)] + [] == [DeleteChain(c)];
      assert t1.chains - {} == t1.chains;
    }
  }

  lemma ExecDeletePort(t: Table, svc: Service, p: ServicePort, ep: Endpoint, legacy: bool)
    requires Removable(t, svc, p, ep, legacy)
    ensures Exec(t, DeletePort(svc, p, Some(ep), legacy)) == Some(t.(chains := t.chains - PortChains(svc, p, ep, legacy).Keys))
  {
    hide Exec, ChainOf, MarkChainName, PortChains, Quiet, FlushPort, FlushDeleteAll, OwnedEndpoints;
    var c, m, marked := ChainOf(svc, p), MarkChainName(ChainOf(svc, p)), ValidClusterIp(svc).Some?;
    var eps, names := OwnedEndpoints(svc, p, Some(ep), legacy), PortChains(svc, p, ep, legacy).Keys;
    PortNames(svc, p, ep, legacy);
    OwnedDistinct(svc, p, Some(ep), legacy);
    ExecFlushPort(t, svc, p, ep, legacy);
    FlushedIsQuiet(t, svc, p, ep, legacy);
    var t1 := Flushed(t, svc, p);
    ExecFlushDelete(t1, eps, names);
    var t2 := t1.(chains := t1.chains - set n | n in eps);
    ExecDeletePair(t2, c, m, marked, names);
    var tail := [DeleteChain(c)] + if marked then [DeleteChain(m)] else [];
    ExecConcat(t, FlushPort(svc, p), FlushDeleteAll(eps));
    ExecConcat(t, FlushPort(svc, p) + FlushDeleteAll(eps), tail);
    assert DeletePort(svc, p, Some(ep), legacy) == FlushPort(svc, p) + FlushDeleteAll(eps) + tail;
    RemoveThree(t.chains, c, m, marked, set n | n in eps);
  }

  lemma RemoveThree(chains: Chains, c: Name, m: Name, marked: bool, eps: set<Name>)
    ensures (if marked then chains[m := []] else chains)[c := []] - eps - {c} - (if marked then {m} else {})
         == chains - (eps + {c} + if marked then {m} else {})
  {
  }

  // ---------- Install then delete ----------

  function PortsNames(svc: Service, ports: seq<ServicePort>, ep: Endpoint, legacy: bool): set<Name> {
    PortsChains(svc, ports, ep, legacy).Keys
  }

  ghost predicate AllRemovable(t: Table, svc: Service, ports: seq<ServicePort>, ep: Endpoint, legacy: bool) {
    forall i :: 0 <= i < |ports| ==> Removable(t, svc, ports[i], ep, legacy)
  }

  ghost predicate DistinctPorts(svc: Service, ports: seq<ServicePort>) {
    forall i, j :: 0 <= i < j < |ports| ==> ChainOf(svc, ports[i]) != ChainOf(svc, ports[j])
  }

  lemma {:induction false} ExecDeletePorts(t: Table, svc: Service, ports: seq<ServicePort>, ep: Endpoint, legacy: bool)
    requires AllRemovable(t, svc, ports, ep, legacy) && DistinctPorts(svc, ports)
    ensures Exec(t, DeletePorts(svc, ports, Some(ep), legacy)) == Some(t.(chains := t.chains - PortsNames(svc, ports, ep, legacy)))
  {
    hide Exec, DeletePort, Removable, PortChains, ChainOf;
    if ports == [] {
      ExecNone(t);
      assert PortsNames(svc, ports, ep, legacy) == {};
      assert t.chains - {} == t.chains;
    } else {
      var k := |ports| - 1;
      var front, p := ports[..k], ports[k];
      ExecDeletePorts(t, svc, front, ep, legacy);
      var gone := PortsNames(svc, front, ep, legacy);
      var t1 := t.(chains := t.chains - gone);
      forall n | n in PortChains(svc, p, ep, legacy)
        ensures n !in gone
      {
        if n in gone {
          PortsOwner(svc, front, ep, legacy, n, p);
        }
      }
      RemovableAfter(t, gone, svc, p, ep, legacy);
      ExecDeletePort(t1, svc, p, ep, legacy);
      ExecConcat(t, DeletePorts(svc, front, Some(ep), legacy), DeletePort(svc, p, Some(ep), legacy));
      assert t.chains - gone - PortChains(svc, p, ep, legacy).Keys == t.chains - PortsNames(svc, ports, ep, legacy);
    }
  }

  /** A name of the other ports never belongs to a port with a different chain. */
  lemma {:induction false} PortsOwner(svc: Service, ports: seq<ServicePort>, ep: Endpoint, legacy: bool, n: Name, p: ServicePort)
    requires n in PortsChains(svc, ports, ep, legacy)
    requires forall i :: 0 <= i < |ports| ==> ChainOf(svc, ports[i]) != ChainOf(svc, p)
    ensures !Owns(ChainOf(svc, p), n)
    ensures n !in PortChains(svc, p, ep, legacy)
  {
    hide PortChains, ChainOf, Owns, KindOf;
    var k := |ports| - 1;
    if n in PortsChains(svc, ports[..k], ep, legacy) {
      PortsOwner(svc, ports[..k], ep, legacy, n, p);
    } else {
      PortChainsOwned(svc, ports[k], ep, legacy, n);
      ServiceChainKind(svc, p);
      ServiceChainKind(svc, ports[k]);
      if Owns(ChainOf(svc, p), n) {
        OwnsUnique(ChainOf(svc, p), ChainOf(svc, ports[k]), n);
      }
    }
    if n in PortChains(svc, p, ep, legacy) {
      PortChainsOwned(svc, p, ep, legacy, n);
    }
  }

  lemma RemovableAfter(t: Table, gone: set<Name>, svc: Service, p: ServicePort, ep: Endpoint, legacy: bool)
    requires Removable(t, svc, p, ep, legacy)
    requires forall n :: n in PortChains(svc, p, ep, legacy) ==> n !in gone
    ensures Removable(t.(chains := t.chains - gone), svc, p, ep, legacy)
  {
    hide PortChains, ChainOf, MarkChainName, ChainTargets;
  }

  lemma PortTargets(svc: Service, p: ServicePort, ep: Endpoint, legacy: bool, x: Name, n: Name)
    requires x in PortChains(svc, p, ep, legacy) && ChainTargets(PortChains(svc, p, ep, legacy)[x], n)
    ensures x == ChainOf(svc, p) || (x == MarkChainName(ChainOf(svc, p)) && ValidClusterIp(svc).Some?)
    ensures Owns(ChainOf(svc, p), n)
  {
    hide ChainOf, MarkChainName, EndpointChainName, KindOf, RuleTargets, Backends;
    var c, protocol, backends := ChainOf(svc, p), Proto(p), Backends(p, ep.subsets);
    EndpointChainsKeys(c, protocol, backends);
    var rules := PortChains(svc, p, ep, legacy)[x];
    var i :| 0 <= i < |rules| && RuleTargets(rules[i], n);
    if x == c {
      PlainTargets(protocol, Backend("", 0), backends);
      GotoTargets(c, |backends|, n);
    } else if legacy && x in EndpointNames(c, |backends|) {
      var j :| 0 <= j < |backends| && EndpointNames(c, |backends|)[j] == x;
      PlainTargets(protocol, backends[j], backends);
    } else {
      MarkTargets(c, n);
    }
  }

  lemma {:induction false} PortsTargets(svc: Service, ports: seq<ServicePort>, ep: Endpoint, legacy: bool, x: Name, n: Name)
    returns (j: nat)
    requires x in PortsChains(svc, ports, ep, legacy) && ChainTargets(PortsChains(svc, ports, ep, legacy)[x], n)
    ensures j < |ports| && Owns(ChainOf(svc, ports[j]), n)
    ensures x == ChainOf(svc, ports[j]) || (x == MarkChainName(ChainOf(svc, ports[j])) && ValidClusterIp(svc).Some?)
  {
    hide ChainOf, MarkChainName, PortChains, ChainTargets, Owns;
    j := |ports| - 1;
    if x in PortChains(svc, ports[j], ep, legacy) {
      PortTargets(svc, ports[j], ep, legacy, x, n);
    } else {
      j := PortsTargets(svc, ports[..j], ep, legacy, x, n);
    }
  }

  lemma {:induction false} PortInPorts(svc: Service, ports: seq<ServicePort>, ep: Endpoint, legacy: bool, i: nat)
    requires i < |ports|
    ensures PortChains(svc, ports[i], ep, legacy).Keys <= PortsNames(svc, ports, ep, legacy)
  {
    hide PortChains;
    var k := |ports| - 1;
    if i < k {
      PortInPorts(svc, ports[..k], ep, legacy, i);
    }
  }

  /** None of the service's chain names is taken or referred to. */
  ghost predicate FreshFor(t: Table, svc: Service, ep: Endpoint, legacy: bool) {
    forall n :: n in PortsNames(svc, svc.ports, ep, legacy) ==> n !in t.chains && !Referenced(t, n)
  }

  /** Chains laid over a table that does not know the service: installed, or detached. */
  ghost predicate OverlayOf(content: Chains, svc: Service, ep: Endpoint, legacy: bool) {
    && content.Keys == PortsNames(svc, svc.ports, ep, legacy)
    && forall x :: x in content ==> content[x] == [] || content[x] == PortsChains(svc, svc.ports, ep, legacy)[x]
  }

  lemma OverlaidReferences(t: Table, content: Chains, svc: Service, ep: Endpoint, legacy: bool, i: nat, x: Name, n: Name)
    requires FreshFor(t, svc, ep, legacy) && OverlayOf(content, svc, ep, legacy) && i < |svc.ports|
    requires n in PortChains(svc, svc.ports[i], ep, legacy)
    requires x in t.chains + content && ChainTargets((t.chains + content)[x], n)
    ensures var c := ChainOf(svc, svc.ports[i]);
            x == c || (x == MarkChainName(c) && ValidClusterIp(svc).Some?)
  {
    hide ChainOf, MarkChainName, PortChains, PortsChains, ChainTargets, Owns, KindOf;
    var p := svc.ports[i];
    PortInPorts(svc, svc.ports, ep, legacy, i);
    assert !Referenced(t, n);
    if x in content {
      NoRulesNoTargets(n);
      var j := PortsTargets(svc, svc.ports, ep, legacy, x, n);
      PortChainsOwned(svc, p, ep, legacy, n);
      ServiceChainKind(svc, p);
      ServiceChainKind(svc, svc.ports[j]);
      OwnsUnique(ChainOf(svc, p), ChainOf(svc, svc.ports[j]), n);
    }
  }

  lemma OverlaidRemovable(t: Table, content: Chains, svc: Service, ep: Endpoint, legacy: bool)
    requires FreshFor(t, svc, ep, legacy) && OverlayOf(content, svc, ep, legacy)
    ensures AllRemovable(t.(chains := t.chains + content), svc, svc.ports, ep, legacy)
  {
    hide ChainOf, MarkChainName, PortChains, PortsChains, ChainTargets;
    var t1 := t.(chains := t.chains + content);
    forall i | 0 <= i < |svc.ports|
      ensures Removable(t1, svc, svc.ports[i], ep, legacy)
    {
      var p := svc.ports[i];
      PortInPorts(svc, svc.ports, ep, legacy, i);
      forall x, n | x in t1.chains && n in PortChains(svc, p, ep, legacy) && ChainTargets(t1.chains[x], n)
        ensures x == ChainOf(svc, p) || (x == MarkChainName(ChainOf(svc, p)) && ValidClusterIp(svc).Some?)
      {
        OverlaidReferences(t, content, svc, ep, legacy, i, x, n);
      }
    }
  }

  lemma NoRulesNoTargets(n: Name)
    ensures !ChainTargets([], n)
  {
  }

  // ---------- Detach ----------

  lemma {:induction false} ExecFlushAll(t: Table, names: seq<Name>)
    requires forall i :: 0 <= i < |names| ==> names[i] in t.chains
    ensures Exec(t, FlushAll(names)) == Some(t.(chains := t.chains + Empty(set n | n in names)))
  {
    hide Exec;
    if names == [] {
      ExecNone(t);
      assert t.chains + Empty(set n | n in names) == t.chains;
    } else {
      var k := |names| - 1;
      var front, e := names[..k], names[k];
      var t1 := t.(chains := t.chains + Empty(set n | n in front));
      ExecFlushAll(t, front);
      ExecFlush(t1, e);
      ExecConcat(t, FlushAll(front), [FlushChain(e)]);
      assert names == front + [e];
      assert (set n | n in names) == (set n | n in front) + {e};
      EmptyStep(t.chains, (set n | n in front), e);
    }
  }

  lemma EmptyStep(base: Chains, names: set<Name>, e: Name)
    ensures (base + Empty(names))[e := []] == base + Empty(names + {e})
  {
  }

  lemma EmptyMerge(base: Chains, a: set<Name>, b: set<Name>)
    ensures base + Empty(a) + Empty(b) == base + Empty(a + b)
  {
  }

  lemma EmptyPair(base: Chains, c: Name, m: Name, marked: bool, eps: set<Name>)
    ensures (if marked then base[m := []] else base)[c := []] + Empty(eps)
         == base + Empty(eps + {c} + if marked then {m} else {})
  {
  }

  lemma ExecDetachPort(t: Table, svc: Service, p: ServicePort, ep: Endpoint, legacy: bool)
    requires PortChains(svc, p, ep, legacy).Keys <= t.chains.Keys
    ensures Exec(t, DetachPort(svc, p, Some(ep), legacy))
         == Some(t.(chains := t.chains + Empty(PortChains(svc, p, ep, legacy).Keys)))
  {
    hide Exec, ChainOf, MarkChainName, PortChains, FlushPort, FlushAll, OwnedEndpoints, Empty;
    var eps := OwnedEndpoints(svc, p, Some(ep), legacy);
    PortNames(svc, p, ep, legacy);
    ExecFlushPort(t, svc, p, ep, legacy);
    var t1 := Flushed(t, svc, p);
    ExecFlushAll(t1, eps);
    ExecConcat(t, FlushPort(svc, p), FlushAll(eps));
    EmptyPair(t.chains, ChainOf(svc, p), MarkChainName(ChainOf(svc, p)), ValidClusterIp(svc).Some?, set n | n in eps);
  }

  lemma {:induction false} ExecDetachPorts(t: Table, svc: Service, ports: seq<ServicePort>, ep: Endpoint, legacy: bool)
    requires PortsNames(svc, ports, ep, legacy) <= t.chains.Keys
    ensures Exec(t, DetachPorts(svc, ports, Some(ep), legacy))
         == Some(t.(chains := t.chains + Empty(PortsNames(svc, ports, ep, legacy))))
  {
    hide Exec, DetachPort, PortChains;
    if ports == [] {
      ExecNone(t);
      assert PortsNames(svc, ports, ep, legacy) == {};
      assert t.chains + Empty({}) == t.chains;
    } else {
      var k := |ports| - 1;
      var front, p := ports[..k], ports[k];
      ExecDetachPorts(t, svc, front, ep, legacy);
      var t1 := t.(chains := t.chains + Empty(PortsNames(svc, front, ep, legacy)));
      ExecDetachPort(t1, svc, p, ep, legacy);
      ExecConcat(t, DetachPorts(svc, front, Some(ep), legacy), DetachPort(svc, p, Some(ep), legacy));
      EmptyMerge(t.chains, PortsNames(svc, front, ep, legacy), PortChains(svc, p, ep, legacy).Keys);
      assert PortsNames(svc, front, ep, legacy) + PortChains(svc, p, ep, legacy).Keys == PortsNames(svc, ports, ep, legacy);
    }
  }

  lemma ExecFlushMissing(t: Table, svc: Service, p: ServicePort)
    requires ChainOf(svc, p) !in t.chains
    ensures Exec(t, FlushPort(svc, p)).None?
  {
    hide ChainOf, MarkChainName, Exec;
    var c := ChainOf(svc, p);
    var mark := if ValidClusterIp(svc).Some? then [FlushChain(MarkChainName(c))] else [];
    ExecConcat(t, mark, [FlushChain(c)]);
    if ValidClusterIp(svc).Some? {
      ExecOne(t, FlushChain(MarkChainName(c)));
      MarkIsOther(c);
    } else {
      ExecNone(t);
    }
    if Exec(t, mark).Some? {
      ExecOne(Exec(t, mark).value, FlushChain(c));
    }
  }

  lemma MarkIsOther(c: Name)
    ensures MarkChainName(c) != c
  {
  }

  lemma ExecDeleteMissing(t: Table, svc: Service, p: ServicePort, ep: Endpoint, legacy: bool)
    requires ChainOf(svc, p) !in t.chains
    ensures Exec(t, DeletePort(svc, p, Some(ep), legacy)).None?
  {
    hide ChainOf, MarkChainName, Exec, FlushPort, FlushDeleteAll, OwnedEndpoints;
    ExecFlushMissing(t, svc, p);
    var c := ChainOf(svc, p);
    var tail := FlushDeleteAll(OwnedEndpoints(svc, p, Some(ep), legacy)) + [DeleteChain(c)]
      + if ValidClusterIp(svc).Some? then [DeleteChain(MarkChainName(c))] else [];
    assert DeletePort(svc, p, Some(ep), legacy) == FlushPort(svc, p) + tail;
    ExecConcat(t, FlushPort(svc, p), tail);
  }

  /** Two ports with the same chain make the deletion fail: the second finds the chain gone. */
  lemma {:induction false} ExecDeleteShared(t: Table, svc: Service, ports: seq<ServicePort>, ep: Endpoint, legacy: bool)
    requires AllRemovable(t, svc, ports, ep, legacy) && !DistinctPorts(svc, ports)
    ensures Exec(t, DeletePorts(svc, ports, Some(ep), legacy)).None?
    decreases |ports|
  {
    hide Exec, DeletePort, Removable, PortChains, ChainOf;
    var k := |ports| - 1;
    var front, p := ports[..k], ports[k];
    ExecConcat(t, DeletePorts(svc, front, Some(ep), legacy), DeletePort(svc, p, Some(ep), legacy));
    if !DistinctPorts(svc, front) {
      ExecDeleteShared(t, svc, front, ep, legacy);
    } else {
      ExecDeletePorts(t, svc, front, ep, legacy);
      var i :| 0 <= i < k && ChainOf(svc, front[i]) == ChainOf(svc, p);
      PortInPorts(svc, front, ep, legacy, i);
      ServiceChainIn(svc, front[i], ep, legacy);
      ExecDeleteMissing(t.(chains := t.chains - PortsNames(svc, front, ep, legacy)), svc, p, ep, legacy);
    }
  }

  lemma ServiceChainIn(svc: Service, p: ServicePort, ep: Endpoint, legacy: bool)
    ensures ChainOf(svc, p) in PortChains(svc, p, ep, legacy)
  {
    hide ChainOf, MarkChainName, EndpointChainName;
  }

  /** Installing a service and deleting it, with or without detaching first, restores the table exactly when
      no two of its ports share a chain. */
  lemma DeleteUndoesInstallExactly(t: Table, svc: Service, ep: Endpoint, legacy: bool, detach: bool)
    requires FreshFor(t, svc, ep, legacy)
    ensures Exec(t, UpdateService(svc, ep, legacy)
                    + (if detach then DetachPorts(svc, svc.ports, Some(ep), legacy) else [])
                    + DeletePorts(svc, svc.ports, Some(ep), legacy))
            == if DistinctPorts(svc, svc.ports) then Some(t) else None
  {
    hide Exec, UpdateService, DetachPorts, DeletePorts, FreshFor, DistinctPorts, AllRemovable, PortsChains;
    var install, delete := UpdateService(svc, ep, legacy), DeletePorts(svc, svc.ports, Some(ep), legacy);
    var middle := if detach then DetachPorts(svc, svc.ports, Some(ep), legacy) else [];
    var chains, names := PortsChains(svc, svc.ports, ep, legacy), PortsNames(svc, svc.ports, ep, legacy);
    ExecUpdateService(t, svc, ep, legacy);
    var t1 := t.(chains := t.chains + chains);
    var content := if detach then Empty(names) else chains;
    var t2 := t.(chains := t.chains + content);
    if detach {
      ExecDetachPorts(t1, svc, svc.ports, ep, legacy);
      assert t1.chains + Empty(names) == t2.chains;
    } else {
      ExecNone(t1);
    }
    OverlaidRemovable(t, content, svc, ep, legacy);
    ExecConcat(t, install, middle);
    ExecConcat(t, install + middle, delete);
    if DistinctPorts(svc, svc.ports) {
      ExecDeletePorts(t2, svc, svc.ports, ep, legacy);
      FreshRestores(t, content, svc, ep, legacy);
    } else {
      ExecDeleteShared(t2, svc, svc.ports, ep, legacy);
    }
  }

  /** Different (port, protocol) pairs have different chains, when no port is negative or no protocol is empty
      or holds a dash. */
  lemma PortsTellApart(svc: Service, ports: seq<ServicePort>)
    requires || (forall i :: 0 <= i < |ports| ==> ports[i].port >= 0)
             || (forall i :: 0 <= i < |ports| ==> DashFree(Proto(ports[i])) && Proto(ports[i]) != "")
    requires forall i, j :: 0 <= i < j < |ports| ==> ports[i].port != ports[j].port || Proto(ports[i]) != Proto(ports[j])
    ensures DistinctPorts(svc, ports)
  {
    hide ServiceChainName, Lower;
    forall i, j | 0 <= i < j < |ports|
      ensures ChainOf(svc, ports[i]) != ChainOf(svc, ports[j])
    {
      if ChainOf(svc, ports[i]) == ChainOf(svc, ports[j]) {
        PortInjective(svc.namespace, svc.name, ports[i].port, Proto(ports[i]), ports[j].port, Proto(ports[j]));
      }
    }
  }

  lemma FreshRestores(t: Table, content: Chains, svc: Service, ep: Endpoint, legacy: bool)
    requires FreshFor(t, svc, ep, legacy) && content.Keys == PortsNames(svc, svc.ports, ep, legacy)
    ensures t.chains + content - PortsNames(svc, svc.ports, ep, legacy) == t.chains
  {
  }
}
