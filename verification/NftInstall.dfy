/** What the generated transactions do to the chains of any table. */
module NftInstall {
  import opened Wrappers
  import opened NftNames
  import opened NftModel
  import opened NftCompiler

  type Chains = map<Name, seq<Rule>>

  /** The endpoint chains of a legacy dispatch. */
  function EndpointChains(c: Name, protocol: string, backends: seq<Backend>): Chains {
    if backends == [] then map[]
    else
      var n := |backends| - 1;
      EndpointChains(c, protocol, backends[..n])[EndpointChainName(c, n) := [EndpointRule(protocol, backends[n])]]
  }

  function DispatchRule(c: Name, protocol: string, backends: seq<Backend>, legacy: bool): Rule {
    if backends == [] then [Reject]
    else if legacy then GotoRule(c, |backends|)
    else DnatRule(protocol, backends)
  }

  function MarkChains(svc: Service, c: Name): Chains {
    if ValidClusterIp(svc).Some? then map[MarkChainName(c) := [MarkRule(c)]] else map[]
  }

  /** The chains a service port owns, with their rules. */
  function PortChains(svc: Service, p: ServicePort, ep: Endpoint, legacy: bool): Chains {
    var c, protocol, backends := ChainOf(svc, p), Proto(p), Backends(p, ep.subsets);
    MarkChains(svc, c)
    + (if legacy then EndpointChains(c, protocol, backends) else map[])
    + map[c := [DispatchRule(c, protocol, backends, legacy)]]
  }

  function PortsChains(svc: Service, ports: seq<ServicePort>, ep: Endpoint, legacy: bool): Chains {
    if ports == [] then map[]
    else PortsChains(svc, ports[..|ports| - 1], ep, legacy) + PortChains(svc, ports[|ports| - 1], ep, legacy)
  }

  // ---------- References of the generated rules ----------

  lemma MarkTargets(c: Name, d: Name)
    ensures RuleTargets(MarkRule(c), d) <==> d == c
  {
    assert StmtTargets(MarkRule(c)[1], c);
  }

  lemma GotoTargets(c: Name, n: nat, d: Name)
    ensures RuleTargets(GotoRule(c, n), d) <==> exists i: nat :: i < n && d == EndpointChainName(c, i)
  {
    hide EndpointChainName;
    var targets := Numbered(EndpointNames(c, n));
    assert forall i :: 0 <= i < n ==> targets[i].1 == EndpointChainName(c, i);
    if RuleTargets(GotoRule(c, n), d) {
      var i :| 0 <= i < n && targets[i].1 == d;
      assert d == EndpointChainName(c, i);
    }
    if i: nat :| i < n && d == EndpointChainName(c, i) {
      assert targets[i].1 == d;
      assert StmtTargets(GotoRule(c, n)[0], d);
    }
  }

  lemma PlainTargets(protocol: string, b: Backend, bs: seq<Backend>)
    ensures forall d :: !RuleTargets(EndpointRule(protocol, b), d) && !RuleTargets(DnatRule(protocol, bs), d)
    ensures forall d :: !RuleTargets([Reject], d)
  {
  }

  // ---------- Installing ----------

  lemma ExecNone(t: Table)
    ensures Exec(t, []) == Some(t)
  {
  }

  lemma MergeAssociates(a: Chains, b: Chains, c: Chains)
    ensures a + b + c == a + (b + c)
  {
  }

  lemma ExecOne(t: Table, c: Cmd)
    ensures Exec(t, [c]) == Apply(t, c)
  {
    hide Apply;
    assert [c][1..] == [];
  }

  lemma ExecCreate(t: Table, n: Name)
    ensures Exec(t, [AddChain(n), FlushChain(n)]) == Some(t.(chains := t.chains[n := []]))
  {
    ExecConcat(t, [AddChain(n)], [FlushChain(n)]);
    assert [AddChain(n), FlushChain(n)] == [AddChain(n)] + [FlushChain(n)];
    ExecOne(t, AddChain(n));
    var t1 := Apply(t, AddChain(n)).value;
    ExecOne(t1, FlushChain(n));
    assert t1.chains[n := []] == t.chains[n := []];
  }

  lemma ApplyFirstRule(t: Table, n: Name, r: Rule)
    requires n in t.chains && t.chains[n] == []
    requires forall d :: RuleTargets(r, d) ==> d in t.chains
    ensures Apply(t, AddRule(n, r)) == Some(t.(chains := t.chains[n := [r]]))
  {
    assert t.chains[n] + [r] == [r];
  }

  /** Creating, flushing and filling a chain leaves it with exactly that rule. */
  lemma ExecInstall(t: Table, n: Name, r: Rule)
    requires forall d :: RuleTargets(r, d) ==> d in t.chains
    ensures Exec(t, [AddChain(n), FlushChain(n), AddRule(n, r)]) == Some(t.(chains := t.chains[n := [r]]))
  {
    hide RuleTargets, Apply;
    var t1 := t.(chains := t.chains[n := []]);
    assert [AddChain(n), FlushChain(n), AddRule(n, r)] == [AddChain(n), FlushChain(n)] + [AddRule(n, r)];
    ExecConcat(t, [AddChain(n), FlushChain(n)], [AddRule(n, r)]);
    ExecCreate(t, n);
    ExecOne(t1, AddRule(n, r));
    ApplyFirstRule(t1, n, r);
    assert t1.chains[n := [r]] == t.chains[n := [r]];
  }

  lemma {:induction false} ExecEndpoints(t: Table, c: Name, protocol: string, backends: seq<Backend>)
    ensures Exec(t, EndpointCommands(c, protocol, backends))
         == Some(t.(chains := t.chains + EndpointChains(c, protocol, backends)))
  {
    hide Apply, RuleTargets, EndpointChainName;
    if backends == [] {
      assert t.chains + map[] == t.chains;
    } else {
      var n := |backends| - 1;
      var e, r := EndpointChainName(c, n), EndpointRule(protocol, backends[n]);
      var t1 := t.(chains := t.chains + EndpointChains(c, protocol, backends[..n]));
      ExecEndpoints(t, c, protocol, backends[..n]);
      ExecConcat(t, EndpointCommands(c, protocol, backends[..n]), [AddChain(e), FlushChain(e), AddRule(e, r)]);
      PlainTargets(protocol, backends[n], []);
      ExecInstall(t1, e, r);
      assert t1.chains[e := [r]] == t.chains + EndpointChains(c, protocol, backends);
    }
  }

  lemma {:induction false} EndpointChainsKeys(c: Name, protocol: string, backends: seq<Backend>)
    ensures forall n :: n in EndpointChains(c, protocol, backends) <==> n in EndpointNames(c, |backends|)
    ensures forall i :: 0 <= i < |backends| ==>
              EndpointChainName(c, i) in EndpointChains(c, protocol, backends)
              && EndpointChains(c, protocol, backends)[EndpointChainName(c, i)] == [EndpointRule(protocol, backends[i])]
  {
    hide EndpointChainName;
    if backends != [] {
      var n := |backends| - 1;
      EndpointChainsKeys(c, protocol, backends[..n]);
      assert EndpointNames(c, n + 1) == EndpointNames(c, n) + [EndpointChainName(c, n)];
      forall i | 0 <= i < n
        ensures EndpointChainName(c, i) != EndpointChainName(c, n)
      {
        if EndpointChainName(c, i) == EndpointChainName(c, n) {
          EndpointInjective(c, i, c, n);
        }
      }
      assert forall i :: 0 <= i < n ==> EndpointNames(c, n)[i] == EndpointChainName(c, i);
    }
  }

  lemma EndpointNamesKind(c: Name, n: nat, d: Name)
    requires d in EndpointNames(c, n)
    ensures KindOf(d) == EndpointChain
  {
    hide EndpointChainName, KindOf;
    var i :| 0 <= i < n && EndpointNames(c, n)[i] == d;
    EndpointKind(c, i);
  }

  /** Dispatch into an empty service chain. */
  lemma ExecDispatch(t: Table, c: Name, protocol: string, backends: seq<Backend>, legacy: bool)
    requires c in t.chains && t.chains[c] == [] && KindOf(c) == ServiceChain
    ensures Exec(t, DispatchCommands(c, protocol, backends, legacy))
         == Some(t.(chains := t.chains + (if legacy then EndpointChains(c, protocol, backends) else map[])
                              + map[c := [DispatchRule(c, protocol, backends, legacy)]]))
  {
    hide RuleTargets, EndpointChainName, KindOf, Apply, Exec;
    var r := DispatchRule(c, protocol, backends, legacy);
    var eps := if legacy then EndpointChains(c, protocol, backends) else map[];
    DispatchTargets(c, protocol, backends, legacy);
    if legacy && backends != [] {
      EndpointChainsKeys(c, protocol, backends);
      assert c !in eps by {
        if c in eps {
          EndpointNamesKind(c, |backends|, c);
        }
      }
      ExecEndpoints(t, c, protocol, backends);
      ExecLastRule(t, c, eps, r);
      ExecConcat(t, EndpointCommands(c, protocol, backends), [AddRule(c, r)]);
    } else {
      assert eps == map[];
      ExecLastRule(t, c, eps, r);
      assert t.chains + eps == t.chains;
    }
  }

  lemma ExecLastRule(t: Table, c: Name, eps: Chains, r: Rule)
    requires c in t.chains && t.chains[c] == [] && c !in eps
    requires forall d :: RuleTargets(r, d) ==> d in t.chains || d in eps
    ensures Exec(t.(chains := t.chains + eps), [AddRule(c, r)]) == Some(t.(chains := t.chains + eps + map[c := [r]]))
  {
    hide RuleTargets, Exec, Apply;
    var t1 := t.(chains := t.chains + eps);
    ApplyFirstRule(t1, c, r);
    ExecOne(t1, AddRule(c, r));
    assert t1.chains[c := [r]] == t1.chains + map[c := [r]];
  }

  lemma DispatchTargets(c: Name, protocol: string, backends: seq<Backend>, legacy: bool)
    ensures forall d :: RuleTargets(DispatchRule(c, protocol, backends, legacy), d) ==>
              legacy && d in EndpointChains(c, protocol, backends)
  {
    hide RuleTargets, EndpointChainName;
    PlainTargets(protocol, Backend("", 0), backends);
    if legacy && backends != [] {
      EndpointChainsKeys(c, protocol, backends);
      forall d | RuleTargets(GotoRule(c, |backends|), d)
        ensures d in EndpointChains(c, protocol, backends)
      {
        GotoTargets(c, |backends|, d);
      }
    }
  }

  lemma ExecUpdatePort(t: Table, svc: Service, p: ServicePort, ep: Endpoint, legacy: bool)
    ensures Exec(t, UpdatePort(svc, p, ep, legacy)) == Some(t.(chains := t.chains + PortChains(svc, p, ep, legacy)))
  {
    hide Exec, MarkChainName, ChainOf, KindOf, DispatchCommands, MarkCommands, MarkChains, EndpointChains, DispatchRule,
         Backends;
    var c := ChainOf(svc, p);
    ServiceChainKind(svc, p);
    MarkChainsKind(svc, c);
    var t1 := t.(chains := t.chains[c := []]);
    var t2 := t1.(chains := t1.chains + MarkChains(svc, c));
    ExecCreate(t, c);
    ExecMark(t1, svc, c);
    var dispatch := DispatchCommands(c, Proto(p), Backends(p, ep.subsets), legacy);
    ExecDispatch(t2, c, Proto(p), Backends(p, ep.subsets), legacy);
    ExecConcat(t, [AddChain(c), FlushChain(c)], MarkCommands(svc, c));
    ExecConcat(t, [AddChain(c), FlushChain(c)] + MarkCommands(svc, c), dispatch);
    var eps := if legacy then EndpointChains(c, Proto(p), Backends(p, ep.subsets)) else map[];
    var last := map[c := [DispatchRule(c, Proto(p), Backends(p, ep.subsets), legacy)]];
    Overlay(t.chains, c, MarkChains(svc, c), eps, last);
  }

  lemma Overlay(base: Chains, c: Name, a: Chains, b: Chains, last: Chains)
    requires c in last
    ensures base[c := []] + a + b + last == base + (a + b + last)
  {
  }

  lemma MarkChainsKind(svc: Service, c: Name)
    ensures forall n :: n in MarkChains(svc, c) ==> KindOf(n) == MarkChain
  {
    MarkKind(c);
  }

  lemma ExecMark(t: Table, svc: Service, c: Name)
    requires c in t.chains
    ensures Exec(t, MarkCommands(svc, c)) == Some(t.(chains := t.chains + MarkChains(svc, c)))
  {
    hide RuleTargets, MarkChainName, Apply;
    if ValidClusterIp(svc).Some? {
      var m := MarkChainName(c);
      forall d | RuleTargets(MarkRule(c), d)
        ensures d in t.chains
      {
        MarkTargets(c, d);
      }
      ExecInstall(t, m, MarkRule(c));
      assert t.chains[m := [MarkRule(c)]] == t.chains + MarkChains(svc, c);
    } else {
      assert t.chains + map[] == t.chains;
    }
  }

  lemma ServiceChainKind(svc: Service, p: ServicePort)
    ensures KindOf(ChainOf(svc, p)) == ServiceChain
  {
    ServiceKind(svc.namespace, svc.name, p.port, Proto(p));
  }

  /** A service update overlays exactly the service's chains, whatever was there before. */
  lemma {:induction false} ExecUpdatePorts(t: Table, svc: Service, ports: seq<ServicePort>, ep: Endpoint, legacy: bool)
    ensures Exec(t, UpdatePorts(svc, ports, ep, legacy))
         == Some(t.(chains := t.chains + PortsChains(svc, ports, ep, legacy)))
  {
    hide Exec, UpdatePort, PortChains;
    if ports == [] {
      ExecNone(t);
      assert t.chains + map[] == t.chains;
    } else {
      var front, p := ports[..|ports| - 1], ports[|ports| - 1];
      var t1 := t.(chains := t.chains + PortsChains(svc, front, ep, legacy));
      ExecUpdatePorts(t, svc, front, ep, legacy);
      ExecConcat(t, UpdatePorts(svc, front, ep, legacy), UpdatePort(svc, p, ep, legacy));
      ExecUpdatePort(t1, svc, p, ep, legacy);
      MergeAssociates(t.chains, PortsChains(svc, front, ep, legacy), PortChains(svc, p, ep, legacy));
    }
  }

  lemma ExecUpdateService(t: Table, svc: Service, ep: Endpoint, legacy: bool)
    ensures Exec(t, UpdateService(svc, ep, legacy))
         == Some(t.(chains := t.chains + PortsChains(svc, svc.ports, ep, legacy)))
  {
    ExecUpdatePorts(t, svc, svc.ports, ep, legacy);
  }
}
