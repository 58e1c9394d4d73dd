/** Verdict maps as sets of elements: what refresh and delta leave in them. */
module NftMaps {
  import opened Wrappers
  import opened NftNames
  import opened NftModel
  import opened NftCompiler
  import opened NftDiscovery

  ghost function Items(m: map<Key, Name>): set<Element> {
    set k | k in m :: Element(k, m[k])
  }

  /** At most one target per key. */
  ghost predicate Functional(s: set<Element>) {
    forall e, f :: e in s && f in s && e.key == f.key ==> e == f
  }

  lemma ItemsInjective(m: map<Key, Name>, n: map<Key, Name>)
    requires Items(m) == Items(n)
    ensures m == n
  {
    forall k | k in m
      ensures k in n && n[k] == m[k]
    {
      assert Element(k, m[k]) in Items(m);
    }
    forall k | k in n
      ensures k in m
    {
      assert Element(k, n[k]) in Items(n);
    }
  }

  lemma ItemsUpdate(m: map<Key, Name>, e: Element)
    requires e.key !in m || m[e.key] == e.target
    ensures Items(m[e.key := e.target]) == Items(m) + {e}
  {
    var n := m[e.key := e.target];
    forall x
      ensures x in Items(n) <==> x in Items(m) + {e}
    {
      if x in Items(m) + {e} {
        assert x.key in n && x == Element(x.key, n[x.key]);
      }
    }
  }

  lemma ItemsRemove(m: map<Key, Name>, e: Element)
    requires e.key in m && m[e.key] == e.target
    ensures Items(m - {e.key}) == Items(m) - {e}
  {
    var n := m - {e.key};
    forall x
      ensures x in Items(n) <==> x in Items(m) - {e}
    {
      if x in Items(m) - {e} {
        assert x.key in n && x == Element(x.key, n[x.key]);
      }
    }
  }

  lemma ItemsFunctional(m: map<Key, Name>)
    ensures Functional(Items(m))
  {
  }

  /** Elements whose targets exist can be added exactly when no key gets two targets. */
  lemma {:induction false} InsertAllItems(m: map<Key, Name>, chains: map<Name, seq<Rule>>, es: seq<Element>)
    requires forall i :: 0 <= i < |es| ==> es[i].target in chains
    ensures InsertAll(m, chains, es).Some? <==> Functional(Items(m) + ElementSet(es))
    ensures InsertAll(m, chains, es).Some? ==> Items(InsertAll(m, chains, es).value) == Items(m) + ElementSet(es)
    decreases |es|
  {
    hide Items;
    if es == [] {
      ItemsFunctional(m);
      assert Items(m) + ElementSet(es) == Items(m);
    } else {
      var e := es[0];
      assert es == [e] + es[1..];
      assert ElementSet(es) == {e} + ElementSet(es[1..]);
      if e.key in m && m[e.key] != e.target {
        ItemMember(m, e.key);
        assert e in Items(m) + ElementSet(es) && Element(e.key, m[e.key]) in Items(m) + ElementSet(es);
      } else {
        ItemsUpdate(m, e);
        assert Items(m[e.key := e.target]) + ElementSet(es[1..]) == Items(m) + ElementSet(es);
        InsertAllItems(m[e.key := e.target], chains, es[1..]);
      }
    }
  }

  lemma ItemMember(m: map<Key, Name>, k: Key)
    requires k in m
    ensures Element(k, m[k]) in Items(m)
  {
  }

  lemma {:induction false} RemoveAllItems(m: map<Key, Name>, es: seq<Element>)
    requires forall i :: 0 <= i < |es| ==> es[i] in Items(m)
    requires forall i, j :: 0 <= i < j < |es| ==> es[i] != es[j]
    ensures RemoveAll(m, es).Some? && Items(RemoveAll(m, es).value) == Items(m) - ElementSet(es)
    decreases |es|
  {
    if es != [] {
      var e := es[0];
      assert es == [e] + es[1..];
      assert ElementSet(es) == {e} + ElementSet(es[1..]);
      assert e in Items(m);
      ItemsRemove(m, e);
      hide Items;
      RemoveAllItems(m - {e.key}, es[1..]);
    }
  }

  // ---------- The elements of a snapshot ----------

  lemma {:induction false} TransportSplits(es: seq<Element>)
    ensures ElementSet(Transport(es, false) + Transport(es, true)) == ElementSet(es)
  {
    if es != [] {
      var front, last := es[..|es| - 1], es[|es| - 1];
      TransportSplits(front);
      assert es == front + [last];
      assert ElementSet(es) == ElementSet(front) + {last};
      var a, b := Transport(front, false), Transport(front, true);
      assert ElementSet(a + b) == ElementSet(a) + ElementSet(b);
      assert ElementSet(a + [last]) == ElementSet(a) + {last};
      assert ElementSet(b + [last]) == ElementSet(b) + {last};
      assert ElementSet(a + [last] + b) == ElementSet(a + [last]) + ElementSet(b);
      assert ElementSet(a + (b + [last])) == ElementSet(a) + ElementSet(b + [last]);
    }
  }

  ghost function ClusterSet(services: seq<Service>): set<Element> { ElementSet(ClusterOrder(services)) }

  ghost function NodeSet(services: seq<Service>): set<Element> { ElementSet(NodeOrder(services)) }

  lemma AsU32Injective(a: I32, b: I32)
    requires AsU32(a) == AsU32(b)
    ensures a == b
  {
  }

  // ---------- First match ----------

  /** The position of the first service port with a property. */
  function First(pairs: seq<Pair>, f: Pair -> bool): (r: Option<nat>)
    ensures r.Some? ==> r.value < |pairs| && f(pairs[r.value])
    ensures r.Some? ==> forall i :: 0 <= i < r.value ==> !f(pairs[i])
    ensures r.None? ==> forall i :: 0 <= i < |pairs| ==> !f(pairs[i])
  {
    if pairs == [] then None
    else
      var n := |pairs| - 1;
      var r := First(pairs[..n], f);
      if r.Some? then r else if f(pairs[n]) then Some(n) else None
  }

  /** The packet has the key a service port is looked up by; every protocol but UDP counts as TCP there. */
  predicate ClusterKeyed(pair: Pair, p: Packet) {
    ValidClusterIp(pair.0) == Some(p.daddr) && L4ProtoNumber(Proto(pair.1)) == p.proto && AsU32(pair.1.port) == p.dport
  }

  predicate NodeKeyed(pair: Pair, p: Packet) {
    pair.1.nodePort.Some? && L4ProtoNumber(Proto(pair.1)) == p.proto && AsU32(pair.1.nodePort.value) == p.dport
  }

  function FirstCluster(pairs: seq<Pair>, p: Packet): (r: Option<nat>) { First(pairs, pair => ClusterKeyed(pair, p)) }

  function FirstNodePort(pairs: seq<Pair>, p: Packet): (r: Option<nat>) { First(pairs, pair => NodeKeyed(pair, p)) }

  /** The target the element list gives a key, as a packet would look it up. */
  ghost predicate Leads(es: set<Element>, k: Key, target: Option<Name>) {
    match target
    case None => forall e :: e in es ==> e.key != k
    case Some(n) => Element(k, n) in es && forall e :: e in es && e.key == k ==> e.target == n
  }

  function ClusterTarget(pairs: seq<Pair>, p: Packet): Option<Name> {
    match FirstCluster(pairs, p)
    case None => None
    case Some(i) => Some(MarkChainName(ChainOf(pairs[i].0, pairs[i].1)))
  }

  function NodeTarget(pairs: seq<Pair>, p: Packet): Option<Name> {
    match FirstNodePort(pairs, p)
    case None => None
    case Some(i) => Some(ChainOf(pairs[i].0, pairs[i].1))
  }

  // ---------- Sources of the elements ----------

  /** No earlier service port has the same address, protocol string and port. */
  predicate KeptCluster(pairs: seq<Pair>, i: nat)
    requires i < |pairs|
  {
    ValidClusterIp(pairs[i].0).Some? &&
    (ValidClusterIp(pairs[i].0).value, Proto(pairs[i].1), pairs[i].1.port) !in SeenIps(pairs[..i])
  }

  predicate KeptNode(pairs: seq<Pair>, i: nat)
    requires i < |pairs|
  {
    pairs[i].1.nodePort.Some? && (Proto(pairs[i].1), pairs[i].1.nodePort.value) !in SeenNodePorts(pairs[..i])
  }

  lemma {:induction false} ClusterElementSource(pairs: seq<Pair>, e: Element) returns (i: nat)
    requires e in ClusterElements(pairs)
    ensures i < |pairs| && KeptCluster(pairs, i) && e == ClusterElement(ValidClusterIp(pairs[i].0).value, pairs[i])
  {
    hide ValidClusterIp, Proto, AsU32, MarkChainName, ChainOf, SeenIps, ClusterElement;
    var n := |pairs| - 1;
    if e in ClusterElements(pairs[..n]) {
      i := ClusterElementSource(pairs[..n], e);
      assert pairs[..n][..i] == pairs[..i];
    } else {
      i := n;
    }
  }

  lemma {:induction false} ClusterElementKept(pairs: seq<Pair>, i: nat)
    requires i < |pairs| && KeptCluster(pairs, i)
    ensures ClusterElement(ValidClusterIp(pairs[i].0).value, pairs[i]) in ClusterElements(pairs)
  {
    hide ValidClusterIp, Proto, AsU32, MarkChainName, ChainOf, SeenIps, ClusterElement;
    var n := |pairs| - 1;
    if i < n {
      assert pairs[..n][..i] == pairs[..i];
      ClusterElementKept(pairs[..n], i);
    }
  }

  lemma {:induction false} NodeElementSource(pairs: seq<Pair>, e: Element) returns (i: nat)
    requires e in NodeElements(pairs)
    ensures i < |pairs| && KeptNode(pairs, i) && e == NodeElement(pairs[i].1.nodePort.value, pairs[i])
  {
    hide Proto, AsU32, ChainOf, SeenNodePorts, NodeElement;
    var n := |pairs| - 1;
    if e in NodeElements(pairs[..n]) {
      i := NodeElementSource(pairs[..n], e);
      assert pairs[..n][..i] == pairs[..i];
    } else {
      i := n;
    }
  }

  lemma {:induction false} NodeElementKept(pairs: seq<Pair>, i: nat)
    requires i < |pairs| && KeptNode(pairs, i)
    ensures NodeElement(pairs[i].1.nodePort.value, pairs[i]) in NodeElements(pairs)
  {
    hide Proto, AsU32, ChainOf, SeenNodePorts, NodeElement;
    var n := |pairs| - 1;
    if i < n {
      assert pairs[..n][..i] == pairs[..i];
      NodeElementKept(pairs[..n], i);
    }
  }

  /** The first service port with a key is the one whose element is kept. */
  lemma FirstClusterKept(pairs: seq<Pair>, p: Packet)
    requires FirstCluster(pairs, p).Some?
    ensures KeptCluster(pairs, FirstCluster(pairs, p).value)
  {
    hide ValidClusterIp, Lower, AsU32, First;
    var i := FirstCluster(pairs, p).value;
    assert ClusterKeyed(pairs[i], p);
    forall j | 0 <= j < i && ValidClusterIp(pairs[..i][j].0) == ValidClusterIp(pairs[i].0)
      ensures (Proto(pairs[..i][j].1), pairs[..i][j].1.port) != (Proto(pairs[i].1), pairs[i].1.port)
    {
      assert !ClusterKeyed(pairs[j], p);
    }
  }

  lemma FirstNodeKept(pairs: seq<Pair>, p: Packet)
    requires FirstNodePort(pairs, p).Some?
    ensures KeptNode(pairs, FirstNodePort(pairs, p).value)
  {
    hide Lower, AsU32, First;
    var i := FirstNodePort(pairs, p).value;
    assert NodeKeyed(pairs[i], p);
    forall j | 0 <= j < i
      ensures pairs[..i][j].1.nodePort != pairs[i].1.nodePort || Proto(pairs[..i][j].1) != Proto(pairs[i].1)
    {
      assert !NodeKeyed(pairs[j], p);
    }
  }

  /** Looking a packet up among the cluster elements finds the first service port with its key. */
  lemma ClusterLookup(pairs: seq<Pair>, p: Packet)
    requires Functional(ElementSet(ClusterElements(pairs)))
    ensures Leads(ElementSet(ClusterElements(pairs)), ClusterKey(p.proto, p.daddr, p.dport), ClusterTarget(pairs, p))
  {
    hide ValidClusterIp, Lower, AsU32, MarkChainName, ChainOf, ClusterElements, First, SeenIps;
    if FirstCluster(pairs, p).Some? {
      FirstClusterKept(pairs, p);
      ClusterElementKept(pairs, FirstCluster(pairs, p).value);
      assert ClusterKeyed(pairs[FirstCluster(pairs, p).value], p);
    } else {
      forall e | e in ClusterElements(pairs)
        ensures e.key != ClusterKey(p.proto, p.daddr, p.dport)
      {
        var i := ClusterElementSource(pairs, e);
        assert !ClusterKeyed(pairs[i], p);
      }
    }
  }

  /** Looking a packet up among the node-port elements does the same. */
  lemma NodeLookup(pairs: seq<Pair>, p: Packet)
    requires Functional(ElementSet(NodeElements(pairs)))
    ensures Leads(ElementSet(NodeElements(pairs)), NodeKey(p.proto, p.dport), NodeTarget(pairs, p))
  {
    hide Lower, AsU32, MarkChainName, ChainOf, NodeElements, First, SeenNodePorts;
    if FirstNodePort(pairs, p).Some? {
      FirstNodeKept(pairs, p);
      NodeElementKept(pairs, FirstNodePort(pairs, p).value);
      assert NodeKeyed(pairs[FirstNodePort(pairs, p).value], p);
    } else {
      forall e | e in NodeElements(pairs)
        ensures e.key != NodeKey(p.proto, p.dport)
      {
        var i := NodeElementSource(pairs, e);
        assert !NodeKeyed(pairs[i], p);
      }
    }
  }

  lemma SnapshotSets(services: seq<Service>)
    ensures ClusterSet(services) == ElementSet(ClusterElements(Pairs(services)))
    ensures NodeSet(services) == ElementSet(NodeElements(Pairs(services)))
  {
    hide ClusterElements, NodeElements, Transport;
    TransportSplits(ClusterElements(Pairs(services)));
    TransportSplits(NodeElements(Pairs(services)));
  }

  /** A snapshot gives every key one target. */
  ghost predicate Consistent(services: seq<Service>) {
    Functional(ClusterSet(services)) && Functional(NodeSet(services))
  }

  /** Service ports that are kept and have the same key have the same chain. */
  ghost predicate ClusterKeysAgree(pairs: seq<Pair>) {
    forall i, j :: 0 <= i < |pairs| && 0 <= j < |pairs| && KeptCluster(pairs, i) && KeptCluster(pairs, j)
      && ValidClusterIp(pairs[i].0) == ValidClusterIp(pairs[j].0) && pairs[i].1.port == pairs[j].1.port
      && L4ProtoNumber(Proto(pairs[i].1)) == L4ProtoNumber(Proto(pairs[j].1))
      ==> ChainOf(pairs[i].0, pairs[i].1) == ChainOf(pairs[j].0, pairs[j].1)
  }

  ghost predicate NodeKeysAgree(pairs: seq<Pair>) {
    forall i, j :: 0 <= i < |pairs| && 0 <= j < |pairs| && KeptNode(pairs, i) && KeptNode(pairs, j)
      && pairs[i].1.nodePort == pairs[j].1.nodePort && L4ProtoNumber(Proto(pairs[i].1)) == L4ProtoNumber(Proto(pairs[j].1))
      ==> ChainOf(pairs[i].0, pairs[i].1) == ChainOf(pairs[j].0, pairs[j].1)
  }

  lemma ClusterConsistent(pairs: seq<Pair>)
    ensures Functional(ElementSet(ClusterElements(pairs))) <==> ClusterKeysAgree(pairs)
  {
    hide ValidClusterIp, Lower, AsU32, MarkChainName, ChainOf, ClusterElements, SeenIps, KeptCluster;
    if ClusterKeysAgree(pairs) {
      forall e, f | e in ClusterElements(pairs) && f in ClusterElements(pairs) && e.key == f.key
        ensures e == f
      {
        var i := ClusterElementSource(pairs, e);
        var j := ClusterElementSource(pairs, f);
        AsU32Injective(pairs[i].1.port, pairs[j].1.port);
        ClusterElementOf(pairs, i);
        ClusterElementOf(pairs, j);
      }
    }
    if Functional(ElementSet(ClusterElements(pairs))) {
      forall i, j | 0 <= i < |pairs| && 0 <= j < |pairs| && KeptCluster(pairs, i) && KeptCluster(pairs, j)
        && ValidClusterIp(pairs[i].0) == ValidClusterIp(pairs[j].0) && pairs[i].1.port == pairs[j].1.port
        && L4ProtoNumber(Proto(pairs[i].1)) == L4ProtoNumber(Proto(pairs[j].1))
        ensures ChainOf(pairs[i].0, pairs[i].1) == ChainOf(pairs[j].0, pairs[j].1)
      {
        ClusterElementOf(pairs, i);
        ClusterElementOf(pairs, j);
        ClusterElementKept(pairs, i);
        ClusterElementKept(pairs, j);
        MarkInjective(ChainOf(pairs[i].0, pairs[i].1), ChainOf(pairs[j].0, pairs[j].1));
      }
    }
  }

  lemma ClusterElementOf(pairs: seq<Pair>, i: nat)
    requires i < |pairs| && KeptCluster(pairs, i)
    ensures ValidClusterIp(pairs[i].0).Some?
  {
  }

  lemma NodeConsistent(pairs: seq<Pair>)
    ensures Functional(ElementSet(NodeElements(pairs))) <==> NodeKeysAgree(pairs)
  {
    hide Lower, AsU32, ChainOf, NodeElements, SeenNodePorts;
    if NodeKeysAgree(pairs) {
      forall e, f | e in NodeElements(pairs) && f in NodeElements(pairs) && e.key == f.key
        ensures e == f
      {
        var i := NodeElementSource(pairs, e);
        var j := NodeElementSource(pairs, f);
        AsU32Injective(pairs[i].1.nodePort.value, pairs[j].1.nodePort.value);
      }
    }
    if Functional(ElementSet(NodeElements(pairs))) {
      forall i, j | 0 <= i < |pairs| && 0 <= j < |pairs| && KeptNode(pairs, i) && KeptNode(pairs, j)
        && pairs[i].1.nodePort == pairs[j].1.nodePort && L4ProtoNumber(Proto(pairs[i].1)) == L4ProtoNumber(Proto(pairs[j].1))
        ensures ChainOf(pairs[i].0, pairs[i].1) == ChainOf(pairs[j].0, pairs[j].1)
      {
        NodeElementKept(pairs, i);
        NodeElementKept(pairs, j);
      }
    }
  }

  /** What consistency asks of the services. */
  lemma ConsistentExactly(services: seq<Service>)
    ensures Consistent(services) <==> ClusterKeysAgree(Pairs(services)) && NodeKeysAgree(Pairs(services))
  {
    hide Pairs, ClusterOrder, NodeOrder, Functional;
    SnapshotSets(services);
    ClusterConsistent(Pairs(services));
    NodeConsistent(Pairs(services));
  }

  /** Every port is TCP or UDP. */
  predicate TcpOrUdp(pairs: seq<Pair>) {
    forall i :: 0 <= i < |pairs| ==> Proto(pairs[i].1) == "tcp" || Proto(pairs[i].1) == "udp"
  }

  lemma NotKeptTwice(pairs: seq<Pair>, i: nat, j: nat)
    requires i < j < |pairs| && Proto(pairs[i].1) == Proto(pairs[j].1)
    ensures ValidClusterIp(pairs[i].0) == ValidClusterIp(pairs[j].0) && pairs[i].1.port == pairs[j].1.port ==> !KeptCluster(pairs, j)
    ensures pairs[i].1.nodePort == pairs[j].1.nodePort ==> !KeptNode(pairs, j)
  {
    hide ValidClusterIp, Lower;
    assert pairs[..j][i] == pairs[i];
  }

  /** Then a snapshot is always consistent. */
  lemma TcpOrUdpIsConsistent(services: seq<Service>)
    requires TcpOrUdp(Pairs(services))
    ensures Consistent(services)
  {
    hide Pairs, ValidClusterIp, Lower, KeptCluster, KeptNode, ChainOf, Consistent;
    var pairs := Pairs(services);
    forall i, j | 0 <= i < j < |pairs| && L4ProtoNumber(Proto(pairs[i].1)) == L4ProtoNumber(Proto(pairs[j].1))
      ensures ValidClusterIp(pairs[i].0) == ValidClusterIp(pairs[j].0) && pairs[i].1.port == pairs[j].1.port ==> !KeptCluster(pairs, j)
      ensures pairs[i].1.nodePort == pairs[j].1.nodePort ==> !KeptNode(pairs, j)
    {
      NotKeptTwice(pairs, i, j);
    }
    ConsistentExactly(services);
  }

  // ---------- Refresh and delta ----------

  /** Every chain the snapshot's elements point at exists. */
  ghost predicate TargetsExist(t: Table, services: seq<Service>) {
    && (forall e :: e in ClusterSet(services) ==> e.target in t.chains)
    && (forall e :: e in NodeSet(services) ==> e.target in t.chains)
  }

  /** Both verdict maps hold exactly the snapshot's elements. */
  ghost predicate Holds(t: Table, services: seq<Service>) {
    && ClusterIps in t.maps && Items(t.maps[ClusterIps]) == ClusterSet(services)
    && NodePorts in t.maps && Items(t.maps[NodePorts]) == NodeSet(services)
  }

  ghost predicate Ready(t: Table) {
    CHAIN_SERVICES in t.chains && ClusterIps in t.maps && NodePorts in t.maps
  }

  lemma ExecAdd(t: Table, m: MapName, es: seq<Element>)
    requires m in t.maps
    requires forall i :: 0 <= i < |es| ==> es[i].target in t.chains
    ensures Exec(t, AddIfAny(m, es)).Some? <==> Functional(Items(t.maps[m]) + ElementSet(es))
    ensures Exec(t, AddIfAny(m, es)).Some? ==>
            var t' := Exec(t, AddIfAny(m, es)).value;
            && t'.chains == t.chains && t'.maps.Keys == t.maps.Keys
            && (forall k :: k in t.maps && k != m ==> t'.maps[k] == t.maps[k])
            && Items(t'.maps[m]) == Items(t.maps[m]) + ElementSet(es)
  {
    hide Items, Functional;
    InsertAllItems(t.maps[m], t.chains, es);
    if es == [] {
      assert ElementSet(es) == {};
      assert Items(t.maps[m]) + {} == Items(t.maps[m]);
    } else {
      assert [AddElements(m, es)][1..] == [];
    }
  }

  lemma ExecDelete(t: Table, m: MapName, es: seq<Element>)
    requires m in t.maps
    requires forall i :: 0 <= i < |es| ==> es[i] in Items(t.maps[m])
    requires forall i, j :: 0 <= i < j < |es| ==> es[i] != es[j]
    ensures Exec(t, DeleteIfAny(m, es)).Some?
    ensures var t' := Exec(t, DeleteIfAny(m, es)).value;
            && t'.chains == t.chains && t'.maps.Keys == t.maps.Keys
            && (forall k :: k in t.maps && k != m ==> t'.maps[k] == t.maps[k])
            && Items(t'.maps[m]) == Items(t.maps[m]) - ElementSet(es)
  {
    hide Items;
    if es == [] {
      assert ElementSet(es) == {};
    } else {
      RemoveAllItems(t.maps[m], es);
      assert [DeleteElements(m, es)][1..] == [];
    }
  }

  /** The table with the lookup rules in place and both service maps empty. */
  ghost function Cleared(t: Table): Table {
    Table(t.chains[CHAIN_SERVICES := LOOKUP_RULES], t.maps[ClusterIps := map[]][NodePorts := map[]])
  }

  lemma ExecLookupCommands(t: Table)
    requires Ready(t)
    ensures Exec(t, LookupCommands()) == Some(Cleared(t))
  {
    var c, rules := CHAIN_SERVICES, LOOKUP_RULES;
    var t0 := t.(chains := t.chains[c := []]);
    var t1 := t.(chains := t.chains[c := rules]);
    assert Exec(t, [FlushChain(c)]) == Some(t0) by {
      assert [FlushChain(c)][1..] == [];
    }
    assert Exec(t1, [FlushMap(ClusterIps), FlushMap(NodePorts)]) == Some(Cleared(t)) by {
      assert [FlushMap(ClusterIps), FlushMap(NodePorts)][1..] == [FlushMap(NodePorts)];
      assert [FlushMap(NodePorts)][1..] == [];
    }
    hide Exec;
    assert forall i :: 0 <= i < |rules| ==> forall d :: !RuleTargets(rules[i], d);
    ExecAddRules(t, c, rules);
    ExecConcat(t, [FlushChain(c)], AddRules(c, rules));
    ExecConcat(t, [FlushChain(c)] + AddRules(c, rules), [FlushMap(ClusterIps), FlushMap(NodePorts)]);
  }

  lemma {:induction false} ExecAddRules(t: Table, c: Name, rules: seq<Rule>)
    requires c in t.chains && forall i :: 0 <= i < |rules| ==> forall d :: !RuleTargets(rules[i], d)
    ensures Exec(t.(chains := t.chains[c := []]), AddRules(c, rules)) == Some(t.(chains := t.chains[c := rules]))
  {
    hide RuleTargets;
    if rules != [] {
      var n := |rules| - 1;
      var front, r := rules[..n], rules[n];
      ExecAddRules(t, c, front);
      ExecConcat(t.(chains := t.chains[c := []]), AddRules(c, front), [AddRule(c, r)]);
      assert [AddRule(c, r)][1..] == [];
      assert front + [r] == rules;
      assert t.chains[c := front][c := rules] == t.chains[c := rules];
    }
  }

  /** With the target chains in place, a refresh succeeds exactly for consistent services and leaves exactly
      their entries in both maps. */
  lemma ExecRefresh(t: Table, services: seq<Service>)
    requires Ready(t) && TargetsExist(t, services)
    ensures Exec(t, DiscoveryRefresh(services)).Some? <==> Consistent(services)
    ensures Exec(t, DiscoveryRefresh(services)).Some? ==>
            var t' := Exec(t, DiscoveryRefresh(services)).value;
            && Holds(t', services) && t'.chains == Cleared(t).chains
            && t'.maps.Keys == t.maps.Keys
            && (HostPorts in t.maps ==> t'.maps[HostPorts] == t.maps[HostPorts])
  {
    hide Exec, ClusterOrder, NodeOrder, AddIfAny, Functional;
    var c, n := ClusterOrder(services), NodeOrder(services);
    ExecLookupCommands(t);
    var t1 := Cleared(t);
    assert Items(map[]) == {};
    assert Items(t1.maps[ClusterIps]) + ElementSet(c) == ClusterSet(services);
    ExecAdd(t1, ClusterIps, c);
    ExecConcat(t, LookupCommands(), AddIfAny(ClusterIps, c));
    ExecConcat(t, LookupCommands() + AddIfAny(ClusterIps, c), AddIfAny(NodePorts, n));
    if Exec(t1, AddIfAny(ClusterIps, c)).Some? {
      var t2 := Exec(t1, AddIfAny(ClusterIps, c)).value;
      assert Items(t2.maps[NodePorts]) + ElementSet(n) == NodeSet(services);
      ExecAdd(t2, NodePorts, n);
    }
  }

  /** From one snapshot, a delta in any element order succeeds exactly when the other is consistent, and leaves
      exactly its entries. */
  lemma ExecDelta(t: Table, old_: seq<Service>, new_: seq<Service>, d: Delta)
    requires Holds(t, old_) && DeltaOf(d, old_, new_) && TargetsExist(t, new_)
    ensures Exec(t, DeltaCommands(d)).Some? <==> Consistent(new_)
    ensures Exec(t, DeltaCommands(d)).Some? ==>
            var t' := Exec(t, DeltaCommands(d)).value;
            && Holds(t', new_) && t'.chains == t.chains && t'.maps.Keys == t.maps.Keys
            && (HostPorts in t.maps ==> t'.maps[HostPorts] == t.maps[HostPorts])
  {
    hide Exec, ClusterOrder, NodeOrder, AddIfAny, DeleteIfAny, Items, Functional;
    var cd, ca := DeleteIfAny(ClusterIps, d.clusterDeletes), AddIfAny(ClusterIps, d.clusterAdds);
    var nd, na := DeleteIfAny(NodePorts, d.nodeDeletes), AddIfAny(NodePorts, d.nodeAdds);
    OrderSet(d.clusterDeletes, ClusterSet(old_) - ClusterSet(new_));
    OrderSet(d.clusterAdds, ClusterSet(new_) - ClusterSet(old_));
    OrderSet(d.nodeDeletes, NodeSet(old_) - NodeSet(new_));
    OrderSet(d.nodeAdds, NodeSet(new_) - NodeSet(old_));
    ExecDelete(t, ClusterIps, d.clusterDeletes);
    var t1 := Exec(t, cd).value;
    assert Items(t1.maps[ClusterIps]) + ElementSet(d.clusterAdds) == ClusterSet(new_);
    ExecAdd(t1, ClusterIps, d.clusterAdds);
    ExecConcat(t, cd, ca);
    ExecConcat(t, cd + ca, nd);
    ExecConcat(t, cd + ca + nd, na);
    if Exec(t1, ca).Some? {
      var t2 := Exec(t1, ca).value;
      ExecDelete(t2, NodePorts, d.nodeDeletes);
      var t3 := Exec(t2, nd).value;
      assert Items(t3.maps[NodePorts]) + ElementSet(d.nodeAdds) == NodeSet(new_);
      ExecAdd(t3, NodePorts, d.nodeAdds);
    }
  }

  lemma OrderSet(es: seq<Element>, s: set<Element>)
    requires OrderOf(es, s)
    ensures ElementSet(es) == s
  {
  }

  // ---------- Runs of deltas ----------

  ghost function DeltaRun(deltas: seq<Delta>): seq<Cmd> {
    if deltas == [] then [] else DeltaRun(deltas[..|deltas| - 1]) + DeltaCommands(deltas[|deltas| - 1])
  }

  /** Snapshots whose chains exist, and the deltas between neighbours. */
  ghost predicate History(t: Table, snapshots: seq<seq<Service>>, deltas: seq<Delta>) {
    && |snapshots| == |deltas| + 1
    && (forall i :: 0 <= i < |snapshots| ==> TargetsExist(t, snapshots[i]))
    && (forall i :: 0 <= i < |deltas| ==> DeltaOf(deltas[i], snapshots[i], snapshots[i + 1]))
  }

  lemma TablesAgree(a: Table, b: Table, services: seq<Service>)
    requires Holds(a, services) && Holds(b, services)
    requires a.chains == b.chains && a.maps.Keys == b.maps.Keys
    requires HostPorts in a.maps ==> a.maps[HostPorts] == b.maps[HostPorts]
    ensures a == b
  {
    hide Items;
    ItemsInjective(a.maps[ClusterIps], b.maps[ClusterIps]);
    ItemsInjective(a.maps[NodePorts], b.maps[NodePorts]);
    forall k | k in a.maps
      ensures a.maps[k] == b.maps[k]
    {
      match k
      case ClusterIps =>
      case NodePorts =>
      case HostPorts =>
    }
    assert a.maps == b.maps;
  }

  /** However many deltas run after a refresh, and in whatever element order, they succeed exactly when every
      snapshot is consistent, and then the table is the one a refresh of the last snapshot produces. */
  lemma {:induction false} DeltasEqualRefresh(t: Table, snapshots: seq<seq<Service>>, deltas: seq<Delta>)
    requires Ready(t) && History(t, snapshots, deltas)
    ensures Exec(t, DiscoveryRefresh(snapshots[0]) + DeltaRun(deltas)).Some? <==>
            forall i :: 0 <= i < |snapshots| ==> Consistent(snapshots[i])
    ensures Exec(t, DiscoveryRefresh(snapshots[0]) + DeltaRun(deltas)).Some? ==>
            Exec(t, DiscoveryRefresh(snapshots[0]) + DeltaRun(deltas)) == Exec(t, DiscoveryRefresh(snapshots[|snapshots| - 1]))
    decreases |deltas|
  {
    hide Exec, DiscoveryRefresh, DeltaCommands, DeltaOf, Holds, TargetsExist, Consistent;
    var first, last := snapshots[0], snapshots[|snapshots| - 1];
    ExecRefresh(t, last);
    if deltas == [] {
      assert DiscoveryRefresh(first) + DeltaRun(deltas) == DiscoveryRefresh(first);
    } else {
      var n := |deltas| - 1;
      var prefix := DiscoveryRefresh(first) + DeltaRun(deltas[..n]);
      DeltasEqualRefresh(t, snapshots[..n + 1], deltas[..n]);
      assert forall i :: 0 <= i <= n ==> snapshots[..n + 1][i] == snapshots[i];
      ExecConcat(t, prefix, DeltaCommands(deltas[n]));
      assert DiscoveryRefresh(first) + DeltaRun(deltas) == prefix + DeltaCommands(deltas[n]);
      if Exec(t, prefix).Some? {
        var t1 := Exec(t, prefix).value;
        ExecRefresh(t, snapshots[n]);
        TargetsPersist(t, t1, last);
        ExecDelta(t1, snapshots[n], last, deltas[n]);
        if Consistent(last) {
          TablesAgree(Exec(t1, DeltaCommands(deltas[n])).value, Exec(t, DiscoveryRefresh(last)).value, last);
        }
      }
    }
  }

  lemma TargetsPersist(t: Table, t': Table, services: seq<Service>)
    requires Ready(t) && TargetsExist(t, services) && t'.chains == Cleared(t).chains
    ensures TargetsExist(t', services)
  {
    hide ClusterOrder, NodeOrder;
  }
}
