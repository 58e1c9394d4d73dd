/** Which backends a service port has: every address of every subset that has a port of its name, in order. */
module NftBackends {
  import opened Wrappers
  import opened NftNames
  import opened NftModel
  import opened NftCompiler
  import opened NftDiscovery
  import opened NftMaps
  import opened NftCorrect
  import opened NftTheorem
  import opened NftMeaning

  /** The first port with the name. */
  predicate FirstNamed(ports: seq<EndpointPort>, name: Option<string>, j: nat) {
    j < |ports| && ports[j].name == name && forall i :: 0 <= i < j ==> ports[i].name != name
  }

  predicate Offers(subset: Subset, name: Option<string>) {
    exists j :: 0 <= j < |subset.ports| && subset.ports[j].name == name
  }

  /** How many addresses the first k subsets offer under the name. */
  function Offset(subsets: seq<Subset>, name: Option<string>, k: nat): nat
    requires k <= |subsets|
  {
    if k == 0 then 0
    else Offset(subsets, name, k - 1) + if Offers(subsets[k - 1], name) then |subsets[k - 1].addresses| else 0
  }

  lemma FirstNamedUnique(ports: seq<EndpointPort>, name: Option<string>, j: nat, k: nat)
    requires FirstNamed(ports, name, j) && FirstNamed(ports, name, k)
    ensures j == k
  {
  }

  /** The port looked for is the first with the name, if there is one. */
  lemma {:induction false} TargetIsFirstNamed(p: ServicePort, ports: seq<EndpointPort>) returns (j: nat)
    ensures match TargetPort(p, ports)
            case None => forall i :: 0 <= i < |ports| ==> ports[i].name != p.name
            case Some(port) => FirstNamed(ports, p.name, j) && port == ports[j]
    decreases |ports|
  {
    j := 0;
    if ports != [] && ports[0].name != p.name {
      var rest := ports[1..];
      var k := TargetIsFirstNamed(p, rest);
      assert forall i :: 1 <= i < |ports| ==> ports[i] == rest[i - 1];
      j := k + 1;
    }
  }

  lemma SubsetLength(p: ServicePort, subset: Subset)
    ensures |SubsetBackends(p, subset)| == if Offers(subset, p.name) then |subset.addresses| else 0
  {
    hide TargetPort;
    var j := TargetIsFirstNamed(p, subset.ports);
  }

  /** There are as many backends as the subsets offer addresses. */
  lemma {:induction false} BackendsLength(p: ServicePort, subsets: seq<Subset>, k: nat)
    requires k <= |subsets|
    ensures |Backends(p, subsets[..k])| == Offset(subsets, p.name, k)
  {
    hide SubsetBackends;
    if k > 0 {
      assert subsets[..k][..k - 1] == subsets[..k - 1];
      BackendsLength(p, subsets, k - 1);
      SubsetLength(p, subsets[k - 1]);
    }
  }

  lemma {:induction false} BackendsPrefix(p: ServicePort, subsets: seq<Subset>, k: nat)
    requires k <= |subsets|
    ensures |Backends(p, subsets[..k])| <= |Backends(p, subsets)|
    ensures Backends(p, subsets)[..|Backends(p, subsets[..k])|] == Backends(p, subsets[..k])
    decreases |subsets|
  {
    hide SubsetBackends;
    if k == |subsets| {
      assert subsets[..k] == subsets;
    } else {
      var front := subsets[..|subsets| - 1];
      assert front[..k] == subsets[..k];
      BackendsPrefix(p, front, k);
    }
  }

  lemma SubsetBackendAt(p: ServicePort, subset: Subset, j: nat, i: nat)
    requires FirstNamed(subset.ports, p.name, j) && i < |subset.addresses|
    ensures i < |SubsetBackends(p, subset)|
    ensures SubsetBackends(p, subset)[i] == Backend(subset.addresses[i], AsU32(subset.ports[j].port))
  {
    hide TargetPort, AsU32;
    var first := TargetIsFirstNamed(p, subset.ports);
    if TargetPort(p, subset.ports).Some? {
      FirstNamedUnique(subset.ports, p.name, j, first);
    }
  }

  lemma BackendsStep(p: ServicePort, subsets: seq<Subset>, k: nat)
    requires k < |subsets|
    ensures Backends(p, subsets[..k + 1]) == Backends(p, subsets[..k]) + SubsetBackends(p, subsets[k])
  {
    hide SubsetBackends;
    assert subsets[..k + 1][..k] == subsets[..k];
  }

  lemma InPrefix(all: seq<Backend>, a: seq<Backend>, b: seq<Backend>, i: nat)
    requires |a + b| <= |all| && all[..|a + b|] == a + b && i < |b|
    ensures all[|a| + i] == b[i]
  {
    assert all[..|a + b|][|a| + i] == b[i];
  }

  /** The backends by position: the addresses of the subset, in order, after those of the subsets before it, each with the
      first port of the service port's name. */
  lemma BackendAt(p: ServicePort, subsets: seq<Subset>, k: nat, j: nat, i: nat)
    requires k < |subsets| && FirstNamed(subsets[k].ports, p.name, j) && i < |subsets[k].addresses|
    ensures var at := Offset(subsets, p.name, k) + i;
            && |Backends(p, subsets)| == Offset(subsets, p.name, |subsets|) && at < |Backends(p, subsets)|
            && Backends(p, subsets)[at] == Backend(subsets[k].addresses[i], AsU32(subsets[k].ports[j].port))
  {
    hide Backends, SubsetBackends, AsU32, Offset, FirstNamed;
    assert subsets[..|subsets|] == subsets;
    BackendsLength(p, subsets, k);
    BackendsLength(p, subsets, |subsets|);
    BackendsStep(p, subsets, k);
    BackendsPrefix(p, subsets, k + 1);
    SubsetBackendAt(p, subsets[k], j, i);
    InPrefix(Backends(p, subsets), Backends(p, subsets[..k]), SubsetBackends(p, subsets[k]), i);
  }

  /** And there are no others. */
  lemma {:induction false} BackendFrom(p: ServicePort, subsets: seq<Subset>, at: nat) returns (k: nat, j: nat, i: nat)
    requires at < |Backends(p, subsets)|
    ensures k < |subsets| && FirstNamed(subsets[k].ports, p.name, j) && i < |subsets[k].addresses|
    ensures at == Offset(subsets, p.name, k) + i
    ensures Backends(p, subsets)[at] == Backend(subsets[k].addresses[i], AsU32(subsets[k].ports[j].port))
    decreases |subsets|
  {
    hide TargetPort, AsU32;
    k := |subsets| - 1;
    var front := subsets[..k];
    BackendsLength(p, subsets, k);
    if at < |Backends(p, front)| {
      k, j, i := BackendFrom(p, front, at);
      OffsetOfPrefix(subsets, p.name, |front|, k);
    } else {
      i := at - |Backends(p, front)|;
      j := TargetIsFirstNamed(p, subsets[k].ports);
    }
  }

  lemma {:induction false} OffsetOfPrefix(subsets: seq<Subset>, name: Option<string>, n: nat, k: nat)
    requires k <= n <= |subsets|
    ensures Offset(subsets[..n], name, k) == Offset(subsets, name, k)
  {
    if k > 0 {
      OffsetOfPrefix(subsets, name, n, k - 1);
    }
  }

  /** The endpoint of a service is the last one listed with its name. */
  lemma {:induction false} EndpointIsLast(endpoints: seq<Endpoint>, svc: Service, k: nat)
    requires k < |endpoints| && (endpoints[k].namespace, endpoints[k].name) == (svc.namespace, svc.name)
    requires forall i :: k < i < |endpoints| ==> (endpoints[i].namespace, endpoints[i].name) != (svc.namespace, svc.name)
    ensures EndpointFor(endpoints, svc) == endpoints[k]
  {
    if k < |endpoints| - 1 {
      EndpointIsLast(endpoints[..|endpoints| - 1], svc, k);
    }
  }

  // ---------- Draws ----------

  /** Each address a service port has is served by some draw. */
  lemma EveryAddressIsServed(p: ServicePort, subsets: seq<Subset>, k: nat, j: nat, i: nat, mark: nat)
    requires k < |subsets| && FirstNamed(subsets[k].ports, p.name, j) && i < |subsets[k].addresses|
    ensures Serve(Backends(p, subsets), mark, Offset(subsets, p.name, k) + i)
         == Stop(Translated(Backend(subsets[k].addresses[i], AsU32(subsets[k].ports[j].port))), mark)
  {
    hide Backends, Offset, AsU32;
    BackendAt(p, subsets, k, j, i);
    var at, n := Offset(subsets, p.name, k) + i, |Backends(p, subsets)|;
    SmallDraw(at, n);
  }

  lemma SmallDraw(at: nat, n: nat)
    requires at < n
    ensures at % n == at
  {
  }

  /** After configuration and refresh, every address behind the first service port of a packet's address is reached by
      some draw, from outside and locally, with the service mark. */
  lemma EveryAddressIsReached(t: Table, services: seq<Service>, endpoints: seq<Endpoint>, legacy: bool, p: Packet,
                              mark: nat, depth: nat, k: nat, j: nat, i: nat)
    requires ClusterIps in t.maps && NodePorts in t.maps && Compilable(services) && depth >= 5
    requires FirstCluster(Pairs(services), p).Some?
    requires var pair := Pairs(services)[FirstCluster(Pairs(services), p).value];
             var subsets := EndpointFor(endpoints, pair.0).subsets;
             k < |subsets| && FirstNamed(subsets[k].ports, pair.1.name, j) && i < |subsets[k].addresses|
    ensures var pair := Pairs(services)[FirstCluster(Pairs(services), p).value];
            var subsets := EndpointFor(endpoints, pair.0).subsets;
            var draw := Offset(subsets, pair.1.name, k) + i;
            var r := Exec(t, FullConfig(services, endpoints, legacy) + DiscoveryRefresh(services));
            var target := Stop(Translated(Backend(subsets[k].addresses[i], AsU32(subsets[k].ports[j].port))), 0x4000);
            && r.Some? && EvalChain(r.value, PREROUTING, p, mark, draw, depth) == target
            && EvalChain(r.value, OUTPUT, p, mark, draw, depth) == target
  {
    hide Exec, FullConfig, DiscoveryRefresh, EvalChain, Pairs, First, Backends, EndpointFor, Offset, AsU32, TcpOrUdp, DistinctChains, Serve;
    var pair := Pairs(services)[FirstCluster(Pairs(services), p).value];
    var subsets := EndpointFor(endpoints, pair.0).subsets;
    CompilerCorrect(t, services, endpoints, legacy, p, mark, Offset(subsets, pair.1.name, k) + i, depth);
    KeyedIsWanted(Pairs(services), p);
    EveryAddressIsServed(pair.1, subsets, k, j, i, SERVICE_TRAFFIC_MARK);
  }
}
