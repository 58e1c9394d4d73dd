/** Services and endpoints compiled to nftables commands: the full, incremental, detach and delete forms.

    Every generator is a method that appends commands in a loop; the functions beside them say
    what is appended.  Addresses are compared as strings.
 */
module NftCompiler {
  import opened Wrappers
  import opened NftNames
  import opened NftModel

  type I32 = x: int | -0x8000_0000 <= x < 0x8000_0000

  datatype ServicePort = ServicePort(name: Option<string>, port: I32, protocol: string, nodePort: Option<I32>)

  datatype Service = Service(namespace: string, name: string, clusterIp: Option<string>, ports: seq<ServicePort>)

  datatype EndpointPort = EndpointPort(name: Option<string>, port: I32)

  datatype Subset = Subset(addresses: seq<string>, ports: seq<EndpointPort>)

  datatype Endpoint = Endpoint(namespace: string, name: string, subsets: seq<Subset>)

  const SERVICE_TRAFFIC_MARK := 0x4000
  const CHAIN_SERVICES: Name := "services"
  const CHAIN_MASQUERADE: Name := "masquerade"
  const PREROUTING: Name := "nat-prerouting"
  const OUTPUT: Name := "nat-output"
  const POSTROUTING: Name := "nat-postrouting"
  const BASE_CHAINS: seq<Name> := [
    PREROUTING, OUTPUT, POSTROUTING, "filter-prerouting", "filter-input", "filter-forward", "filter-output",
    CHAIN_SERVICES, CHAIN_MASQUERADE]

  /** The cast of a 32-bit signed number to unsigned. */
  function AsU32(n: int): nat { n % 0x1_0000_0000 }

  function Proto(p: ServicePort): string { Lower(p.protocol) }

  function L4ProtoNumber(protocol: string): nat { if protocol == "udp" then 17 else 6 }

  function ChainOf(svc: Service, p: ServicePort): Name {
    ServiceChainName(svc.namespace, svc.name, p.port, Proto(p))
  }

  function ValidClusterIp(svc: Service): Option<string> {
    if svc.clusterIp.Some? && svc.clusterIp.value != "" && Lower(svc.clusterIp.value) != "none"
    then svc.clusterIp else None
  }

  // ---------- Backends ----------

  /** The first port of a subset whose name agrees with the service port's. */
  function TargetPort(p: ServicePort, ports: seq<EndpointPort>): Option<EndpointPort> {
    if ports == [] then None
    else if ports[0].name == p.name then Some(ports[0])
    else TargetPort(p, ports[1..])
  }

  function SubsetBackends(p: ServicePort, subset: Subset): seq<Backend> {
    match TargetPort(p, subset.ports)
    case None => []
    case Some(tp) => seq(|subset.addresses|, i requires 0 <= i < |subset.addresses| =>
                         Backend(subset.addresses[i], AsU32(tp.port)))
  }

  function Backends(p: ServicePort, subsets: seq<Subset>): seq<Backend> {
    if subsets == [] then []
    else Backends(p, subsets[..|subsets| - 1]) + SubsetBackends(p, subsets[|subsets| - 1])
  }

  method BackendElementsForServicePort(p: ServicePort, ep: Endpoint) returns (elements: seq<Backend>)
    ensures elements == Backends(p, ep.subsets)
  {
    hide AsU32;
    elements := [];
    for k := 0 to |ep.subsets|
      invariant elements == Backends(p, ep.subsets[..k])
    {
      assert ep.subsets[..k + 1][..k] == ep.subsets[..k];
      var subset := ep.subsets[k];
      var targetPort := TargetPort(p, subset.ports);
      if targetPort.Some? {
        for i := 0 to |subset.addresses|
          invariant elements == Backends(p, ep.subsets[..k]) + SubsetBackends(p, subset)[..i]
        {
          elements := elements + [Backend(subset.addresses[i], AsU32(targetPort.value.port))];
        }
      }
    }
    assert ep.subsets[..|ep.subsets|] == ep.subsets;
  }

  /** The names of `n` endpoint chains. */
  function EndpointNames(c: Name, n: nat): (r: seq<Name>)
    ensures |r| == n
  {
    seq(n, i requires 0 <= i => EndpointChainName(c, i))
  }

  /** One name per backend, counted without building the backends; none without an endpoint. */
  method EndpointChainNamesForServicePort(c: Name, p: ServicePort, ep: Option<Endpoint>) returns (names: seq<Name>)
    ensures names == EndpointNames(c, if ep.Some? then |Backends(p, ep.value.subsets)| else 0)
  {
    hide EndpointChainName;
    names := [];
    if ep.None? {
      return;
    }
    var subsets := ep.value.subsets;
    var idx := 0;
    for k := 0 to |subsets|
      invariant idx == |Backends(p, subsets[..k])|
      invariant names == EndpointNames(c, idx)
    {
      assert subsets[..k + 1][..k] == subsets[..k];
      if TargetPort(p, subsets[k].ports).Some? {
        for i := 0 to |subsets[k].addresses|
          invariant idx == |Backends(p, subsets[..k])| + i
          invariant names == EndpointNames(c, idx)
        {
          names := names + [EndpointChainName(c, idx)];
          idx := idx + 1;
        }
      }
    }
    assert subsets[..|subsets|] == subsets;
  }

  // ---------- Service chains ----------

  function Numbered<T>(xs: seq<T>): (r: seq<(nat, T)>)
    ensures |r| == |xs|
  {
    seq(|xs|, i requires 0 <= i < |xs| => (i, xs[i]))
  }

  function DnatRule(protocol: string, backends: seq<Backend>): Rule {
    [MatchProto(protocol), DnatRandom(|backends|, Numbered(backends))]
  }

  function EndpointRule(protocol: string, b: Backend): Rule {
    [MatchProto(protocol), Dnat(b)]
  }

  function GotoRule(c: Name, n: nat): Rule {
    [GotoRandom(n, Numbered(EndpointNames(c, n)))]
  }

  function MarkRule(c: Name): Rule {
    [SetMark(SERVICE_TRAFFIC_MARK), Jump(c)]
  }

  function EndpointCommands(c: Name, protocol: string, backends: seq<Backend>): seq<Cmd> {
    if backends == [] then []
    else
      var n := |backends| - 1;
      var e := EndpointChainName(c, n);
      EndpointCommands(c, protocol, backends[..n])
      + [AddChain(e), FlushChain(e), AddRule(e, EndpointRule(protocol, backends[n]))]
  }

  method AppendLegacyEndpointChainRules(objects: seq<Cmd>, c: Name, protocol: string, backends: seq<Backend>)
    returns (r: seq<Cmd>)
    ensures r == objects + EndpointCommands(c, protocol, backends) + [AddRule(c, GotoRule(c, |backends|))]
  {
    hide EndpointChainName;
    r := objects;
    var lbMap: seq<(nat, Name)> := [];
    for i := 0 to |backends|
      invariant lbMap == Numbered(EndpointNames(c, i))
      invariant r == objects + EndpointCommands(c, protocol, backends[..i])
    {
      var e := EndpointChainName(c, i);
      assert backends[..i + 1][..i] == backends[..i];
      r := r + [AddChain(e)];
      r := r + [FlushChain(e)];
      r := r + [AddRule(e, [MatchProto(protocol), Dnat(backends[i])])];
      lbMap := lbMap + [(i, e)];
    }
    assert backends[..|backends|] == backends;
    r := r + [AddRule(c, [GotoRandom(|backends|, lbMap)])];
  }

  method AppendServicePortDnatMapRule(objects: seq<Cmd>, c: Name, protocol: string, backends: seq<Backend>)
    returns (r: seq<Cmd>)
    ensures r == objects + [AddRule(c, DnatRule(protocol, backends))]
  {
    var mapData: seq<(nat, Backend)> := [];
    for i := 0 to |backends|
      invariant mapData == Numbered(backends)[..i]
    {
      mapData := mapData + [(i, backends[i])];
    }
    assert mapData == Numbered(backends);
    r := objects + [AddRule(c, [MatchProto(protocol), DnatRandom(|backends|, mapData)])];
  }

  /** The rules that send a packet in a service chain to a backend. */
  function DispatchCommands(c: Name, protocol: string, backends: seq<Backend>, legacy: bool): seq<Cmd> {
    if backends == [] then [AddRule(c, [Reject])]
    else if legacy then EndpointCommands(c, protocol, backends) + [AddRule(c, GotoRule(c, |backends|))]
    else [AddRule(c, DnatRule(protocol, backends))]
  }

  function MarkCommands(svc: Service, c: Name): seq<Cmd> {
    if ValidClusterIp(svc).None? then []
    else [AddChain(MarkChainName(c)), FlushChain(MarkChainName(c)), AddRule(MarkChainName(c), MarkRule(c))]
  }

  function UpdatePort(svc: Service, p: ServicePort, ep: Endpoint, legacy: bool): seq<Cmd> {
    var c := ChainOf(svc, p);
    [AddChain(c), FlushChain(c)] + MarkCommands(svc, c)
    + DispatchCommands(c, Proto(p), Backends(p, ep.subsets), legacy)
  }

  function UpdatePorts(svc: Service, ports: seq<ServicePort>, ep: Endpoint, legacy: bool): seq<Cmd> {
    if ports == [] then []
    else UpdatePorts(svc, ports[..|ports| - 1], ep, legacy) + UpdatePort(svc, ports[|ports| - 1], ep, legacy)
  }

  function UpdateService(svc: Service, ep: Endpoint, legacy: bool): seq<Cmd> {
    UpdatePorts(svc, svc.ports, ep, legacy)
  }

  /** The loop body of the service update: chain, mark chain, dispatch. */
  method AppendPortUpdate(objects: seq<Cmd>, svc: Service, p: ServicePort, ep: Endpoint, legacy: bool)
    returns (r: seq<Cmd>)
    ensures r == objects + UpdatePort(svc, p, ep, legacy)
  {
    hide ChainOf, MarkChainName, Backends, EndpointCommands, DnatRule, GotoRule;
    var protocol := Lower(p.protocol);
    var c := ChainOf(svc, p);
    var m := MarkChainName(c);
    r := objects + [AddChain(c)];
    r := r + [FlushChain(c)];
    if ValidClusterIp(svc).Some? {
      r := r + [AddChain(m)];
      r := r + [FlushChain(m)];
      r := r + [AddRule(m, [SetMark(SERVICE_TRAFFIC_MARK), Jump(c)])];
    }
    assert r == objects + ([AddChain(c), FlushChain(c)] + MarkCommands(svc, c));
    var backends := BackendElementsForServicePort(p, ep);
    if backends == [] {
      r := r + [AddRule(c, [Reject])];
    } else if legacy {
      r := AppendLegacyEndpointChainRules(r, c, protocol, backends);
    } else {
      r := AppendServicePortDnatMapRule(r, c, protocol, backends);
    }
  }

  method GenerateServiceUpdateObjects(svc: Service, ep: Endpoint, legacy: bool) returns (objects: seq<Cmd>)
    ensures objects == UpdateService(svc, ep, legacy)
  {
    hide UpdatePort;
    objects := [];
    for i := 0 to |svc.ports|
      invariant objects == UpdatePorts(svc, svc.ports[..i], ep, legacy)
    {
      assert svc.ports[..i + 1][..i] == svc.ports[..i];
      objects := AppendPortUpdate(objects, svc, svc.ports[i], ep, legacy);
    }
    assert svc.ports[..|svc.ports|] == svc.ports;
  }

  /** The endpoint-only form: chains are expected to exist, only the dispatch rule is replaced. */
  function RefreshPorts(svc: Service, ports: seq<ServicePort>, ep: Endpoint): seq<Cmd> {
    if ports == [] then []
    else
      var p := ports[|ports| - 1];
      var c := ChainOf(svc, p);
      RefreshPorts(svc, ports[..|ports| - 1], ep)
      + ([FlushChain(c)] + DispatchCommands(c, Proto(p), Backends(p, ep.subsets), false))
  }

  method GenerateServiceBackendOnlyUpdateObjects(svc: Service, ep: Endpoint) returns (objects: seq<Cmd>)
    ensures objects == RefreshPorts(svc, svc.ports, ep)
  {
    hide ChainOf;
    objects := [];
    for i := 0 to |svc.ports|
      invariant objects == RefreshPorts(svc, svc.ports[..i], ep)
    {
      assert svc.ports[..i + 1][..i] == svc.ports[..i];
      var p := svc.ports[i];
      var c := ChainOf(svc, p);
      objects := objects + [FlushChain(c)];
      var backends := BackendElementsForServicePort(p, ep);
      if backends == [] {
        objects := objects + [AddRule(c, [Reject])];
      } else {
        objects := AppendServicePortDnatMapRule(objects, c, Lower(p.protocol), backends);
      }
    }
    assert svc.ports[..|svc.ports|] == svc.ports;
  }

  // ---------- Detach and delete ----------

  function FlushAll(names: seq<Name>): seq<Cmd> {
    if names == [] then [] else FlushAll(names[..|names| - 1]) + [FlushChain(names[|names| - 1])]
  }

  function FlushDeleteAll(names: seq<Name>): seq<Cmd> {
    if names == [] then []
    else FlushDeleteAll(names[..|names| - 1]) + [FlushChain(names[|names| - 1]), DeleteChain(names[|names| - 1])]
  }

  /** The endpoint chains a port of the service owns. */
  function OwnedEndpoints(svc: Service, p: ServicePort, ep: Option<Endpoint>, legacy: bool): seq<Name> {
    EndpointNames(ChainOf(svc, p), if legacy && ep.Some? then |Backends(p, ep.value.subsets)| else 0)
  }

  function FlushPort(svc: Service, p: ServicePort): seq<Cmd> {
    (if ValidClusterIp(svc).Some? then [FlushChain(MarkChainName(ChainOf(svc, p)))] else [])
    + [FlushChain(ChainOf(svc, p))]
  }

  function DetachPort(svc: Service, p: ServicePort, ep: Option<Endpoint>, legacy: bool): seq<Cmd> {
    FlushPort(svc, p) + FlushAll(OwnedEndpoints(svc, p, ep, legacy))
  }

  function DeletePort(svc: Service, p: ServicePort, ep: Option<Endpoint>, legacy: bool): seq<Cmd> {
    var c := ChainOf(svc, p);
    FlushPort(svc, p) + FlushDeleteAll(OwnedEndpoints(svc, p, ep, legacy)) + [DeleteChain(c)]
    + (if ValidClusterIp(svc).Some? then [DeleteChain(MarkChainName(c))] else [])
  }

  function DetachPorts(svc: Service, ports: seq<ServicePort>, ep: Option<Endpoint>, legacy: bool): seq<Cmd> {
    if ports == [] then []
    else DetachPorts(svc, ports[..|ports| - 1], ep, legacy) + DetachPort(svc, ports[|ports| - 1], ep, legacy)
  }

  function DeletePorts(svc: Service, ports: seq<ServicePort>, ep: Option<Endpoint>, legacy: bool): seq<Cmd> {
    if ports == [] then []
    else DeletePorts(svc, ports[..|ports| - 1], ep, legacy) + DeletePort(svc, ports[|ports| - 1], ep, legacy)
  }

  method AppendFlushPort(objects: seq<Cmd>, svc: Service, p: ServicePort) returns (r: seq<Cmd>)
    ensures r == objects + FlushPort(svc, p)
  {
    hide ChainOf, MarkChainName;
    var c := ChainOf(svc, p);
    r := objects;
    if ValidClusterIp(svc).Some? {
      r := r + [FlushChain(MarkChainName(c))];
    }
    r := r + [FlushChain(c)];
  }

  method AppendPortDetach(objects: seq<Cmd>, svc: Service, p: ServicePort, ep: Option<Endpoint>, legacy: bool)
    returns (r: seq<Cmd>)
    ensures r == objects + DetachPort(svc, p, ep, legacy)
  {
    hide ChainOf, FlushPort, EndpointChainName, Backends;
    r := AppendFlushPort(objects, svc, p);
    if legacy {
      var names := EndpointChainNamesForServicePort(ChainOf(svc, p), p, ep);
      for k := 0 to |names|
        invariant r == objects + FlushPort(svc, p) + FlushAll(names[..k])
      {
        assert names[..k + 1][..k] == names[..k];
        r := r + [FlushChain(names[k])];
      }
      assert names[..|names|] == names;
    }
  }

  method AppendFlushDelete(objects: seq<Cmd>, names: seq<Name>) returns (r: seq<Cmd>)
    ensures r == objects + FlushDeleteAll(names)
  {
    r := objects;
    for k := 0 to |names|
      invariant r == objects + FlushDeleteAll(names[..k])
    {
      assert names[..k + 1][..k] == names[..k];
      r := r + [FlushChain(names[k])];
      r := r + [DeleteChain(names[k])];
    }
    assert names[..|names|] == names;
  }

  method AppendPortDelete(objects: seq<Cmd>, svc: Service, p: ServicePort, ep: Option<Endpoint>, legacy: bool)
    returns (r: seq<Cmd>)
    ensures r == objects + DeletePort(svc, p, ep, legacy)
  {
    hide ChainOf, MarkChainName, FlushPort, EndpointChainName, Backends;
    var c := ChainOf(svc, p);
    r := AppendFlushPort(objects, svc, p);
    if legacy {
      var names := EndpointChainNamesForServicePort(c, p, ep);
      r := AppendFlushDelete(r, names);
    }
    assert r == objects + (FlushPort(svc, p) + FlushDeleteAll(OwnedEndpoints(svc, p, ep, legacy)));
    r := r + [DeleteChain(c)];
    if ValidClusterIp(svc).Some? {
      r := r + [DeleteChain(MarkChainName(c))];
    }
  }

  method GenerateServiceDetachWithEndpoint(svc: Service, ep: Option<Endpoint>, legacy: bool)
    returns (objects: seq<Cmd>)
    ensures objects == DetachPorts(svc, svc.ports, ep, legacy)
  {
    hide DetachPort;
    objects := [];
    for i := 0 to |svc.ports|
      invariant objects == DetachPorts(svc, svc.ports[..i], ep, legacy)
    {
      assert svc.ports[..i + 1][..i] == svc.ports[..i];
      objects := AppendPortDetach(objects, svc, svc.ports[i], ep, legacy);
    }
    assert svc.ports[..|svc.ports|] == svc.ports;
  }

  method GenerateServiceDeleteWithEndpoint(svc: Service, ep: Option<Endpoint>, legacy: bool)
    returns (objects: seq<Cmd>)
    ensures objects == DeletePorts(svc, svc.ports, ep, legacy)
  {
    hide DeletePort;
    objects := [];
    for i := 0 to |svc.ports|
      invariant objects == DeletePorts(svc, svc.ports[..i], ep, legacy)
    {
      assert svc.ports[..i + 1][..i] == svc.ports[..i];
      objects := AppendPortDelete(objects, svc, svc.ports[i], ep, legacy);
    }
    assert svc.ports[..|svc.ports|] == svc.ports;
  }
}
