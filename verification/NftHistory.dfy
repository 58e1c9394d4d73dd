/** Whole histories of the ruleset: full syncs, new services, endpoint changes and deleted services, as the
    controller sends them, keep the table in step with the services that remain. */
module NftHistory {
  import opened Wrappers
  import opened NftNames
  import opened NftModel
  import opened NftCompiler
  import opened NftDiscovery
  import opened NftInstall
  import opened NftMaps
  import opened NftCorrect
  import opened NftTheorem
  import opened NftUpdates
  import opened NftShadow
  import opened NftInStep
  import opened NftGone

  // ---------- Histories ----------

  /** What the table should be in step with. */
  datatype Plan = Plan(services: seq<Service>, endpoints: seq<Endpoint>)

  datatype Event =
    | FullSync(plan: Plan)
    | Seen(at: nat, svc: Service, ep: Endpoint, d: Delta)
    | EndpointsChanged(at: nat, ep: Endpoint)
    | Gone(at: nat, d: Delta, detach: bool)

  function Without(xs: seq<Service>, at: nat): seq<Service>
    requires at < |xs|
  {
    xs[..at] + xs[at + 1..]
  }

  function After(plan: Plan, e: Event): Plan
    requires e.Seen? ==> e.at <= |plan.services|
    requires e.Gone? ==> e.at < |plan.services|
  {
    match e
    case FullSync(p) => p
    case Seen(at, svc, ep, _) => Plan(plan.services[..at] + [svc] + plan.services[at..], plan.endpoints + [ep])
    case EndpointsChanged(_, ep) => plan.(endpoints := plan.endpoints + [ep])
    case Gone(at, _, _) => plan.(services := Without(plan.services, at))
  }

  /** The endpoint belongs to this service and to no other. */
  predicate BelongsTo(ep: Endpoint, svc: Service, others: seq<Service>) {
    SameId(svc, ep.namespace, ep.name) && forall k :: 0 <= k < |others| ==> !SameId(others[k], ep.namespace, ep.name)
  }

  /** An event the controller can meet: no two service ports share a chain, an endpoint belongs to one service, and
      the delta is between the snapshots the controller builds. For a deleted service it starts from the rest with
      the service at its end. */
  ghost predicate Possible(plan: Plan, e: Event, legacy: bool) {
    match e
    case FullSync(p) => DistinctChains(Pairs(p.services))
    case Seen(at, svc, ep, d) =>
      && at <= |plan.services| && BelongsTo(ep, svc, plan.services)
      && var after := After(plan, e).services;
         DistinctChains(Pairs(after)) && DeltaOf(d, plan.services, after)
    case EndpointsChanged(at, ep) =>
      !legacy && at < |plan.services| && BelongsTo(ep, plan.services[at], Without(plan.services, at))
    case Gone(at, d, _) =>
      && at < |plan.services|
      && var (svc, rest) := (plan.services[at], Without(plan.services, at));
         && (forall k :: 0 <= k < |rest| ==> !SameId(rest[k], svc.namespace, svc.name))
         && DeltaOf(d, rest + [svc], rest)
  }

  /** What its transaction needs to be carried out. */
  ghost predicate Accepted(plan: Plan, e: Event, legacy: bool)
    requires Possible(plan, e, legacy)
  {
    match e
    case FullSync(p) => Consistent(p.services)
    case Seen(_, _, _, _) => Consistent(After(plan, e).services)
    case EndpointsChanged(_, _) => true
    case Gone(at, _, _) => !Shadowing(plan.services[..at], plan.services[at], plan.services[at + 1..])
  }

  ghost function Commands(plan: Plan, e: Event, legacy: bool): seq<Cmd>
    requires Possible(plan, e, legacy)
  {
    match e
    case FullSync(p) => FullConfig(p.services, p.endpoints, legacy) + DiscoveryRefresh(p.services)
    case Seen(_, svc, ep, d) => UpdateService(svc, ep, legacy) + DeltaCommands(d)
    case EndpointsChanged(at, ep) => RefreshPorts(plan.services[at], plan.services[at].ports, ep)
    case Gone(at, d, detach) =>
      GoneCommands(plan.services[at], EndpointFor(plan.endpoints, plan.services[at]), d, detach, legacy)
  }

  lemma SplitAt(xs: seq<Service>, at: nat)
    requires at < |xs|
    ensures xs[..at] + [xs[at]] + xs[at + 1..] == xs
  {
  }

  /** Each event's transaction is carried out exactly when it is accepted, and then keeps the table in step. */
  lemma EventExactly(t: Table, plan: Plan, e: Event, legacy: bool)
    requires InStep(t, plan.services, plan.endpoints, legacy) && Possible(plan, e, legacy)
    ensures var r := Exec(t, Commands(plan, e, legacy));
            && (r.Some? <==> Accepted(plan, e, legacy))
            && (r.Some? ==> InStep(r.value, After(plan, e).services, After(plan, e).endpoints, legacy))
  {
    hide Exec, InStep, Consistent, DistinctChains, Pairs, DeltaOf, GoneCommands, FullConfig, DiscoveryRefresh,
         UpdateService, RefreshPorts, DeltaCommands, EndpointFor, Shadowing;
    var xs := plan.services;
    match e
    case FullSync(p) =>
      InStepMaps(t, xs, plan.endpoints, legacy);
      FullSyncWorks(t, p.services, p.endpoints, legacy);
    case Seen(at, svc, ep, d) =>
      assert xs[..at] + xs[at..] == xs;
      SeenWorks(t, xs[..at], svc, xs[at..], plan.endpoints, ep, d, legacy);
    case EndpointsChanged(at, ep) =>
      SplitAt(xs, at);
      EndpointsWork(t, xs[..at], xs[at], xs[at + 1..], plan.endpoints, ep);
    case Gone(at, d, detach) =>
      SplitAt(xs, at);
      GoneExactly(t, xs[..at], xs[at], xs[at + 1..], plan.endpoints, d, detach, legacy);
  }

  lemma InStepMaps(t: Table, services: seq<Service>, endpoints: seq<Endpoint>, legacy: bool)
    requires InStep(t, services, endpoints, legacy)
    ensures ClusterIps in t.maps && NodePorts in t.maps && (HostPorts in t.maps ==> t.maps[HostPorts] == map[])
  {
  }

  lemma InStepIsConsistent(t: Table, services: seq<Service>, endpoints: seq<Endpoint>, legacy: bool)
    requires InStep(t, services, endpoints, legacy)
    ensures Consistent(services)
  {
    hide Layered, DistinctChains, ClusterOrder, NodeOrder;
    ItemsFunctional(t.maps[ClusterIps]);
    ItemsFunctional(t.maps[NodePorts]);
  }

  ghost predicate AllPossible(plan: Plan, events: seq<Event>, legacy: bool)
    decreases |events|
  {
    events != [] ==> Possible(plan, events[0], legacy) && AllPossible(After(plan, events[0]), events[1..], legacy)
  }

  ghost predicate AllAccepted(plan: Plan, events: seq<Event>, legacy: bool)
    requires AllPossible(plan, events, legacy)
    decreases |events|
  {
    events != [] ==> Accepted(plan, events[0], legacy) && AllAccepted(After(plan, events[0]), events[1..], legacy)
  }

  ghost function Final(plan: Plan, events: seq<Event>, legacy: bool): Plan
    requires AllPossible(plan, events, legacy)
    decreases |events|
  {
    if events == [] then plan else Final(After(plan, events[0]), events[1..], legacy)
  }

  ghost function HistoryCommands(plan: Plan, events: seq<Event>, legacy: bool): seq<Cmd>
    requires AllPossible(plan, events, legacy)
    decreases |events|
  {
    if events == [] then []
    else Commands(plan, events[0], legacy) + HistoryCommands(After(plan, events[0]), events[1..], legacy)
  }

  /** The transactions of a history are all carried out exactly when each is accepted, and then the table is in step
      with the services and endpoints that remain. */
  lemma {:induction false} HistoryExactly(t: Table, plan: Plan, events: seq<Event>, legacy: bool)
    requires InStep(t, plan.services, plan.endpoints, legacy) && AllPossible(plan, events, legacy)
    ensures var r := Exec(t, HistoryCommands(plan, events, legacy));
            && (r.Some? <==> AllAccepted(plan, events, legacy))
            && (r.Some? ==> InStep(r.value, Final(plan, events, legacy).services, Final(plan, events, legacy).endpoints, legacy))
    decreases |events|
  {
    hide Exec, InStep, After, Commands, Accepted, DistinctChains, DeltaOf, BelongsTo;
    if events == [] {
      ExecNone(t);
    } else {
      var next := After(plan, events[0]);
      EventExactly(t, plan, events[0], legacy);
      ExecConcat(t, Commands(plan, events[0], legacy), HistoryCommands(next, events[1..], legacy));
      if Accepted(plan, events[0], legacy) {
        HistoryExactly(Exec(t, Commands(plan, events[0], legacy)).value, next, events[1..], legacy);
      }
    }
  }

  /** Whatever happened since, while each transaction is accepted every packet meets what a full sync of the final
      services and endpoints on any table would give it. */
  lemma HistoryEqualsFullSync(t: Table, other: Table, plan: Plan, events: seq<Event>, legacy: bool,
                              p: Packet, mark: nat, draw: nat, depth: nat)
    requires InStep(t, plan.services, plan.endpoints, legacy) && AllPossible(plan, events, legacy) && depth >= 5
    requires ClusterIps in other.maps && NodePorts in other.maps
    ensures var end := Final(plan, events, legacy);
            var r := Exec(t, HistoryCommands(plan, events, legacy));
            var full := Exec(other, FullConfig(end.services, end.endpoints, legacy) + DiscoveryRefresh(end.services));
            && (r.Some? <==> AllAccepted(plan, events, legacy))
            && (r.Some? ==>
                && full.Some?
                && EvalChain(r.value, PREROUTING, p, mark, draw, depth) == EvalChain(full.value, PREROUTING, p, mark, draw, depth)
                && EvalChain(r.value, OUTPUT, p, mark, draw, depth) == EvalChain(full.value, OUTPUT, p, mark, draw, depth)
                && EvalChain(r.value, POSTROUTING, p, mark, draw, depth) == EvalChain(full.value, POSTROUTING, p, mark, draw, depth))
  {
    hide Exec, InStep, HistoryCommands, Final, AllPossible, AllAccepted, Deployed, Consistent, FullConfig, DiscoveryRefresh,
         EvalChain, RulesetSpec;
    var end := Final(plan, events, legacy);
    HistoryExactly(t, plan, events, legacy);
    if Exec(t, HistoryCommands(plan, events, legacy)).Some? {
      var t' := Exec(t, HistoryCommands(plan, events, legacy)).value;
      InStepIsConsistent(t', end.services, end.endpoints, legacy);
      InStepIsDeployed(t', end.services, end.endpoints, legacy);
      EvalDeployed(t', end.services, end.endpoints, legacy, p, mark, draw, depth);
      CompilerExact(other, end.services, end.endpoints, legacy, p, mark, draw, depth);
    }
  }

  // ---------- Two services on one address ----------

  const HTTP: ServicePort := ServicePort(None, 80, "tcp", None)
  const FIRST: Service := Service("default", "first", Some("10.0.0.1"), [HTTP])
  const SECOND: Service := Service("default", "second", Some("10.0.0.1"), [HTTP])

  lemma SharedPairs()
    ensures PortPairs(FIRST, [HTTP]) == [(FIRST, HTTP)] && Pairs([SECOND]) == [(SECOND, HTTP)]
    ensures Pairs([FIRST, SECOND]) == [(FIRST, HTTP), (SECOND, HTTP)] && Pairs([]) == []
  {
    assert [FIRST, SECOND][..1] == [FIRST] && [FIRST][..0] == [] && [SECOND][..0] == [];
    assert PortPairs(FIRST, [HTTP]) == [(FIRST, HTTP)] && PortPairs(SECOND, [HTTP]) == [(SECOND, HTTP)];
    assert Pairs([FIRST]) == [] + [(FIRST, HTTP)];
  }

  lemma SharedServices()
    ensures Consistent([FIRST, SECOND]) && DistinctChains(Pairs([FIRST, SECOND])) && Shadowing([], FIRST, [SECOND])
  {
    hide ServiceChainName, Lower, Pairs, Consistent;
    SharedPairs();
    assert Lower("tcp") == "tcp" by { LowerHttp(); }
    TcpOrUdpIsConsistent([FIRST, SECOND]);
    if ServiceChainName("default", "first", 80, "tcp") == ServiceChainName("default", "second", 80, "tcp") {
      ServiceInjective("default", "first", 80, "tcp", "default", "second", 80, "tcp");
    }
    var s, b := [(FIRST, HTTP)], [(SECOND, HTTP)];
    assert ClusterTuple(s[0]) == ClusterTuple(b[0]) && ClusterTuple(s[0]).Some?;
    assert Has(b, ClusterTuple, ClusterTuple(s[0]));
    assert Shadows([], s, b, ClusterTuple);
  }

  lemma LowerHttp()
    ensures Lower("tcp") == "tcp"
  {
  }

  /** Two services on one cluster address and port, and the first is deleted: its transaction is refused, since the
      address still leads to its chain. */
  lemma SharedAddressRefused(t: Table, endpoints: seq<Endpoint>, d: Delta, detach: bool, legacy: bool)
    requires ClusterIps in t.maps && NodePorts in t.maps && (HostPorts in t.maps ==> t.maps[HostPorts] == map[])
    requires DeltaOf(d, [SECOND, FIRST], [SECOND])
    ensures var synced := Exec(t, FullConfig([FIRST, SECOND], endpoints, legacy) + DiscoveryRefresh([FIRST, SECOND]));
            && synced.Some?
            && Exec(synced.value, GoneCommands(FIRST, EndpointFor(endpoints, FIRST), d, detach, legacy)).None?
  {
    hide Exec, FullConfig, DiscoveryRefresh, GoneCommands, EndpointFor, DeltaOf, InStep, Consistent, DistinctChains, Pairs, Shadowing;
    SharedServices();
    FullSyncWorks(t, [FIRST, SECOND], endpoints, legacy);
    var synced := Exec(t, FullConfig([FIRST, SECOND], endpoints, legacy) + DiscoveryRefresh([FIRST, SECOND])).value;
    assert [] + [FIRST] + [SECOND] == [FIRST, SECOND] && [] + [SECOND] == [SECOND] && [SECOND] + [FIRST] == [SECOND, FIRST];
    GoneExactly(synced, [], FIRST, [SECOND], endpoints, d, detach, legacy);
  }
}
