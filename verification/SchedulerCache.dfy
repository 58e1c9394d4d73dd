/** The scheduler's view of pods and nodes: placement and the requested resources per node.

    Resource counters are 64-bit and wrap; the accounting shows when they never do.
 */
module SchedulerCache {
  import opened Wrappers

  const U64 := 0x1_0000_0000_0000_0000

  type Amount = x: int | 0 <= x < U64

  datatype Resources = Resources(cpu: Amount, memory: Amount)

  datatype Gang = Gang(id: string, size: nat)

  datatype Pod = Pod(name: string, request: Resources, priority: nat, gang: Option<Gang>,
                     attempts: nat, scheduled: Option<string>)

  /** `info` stands for labels, spec and allocatable amounts, which updates replace as a whole. */
  datatype Node = Node(name: string, info: nat, requested: Resources)

  datatype Cache = Cache(pods: map<string, Pod>, nodes: map<string, Node>)

  function Plus(a: Resources, b: Resources): Resources {
    Resources((a.cpu + b.cpu) % U64, (a.memory + b.memory) % U64)
  }

  function Minus(a: Resources, b: Resources): Resources {
    Resources((a.cpu - b.cpu) % U64, (a.memory - b.memory) % U64)
  }

  // ---------- Operations as functions ----------

  function Assume(c: Cache, pod: string, node: string): (Cache, bool) {
    if pod !in c.pods then (c, false)
    else if c.pods[pod].scheduled == Some(node) then (c, true)
    else if node !in c.nodes then (c, false)
    else
      var p, n := c.pods[pod], c.nodes[node];
      (Cache(c.pods[pod := p.(scheduled := Some(node))],
             c.nodes[node := n.(requested := Plus(n.requested, p.request))]), true)
  }

  function Unassume(c: Cache, pod: string): (Cache, Option<Pod>) {
    if pod !in c.pods || c.pods[pod].scheduled.None? || c.pods[pod].scheduled.value !in c.nodes then (c, None)
    else
      var p := c.pods[pod].(scheduled := None);
      var node := c.pods[pod].scheduled.value;
      var n := c.nodes[node];
      (Cache(c.pods[pod := p], c.nodes[node := n.(requested := Minus(n.requested, p.request))]), Some(p))
  }

  function UpdatePod(c: Cache, pod: Pod): Cache {
    c.(pods := c.pods[pod.name := pod])
  }

  function RemovePod(c: Cache, pod: string): Cache {
    if pod !in c.pods then c
    else
      var p := c.pods[pod];
      var nodes :=
        if p.scheduled.Some? && p.scheduled.value in c.nodes then
          var n := c.nodes[p.scheduled.value];
          c.nodes[p.scheduled.value := n.(requested := Minus(n.requested, p.request))]
        else c.nodes;
      Cache(c.pods - {pod}, nodes)
  }

  function UpdateNode(c: Cache, node: Node): Cache {
    c.(nodes := c.nodes[node.name :=
                        if node.name in c.nodes then c.nodes[node.name].(info := node.info) else node])
  }

  /** The pods placed on a node. */
  function Placed(c: Cache, node: string): set<string> {
    set p | p in c.pods && c.pods[p].scheduled == Some(node)
  }

  /** The chosen pods taken off their nodes, with a clean slate. */
  function Unplaced(pods: map<string, Pod>, names: set<string>): map<string, Pod> {
    map p | p in pods :: if p in names then pods[p].(scheduled := None, attempts := 0) else pods[p]
  }

  function PopPods(c: Cache, node: string): Cache {
    c.(pods := Unplaced(c.pods, Placed(c, node)))
  }

  /** Queue entries of pods: priority and name. */
  function Entries(pods: map<string, Pod>, names: set<string>): set<(nat, string)>
    requires names <= pods.Keys
  {
    set p | p in names :: (pods[p].priority, p)
  }

  method UnplaceAll(pods: map<string, Pod>, placed: set<string>) returns (result: map<string, Pod>, res: seq<(nat, string)>)
    requires placed <= pods.Keys
    ensures result == Unplaced(pods, placed) && multiset(res) == multiset(Entries(pods, placed))
  {
    res := [];
    var rest := placed;
    result := pods;
    while rest != {}
      invariant rest <= placed && result == Unplaced(pods, placed - rest)
      invariant multiset(res) == multiset(Entries(pods, placed - rest))
      decreases |rest|
    {
      var k :| k in rest;
      ghost var done := placed - rest;
      rest := rest - {k};
      assert placed - rest == done + {k};
      EntriesMore(pods, done, k);
      result := result[k := pods[k].(scheduled := None, attempts := 0)];
      res := res + [(pods[k].priority, k)];
    }
    assert placed - {} == placed;
  }

  lemma EntriesMore(pods: map<string, Pod>, done: set<string>, k: string)
    requires done <= pods.Keys && k in pods && k !in done
    ensures multiset(Entries(pods, done + {k})) == multiset(Entries(pods, done)) + multiset{(pods[k].priority, k)}
  {
    assert Entries(pods, done + {k}) == Entries(pods, done) + {(pods[k].priority, k)};
    assert (pods[k].priority, k) !in Entries(pods, done);
  }

  /** Whole-node removal: its pods are taken off, then the node goes. */
  function RemoveCacheNode(c: Cache, node: string): Cache {
    var c' := PopPods(c, node);
    c'.(nodes := c'.nodes - {node})
  }

  // ---------- The cache object ----------

  class PodCache {
    var pods: map<string, Pod>
    var nodes: map<string, Node>

    constructor ()
      ensures View() == Cache(map[], map[])
    {
      pods, nodes := map[], map[];
    }

    function View(): Cache
      reads this
    {
      Cache(pods, nodes)
    }

    method AssumePod(pod: string, node: string) returns (ok: bool)
      modifies this
      ensures (View(), ok) == Assume(old(View()), pod, node)
    {
      if pod !in pods {
        return false;
      }
      if pods[pod].scheduled == Some(node) {
        return true;
      }
      if node !in nodes {
        return false;
      }
      pods := pods[pod := pods[pod].(scheduled := Some(node))];
      nodes := nodes[node := nodes[node].(requested := Plus(nodes[node].requested, pods[pod].request))];
      ok := true;
    }

    method UnassumePod(pod: string) returns (r: Option<Pod>)
      modifies this
      ensures (View(), r) == Unassume(old(View()), pod)
    {
      if pod !in pods {
        return None;
      }
      var scheduled := pods[pod].scheduled;
      if scheduled.None? || scheduled.value !in nodes {
        return None;
      }
      pods := pods[pod := pods[pod].(scheduled := None)];
      var n := nodes[scheduled.value];
      nodes := nodes[scheduled.value := n.(requested := Minus(n.requested, pods[pod].request))];
      r := Some(pods[pod]);
    }

    method UpdatePodInfo(pod: Pod) returns (previous: Option<Pod>)
      modifies this
      ensures View() == UpdatePod(old(View()), pod)
      ensures previous == if pod.name in old(pods) then Some(old(pods)[pod.name]) else None
    {
      previous := if pod.name in pods then Some(pods[pod.name]) else None;
      pods := pods[pod.name := pod];
    }

    method RemovePodInfo(pod: string) returns (removed: Option<Pod>)
      modifies this
      ensures View() == RemovePod(old(View()), pod)
      ensures removed == if pod in old(pods) then Some(old(pods)[pod]) else None
    {
      if pod !in pods {
        return None;
      }
      var p := pods[pod];
      if p.scheduled.Some? && p.scheduled.value in nodes {
        var n := nodes[p.scheduled.value];
        nodes := nodes[p.scheduled.value := n.(requested := Minus(n.requested, p.request))];
      }
      pods := pods - {pod};
      removed := Some(p);
    }

    /** A known node is returned as updated, a new one not at all. */
    method UpdateNodeInfo(node: Node) returns (known: Option<Node>)
      modifies this
      ensures View() == UpdateNode(old(View()), node)
      ensures known == if node.name in old(nodes) then Some(nodes[node.name]) else None
    {
      if node.name in nodes {
        var requested := nodes[node.name].requested;
        nodes := nodes[node.name := nodes[node.name].(info := node.info, requested := requested)];
        known := Some(nodes[node.name]);
      } else {
        nodes := nodes[node.name := node];
        known := None;
      }
    }

    /** The pods taken off the node with their priorities, each once, in iteration order. */
    method PopPodsOnNode(node: string) returns (res: seq<(nat, string)>)
      modifies this
      ensures View() == PopPods(old(View()), node)
      ensures multiset(res) == multiset(Entries(old(pods), Placed(old(View()), node)))
      ensures forall priority, name :: (priority, name) in res <==>
              name in old(pods) && old(pods)[name].scheduled == Some(node) && old(pods)[name].priority == priority
    {
      ghost var entries := Entries(pods, Placed(View(), node));
      pods, res := UnplaceAll(pods, Placed(View(), node));
      assert forall e :: e in res <==> e in entries by {
        assert forall e :: e in res <==> e in multiset(res);
      }
    }

    method RemoveNode(node: string)
      modifies this
      ensures View() == old(View()).(nodes := old(nodes) - {node})
    {
      nodes := nodes - {node};
    }
  }

  // ---------- Accounting ----------

  function Zero(): Resources { Resources(0, 0) }

  /** What a pod contributes to a node. */
  function Share(p: Pod, node: string): (nat, nat) {
    if p.scheduled == Some(node) then (p.request.cpu, p.request.memory) else (0, 0)
  }

  /** The exact totals of the pods placed on a node. */
  ghost function Total(pods: map<string, Pod>, node: string): (nat, nat)
    decreases |pods|
  {
    if pods == map[] then (0, 0)
    else
      var k :| k in pods;
      var rest, share := Total(pods - {k}, node), Share(pods[k], node);
      (rest.0 + share.0, rest.1 + share.1)
  }

  /** Any pod can be split off the total. */
  lemma {:induction false} TotalSplit(pods: map<string, Pod>, node: string, k: string)
    requires k in pods
    ensures var rest, share := Total(pods - {k}, node), Share(pods[k], node);
            Total(pods, node) == (rest.0 + share.0, rest.1 + share.1)
    decreases |pods|
  {
    hide Share;
    var first :| first in pods
                 && var rest, share := Total(pods - {first}, node), Share(pods[first], node);
                    Total(pods, node) == (rest.0 + share.0, rest.1 + share.1);
    if first != k {
      TotalSplit(pods - {first}, node, k);
      TotalSplit(pods - {k}, node, first);
      assert pods - {first} - {k} == pods - {k} - {first};
    }
  }

  lemma TotalUpdate(pods: map<string, Pod>, node: string, k: string, p: Pod)
    ensures var rest, share := Total(pods - {k}, node), Share(p, node);
            Total(pods[k := p], node) == (rest.0 + share.0, rest.1 + share.1)
  {
    hide Share, Total;
    TotalSplit(pods[k := p], node, k);
    assert pods[k := p] - {k} == pods - {k};
  }

  /** The counter is the total, modulo the counter's width. */
  predicate Counts(r: Resources, total: (nat, nat)) {
    r.cpu == total.0 % U64 && r.memory == total.1 % U64
  }

  /** Every node's counters agree with the pods placed on it, and pods are placed on known nodes only. */
  ghost predicate Accounted(c: Cache) {
    && (forall n :: n in c.nodes ==> Counts(c.nodes[n].requested, Total(c.pods, n)))
    && (forall p :: p in c.pods && c.pods[p].scheduled.Some? ==> c.pods[p].scheduled.value in c.nodes)
  }

  lemma CountsPlus(r: Resources, rest: (nat, nat), q: Resources)
    requires Counts(r, rest)
    ensures Counts(Plus(r, q), (rest.0 + q.cpu, rest.1 + q.memory))
  {
  }

  lemma CountsMinus(r: Resources, rest: (nat, nat), q: Resources)
    requires Counts(r, (rest.0 + q.cpu, rest.1 + q.memory))
    ensures Counts(Minus(r, q), rest)
  {
  }

  /** While the totals fit the counters, counters are exact and cover every pod placed on the node. */
  lemma CountersExact(c: Cache, n: string, p: string)
    requires Accounted(c) && n in c.nodes && Total(c.pods, n).0 < U64 && Total(c.pods, n).1 < U64
    ensures (c.nodes[n].requested.cpu, c.nodes[n].requested.memory) == Total(c.pods, n)
    ensures p in c.pods && c.pods[p].scheduled == Some(n) ==>
              c.pods[p].request.cpu <= c.nodes[n].requested.cpu && c.pods[p].request.memory <= c.nodes[n].requested.memory
  {
    hide Total;
    SmallMod(Total(c.pods, n).0);
    SmallMod(Total(c.pods, n).1);
    if p in c.pods {
      TotalSplit(c.pods, n, p);
    }
  }

  lemma SmallMod(x: nat)
    requires x < U64
    ensures x % U64 == x
  {
  }

  /** An update gives a node its new information and keeps its counters; a node that is new comes as it is.  Nothing else
      changes. */
  lemma UpdateNodeExactly(c: Cache, node: Node)
    ensures var c' := UpdateNode(c, node);
            && c'.pods == c.pods && c'.nodes.Keys == c.nodes.Keys + {node.name}
            && c'.nodes[node.name].info == node.info
            && c'.nodes[node.name].requested == (if node.name in c.nodes then c.nodes[node.name].requested else node.requested)
            && (node.name !in c.nodes ==> c'.nodes[node.name] == node)
            && (forall n :: n in c.nodes && n != node.name ==> c'.nodes[n] == c.nodes[n])
  {
  }

  /** Removing a node takes exactly its pods off, with no failed attempts held against them, and leaves every other pod and
      node as it was. */
  lemma RemoveNodeExactly(c: Cache, node: string)
    ensures var c' := RemoveCacheNode(c, node);
            && c'.pods.Keys == c.pods.Keys && c'.nodes == c.nodes - {node}
            && (forall p :: p in c.pods ==>
                  c'.pods[p] == if c.pods[p].scheduled == Some(node) then c.pods[p].(scheduled := None, attempts := 0) else c.pods[p])
  {
  }

  /** The pod is not placed on another node, or has nothing to account for. */
  predicate MayAssume(c: Cache, pod: string, node: string) {
    pod in c.pods && node in c.nodes && c.pods[pod].scheduled.Some? && c.pods[pod].scheduled != Some(node)
    ==> c.pods[pod].request == Zero()
  }

  lemma AssumeAccounts(c: Cache, pod: string, node: string)
    requires Accounted(c)
    ensures Accounted(Assume(c, pod, node).0) <==> MayAssume(c, pod, node)
  {
    hide Total, Plus, Counts;
    var c' := Assume(c, pod, node).0;
    if c' != c {
      var p, p' := c.pods[pod], c'.pods[pod];
      forall n | n in c.nodes && MayAssume(c, pod, node)
        ensures Counts(c'.nodes[n].requested, Total(c'.pods, n))
      {
        TotalSplit(c.pods, n, pod);
        TotalUpdate(c.pods, n, pod, p');
        if n == node {
          CountsPlus(c.nodes[n].requested, Total(c.pods, n), p.request);
        }
      }
      if !MayAssume(c, pod, node) {
        var m := p.scheduled.value;
        TotalSplit(c.pods, m, pod);
        TotalUpdate(c.pods, m, pod, p');
        LostShareShows(c.nodes[m].requested, Total(c.pods - {pod}, m), p.request);
      }
    }
  }

  /** A counter that still includes a request no longer in the total is wrong. */
  lemma LostShareShows(r: Resources, rest: (nat, nat), q: Resources)
    requires Counts(r, (rest.0 + q.cpu, rest.1 + q.memory)) && q != Zero()
    ensures !Counts(r, rest)
  {
  }

  lemma UnassumeAccounts(c: Cache, pod: string)
    requires Accounted(c)
    ensures Accounted(Unassume(c, pod).0)
  {
    hide Total, Minus, Counts;
    var c' := Unassume(c, pod).0;
    if c' != c {
      forall n | n in c.nodes
        ensures Counts(c'.nodes[n].requested, Total(c'.pods, n))
      {
        TotalSplit(c.pods, n, pod);
        TotalUpdate(c.pods, n, pod, c'.pods[pod]);
        if n == c.pods[pod].scheduled.value {
          CountsMinus(c.nodes[n].requested, Total(c.pods - {pod}, n), c.pods[pod].request);
        }
      }
    }
  }

  lemma RemovePodAccounts(c: Cache, pod: string)
    requires Accounted(c)
    ensures Accounted(RemovePod(c, pod))
  {
    hide Total, Minus, Counts;
    var c' := RemovePod(c, pod);
    if pod in c.pods {
      forall n | n in c.nodes
        ensures Counts(c'.nodes[n].requested, Total(c'.pods, n))
      {
        TotalSplit(c.pods, n, pod);
        if Some(n) == c.pods[pod].scheduled {
          CountsMinus(c.nodes[n].requested, Total(c.pods - {pod}, n), c.pods[pod].request);
        }
      }
    }
  }

  /** The node and request a pod is accounted under, if any. */
  function Accounts(p: Option<Pod>): Option<(string, Resources)> {
    if p.Some? && p.value.scheduled.Some? && p.value.request != Zero()
    then Some((p.value.scheduled.value, p.value.request)) else None
  }

  function Lookup(c: Cache, pod: string): Option<Pod> {
    if pod in c.pods then Some(c.pods[pod]) else None
  }

  /** Replacing a pod keeps the accounts exactly when the new pod names no unknown node and the old and the new pod
      are accounted alike. */
  lemma UpdatePodAccounts(c: Cache, pod: Pod)
    requires Accounted(c)
    ensures Accounted(UpdatePod(c, pod)) <==>
            (pod.scheduled.Some? ==> pod.scheduled.value in c.nodes) && Accounts(Lookup(c, pod.name)) == Accounts(Some(pod))
  {
    hide Counts, Total;
    if pod.scheduled.Some? ==> pod.scheduled.value in c.nodes {
      UpdateOnKnownNode(c, pod);
    } else {
      assert UpdatePod(c, pod).pods[pod.name] == pod;
    }
  }

  lemma UpdateOnKnownNode(c: Cache, pod: Pod)
    requires Accounted(c) && (pod.scheduled.Some? ==> pod.scheduled.value in c.nodes)
    ensures Accounted(UpdatePod(c, pod)) <==> Accounts(Lookup(c, pod.name)) == Accounts(Some(pod))
  {
    hide Total, Counts;
    var c', k := UpdatePod(c, pod), pod.name;
    var before, after := Accounts(Lookup(c, k)), Accounts(Some(pod));
    forall n | n in c.nodes
      ensures Counts(c'.nodes[n].requested, Total(c'.pods, n)) <==> SharesAgree(Lookup(c, k), pod, n)
    {
      TotalUpdate(c.pods, n, k, pod);
      if k in c.pods {
        TotalSplit(c.pods, n, k);
      } else {
        assert c.pods - {k} == c.pods;
      }
      SameCount(c.nodes[n].requested, Total(c.pods - {k}, n), OldShare(Lookup(c, k), n), Share(pod, n));
    }
    if before == after {
      assert forall n :: n in c.nodes ==> SharesAgree(Lookup(c, k), pod, n);
    } else {
      var n := if before.Some? then before.value.0 else after.value.0;
      var m := if after.Some? then after.value.0 else n;
      assert n in c.nodes && m in c.nodes;
      assert !SharesAgree(Lookup(c, k), pod, n) || !SharesAgree(Lookup(c, k), pod, m);
    }
  }

  function OldShare(p: Option<Pod>, n: string): (nat, nat) {
    if p.Some? then Share(p.value, n) else (0, 0)
  }

  predicate SharesAgree(p: Option<Pod>, q: Pod, n: string) {
    OldShare(p, n) == Share(q, n)
  }

  lemma SameCount(r: Resources, rest: (nat, nat), a: (nat, nat), b: (nat, nat))
    requires a.0 < U64 && a.1 < U64 && b.0 < U64 && b.1 < U64
    requires Counts(r, (rest.0 + a.0, rest.1 + a.1))
    ensures Counts(r, (rest.0 + b.0, rest.1 + b.1)) <==> a == b
  {
    SameMod(rest.0, a.0, b.0);
    SameMod(rest.1, a.1, b.1);
  }

  lemma SameMod(x: nat, a: nat, b: nat)
    requires a < U64 && b < U64
    ensures (x + a) % U64 == (x + b) % U64 <==> a == b
  {
  }

  /** A node update keeps the accounts exactly when a new node starts with nothing requested. */
  lemma UpdateNodeAccounts(c: Cache, node: Node)
    requires Accounted(c)
    ensures Accounted(UpdateNode(c, node)) <==> node.name in c.nodes || node.requested == Zero()
  {
    hide Total;
    if node.name !in c.nodes {
      NothingPlaced(c.pods, node.name);
      assert Total(c.pods, node.name) == (0, 0);
      assert UpdateNode(c, node).nodes[node.name] == node;
    }
  }

  lemma {:induction false} NothingPlaced(pods: map<string, Pod>, node: string)
    requires forall p :: p in pods ==> pods[p].scheduled != Some(node)
    ensures Total(pods, node) == (0, 0)
    decreases |pods|
  {
    if pods != map[] {
      var k :| k in pods;
      TotalSplit(pods, node, k);
      NothingPlaced(pods - {k}, node);
    }
  }

  lemma {:induction false} TotalSameShares(pods: map<string, Pod>, pods': map<string, Pod>, node: string)
    requires pods.Keys == pods'.Keys && forall p :: p in pods ==> Share(pods[p], node) == Share(pods'[p], node)
    ensures Total(pods, node) == Total(pods', node)
    decreases |pods|
  {
    hide Share;
    if pods == map[] {
      assert pods' == map[];
    } else {
      var k :| k in pods;
      TotalSplit(pods, node, k);
      TotalSplit(pods', node, k);
      TotalSameShares(pods - {k}, pods' - {k}, node);
    }
  }

  lemma RemoveNodeAccounts(c: Cache, node: string)
    requires Accounted(c)
    ensures Accounted(RemoveCacheNode(c, node))
  {
    hide Total, Counts;
    var c' := RemoveCacheNode(c, node);
    forall n | n in c'.nodes
      ensures Counts(c'.nodes[n].requested, Total(c'.pods, n))
    {
      TotalSameShares(c.pods, c'.pods, n);
    }
  }

  // ---------- Runs ----------

  datatype Op =
    | AssumeOp(pod: string, node: string)
    | UnassumeOp(pod: string)
    | UpdatePodOp(info: Pod)
    | RemovePodOp(pod: string)
    | UpdateNodeOp(node_: Node)
    | RemoveNodeOp(node: string)

  function Step(c: Cache, op: Op): Cache {
    match op
    case AssumeOp(p, n) => Assume(c, p, n).0
    case UnassumeOp(p) => Unassume(c, p).0
    case UpdatePodOp(p) => UpdatePod(c, p)
    case RemovePodOp(p) => RemovePod(c, p)
    case UpdateNodeOp(n) => UpdateNode(c, n)
    case RemoveNodeOp(n) => RemoveCacheNode(c, n)
  }

  /** The operations that keep the accounts, as a caller can tell beforehand. */
  predicate Allowed(c: Cache, op: Op) {
    match op
    case AssumeOp(p, n) => MayAssume(c, p, n)
    case UpdatePodOp(p) => (p.scheduled.Some? ==> p.scheduled.value in c.nodes) && Accounts(Lookup(c, p.name)) == Accounts(Some(p))
    case UpdateNodeOp(n) => n.name in c.nodes || n.requested == Zero()
    case _ => true
  }

  lemma StepAccounts(c: Cache, op: Op)
    requires Accounted(c)
    ensures Accounted(Step(c, op)) <==> Allowed(c, op)
  {
    hide Accounted, Assume, Unassume, UpdatePod, RemovePod, UpdateNode, RemoveCacheNode, MayAssume;
    match op
    case AssumeOp(p, n) => AssumeAccounts(c, p, n);
    case UnassumeOp(p) => UnassumeAccounts(c, p);
    case UpdatePodOp(p) => UpdatePodAccounts(c, p);
    case RemovePodOp(p) => RemovePodAccounts(c, p);
    case UpdateNodeOp(n) => UpdateNodeAccounts(c, n);
    case RemoveNodeOp(n) => RemoveNodeAccounts(c, n);
  }

  function Run(c: Cache, ops: seq<Op>): Cache
    decreases |ops|
  {
    if ops == [] then c else Run(Step(c, ops[0]), ops[1..])
  }

  predicate AllAllowed(c: Cache, ops: seq<Op>)
    decreases |ops|
  {
    ops == [] || (Allowed(c, ops[0]) && AllAllowed(Step(c, ops[0]), ops[1..]))
  }

  /** Over every run of allowed operations from the empty cache, every counter is the sum over the
      pods placed on its node. */
  lemma {:induction false} RunAccounts(c: Cache, ops: seq<Op>)
    requires Accounted(c) && AllAllowed(c, ops)
    ensures Accounted(Run(c, ops))
    decreases |ops|
  {
    hide Accounted, Step;
    if ops != [] {
      StepAccounts(c, ops[0]);
      RunAccounts(Step(c, ops[0]), ops[1..]);
    }
  }

  lemma EveryRunAccounts(ops: seq<Op>)
    requires AllAllowed(Cache(map[], map[]), ops)
    ensures Accounted(Run(Cache(map[], map[]), ops))
  {
    RunAccounts(Cache(map[], map[]), ops);
  }
}
