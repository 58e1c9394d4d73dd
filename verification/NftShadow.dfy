/** Whose lookup entries a list of services keeps when one of them moves to the end: the snapshot the controller
    rebuilds for a deleted service. */
module NftShadow {
  import opened Wrappers
  import opened NftNames
  import opened NftModel
  import opened NftCompiler
  import opened NftDiscovery
  import opened NftMaps
  import opened NftCorrect

  /** What an address entry is told apart by. */
  function ClusterTuple(pair: Pair): Option<(string, string, int)> {
    match ValidClusterIp(pair.0)
    case None => None
    case Some(ip) => Some((ip, Proto(pair.1), pair.1.port))
  }

  /** What a node port entry is told apart by. */
  function NodeTuple(pair: Pair): Option<(string, int)> {
    match pair.1.nodePort
    case None => None
    case Some(np) => Some((Proto(pair.1), np))
  }

  function ClusterEntry(pair: Pair): Element {
    ClusterElement(if ValidClusterIp(pair.0).Some? then ValidClusterIp(pair.0).value else "", pair)
  }

  function NodeEntry(pair: Pair): Element {
    NodeElement(if pair.1.nodePort.Some? then pair.1.nodePort.value else 0, pair)
  }

  /** The service port is the first with its tuple. */
  predicate Kept<K(==)>(pairs: seq<Pair>, key: Pair -> Option<K>, i: nat)
    requires i < |pairs|
  {
    key(pairs[i]).Some? && forall j :: 0 <= j < i ==> key(pairs[j]) != key(pairs[i])
  }

  ghost function Entries<K>(pairs: seq<Pair>, key: Pair -> Option<K>, entry: Pair -> Element): set<Element> {
    set i | 0 <= i < |pairs| && Kept(pairs, key, i) :: entry(pairs[i])
  }

  lemma KeptTuples(pairs: seq<Pair>, i: nat)
    requires i < |pairs|
    ensures KeptCluster(pairs, i) <==> Kept(pairs, ClusterTuple, i)
    ensures KeptNode(pairs, i) <==> Kept(pairs, NodeTuple, i)
  {
    hide ValidClusterIp, Proto;
    assert forall j :: 0 <= j < i ==> pairs[..i][j] == pairs[j];
    if KeptCluster(pairs, i) {
      forall j | 0 <= j < i
        ensures ClusterTuple(pairs[j]) != ClusterTuple(pairs[i])
      {
        assert pairs[..i][j] == pairs[j];
      }
    }
    if KeptNode(pairs, i) {
      forall j | 0 <= j < i
        ensures NodeTuple(pairs[j]) != NodeTuple(pairs[i])
      {
        assert pairs[..i][j] == pairs[j];
      }
    }
  }

  lemma EntriesOfServices(services: seq<Service>)
    ensures ClusterSet(services) == Entries(Pairs(services), ClusterTuple, ClusterEntry)
    ensures NodeSet(services) == Entries(Pairs(services), NodeTuple, NodeEntry)
  {
    hide Pairs, ClusterElements, NodeElements, ClusterOrder, NodeOrder, KeptCluster, KeptNode, Kept;
    SnapshotSets(services);
    ClusterEntries(Pairs(services));
    NodeEntries(Pairs(services));
  }

  lemma ClusterEntries(pairs: seq<Pair>)
    ensures ElementSet(ClusterElements(pairs)) == Entries(pairs, ClusterTuple, ClusterEntry)
  {
    hide ClusterElements, KeptCluster, Kept, ClusterElement, ValidClusterIp;
    forall e | e in ClusterElements(pairs)
      ensures e in Entries(pairs, ClusterTuple, ClusterEntry)
    {
      var i := ClusterElementSource(pairs, e);
      ClusterElementOf(pairs, i);
      KeptTuples(pairs, i);
    }
    forall i | 0 <= i < |pairs| && Kept(pairs, ClusterTuple, i)
      ensures ClusterEntry(pairs[i]) in ClusterElements(pairs)
    {
      KeptTuples(pairs, i);
      ClusterElementOf(pairs, i);
      ClusterElementKept(pairs, i);
    }
  }

  lemma NodeEntries(pairs: seq<Pair>)
    ensures ElementSet(NodeElements(pairs)) == Entries(pairs, NodeTuple, NodeEntry)
  {
    hide NodeElements, Kept, NodeElement, SeenNodePorts;
    forall e | e in NodeElements(pairs)
      ensures e in Entries(pairs, NodeTuple, NodeEntry)
    {
      var i := NodeElementSource(pairs, e);
      KeptTuples(pairs, i);
    }
    forall i | 0 <= i < |pairs| && Kept(pairs, NodeTuple, i)
      ensures NodeEntry(pairs[i]) in NodeElements(pairs)
    {
      KeptTuples(pairs, i);
      NodeElementKept(pairs, i);
    }
  }

  // ---------- Moving a service to the end ----------

  predicate Has<K(==)>(pairs: seq<Pair>, key: Pair -> Option<K>, k: Option<K>) {
    exists j :: 0 <= j < |pairs| && key(pairs[j]) == k
  }

  /** A tuple of the middle part is new there and comes back later. */
  predicate Shadows<K(==)>(a: seq<Pair>, s: seq<Pair>, b: seq<Pair>, key: Pair -> Option<K>) {
    exists i :: 0 <= i < |s| && key(s[i]).Some? && !Has(a, key, key(s[i])) && Has(b, key, key(s[i]))
  }

  lemma HasAppend<K>(a: seq<Pair>, b: seq<Pair>, key: Pair -> Option<K>, k: Option<K>)
    ensures Has(a + b, key, k) <==> Has(a, key, k) || Has(b, key, k)
  {
    var all := a + b;
    if j :| 0 <= j < |a| && key(a[j]) == k {
      assert all[j] == a[j];
    }
    if j :| 0 <= j < |b| && key(b[j]) == k {
      assert all[|a| + j] == b[j];
    }
  }

  /** A part's entry is kept when neither the parts before nor its own earlier ports have the tuple. */
  lemma KeptInside<K>(a: seq<Pair>, s: seq<Pair>, b: seq<Pair>, key: Pair -> Option<K>, i: nat)
    requires i < |s|
    ensures Kept(a + s + b, key, |a| + i) <==> Kept(s, key, i) && !Has(a, key, key(s[i]))
    ensures (a + s + b)[|a| + i] == s[i]
  {
    var all := a + s + b;
    assert forall j :: 0 <= j < |a| ==> all[j] == a[j];
    assert forall j :: 0 <= j < |s| ==> all[|a| + j] == s[j];
    if Kept(all, key, |a| + i) {
      forall j | 0 <= j < i
        ensures key(s[j]) != key(s[i])
      {
        assert all[|a| + j] == s[j];
      }
    }
  }

  ghost predicate Inside<K>(a: seq<Pair>, s: seq<Pair>, key: Pair -> Option<K>, entry: Pair -> Element, e: Element) {
    exists i :: 0 <= i < |s| && Kept(s, key, i) && !Has(a, key, key(s[i])) && entry(s[i]) == e
  }

  /** The entries of two parts are those of the first and those of the second with a new tuple. */
  lemma EntriesAppend<K>(a: seq<Pair>, s: seq<Pair>, key: Pair -> Option<K>, entry: Pair -> Element, e: Element)
    ensures e in Entries(a + s, key, entry) <==> e in Entries(a, key, entry) || Inside(a, s, key, entry, e)
  {
    hide Kept, Has;
    var all := a + s;
    assert a + s + [] == all && [] + a + s == all;
    forall i | 0 <= i < |a|
      ensures Kept(all, key, i) <==> Kept(a, key, i)
    {
      KeptInside([], a, s, key, i);
      HasNothing(key, key(a[i]));
    }
    forall i | 0 <= i < |s|
      ensures Kept(all, key, |a| + i) <==> Kept(s, key, i) && !Has(a, key, key(s[i]))
    {
      KeptInside(a, s, [], key, i);
    }
    if i :| 0 <= i < |all| && Kept(all, key, i) && entry(all[i]) == e {
      if i >= |a| {
        assert all[i] == s[i - |a|];
        assert Kept(all, key, |a| + (i - |a|));
      }
    }
    if i :| 0 <= i < |a| && Kept(a, key, i) && entry(a[i]) == e {
      assert all[i] == a[i];
    }
    if i :| 0 <= i < |s| && Kept(s, key, i) && !Has(a, key, key(s[i])) && entry(s[i]) == e {
      assert all[|a| + i] == s[i];
    }
  }

  lemma HasNothing<K>(key: Pair -> Option<K>, k: Option<K>)
    ensures !Has([], key, k)
  {
  }

  /** Dropping the moved part only takes entries away, and the full list has every entry taken. */
  lemma MovedEntries<K>(a: seq<Pair>, s: seq<Pair>, b: seq<Pair>, key: Pair -> Option<K>, entry: Pair -> Element)
    ensures Entries(a + b, key, entry) <= Entries(a + b + s, key, entry)
    ensures Entries(a + b + s, key, entry) - Entries(a + b, key, entry) <= Entries(a + s + b, key, entry)
  {
    hide Entries, Kept, Has;
    forall e
      ensures e in Entries(a + b, key, entry) ==> e in Entries(a + b + s, key, entry)
    {
      EntriesAppend(a + b, s, key, entry, e);
    }
    forall e | e in Entries(a + b + s, key, entry) && e !in Entries(a + b, key, entry)
      ensures e in Entries(a + s + b, key, entry)
    {
      EntriesAppend(a + b, s, key, entry, e);
      var i :| 0 <= i < |s| && Kept(s, key, i) && !Has(a + b, key, key(s[i])) && entry(s[i]) == e;
      HasAppend(a, b, key, key(s[i]));
      EntriesAppend(a, s, key, entry, e);
      EntriesAppend(a + s, b, key, entry, e);
    }
  }

  /** Without a tuple that comes back, moving the part changes no entry. */
  lemma MovedSame<K>(a: seq<Pair>, s: seq<Pair>, b: seq<Pair>, key: Pair -> Option<K>, entry: Pair -> Element)
    requires !Shadows(a, s, b, key)
    ensures Entries(a + b + s, key, entry) == Entries(a + s + b, key, entry)
  {
    hide Entries, Kept, Has;
    forall e
      ensures e in Entries(a + b + s, key, entry) <==> e in Entries(a + s + b, key, entry)
    {
      EntriesAppend(a + b, s, key, entry, e);
      EntriesAppend(a, b, key, entry, e);
      EntriesAppend(a + s, b, key, entry, e);
      EntriesAppend(a, s, key, entry, e);
      forall i | 0 <= i < |s| && Kept(s, key, i)
        ensures !Has(a + b, key, key(s[i])) <==> !Has(a, key, key(s[i]))
      {
        HasAppend(a, b, key, key(s[i]));
        KeptHasTuple(s, key, i);
      }
      forall i | 0 <= i < |b| && Kept(b, key, i)
        ensures !Has(a + s, key, key(b[i])) <==> !Has(a, key, key(b[i]))
      {
        HasAppend(a, s, key, key(b[i]));
        KeptHasTuple(b, key, i);
        HasSelf(b, key, i);
        NotBoth(a, s, b, key, key(b[i]));
      }
    }
  }

  lemma KeptHasTuple<K>(pairs: seq<Pair>, key: Pair -> Option<K>, i: nat)
    requires i < |pairs| && Kept(pairs, key, i)
    ensures key(pairs[i]).Some?
  {
  }

  lemma HasSelf<K>(pairs: seq<Pair>, key: Pair -> Option<K>, i: nat)
    requires i < |pairs|
    ensures Has(pairs, key, key(pairs[i]))
  {
  }

  lemma NotBoth<K>(a: seq<Pair>, s: seq<Pair>, b: seq<Pair>, key: Pair -> Option<K>, k: Option<K>)
    requires !Shadows(a, s, b, key) && k.Some? && Has(b, key, k)
    ensures Has(s, key, k) ==> Has(a, key, k)
  {
  }

  lemma {:induction false} FirstWith<K>(pairs: seq<Pair>, key: Pair -> Option<K>, i: nat) returns (k: nat)
    requires i < |pairs| && key(pairs[i]).Some?
    ensures k <= i && key(pairs[k]) == key(pairs[i]) && Kept(pairs, key, k)
  {
    if Kept(pairs, key, i) {
      k := i;
    } else {
      var j :| 0 <= j < i && key(pairs[j]) == key(pairs[i]);
      k := FirstWith(pairs, key, j);
    }
  }

  /** No two service ports of the lists have the same entry. */
  ghost predicate TellApart(s: seq<Pair>, rest: seq<Pair>, entry: Pair -> Element) {
    && (forall i, j :: 0 <= i < j < |s| ==> entry(s[i]) != entry(s[j]))
    && (forall i, j :: 0 <= i < |s| && 0 <= j < |rest| ==> entry(s[i]) != entry(rest[j]))
  }

  /** With a tuple that comes back, moving the part loses one of its entries. */
  lemma MovedLoses<K>(a: seq<Pair>, s: seq<Pair>, b: seq<Pair>, key: Pair -> Option<K>, entry: Pair -> Element) returns (i: nat)
    requires Shadows(a, s, b, key) && TellApart(s, a + b, entry)
    ensures i < |s| && key(s[i]).Some?
    ensures entry(s[i]) in Entries(a + s + b, key, entry) && entry(s[i]) !in Entries(a + b + s, key, entry)
  {
    hide Kept, Has;
    var k :| 0 <= k < |s| && key(s[k]).Some? && !Has(a, key, key(s[k])) && Has(b, key, key(s[k]));
    i := FirstWith(s, key, k);
    var e := entry(s[i]);
    assert Inside(a, s, key, entry, e);
    EntriesAppend(a, s, key, entry, e);
    EntriesAppend(a + s, b, key, entry, e);
    EntriesAppend(a + b, s, key, entry, e);
    HasAppend(a, b, key, key(s[i]));
    assert !Inside(a + b, s, key, entry, e);
    assert e !in Entries(a + b, key, entry);
  }

  // ---------- Services ----------

  /** Two snapshots have the same entries. */
  ghost predicate SameEntries(a: seq<Service>, b: seq<Service>) {
    ClusterSet(a) == ClusterSet(b) && NodeSet(a) == NodeSet(b)
  }

  /** A later service has an address and port, or a node port, that the service has and no earlier one does. */
  predicate Shadowing(pre: seq<Service>, svc: Service, post: seq<Service>) {
    || Shadows(Pairs(pre), PortPairs(svc, svc.ports), Pairs(post), ClusterTuple)
    || Shadows(Pairs(pre), PortPairs(svc, svc.ports), Pairs(post), NodeTuple)
  }
}
