/** Rebuilding the registry of service addresses from the services themselves. */
module ServiceIps {
  import opened Wrappers
  import Subnets

  datatype Owner = Owner(namespace: string, name: string)

  /** A service with the IPv4 address it claims; no address, `None` and unreadable text claim nothing. */
  datatype Service = Service(owner: Owner, clusterIp: Option<nat>)

  /** A stored record; a garbled one occupies its key but is not listed. */
  datatype Record = Good(owner: Owner) | Garbled

  datatype Call = Release(ip: nat) | Allocate(ip: nat, owner: Owner)

  // ---------- What is wanted ----------

  predicate Claims(s: Service, cidr: Subnets.Network, ip: nat) {
    s.clusterIp == Some(ip) && Subnets.Contains(Subnets.V4, cidr, ip)
  }

  /** The owner of the first listed service that claims an address in range. */
  function FirstClaim(services: seq<Service>, cidr: Subnets.Network, ip: nat): Option<Owner> {
    if services == [] then None
    else
      var before := FirstClaim(services[..|services| - 1], cidr, ip);
      var last := services[|services| - 1];
      if before.Some? then before else if Claims(last, cidr, ip) then Some(last.owner) else None
  }

  predicate IsFirst(services: seq<Service>, cidr: Subnets.Network, ip: nat, i: int) {
    0 <= i < |services| && Claims(services[i], cidr, ip) && forall j :: 0 <= j < i ==> !Claims(services[j], cidr, ip)
  }

  lemma {:induction false} FirstClaimIsFirst(services: seq<Service>, cidr: Subnets.Network, ip: nat)
    ensures match FirstClaim(services, cidr, ip)
            case None => forall i :: 0 <= i < |services| ==> !Claims(services[i], cidr, ip)
            case Some(owner) => exists i :: IsFirst(services, cidr, ip, i) && services[i].owner == owner
  {
    if services != [] {
      var front := services[..|services| - 1];
      FirstClaimIsFirst(front, cidr, ip);
      if FirstClaim(front, cidr, ip).Some? {
        var i :| IsFirst(front, cidr, ip, i) && front[i].owner == FirstClaim(front, cidr, ip).value;
        assert IsFirst(services, cidr, ip, i);
      } else if Claims(services[|services| - 1], cidr, ip) {
        assert IsFirst(services, cidr, ip, |services| - 1);
      }
    }
  }

  function Get<V>(m: map<nat, V>, ip: nat): Option<V> { if ip in m then Some(m[ip]) else None }

  method DesiredByIp(services: seq<Service>, cidr: Subnets.Network) returns (desired: map<nat, Owner>)
    ensures forall ip :: Get(desired, ip) == FirstClaim(services, cidr, ip)
  {
    desired := map[];
    for i := 0 to |services|
      invariant forall ip :: Get(desired, ip) == FirstClaim(services[..i], cidr, ip)
    {
      assert services[..i + 1][..i] == services[..i];
      var s := services[i];
      if s.clusterIp.None? {
        continue;
      }
      var ip := s.clusterIp.value;
      if !Subnets.Contains(Subnets.V4, cidr, ip) {
        continue;
      }
      if ip in desired && desired[ip] != s.owner {
        continue;
      }
      desired := desired[ip := s.owner];
    }
    assert services[..|services|] == services;
  }

  // ---------- The registry ----------

  /** `releaseFails` and `allocateFails` are the addresses whose calls the store does not carry out. */
  class Registry {
    var store: map<nat, Record>
    var calls: seq<Call>
    const releaseFails: set<nat>
    const allocateFails: set<nat>

    constructor (store: map<nat, Record>, releaseFails: set<nat>, allocateFails: set<nat>)
      ensures this.store == store && calls == [] && this.releaseFails == releaseFails && this.allocateFails == allocateFails
    {
      this.store, this.calls, this.releaseFails, this.allocateFails := store, [], releaseFails, allocateFails;
    }

    method ReleaseIp(ip: nat) returns (ok: bool)
      modifies this
      ensures ok == (ip !in releaseFails) && calls == old(calls) + [Release(ip)]
      ensures store == if ok then old(store) - {ip} else old(store)
    {
      calls := calls + [Release(ip)];
      ok := ip !in releaseFails;
      if ok {
        store := store - {ip};
      }
    }

    /** Only a free address can be allocated. */
    method AllocateIp(ip: nat, owner: Owner) returns (ok: bool)
      modifies this
      ensures ok == (ip !in allocateFails && ip !in old(store)) && calls == old(calls) + [Allocate(ip, owner)]
      ensures store == if ok then old(store)[ip := Good(owner)] else old(store)
    {
      calls := calls + [Allocate(ip, owner)];
      ok := ip !in allocateFails && ip !in store;
      if ok {
        store := store[ip := Good(owner)];
      }
    }
  }

  function Listed(store: map<nat, Record>): map<nat, Owner> {
    map ip | ip in store && store[ip].Good? :: store[ip].owner
  }

  /** The calls are about addresses whose listed record is not the wanted one. */
  ghost predicate OnlyWrong(calls: seq<Call>, listed: map<nat, Owner>, desired: map<nat, Owner>) {
    forall i :: 0 <= i < |calls| ==> Get(listed, calls[i].ip) != Get(desired, calls[i].ip)
  }

  /** The record an address has after the first pass, and after both. */
  function Kept(was: Option<Record>, wanted: Option<Owner>, releaseFails: bool): Option<Record> {
    if was.Some? && was.value.Good? && wanted.None? && !releaseFails then None else was
  }

  function Final(was: Option<Record>, wanted: Option<Owner>, releaseFails: bool, allocateFails: bool): Option<Record> {
    if wanted.None? then Kept(was, wanted, releaseFails)
    else if was.None? then if allocateFails then None else Some(Good(wanted.value))
    else if was.value.Garbled? || was.value.owner == wanted.value || releaseFails then was
    else if allocateFails then None
    else Some(Good(wanted.value))
  }

  method ReleaseStale(registry: Registry, desired: map<nat, Owner>)
    modifies registry
    ensures forall ip :: Get(registry.store, ip) == Kept(Get(old(registry.store), ip), Get(desired, ip), ip in registry.releaseFails)
    ensures old(registry.calls) <= registry.calls
    ensures OnlyWrong(registry.calls[|old(registry.calls)|..], Listed(old(registry.store)), desired)
  {
    ghost var was := registry.store;
    var rest := Listed(registry.store).Keys;
    while rest != {}
      invariant rest <= Listed(was).Keys
      invariant forall ip :: Get(registry.store, ip) ==
                             if ip in rest then Get(was, ip) else Kept(Get(was, ip), Get(desired, ip), ip in registry.releaseFails)
      invariant old(registry.calls) <= registry.calls
      invariant OnlyWrong(registry.calls[|old(registry.calls)|..], Listed(was), desired)
      decreases |rest|
    {
      var ip :| ip in rest;
      rest := rest - {ip};
      if ip !in desired {
        var _ := registry.ReleaseIp(ip);
      }
    }
  }

  /** One wanted address, given what was listed for it. */
  method Fix(registry: Registry, listed: Option<Owner>, ip: nat, owner: Owner)
    requires listed == Get(Listed(registry.store), ip)
    modifies registry
    ensures Get(registry.store, ip) ==
            Final(Get(old(registry.store), ip), Some(owner), ip in registry.releaseFails, ip in registry.allocateFails)
    ensures forall other :: other != ip ==> Get(registry.store, other) == Get(old(registry.store), other)
    ensures old(registry.calls) <= registry.calls
    ensures forall i :: |old(registry.calls)| <= i < |registry.calls| ==> registry.calls[i].ip == ip
    ensures listed == Some(owner) ==> registry.calls == old(registry.calls)
  {
    if listed == Some(owner) {
      return;
    }
    if listed.Some? {
      var released := registry.ReleaseIp(ip);
      if !released {
        return;
      }
    }
    var _ := registry.AllocateIp(ip, owner);
  }

  method FixWanted(registry: Registry, listed: map<nat, Owner>, desired: map<nat, Owner>)
    requires forall ip :: ip in desired ==> Get(listed, ip) == Get(Listed(registry.store), ip)
    modifies registry
    ensures forall ip :: Get(registry.store, ip) ==
                         if ip in desired then
                           Final(Get(old(registry.store), ip), Some(desired[ip]), ip in registry.releaseFails, ip in registry.allocateFails)
                         else Get(old(registry.store), ip)
    ensures old(registry.calls) <= registry.calls
    ensures OnlyWrong(registry.calls[|old(registry.calls)|..], listed, desired)
  {
    ghost var was := registry.store;
    var rest := desired.Keys;
    while rest != {}
      invariant rest <= desired.Keys
      invariant forall ip :: Get(registry.store, ip) ==
                             if ip in desired && ip !in rest then
                               Final(Get(was, ip), Some(desired[ip]), ip in registry.releaseFails, ip in registry.allocateFails)
                             else Get(was, ip)
      invariant old(registry.calls) <= registry.calls
      invariant OnlyWrong(registry.calls[|old(registry.calls)|..], listed, desired)
      decreases |rest|
    {
      var ip :| ip in rest;
      rest := rest - {ip};
      assert Get(registry.store, ip) == Get(was, ip);
      Fix(registry, Get(listed, ip), ip, desired[ip]);
    }
  }

  /** When records and services can be listed, every address ends with the record `Final` gives it, in whatever
      order the addresses are visited, and no call is made about an address whose listed record is already
      right.  Otherwise nothing is touched. */
  method Rebuild(registry: Registry, records: bool, services: Option<seq<Service>>, cidr: Subnets.Network) returns (ok: bool)
    modifies registry
    ensures ok == (records && services.Some?)
    ensures !ok ==> registry.store == old(registry.store) && registry.calls == old(registry.calls)
    ensures ok ==> Rebuilt(old(registry.store), registry, services.value, cidr)
    ensures old(registry.calls) <= registry.calls
    ensures ok ==> forall i :: |old(registry.calls)| <= i < |registry.calls| ==>
                   Wrong(old(registry.store), services.value, cidr, registry.calls[i].ip)
    ensures ok && (forall ip :: !Wrong(old(registry.store), services.value, cidr, ip)) ==> registry.calls == old(registry.calls)
  {
    if !records || services.None? {
      return false;
    }
    RebuildFrom(registry, services.value, cidr);
    ok := true;
  }

  /** The listed record of an address is not the one its first claim asks for. */
  predicate Wrong(store: map<nat, Record>, services: seq<Service>, cidr: Subnets.Network, ip: nat) {
    Get(Listed(store), ip) != FirstClaim(services, cidr, ip)
  }

  ghost predicate Rebuilt(store: map<nat, Record>, registry: Registry, services: seq<Service>, cidr: Subnets.Network)
    reads registry
  {
    forall ip :: Get(registry.store, ip) ==
                 Final(Get(store, ip), FirstClaim(services, cidr, ip), ip in registry.releaseFails, ip in registry.allocateFails)
  }

  method RebuildFrom(registry: Registry, services: seq<Service>, cidr: Subnets.Network)
    modifies registry
    ensures Rebuilt(old(registry.store), registry, services, cidr)
    ensures old(registry.calls) <= registry.calls
    ensures forall i :: |old(registry.calls)| <= i < |registry.calls| ==>
                          Wrong(old(registry.store), services, cidr, registry.calls[i].ip)
    ensures (forall ip :: !Wrong(old(registry.store), services, cidr, ip)) ==> registry.calls == old(registry.calls)
  {
    var listed := Listed(registry.store);
    var desired := DesiredByIp(services, cidr);
    ReleaseStale(registry, desired);
    forall ip | ip in desired
      ensures Get(listed, ip) == Get(Listed(registry.store), ip)
    {
      assert Get(registry.store, ip) == Get(old(registry.store), ip);
    }
    FixWanted(registry, listed, desired);
    if |registry.calls| > |old(registry.calls)| {
      assert Wrong(old(registry.store), services, cidr, registry.calls[|old(registry.calls)|].ip);
    }
  }

  function AsRecord(wanted: Option<Owner>): Option<Record> {
    if wanted.Some? then Some(Good(wanted.value)) else None
  }

  /** When an address ends with the record its first claim asks for: it had it, or it was free and could be allocated, or it
      had another readable record that could be released and, if wanted, allocated again. */
  predicate CanEndRight(was: Option<Record>, wanted: Option<Owner>, releaseFails: bool, allocateFails: bool) {
    || was == AsRecord(wanted)
    || (was.None? && !allocateFails)
    || (was.Some? && was.value.Good? && !releaseFails && (wanted.None? || !allocateFails))
  }

  /** It does so exactly then; else it keeps its record, or has lost it to a release without an allocation. */
  lemma EndsRightExactly(was: Option<Record>, wanted: Option<Owner>, releaseFails: bool, allocateFails: bool)
    ensures var end := Final(was, wanted, releaseFails, allocateFails);
            && (end == AsRecord(wanted) <==> CanEndRight(was, wanted, releaseFails, allocateFails))
            && (end != AsRecord(wanted) ==>
                  end == if was.Some? && was.value.Good? && !releaseFails then None else was)
  {
  }

  /** With working calls and no garbled record, the registry ends as the first claims, exactly, and a second
      rebuild makes no calls. */
  method RebuildTwice(registry: Registry, services: seq<Service>, cidr: Subnets.Network) returns (after: nat)
    requires registry.releaseFails == {} == registry.allocateFails && forall ip :: ip in registry.store ==> registry.store[ip].Good?
    modifies registry
    ensures forall ip :: Get(registry.store, ip) == AsRecord(FirstClaim(services, cidr, ip))
    ensures after == |registry.calls|
  {
    var _ := Rebuild(registry, true, Some(services), cidr);
    after := |registry.calls|;
    forall ip
      ensures Get(registry.store, ip) == AsRecord(FirstClaim(services, cidr, ip))
      ensures !Wrong(registry.store, services, cidr, ip)
    {
      assert Get(registry.store, ip) == Final(Get(old(registry.store), ip), FirstClaim(services, cidr, ip), false, false);
    }
    ghost var store := registry.store;
    var _ := Rebuild(registry, true, Some(services), cidr);
    assert forall ip :: Get(store, ip) == AsRecord(FirstClaim(services, cidr, ip));
  }
}
