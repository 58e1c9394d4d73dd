/** Gangs waiting for their members. */
module GangStore {
  import opened Wrappers

  /** The size recorded by the first member, the members with their nodes, and when the entry appeared. */
  datatype Entry = Entry(size: nat, assumed: map<string, string>, createdAt: nat)

  type Store = map<string, Entry>

  function AddMember(g: Store, id: string, size: nat, pod: string, node: string, now: nat): (Store, bool) {
    var e := if id in g then g[id] else Entry(size, map[], now);
    var e' := e.(assumed := e.assumed[pod := node]);
    (g[id := e'], |e'.assumed| >= e'.size)
  }

  function TakeAndClear(g: Store, id: string): (Store, Option<map<string, string>>) {
    if id in g then (g - {id}, Some(g[id].assumed)) else (g, None)
  }

  /** Incomplete for longer than the timeout. */
  predicate TimedOut(e: Entry, now: nat, timeout: nat) {
    |e.assumed| < e.size && now > e.createdAt + timeout
  }

  function TimedOutIds(g: Store, now: nat, timeout: nat): set<string> {
    set id | id in g && TimedOut(g[id], now, timeout)
  }

  type Taken = seq<(string, map<string, string>)>

  /** The entries of the given ids, each once, in some order. */
  ghost predicate TakenFrom(taken: Taken, g: Store, ids: set<string>) {
    if taken == [] then ids == {}
    else
      var front, last := taken[..|taken| - 1], taken[|taken| - 1];
      && last.0 in ids && last.0 in g && last.1 == g[last.0].assumed
      && TakenFrom(front, g, ids - {last.0})
  }

  lemma {:induction false} TakenExactly(taken: Taken, g: Store, ids: set<string>, id: string)
    requires TakenFrom(taken, g, ids)
    ensures id in ids <==> exists i :: 0 <= i < |taken| && taken[i].0 == id
    ensures forall i :: 0 <= i < |taken| ==> taken[i].0 in g && taken[i].1 == g[taken[i].0].assumed
    decreases |taken|
  {
    if taken != [] {
      var n := |taken| - 1;
      TakenExactly(taken[..n], g, ids - {taken[n].0}, id);
      if i :| 0 <= i < n && taken[..n][i].0 == id {
        assert taken[i].0 == id;
      }
      assert forall i :: 0 <= i < n ==> taken[i] == taken[..n][i];
      assert taken[n].0 == id ==> exists i :: 0 <= i < |taken| && taken[i].0 == id;
    }
  }

  class GangStateStore {
    var inner: Store

    constructor ()
      ensures inner == map[]
    {
      inner := map[];
    }

    method AddGangMember(id: string, size: nat, pod: string, node: string, now: nat) returns (full: bool)
      modifies this
      ensures (inner, full) == AddMember(old(inner), id, size, pod, node, now)
    {
      if id !in inner {
        inner := inner[id := Entry(size, map[], now)];
      }
      var e := inner[id];
      inner := inner[id := e.(assumed := e.assumed[pod := node])];
      full := |inner[id].assumed| >= inner[id].size;
      assert inner == AddMember(old(inner), id, size, pod, node, now).0;
    }

    method TakeGang(id: string) returns (members: Option<map<string, string>>)
      modifies this
      ensures (inner, members) == TakeAndClear(old(inner), id)
    {
      if id !in inner {
        return None;
      }
      members := Some(inner[id].assumed);
      inner := inner - {id};
    }

    /** All timed-out entries, removed and returned in iteration order. */
    method TakeTimedOut(now: nat, timeout: nat) returns (taken: Taken)
      modifies this
      ensures inner == old(inner) - TimedOutIds(old(inner), now, timeout)
      ensures TakenFrom(taken, old(inner), TimedOutIds(old(inner), now, timeout))
    {
      var ids := TimedOutIds(inner, now, timeout);
      taken := Collect(inner, ids);
      inner := inner - ids;
    }
  }

  method Collect(g: Store, ids: set<string>) returns (taken: Taken)
    requires ids <= g.Keys
    ensures TakenFrom(taken, g, ids)
  {
    taken := [];
    var rest := ids;
    while rest != {}
      invariant rest <= ids && TakenFrom(taken, g, ids - rest)
      decreases |rest|
    {
      var id :| id in rest;
      ghost var before, done := taken, ids - rest;
      rest := rest - {id};
      taken := taken + [(id, g[id].assumed)];
      assert taken[..|taken| - 1] == before && ids - rest - {id} == done;
    }
    assert ids - {} == ids;
  }
}
