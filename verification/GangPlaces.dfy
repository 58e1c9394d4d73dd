/** Every pod is in exactly one place, and everyone agrees on where it is placed. */
module GangPlaces {
  import opened Wrappers
  import C = SchedulerCache
  import opened GangStore
  import opened GangProtocol
  import opened GangWhole

  // ---------- In how many places a pod is ----------

  ghost function PendingCount(g: Store, p: string): nat
    decreases |g|
  {
    if g == map[] then 0
    else
      var id :| id in g;
      PendingCount(g - {id}, p) + In(g[id].assumed, p)
  }

  /** On the way to be scheduled: queued, in the loop's hand, or about to be queued again. */
  function Waits(s: State, p: string): nat {
    s.queue[p] + (if s.loop.Picked? && s.loop.pod == p then 1 else 0) + (if s.dog.Requeue? then Count(s.dog.pods, p) else 0)
  }

  /** Placed and on the way out: in the loop's hand, in a gang, or in a gang taken for roll-back. */
  ghost function Holds(s: State, p: string): nat {
    PendingCount(s.gangs, p) + LoopHolds(s.loop, p) + (if s.dog.Took? then TakenCount(s.dog.taken, p) else 0)
  }

  function LoopHolds(h: Loop, p: string): nat {
    match h
    case Assumed(q, _, _) => if p == q then 1 else 0
    case Sending(rest) => In(rest, p)
    case _ => 0
  }

  /** In how many places a pod is. */
  ghost function Places(s: State, p: string): nat {
    Waits(s, p) + Holds(s, p) + (if p in s.settled then 1 else 0) + (if p in s.dropped then 1 else 0)
  }

  lemma {:induction false} PendingSplit(g: Store, id: string, p: string)
    requires id in g
    ensures PendingCount(g, p) == PendingCount(g - {id}, p) + In(g[id].assumed, p)
    decreases |g|
  {
    var first :| first in g && PendingCount(g, p) == PendingCount(g - {first}, p) + In(g[first].assumed, p);
    if first != id {
      PendingSplit(g - {first}, id, p);
      PendingSplit(g - {id}, first, p);
      assert g - {first} - {id} == g - {id} - {first};
    }
  }

  lemma PendingSet(g: Store, id: string, e: Entry, p: string)
    ensures PendingCount(g[id := e], p) == PendingCount(g, p) - (if id in g then In(g[id].assumed, p) else 0) + In(e.assumed, p)
  {
    hide PendingCount;
    PendingSplit(g[id := e], id, p);
    assert g[id := e] - {id} == g - {id};
    if id in g {
      PendingSplit(g, id, p);
    } else {
      assert g - {id} == g;
    }
  }

  lemma TakeOne(g: Store, ids: set<string>, id: string, p: string)
    requires id in g && id in ids
    ensures PendingCount(g - (ids - {id}), p) == PendingCount(g - ids, p) + In(g[id].assumed, p)
  {
    hide PendingCount;
    var rest := g - (ids - {id});
    PendingSplit(rest, id, p);
    assert rest - {id} == g - ids;
  }

  /** Taking entries moves their members and nothing else. */
  lemma {:induction false} TakingMoves(taken: Taken, g: Store, ids: set<string>, p: string)
    requires TakenFrom(taken, g, ids)
    ensures PendingCount(g, p) == PendingCount(g - ids, p) + TakenCount(taken, p)
    decreases |taken|
  {
    hide PendingCount;
    if taken == [] {
      assert g - ids == g;
    } else {
      var last := taken[|taken| - 1];
      TakingMoves(taken[..|taken| - 1], g, ids - {last.0}, p);
      TakeOne(g, ids, last.0, p);
    }
  }

  lemma {:induction false} TakenMember(taken: Taken, p: string) returns (i: nat)
    requires TakenCount(taken, p) > 0
    ensures i < |taken| && p in taken[i].1
  {
    i := |taken| - 1;
    if p !in taken[i].1 {
      i := TakenMember(taken[..i], p);
    }
  }

  lemma {:induction false} CountMember(xs: seq<string>, i: nat)
    requires i < |xs|
    ensures Count(xs, xs[i]) > 0
  {
    if i < |xs| - 1 {
      CountMember(xs[..|xs| - 1], i);
    }
  }

  lemma {:induction false} PendingMember(g: Store, p: string) returns (id: string)
    requires PendingCount(g, p) > 0
    ensures id in g && p in g[id].assumed
    decreases |g|
  {
    assert g != map[];
    var first :| first in g;
    PendingSplit(g, first, p);
    if p in g[first].assumed {
      id := first;
    } else {
      id := PendingMember(g - {first}, p);
    }
  }

  // ---------- The invariant ----------

  predicate PlacedOn(c: C.Cache, p: string, n: string) {
    p in c.pods && c.pods[p].scheduled == Some(n) && n in c.nodes
  }

  predicate Free(c: C.Cache, p: string) {
    p in c.pods && c.pods[p].scheduled.None?
  }

  /** Every known pod is in exactly one place, and no name is in two. */
  ghost predicate OnePlace(s: State) {
    forall p :: Places(s, p) <= 1 && (p in s.cache.pods ==> Places(s, p) == 1)
  }

  /** A waiting name is an unplaced pod, or one that is gone. */
  ghost predicate WaitingIsFree(s: State) {
    forall p :: Waits(s, p) > 0 && p in s.cache.pods ==> Free(s.cache, p)
  }

  predicate RecordsRight(s: State) {
    && (forall p :: p in s.settled ==> p in s.cache.pods && s.cache.pods[p].scheduled.Some?)
    && (forall p :: p in s.dropped ==> Free(s.cache, p))
  }

  ghost predicate GangsAgree(c: C.Cache, g: Store) {
    forall id, p :: id in g && p in g[id].assumed ==> PlacedOn(c, p, g[id].assumed[p])
  }

  ghost predicate DogAgrees(c: C.Cache, d: Dog) {
    d.Took? ==> forall i, p :: 0 <= i < |d.taken| && p in d.taken[i].1 ==> PlacedOn(c, p, d.taken[i].1[p])
  }

  ghost predicate LoopAgrees(c: C.Cache, h: Loop) {
    && (h.Assumed? ==> PlacedOn(c, h.pod, h.node))
    && (h.Sending? ==> forall p :: p in h.rest ==> PlacedOn(c, p, h.rest[p]))
  }

  /** Everyone holding a pod agrees with the cache on its node. */
  ghost predicate HoldersAgree(c: C.Cache, s: State) {
    GangsAgree(c, s.gangs) && DogAgrees(c, s.dog) && LoopAgrees(c, s.loop)
  }

  ghost predicate Inv(s: State) {
    OnePlace(s) && WaitingIsFree(s) && RecordsRight(s) && HoldersAgree(s.cache, s)
  }

  /** The node a holder has recorded is the one the cache must have. */
  lemma RecordedNode(s: State, p: string) returns (n: string)
    requires Holds(s, p) > 0
    ensures forall c :: HoldersAgree(c, s) ==> PlacedOn(c, p, n)
  {
    hide PendingCount, TakenCount, PlacedOn;
    if PendingCount(s.gangs, p) > 0 {
      var id := PendingMember(s.gangs, p);
      n := s.gangs[id].assumed[p];
    } else if LoopHolds(s.loop, p) > 0 {
      n := if s.loop.Assumed? then s.loop.node else s.loop.rest[p];
    } else {
      var i := TakenMember(s.dog.taken, p);
      n := s.dog.taken[i].1[p];
    }
  }

  /** Two caches that agree on the placement of every held pod satisfy the same holders. */
  lemma HoldersOnly(s: State, c: C.Cache)
    requires HoldersAgree(s.cache, s)
    requires forall p, n :: Holds(s, p) > 0 && PlacedOn(s.cache, p, n) ==> PlacedOn(c, p, n)
    ensures HoldersAgree(c, s)
  {
    hide PendingCount, TakenCount, PlacedOn;
    forall id, p | id in s.gangs && p in s.gangs[id].assumed
      ensures PlacedOn(c, p, s.gangs[id].assumed[p])
    {
      PendingSplit(s.gangs, id, p);
    }
    if s.dog.Took? {
      forall i, p | 0 <= i < |s.dog.taken| && p in s.dog.taken[i].1
        ensures PlacedOn(c, p, s.dog.taken[i].1[p])
      {
        TakenHas(s.dog.taken, i, p);
      }
    }
  }

  lemma {:induction false} TakenHas(taken: Taken, i: nat, p: string)
    requires i < |taken| && p in taken[i].1
    ensures TakenCount(taken, p) > 0
  {
    if i < |taken| - 1 {
      TakenHas(taken[..|taken| - 1], i, p);
    }
  }

  // ---------- Where steps move pods ----------

  /** A pod the cache knows stays in one place; a name that is gone may leave. */
  ghost predicate Moves(s: State, t: State, p: string) {
    Places(t, p) <= Places(s, p) && (p in s.cache.pods ==> Places(t, p) == Places(s, p))
  }

  lemma PickMoves(s: State, q: string, p: string)
    requires Inv(s) && s.loop.Idle? && q in s.queue
    ensures Moves(s, Pick(s, q), p)
  {
    hide PendingCount, TakenCount, Count, HoldersAgree, WaitingIsFree, RecordsRight;
  }

  lemma GiveUpMoves(s: State, p: string)
    requires Inv(s) && s.loop.Picked?
    ensures s.loop.pod !in s.cache.pods ==> Moves(s, GiveUp(s), p)
    ensures Moves(s, PutBack(s), p)
  {
    hide PendingCount, TakenCount, Count, HoldersAgree, WaitingIsFree, RecordsRight;
    assert Places(s, p) <= 1;
  }

  lemma ForgetMoves(s: State, q: string, p: string)
    requires Inv(s) && q in s.queue
    ensures Moves(s, Forget(s, q), p)
  {
    hide PendingCount, TakenCount, Count, HoldersAgree, WaitingIsFree, RecordsRight;
    assert Places(s, p) <= 1;
  }

  lemma AssumeMoves(s: State, n: string, p: string)
    requires Inv(s) && s.loop.Picked?
    ensures Moves(s, AssumeOn(s, n), p)
  {
    hide PendingCount, TakenCount, Count, HoldersAgree, WaitingIsFree, RecordsRight, C.Assume;
    assert Places(s, p) <= 1;
  }

  lemma SingleMoves(s: State, p: string)
    requires Inv(s) && s.loop.Assumed?
    ensures Moves(s, SendSingle(s), p)
  {
    hide PendingCount, TakenCount, Count, WaitingIsFree, RecordsRight;
    assert Places(s, p) <= 1;
  }

  lemma JoinMoves(s: State, g: C.Gang, p: string)
    requires Inv(s) && s.loop.Assumed?
    ensures Moves(s, Join(s, g), p)
  {
    hide PendingCount, TakenCount, Count, HoldersAgree, WaitingIsFree, RecordsRight;
    var e := if g.id in s.gangs then s.gangs[g.id] else Entry(g.size, map[], s.now);
    assert s.loop.pod !in e.assumed by {
      assert Places(s, s.loop.pod) <= 1;
      if g.id in s.gangs {
        PendingSplit(s.gangs, g.id, s.loop.pod);
      }
    }
    PendingSet(s.gangs, g.id, e.(assumed := e.assumed[s.loop.pod := s.loop.node]), p);
  }

  lemma TakeMoves(s: State, p: string)
    requires s.loop.Full?
    ensures Moves(s, TakeFull(s), p)
  {
    hide PendingCount, TakenCount, Count;
    if s.loop.id in s.gangs {
      PendingSplit(s.gangs, s.loop.id, p);
    }
  }

  lemma SendMoves(s: State, q: string, p: string)
    requires Inv(s) && s.loop.Sending? && q in s.loop.rest
    ensures Moves(s, Send(s, q), p)
  {
    hide PendingCount, TakenCount, Count, WaitingIsFree, RecordsRight;
    assert Places(s, p) <= 1;
  }

  lemma WatchMoves(s: State, taken: Taken, timeout: nat, p: string)
    requires s.dog.Resting? && TakenFrom(taken, s.gangs, TimedOutIds(s.gangs, s.now, timeout))
    ensures Moves(s, Watch(s, taken, timeout), p)
  {
    hide PendingCount, Count, TakenFrom;
    TakingMoves(taken, s.gangs, TimedOutIds(s.gangs, s.now, timeout), p);
  }

  lemma PushMoves(s: State, p: string)
    requires s.dog.Requeue?
    ensures Moves(s, Push(s), p)
  {
    hide PendingCount, TakenCount;
  }

  // ---------- Roll-back ----------

  predicate Distinct(xs: seq<string>) {
    forall i, j :: 0 <= i < j < |xs| ==> xs[i] != xs[j]
  }

  lemma {:induction false} OnceIsDistinct(xs: seq<string>)
    requires forall p :: Count(xs, p) <= 1
    ensures Distinct(xs)
  {
    if xs != [] {
      var front := xs[..|xs| - 1];
      forall p
        ensures Count(front, p) <= 1
      {
        assert Count(xs, p) <= 1;
      }
      OnceIsDistinct(front);
      forall i | 0 <= i < |xs| - 1
        ensures xs[i] != xs[|xs| - 1]
      {
        CountMember(front, i);
        assert Count(xs, xs[i]) <= 1;
      }
    }
  }

  predicate Placed(c: C.Cache, p: string) {
    p in c.pods && c.pods[p].scheduled.Some? && c.pods[p].scheduled.value in c.nodes
  }

  /** Unassuming placed pods frees exactly those, and none is lost. */
  lemma {:induction false} UnassumeAllEffect(c: C.Cache, order: seq<string>)
    requires Distinct(order) && forall i :: 0 <= i < |order| ==> Placed(c, order[i])
    ensures var (c', requeue) := UnassumeAll(c, order);
            && requeue == order && c'.nodes.Keys == c.nodes.Keys && c'.pods.Keys == c.pods.Keys
            && (forall p :: p in c.pods ==>
                  if p in order then c'.pods[p].scheduled.None? else c'.pods[p] == c.pods[p])
  {
    hide C.Minus;
    if order != [] {
      var front, last := order[..|order| - 1], order[|order| - 1];
      assert order == front + [last];
      UnassumeAllEffect(c, front);
      assert Placed(c, last) && UnassumeAll(c, front).0.pods[last] == c.pods[last];
    }
  }

  lemma RollBackOrder(s: State, order: seq<string>)
    requires Inv(s) && s.dog.Took? && forall p :: Count(order, p) == TakenCount(s.dog.taken, p)
    ensures Distinct(order) && forall i :: 0 <= i < |order| ==> Placed(s.cache, order[i])
  {
    hide PendingCount, TakenCount, Count, WaitingIsFree, RecordsRight;
    forall p
      ensures Count(order, p) <= 1
    {
      assert Places(s, p) >= Count(order, p);
    }
    OnceIsDistinct(order);
    forall i | 0 <= i < |order|
      ensures Placed(s.cache, order[i])
    {
      CountMember(order, i);
      var k := TakenMember(s.dog.taken, order[i]);
    }
  }

  lemma RollBackMoves(s: State, order: seq<string>, p: string)
    requires Inv(s) && s.dog.Took? && forall p :: Count(order, p) == TakenCount(s.dog.taken, p)
    ensures Moves(s, RollBack(s, order), p)
  {
    hide PendingCount, TakenCount, Count, UnassumeAll, Inv;
    RollBackOrder(s, order);
    UnassumeAllEffect(s.cache, order);
  }

  /** The steps of the loop and the watchdog lose and double no known pod. */
  lemma StepMoves(s: State, a: Action, timeout: nat, p: string)
    requires Inv(s) && Enabled(s, a, timeout) && !Outside(a)
    ensures Moves(s, Step(s, a, timeout), p)
  {
    hide PendingCount, TakenCount, Count, Inv;
    hide Pick, GiveUp, PutBack, Forget, AssumeOn, SendSingle, Join, TakeFull, Send, Watch, RollBack, Push;
    match a
    case APick(q) => PickMoves(s, q, p);
    case AGiveUp => GiveUpMoves(s, p);
    case APutBack => GiveUpMoves(s, p);
    case AForget(q) => ForgetMoves(s, q, p);
    case AAssume(n) => AssumeMoves(s, n, p);
    case ASendSingle => SingleMoves(s, p);
    case AJoin => JoinMoves(s, s.loop.gang.value, p);
    case ATake => TakeMoves(s, p);
    case ASend(q) => SendMoves(s, q, p);
    case AWatch(taken) => WatchMoves(s, taken, timeout, p);
    case ARollBack(order) => RollBackMoves(s, order, p);
    case APush => PushMoves(s, p);
    case AFinish =>
    case ATick(_) =>
  }

  /** The call comes from outside the loop and the watchdog. */
  predicate Outside(a: Action) {
    a.APutPod? || a.ADropPod? || a.ATakeOff? || a.APutNode? || a.ADropNode? || a.Disturb?
  }
}
