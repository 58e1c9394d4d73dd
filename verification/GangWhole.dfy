/** Gangs go out whole, whatever else happens to the cache and the queue. */
module GangWhole {
  import opened Wrappers
  import C = SchedulerCache
  import opened GangStore
  import opened GangProtocol

  function Max1(n: nat): nat { if n == 0 then 1 else n }

  /** Entries are incomplete, except the one the scheduling loop is about to take. */
  ghost predicate SizesRight(s: State) {
    && (forall id :: id in s.gangs ==>
          if s.loop == Full(id) then |s.gangs[id].assumed| == Max1(s.gangs[id].size)
          else |s.gangs[id].assumed| < s.gangs[id].size)
    && (s.loop.Full? ==> s.loop.id in s.gangs)
  }

  function Has(m: map<string, string>, p: string, n: string): nat { if p in m && m[p] == n then 1 else 0 }

  /** How often a pod was sent to a node as part of a gang. */
  function GangCount(sent: seq<Assignment>, p: string, n: string): nat {
    if sent == [] then 0
    else GangCount(sent[..|sent| - 1], p, n) + if sent[|sent| - 1] == Assignment(p, n, true) then 1 else 0
  }

  function BatchCount(batches: seq<Batch>, p: string, n: string): nat {
    if batches == [] then 0 else BatchCount(batches[..|batches| - 1], p, n) + Has(batches[|batches| - 1].members, p, n)
  }

  function RestCount(h: Loop, p: string, n: string): nat { if h.Sending? then Has(h.rest, p, n) else 0 }

  /** The gang assignments sent so far are the batches, less what is still being sent. */
  ghost predicate SentRight(s: State) {
    forall p, n :: GangCount(s.sent, p, n) + RestCount(s.loop, p, n) == BatchCount(s.batches, p, n)
  }

  ghost predicate BatchesRight(s: State) {
    forall i :: 0 <= i < |s.batches| ==> |s.batches[i].members| == Max1(s.batches[i].size)
  }

  lemma SizeOfUpdate(m: map<string, string>, pod: string, node: string)
    ensures |m[pod := node]| == |m| + if pod in m then 0 else 1
  {
    assert m[pod := node].Keys == m.Keys + {pod};
  }

  lemma JoinKeepsSizes(s: State, g: C.Gang)
    requires SizesRight(s) && s.loop.Assumed?
    ensures SizesRight(Join(s, g))
  {
    var e := if g.id in s.gangs then s.gangs[g.id] else Entry(g.size, map[], s.now);
    SizeOfUpdate(e.assumed, s.loop.pod, s.loop.node);
  }

  lemma WatchKeepsSizes(s: State, taken: Taken, timeout: nat)
    requires SizesRight(s)
    ensures SizesRight(Watch(s, taken, timeout))
  {
  }

  lemma TakeKeepsSizes(s: State)
    requires SizesRight(s) && s.loop.Full?
    ensures SizesRight(TakeFull(s))
  {
  }

  lemma SameGangsKeepSizes(s: State, t: State)
    requires SizesRight(s) && t.gangs == s.gangs && (t.loop == s.loop || (!s.loop.Full? && !t.loop.Full?))
    ensures SizesRight(t)
  {
  }

  // ---------- Steps that hand out nothing ----------

  /** Gangs, batches and assignments are as before, and so is the loop as far as they go. */
  predicate Quiet(s: State, t: State) {
    && t.gangs == s.gangs && t.sent == s.sent && t.batches == s.batches
    && (t.loop == s.loop || (!s.loop.Full? && !t.loop.Full? && !s.loop.Sending? && !t.loop.Sending?))
  }

  predicate Noisy(a: Action) {
    a.ASendSingle? || a.AJoin? || a.ATake? || a.ASend? || a.AFinish? || a.AWatch?
  }

  lemma QuietPick(s: State, p: string)
    requires s.loop.Idle?
    ensures Quiet(s, Pick(s, p))
  {
  }

  lemma QuietPicked(s: State, n: string)
    requires s.loop.Picked?
    ensures Quiet(s, GiveUp(s)) && Quiet(s, PutBack(s)) && Quiet(s, AssumeOn(s, n))
  {
    hide C.Assume;
  }

  lemma QuietDog(s: State, order: seq<string>)
    ensures Quiet(s, RollBack(s, order)) && (s.dog.Requeue? ==> Quiet(s, Push(s)))
  {
    hide UnassumeAll;
  }

  lemma QuietOutside(s: State, p: string, pod: C.Pod, admitted: bool)
    ensures Quiet(s, Forget(s, p)) && Quiet(s, DropPod(s, p)) && Quiet(s, DropNode(s, p)) && Quiet(s, TakeOff(s, p))
    ensures Quiet(s, PutPod(s, pod, admitted))
  {
    hide C.Unassume, C.RemovePod, C.RemoveCacheNode, C.UpdatePod, C.Placed, C.Lookup;
  }

  lemma QuietStep(s: State, a: Action, timeout: nat)
    requires Enabled(s, a, timeout) && !Noisy(a)
    ensures Quiet(s, Step(s, a, timeout))
  {
    hide Pick, GiveUp, PutBack, Forget, AssumeOn, SendSingle, Join, TakeFull, Send, Watch, RollBack, Push;
    hide DropPod, DropNode, TakeOff, PutPod, TakenFrom, TimedOutIds, C.UpdateNode;
    match a
    case APick(p) => QuietPick(s, p);
    case AGiveUp => QuietPicked(s, "");
    case APutBack => QuietPicked(s, "");
    case AAssume(n) => QuietPicked(s, n);
    case ARollBack(order) => QuietDog(s, order);
    case APush => QuietDog(s, []);
    case AForget(p) => QuietOutside(s, p, NO_POD, true);
    case ADropPod(p) => QuietOutside(s, p, NO_POD, true);
    case ADropNode(n) => QuietOutside(s, n, NO_POD, true);
    case ATakeOff(p) => QuietOutside(s, p, NO_POD, true);
    case APutPod(pod, admitted) => QuietOutside(s, "", pod, admitted);
    case ATick(_) =>
    case APutNode(_) =>
    case Disturb(_, _, _) =>
  }

  const NO_POD := C.Pod("", C.Resources(0, 0), 0, None, 0, None)

  // ---------- What a step does to the loop and the cache ----------

  /** The step is one of the scheduling loop's. */
  predicate OfLoop(a: Action) {
    a.APick? || a.AGiveUp? || a.APutBack? || a.AAssume? || a.ASendSingle? || a.AJoin? || a.ATake? || a.ASend? || a.AFinish?
  }

  lemma SameLoopDog(s: State, order: seq<string>, taken: Taken, timeout: nat)
    ensures RollBack(s, order).loop == s.loop && (s.dog.Requeue? ==> Push(s).loop == s.loop) && Watch(s, taken, timeout).loop == s.loop
  {
    hide UnassumeAll, TimedOutIds;
  }

  lemma SameLoopOutside(s: State, p: string, pod: C.Pod, admitted: bool)
    ensures Forget(s, p).loop == DropPod(s, p).loop == DropNode(s, p).loop == TakeOff(s, p).loop == PutPod(s, pod, admitted).loop == s.loop
  {
    hide C.Unassume, C.RemovePod, C.RemoveCacheNode, C.UpdatePod, C.Placed, C.Lookup;
  }

  lemma OthersKeepLoop(s: State, a: Action, timeout: nat)
    requires Enabled(s, a, timeout) && !OfLoop(a)
    ensures Step(s, a, timeout).loop == s.loop
  {
    hide Pick, GiveUp, PutBack, Forget, AssumeOn, SendSingle, Join, TakeFull, Send, Watch, RollBack, Push;
    hide DropPod, DropNode, TakeOff, PutPod, TakenFrom, TimedOutIds, C.UpdateNode;
    match a
    case AWatch(taken) => SameLoopDog(s, [], taken, timeout);
    case ARollBack(order) => SameLoopDog(s, order, [], timeout);
    case APush => SameLoopDog(s, [], [], timeout);
    case AForget(p) => SameLoopOutside(s, p, NO_POD, true);
    case ADropPod(p) => SameLoopOutside(s, p, NO_POD, true);
    case ADropNode(n) => SameLoopOutside(s, n, NO_POD, true);
    case ATakeOff(p) => SameLoopOutside(s, p, NO_POD, true);
    case APutPod(pod, admitted) => SameLoopOutside(s, "", pod, admitted);
    case ATick(_) =>
    case APutNode(_) =>
    case Disturb(_, _, _) =>
  }

  /** A pod comes into the loop's hand with the gang it has in the cache, and keeps it until it is placed. */
  lemma StepInHand(s: State, a: Action, timeout: nat)
    requires Enabled(s, a, timeout)
    ensures var h := Step(s, a, timeout).loop;
            && (h.Picked? && h != s.loop ==> a == APick(h.pod) && h.pod in s.cache.pods && h.gang == s.cache.pods[h.pod].gang)
            && (h.Assumed? && h != s.loop ==> s.loop.Picked? && h.pod == s.loop.pod && h.gang == s.loop.gang)
  {
    if OfLoop(a) {
      hide C.Assume, AddMember, TakenFrom, TimedOutIds, Watch, RollBack, Push, DropPod, DropNode, TakeOff, PutPod, Forget;
    } else {
      hide Step, Enabled;
      OthersKeepLoop(s, a, timeout);
    }
  }

  /** The cache operation a step comes down to. */
  function CacheAfter(s: State, a: Action): C.Cache {
    match a
    case AAssume(n) => if s.loop.Picked? then C.Assume(s.cache, s.loop.pod, n).0 else s.cache
    case ARollBack(order) => UnassumeAll(s.cache, order).0
    case APutPod(pod, _) => C.UpdatePod(s.cache, pod)
    case ADropPod(p) => C.RemovePod(s.cache, p)
    case ATakeOff(p) => C.Unassume(s.cache, p).0
    case APutNode(n) => C.UpdateNode(s.cache, n)
    case ADropNode(n) => C.RemoveCacheNode(s.cache, n)
    case Disturb(c, _, _) => c
    case _ => s.cache
  }

  lemma CacheOutside(s: State, p: string, pod: C.Pod, admitted: bool)
    ensures DropPod(s, p).cache == C.RemovePod(s.cache, p) && DropNode(s, p).cache == C.RemoveCacheNode(s.cache, p)
    ensures PutPod(s, pod, admitted).cache == C.UpdatePod(s.cache, pod) && Forget(s, p).cache == s.cache
  {
    hide C.RemovePod, C.RemoveCacheNode, C.UpdatePod, C.Placed, C.Lookup;
  }

  lemma CacheTakeOff(s: State, p: string)
    ensures TakeOff(s, p).cache == C.Unassume(s.cache, p).0
  {
    hide C.Minus;
  }

  lemma CacheDog(s: State, order: seq<string>, taken: Taken, timeout: nat)
    ensures RollBack(s, order).cache == UnassumeAll(s.cache, order).0
    ensures (s.dog.Requeue? ==> Push(s).cache == s.cache) && Watch(s, taken, timeout).cache == s.cache
  {
    hide UnassumeAll, TimedOutIds;
  }

  lemma CacheLoop(s: State, a: Action, timeout: nat)
    requires Enabled(s, a, timeout) && OfLoop(a)
    ensures Step(s, a, timeout).cache == CacheAfter(s, a)
  {
    hide C.Assume, AddMember, TakenFrom, TimedOutIds, Watch, RollBack, Push, DropPod, DropNode, TakeOff, PutPod, Forget;
  }

  lemma CacheOthers(s: State, a: Action, timeout: nat)
    requires Enabled(s, a, timeout) && !OfLoop(a)
    ensures Step(s, a, timeout).cache == CacheAfter(s, a)
  {
    hide Pick, GiveUp, PutBack, Forget, AssumeOn, SendSingle, Join, TakeFull, Send, Watch, RollBack, Push;
    hide DropPod, DropNode, TakeOff, PutPod, TakenFrom, TimedOutIds, UnassumeAll;
    hide C.UpdateNode, C.Assume, C.RemovePod, C.RemoveCacheNode, C.UpdatePod, C.Unassume;
    match a
    case AWatch(taken) => CacheDog(s, [], taken, timeout);
    case ARollBack(order) => CacheDog(s, order, [], timeout);
    case APush => CacheDog(s, [], [], timeout);
    case AForget(p) => CacheOutside(s, p, NO_POD, true);
    case ADropPod(p) => CacheOutside(s, p, NO_POD, true);
    case ADropNode(n) => CacheOutside(s, n, NO_POD, true);
    case ATakeOff(p) => CacheTakeOff(s, p);
    case APutPod(pod, admitted) => CacheOutside(s, "", pod, admitted);
    case ATick(_) =>
    case APutNode(_) =>
    case Disturb(_, _, _) =>
  }

  lemma StepCache(s: State, a: Action, timeout: nat)
    requires Enabled(s, a, timeout)
    ensures Step(s, a, timeout).cache == CacheAfter(s, a)
  {
    hide Step, Enabled, CacheAfter;
    if OfLoop(a) {
      CacheLoop(s, a, timeout);
    } else {
      CacheOthers(s, a, timeout);
    }
  }

  // ---------- What every step keeps ----------

  lemma StepKeepsSizes(s: State, a: Action, timeout: nat)
    requires SizesRight(s) && Enabled(s, a, timeout)
    ensures SizesRight(Step(s, a, timeout))
  {
    if Noisy(a) {
      hide Join, Watch, TakeFull, TakenFrom, TimedOutIds, SizesRight;
      match a
      case AJoin => JoinKeepsSizes(s, s.loop.gang.value);
      case AWatch(taken) => WatchKeepsSizes(s, taken, timeout);
      case ATake => TakeKeepsSizes(s);
      case ASendSingle => SameGangsKeepSizes(s, SendSingle(s));
      case ASend(p) => SameGangsKeepSizes(s, Send(s, p));
      case AFinish => SameGangsKeepSizes(s, s.(loop := Idle));
    } else {
      hide Step, Enabled, SizesRight;
      QuietStep(s, a, timeout);
      SameGangsKeepSizes(s, Step(s, a, timeout));
    }
  }

  lemma GangSnoc(sent: seq<Assignment>, a: Assignment, p: string, n: string)
    ensures GangCount(sent + [a], p, n) == GangCount(sent, p, n) + if a == Assignment(p, n, true) then 1 else 0
  {
    assert (sent + [a])[..|sent|] == sent;
  }

  lemma BatchSnoc(batches: seq<Batch>, b: Batch, p: string, n: string)
    ensures BatchCount(batches + [b], p, n) == BatchCount(batches, p, n) + Has(b.members, p, n)
  {
    assert (batches + [b])[..|batches|] == batches;
  }

  lemma StepKeepsSent(s: State, a: Action, timeout: nat, p: string, n: string)
    requires SizesRight(s) && SentRight(s) && Enabled(s, a, timeout)
    ensures var t := Step(s, a, timeout); GangCount(t.sent, p, n) + RestCount(t.loop, p, n) == BatchCount(t.batches, p, n)
  {
    hide GangCount, BatchCount;
    assert GangCount(s.sent, p, n) + RestCount(s.loop, p, n) == BatchCount(s.batches, p, n);
    if Noisy(a) {
      hide AddMember, TimedOutIds, TakenFrom;
      match a
      case AJoin =>
      case AWatch(_) =>
      case ATake => BatchSnoc(s.batches, Batch(s.loop.id, s.gangs[s.loop.id].size, s.gangs[s.loop.id].assumed), p, n);
      case ASendSingle => GangSnoc(s.sent, Assignment(s.loop.pod, s.loop.node, false), p, n);
      case ASend(q) => GangSnoc(s.sent, Assignment(q, s.loop.rest[q], true), p, n);
      case AFinish =>
    } else {
      hide Step, Enabled;
      QuietStep(s, a, timeout);
    }
  }

  lemma StepKeepsBatches(s: State, a: Action, timeout: nat)
    requires SizesRight(s) && BatchesRight(s) && Enabled(s, a, timeout)
    ensures BatchesRight(Step(s, a, timeout))
  {
    if Noisy(a) {
      hide AddMember, TimedOutIds, TakenFrom;
    } else {
      hide Step, Enabled, SizesRight;
      QuietStep(s, a, timeout);
    }
  }

  /** Whatever else happens: every gang that went out had exactly its size, and what was sent of gangs
      is exactly those gangs, except for the rest of the one being sent. */
  lemma {:induction false} GangsGoOutWhole(s: State, run: seq<Action>, timeout: nat)
    requires SizesRight(s) && SentRight(s) && BatchesRight(s) && Runs(s, run, timeout)
    ensures var t := Run(s, run, timeout); SizesRight(t) && SentRight(t) && BatchesRight(t)
    decreases |run|
  {
    hide Step, Enabled, SizesRight, BatchesRight;
    if run != [] {
      var t := Step(s, run[0], timeout);
      StepKeepsSizes(s, run[0], timeout);
      StepKeepsBatches(s, run[0], timeout);
      forall p, n
        ensures GangCount(t.sent, p, n) + RestCount(t.loop, p, n) == BatchCount(t.batches, p, n)
      {
        StepKeepsSent(s, run[0], timeout, p, n);
      }
      GangsGoOutWhole(t, run[1..], timeout);
    }
  }
}
