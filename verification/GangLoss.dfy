/** How a known pod is lost to scheduling: exactly when, and for how long. */
module GangLoss {
  import opened Wrappers
  import C = SchedulerCache
  import opened GangStore
  import opened GangProtocol
  import opened GangPlaces
  import opened GangSafety

  /** The step loses a known pod: it is picked with an outdated priority, the queue's clean-up forgets it, its node is
      gone when it is to be placed, or a plugin keeps it out of the queue. */
  predicate Loses(s: State, a: Action, p: string) {
    match a
    case APick(q) => q == p && Outdated(s, p)
    case AForget(q) => q == p && p in s.cache.pods
    case AAssume(n) => s.loop.Picked? && s.loop.pod == p && p in s.cache.pods && !C.Assume(s.cache, p, n).1
    case APutPod(pod, admitted) => pod.name == p && pod.scheduled.None? && !admitted && !Free(s.cache, p)
    case _ => false
  }

  /** A pod is dropped by exactly these steps. */
  lemma DroppedExactly(s: State, a: Action, timeout: nat, p: string)
    requires Enabled(s, a, timeout) && p !in s.dropped
    ensures p in Step(s, a, timeout).dropped <==> Loses(s, a, p)
  {
    hide AddMember, TakenFrom, TimedOutIds, UnassumeAll, C.Assume, C.Unassume, C.RemovePod, C.RemoveCacheNode,
         C.UpdateNode, C.Placed;
  }

  /** While a pod waits, placing it fails exactly when the node is gone. */
  lemma PlacingFailsExactly(s: State, n: string)
    requires Inv(s) && s.loop.Picked? && s.loop.pod in s.cache.pods
    ensures Loses(s, AAssume(n), s.loop.pod) <==> n !in s.cache.nodes
  {
    hide OnePlace, RecordsRight, HoldersAgree, Waits;
    PickedWaits(s);
  }

  // ---------- Priorities that stick ----------

  /** Every waiting pod waits with its own priority. */
  ghost predicate Current(s: State) {
    forall p :: Waits(s, p) > 0 ==> !Outdated(s, p)
  }

  /** The call gives no waiting pod another priority. */
  predicate KeepsPriority(s: State, a: Action) {
    a.APutPod? && Waits(s, a.info.name) > 0 && a.info.name in s.cache.pods ==>
      a.info.priority == s.cache.pods[a.info.name].priority
  }

  lemma CurrentPick(s: State, q: string)
    requires Current(s) && s.loop.Idle? && q in s.queue
    ensures Current(Pick(s, q))
  {
    hide Count;
    forall p
      ensures Waits(Pick(s, q), p) <= Waits(s, p)
    {
    }
  }

  lemma CurrentForget(s: State, q: string)
    requires Current(s) && q in s.queue
    ensures Current(Forget(s, q))
  {
    hide Count;
    forall p
      ensures Waits(Forget(s, q), p) <= Waits(s, p)
    {
    }
  }

  lemma CurrentPicked(s: State, n: string)
    requires Current(s) && s.loop.Picked?
    ensures Current(GiveUp(s)) && Current(PutBack(s)) && Current(AssumeOn(s, n))
  {
    hide Count, C.Plus;
    forall p
      ensures Waits(GiveUp(s), p) <= Waits(s, p) && Waits(PutBack(s), p) == Waits(s, p) && Waits(AssumeOn(s, n), p) <= Waits(s, p)
    {
    }
  }

  lemma CurrentLater(s: State, a: Action, timeout: nat)
    requires Current(s) && Enabled(s, a, timeout)
    requires a.ASendSingle? || a.AJoin? || a.ATake? || a.ASend? || a.AFinish? || a.AWatch? || a.APush? || a.ATick?
    ensures Current(Step(s, a, timeout))
  {
    hide AddMember, TakenFrom, TimedOutIds, Pick, GiveUp, PutBack, Forget, AssumeOn, RollBack, PutPod, DropPod, TakeOff, DropNode;
    forall p
      ensures Waits(Step(s, a, timeout), p) == Waits(s, p)
    {
    }
  }

  /** What is queued again after a roll-back is queued with its priority. */
  lemma CurrentRollBack(s: State, order: seq<string>)
    requires Inv(s) && Current(s) && s.dog.Took? && forall q :: Count(order, q) == TakenCount(s.dog.taken, q)
    ensures Current(RollBack(s, order))
  {
    hide Count, TakenCount, UnassumeAll, Inv;
    RollBackOrder(s, order);
    UnassumeAllEffect(s.cache, order);
    UnassumeAllPriority(s.cache, order);
    var t := RollBack(s, order);
    forall p | Waits(t, p) > 0
      ensures !Outdated(t, p)
    {
      if Count(order, p) > 0 {
        CountPositive(order, p);
      } else {
        assert Waits(s, p) > 0;
      }
    }
  }

  lemma {:induction false} UnassumeAllPriority(c: C.Cache, order: seq<string>)
    ensures var c' := UnassumeAll(c, order).0; c'.pods.Keys == c.pods.Keys && forall p :: p in c.pods ==> c'.pods[p].priority == c.pods[p].priority
  {
    if order != [] {
      UnassumeAllPriority(c, order[..|order| - 1]);
    }
  }

  lemma CurrentPutPod(s: State, pod: C.Pod, admitted: bool)
    requires Inv(s) && Current(s) && KeepsPriority(s, APutPod(pod, admitted)) && Allowed(s, APutPod(pod, admitted))
    ensures Current(PutPod(s, pod, admitted))
  {
    hide Waits, Holds, Inv;
    var t := PutPod(s, pod, admitted);
    forall p | Waits(t, p) > 0
      ensures !Outdated(t, p)
    {
      SameHolds(s, t, p);
      PlaceOf(s, p);
    }
  }

  lemma CurrentDrops(s: State, q: string)
    requires Current(s)
    ensures Current(DropPod(s, q)) && Current(TakeOff(s, q)) && Current(DropNode(s, q))
  {
    hide Waits, C.Minus;
    forall p
      ensures Waits(DropPod(s, q), p) > 0 ==> !Outdated(DropPod(s, q), p)
      ensures Waits(TakeOff(s, q), p) > 0 ==> !Outdated(TakeOff(s, q), p)
    {
      SameHolds(s, DropPod(s, q), p);
      SameHolds(s, TakeOff(s, q), p);
    }
    CurrentDropNode(s, q);
  }

  lemma CurrentDropNode(s: State, n: string)
    requires Current(s)
    ensures Current(DropNode(s, n))
  {
    hide Waits;
    var t := DropNode(s, n);
    forall p | Waits(t, p) > 0
      ensures !Outdated(t, p)
    {
      SameHolds(s, t, p);
    }
  }

  lemma CurrentPutNode(s: State, n: C.Node)
    requires Current(s)
    ensures Current(s.(cache := C.UpdateNode(s.cache, n)))
  {
    hide Waits;
    var t := s.(cache := C.UpdateNode(s.cache, n));
    forall p
      ensures Waits(t, p) == Waits(s, p)
    {
      SameHolds(s, t, p);
    }
  }

  lemma StepKeepsCurrent(s: State, a: Action, timeout: nat)
    requires Inv(s) && Current(s) && Enabled(s, a, timeout) && (Outside(a) ==> Allowed(s, a)) && KeepsPriority(s, a)
    ensures Current(Step(s, a, timeout))
  {
    hide Inv, Current, Waits, Holds, TakenFrom, TimedOutIds, KeepsPriority;
    hide Pick, GiveUp, PutBack, Forget, AssumeOn, SendSingle, Join, TakeFull, Send, Watch, RollBack, Push;
    hide DropPod, DropNode, TakeOff, PutPod, C.UpdateNode;
    match a
    case APick(q) => CurrentPick(s, q);
    case AForget(q) => CurrentForget(s, q);
    case AGiveUp => CurrentPicked(s, "");
    case APutBack => CurrentPicked(s, "");
    case AAssume(n) => CurrentPicked(s, n);
    case ARollBack(order) => CurrentRollBack(s, order);
    case APutPod(pod, admitted) => CurrentPutPod(s, pod, admitted);
    case ADropPod(q) => CurrentDrops(s, q);
    case ATakeOff(q) => CurrentDrops(s, q);
    case ADropNode(n) => CurrentDrops(s, n);
    case APutNode(n) => CurrentPutNode(s, n);
    case _ => CurrentLater(s, a, timeout);
  }

  ghost predicate AllKeepPriority(s: State, run: seq<Action>, timeout: nat)
    requires Runs(s, run, timeout)
    decreases |run|
  {
    run != [] ==> KeepsPriority(s, run[0]) && AllKeepPriority(Step(s, run[0], timeout), run[1..], timeout)
  }

  lemma {:induction false} RunKeepsCurrent(s: State, run: seq<Action>, timeout: nat)
    requires Inv(s) && Current(s) && Runs(s, run, timeout) && Orderly(s, run, timeout) && AllKeepPriority(s, run, timeout)
    ensures Inv(Run(s, run, timeout)) && Current(Run(s, run, timeout))
    decreases |run|
  {
    hide Inv, Current, Step, Enabled, KeepsPriority;
    if run != [] {
      StepKeepsCurrent(s, run[0], timeout);
      if Outside(run[0]) {
        OutsideExactly(s, run[0], timeout);
      } else {
        StepKeepsInv(s, run[0], timeout);
      }
      RunKeepsCurrent(Step(s, run[0], timeout), run[1..], timeout);
    }
  }

  /** From the empty start, while no waiting pod is given another priority, a picked pod that is known is always taken up:
      none is lost for its priority, however it came to be queued. */
  lemma PickedIsTakenUp(run: seq<Action>, timeout: nat, p: string)
    requires Runs(INITIAL, run, timeout) && Orderly(INITIAL, run, timeout) && AllKeepPriority(INITIAL, run, timeout)
    requires var s := Run(INITIAL, run, timeout); s.loop.Idle? && p in s.queue && p in s.cache.pods
    ensures var s := Run(INITIAL, run, timeout);
            Step(s, APick(p), timeout).loop == Picked(p, s.cache.pods[p].gang) && Step(s, APick(p), timeout).dropped == s.dropped
  {
    hide Step, Enabled, Inv;
    InitialInv();
    assert Current(INITIAL);
    RunKeepsCurrent(INITIAL, run, timeout);
    PickTakesUp(Run(INITIAL, run, timeout), p, timeout);
  }

  lemma PickTakesUp(s: State, p: string, timeout: nat)
    requires Current(s) && s.loop.Idle? && p in s.queue && p in s.cache.pods
    ensures Step(s, APick(p), timeout).loop == Picked(p, s.cache.pods[p].gang) && Step(s, APick(p), timeout).dropped == s.dropped
  {
    assert Waits(s, p) > 0;
  }

  // ---------- Doomed pods ----------

  predicate InHand(s: State, p: string) { s.loop.Picked? && s.loop.pod == p }

  /** Lost already, or queued, or about to be, with a priority that will not do. */
  predicate Doomed(s: State, p: string) {
    p in s.cache.pods && (p in s.dropped || (Waits(s, p) > 0 && !InHand(s, p) && Outdated(s, p)))
  }

  /** A new priority for a waiting pod that nobody has in hand dooms it exactly when it is not the one it was queued with. */
  lemma NewPriorityDoomsExactly(s: State, pod: C.Pod, admitted: bool)
    requires Inv(s) && Waits(s, pod.name) > 0 && !InHand(s, pod.name) && pod.name in s.cache.pods && pod.scheduled.None?
    ensures var t := PutPod(s, pod, admitted);
            Inv(t) && (Doomed(t, pod.name) <==> pod.name !in s.asked || pod.priority != s.asked[pod.name])
  {
    hide Holds, Waits, Places, OnePlace, RecordsRight, HoldersAgree;
    PlaceOf(s, pod.name);
    assert Free(s.cache, pod.name);
    PutPodKeeps(s, pod, admitted);
    SameHolds(s, PutPod(s, pod, admitted), pod.name);
  }

  /** A doomed pod is not placed, and in nobody's hand. */
  lemma DoomedIsFree(s: State, p: string)
    requires Inv(s) && Doomed(s, p)
    ensures Free(s.cache, p) && !InHand(s, p) && p !in s.settled && Holds(s, p) == 0
    ensures p !in s.dropped ==> Waits(s, p) == 1 && s.queue[p] <= 1
  {
    hide Holds, Count, HoldersAgree;
    PlaceOf(s, p);
    assert Places(s, p) <= 1;
  }

  lemma DoomedPick(s: State, q: string, p: string)
    requires Inv(s) && Doomed(s, p) && s.loop.Idle? && q in s.queue
    ensures Doomed(Pick(s, q), p)
  {
    hide Count, Holds, HoldersAgree, RecordsRight, WaitingIsFree;
    DoomedIsFree(s, p);
  }

  lemma DoomedForget(s: State, q: string, p: string)
    requires Inv(s) && Doomed(s, p) && q in s.queue
    ensures Doomed(Forget(s, q), p)
  {
    hide Count, Holds, HoldersAgree, RecordsRight, WaitingIsFree;
    DoomedIsFree(s, p);
  }

  lemma DoomedPicked(s: State, n: string, p: string)
    requires Inv(s) && Doomed(s, p) && s.loop.Picked?
    ensures Doomed(GiveUp(s), p) && Doomed(PutBack(s), p) && Doomed(AssumeOn(s, n), p)
  {
    hide Count, Holds, HoldersAgree, RecordsRight, WaitingIsFree, OnePlace, C.Plus;
    DoomedIsFree(s, p);
  }

  lemma DoomedLater(s: State, a: Action, timeout: nat, p: string)
    requires Enabled(s, a, timeout) && Doomed(s, p) && s.loop.Picked? == false
    requires a.ASendSingle? || a.AJoin? || a.ATake? || a.ASend? || a.AFinish?
    ensures Doomed(Step(s, a, timeout), p)
  {
    hide Count, AddMember, TakenFrom, TimedOutIds;
  }

  lemma DoomedWatch(s: State, taken: Taken, timeout: nat, now: nat, p: string)
    requires Doomed(s, p)
    ensures s.dog.Resting? ==> Doomed(Watch(s, taken, timeout), p)
    ensures s.dog.Requeue? ==> Doomed(Push(s), p)
    ensures Doomed(s.(now := now), p)
  {
    hide TimedOutIds;
  }

  lemma DoomedRollBack(s: State, order: seq<string>, p: string)
    requires Inv(s) && Doomed(s, p) && s.dog.Took? && forall q :: Count(order, q) == TakenCount(s.dog.taken, q)
    ensures Doomed(RollBack(s, order), p)
  {
    hide Count, TakenCount, PendingCount, UnassumeAll, HoldersAgree, RecordsRight, WaitingIsFree, OnePlace;
    DoomedIsFree(s, p);
    RollBackOrder(s, order);
    UnassumeAllEffect(s.cache, order);
    assert p !in order;
    CountNone(order, p);
  }

  lemma {:induction false} CountNone(xs: seq<string>, p: string)
    requires p !in xs
    ensures Count(xs, p) == 0
  {
    if xs != [] {
      CountNone(xs[..|xs| - 1], p);
    }
  }

  lemma DoomedPutPod(s: State, pod: C.Pod, admitted: bool, p: string)
    requires Doomed(s, p) && pod.name != p
    ensures Doomed(PutPod(s, pod, admitted), p)
  {
    hide Count;
  }

  lemma DoomedDrops(s: State, q: string, p: string)
    requires Inv(s) && Doomed(s, p) && q != p
    ensures Doomed(DropPod(s, q), p) && Doomed(TakeOff(s, q), p)
  {
    hide Count, Inv, C.Minus;
  }

  lemma DoomedDropNode(s: State, n: string, p: string)
    requires Inv(s) && Doomed(s, p) && p !in C.Placed(s.cache, n)
    ensures Doomed(DropNode(s, n), p)
  {
    hide Count, Inv;
  }

  lemma DoomedOutside(s: State, a: Action, timeout: nat, p: string)
    requires Inv(s) && Doomed(s, p) && Outside(a) && !a.Disturb? && Spares(s, a, p)
    ensures Doomed(Step(s, a, timeout), p)
  {
    hide Count, Inv, PutPod, DropPod, TakeOff, DropNode;
    match a
    case APutPod(pod, admitted) => DoomedPutPod(s, pod, admitted, p);
    case ADropPod(q) => DoomedDrops(s, q, p);
    case ATakeOff(q) => DoomedDrops(s, q, p);
    case ADropNode(n) => DoomedDropNode(s, n, p);
    case APutNode(_) =>
  }

  lemma StepKeepsDoomed(s: State, a: Action, timeout: nat, p: string)
    requires Inv(s) && Doomed(s, p) && Enabled(s, a, timeout) && (Outside(a) ==> Allowed(s, a)) && Spares(s, a, p)
    ensures Doomed(Step(s, a, timeout), p)
  {
    hide Inv, Doomed, Holds, Waits, TakenFrom, TimedOutIds;
    hide Pick, GiveUp, PutBack, Forget, AssumeOn, SendSingle, Join, TakeFull, Send, Watch, RollBack, Push;
    hide DropPod, DropNode, TakeOff, PutPod;
    if Outside(a) {
      DoomedOutside(s, a, timeout, p);
    } else {
      match a
      case APick(q) => DoomedPick(s, q, p);
      case AForget(q) => DoomedForget(s, q, p);
      case AGiveUp => DoomedPicked(s, "", p);
      case APutBack => DoomedPicked(s, "", p);
      case AAssume(n) => DoomedPicked(s, n, p);
      case AWatch(taken) => DoomedWatch(s, taken, timeout, 0, p);
      case APush => DoomedWatch(s, [], timeout, 0, p);
      case ATick(now) => DoomedWatch(s, [], timeout, now, p);
      case ARollBack(order) => DoomedRollBack(s, order, p);
      case _ => DoomedLater(s, a, timeout, p);
    }
  }

  /** A doomed pod stays unplaced, is in no gang and is never assigned, through every run whose calls are not about it. */
  lemma {:induction false} DoomedForever(s: State, run: seq<Action>, timeout: nat, p: string)
    requires Inv(s) && Doomed(s, p) && Runs(s, run, timeout) && Orderly(s, run, timeout) && SparesAll(s, run, timeout, p)
    ensures var t := Run(s, run, timeout);
            Doomed(t, p) && Free(t.cache, p) && p !in t.settled && Holds(t, p) == 0
    decreases |run|
  {
    hide Inv, Doomed, Step, Enabled, Holds, Waits;
    DoomedIsFree(s, p);
    if run != [] {
      StepKeepsDoomed(s, run[0], timeout, p);
      if Outside(run[0]) {
        OutsideExactly(s, run[0], timeout);
      } else {
        StepKeepsInv(s, run[0], timeout);
      }
      DoomedForever(Step(s, run[0], timeout), run[1..], timeout, p);
    }
  }

  /** The pod of the run to a full gang, given another priority while it is queued: it is never scheduled. */
  lemma RaisedPriorityIsLost(run: seq<Action>, timeout: nat)
    requires var s := PutPod(QUEUED, POD.(priority := 1), true);
             Runs(s, run, timeout) && Orderly(s, run, timeout) && SparesAll(s, run, timeout, "p")
    ensures var t := Run(PutPod(QUEUED, POD.(priority := 1), true), run, timeout);
            Free(t.cache, "p") && "p" !in t.settled && Holds(t, "p") == 0
  {
    hide Inv, Doomed, Step, Run, Runs, Orderly, SparesAll, Holds, PutPod;
    QueuedInv(timeout);
    NewPriorityDoomsExactly(QUEUED, POD.(priority := 1), true);
    DoomedForever(PutPod(QUEUED, POD.(priority := 1), true), run, timeout, "p");
  }

  lemma QueuedInv(timeout: nat)
    ensures Inv(QUEUED)
  {
    hide Inv, Step;
    InitialInv();
    FirstSteps(timeout);
    OutsideExactly(INITIAL, APutNode(NODE), timeout);
    OutsideExactly(KNOWN, APutPod(POD, true), timeout);
  }
}
