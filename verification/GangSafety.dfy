/** Safety of whole runs of the gang protocol. */
module GangSafety {
  import opened Wrappers
  import C = SchedulerCache
  import opened GangStore
  import opened GangProtocol
  import opened GangWhole
  import opened GangPlaces

  // ---------- Steps of the loop and the watchdog ----------

  lemma {:induction false} UnassumeAllKeepsNames(c: C.Cache, order: seq<string>)
    ensures UnassumeAll(c, order).0.pods.Keys == c.pods.Keys
  {
    if order != [] {
      UnassumeAllKeepsNames(c, order[..|order| - 1]);
    }
  }

  lemma StepKeepsNames(s: State, a: Action, timeout: nat)
    requires Enabled(s, a, timeout) && !Outside(a)
    ensures Step(s, a, timeout).cache.pods.Keys == s.cache.pods.Keys
  {
    hide AddMember, UnassumeAll, TimedOutIds;
    if a.ARollBack? {
      UnassumeAllKeepsNames(s.cache, a.order);
    }
  }

  lemma StepKeepsOnePlace(s: State, a: Action, timeout: nat)
    requires Inv(s) && Enabled(s, a, timeout) && !Outside(a)
    ensures OnePlace(Step(s, a, timeout))
  {
    hide Places, Step, Enabled, WaitingIsFree, RecordsRight, HoldersAgree;
    var t := Step(s, a, timeout);
    StepKeepsNames(s, a, timeout);
    forall p
      ensures Places(t, p) <= 1 && (p in t.cache.pods ==> Places(t, p) == 1)
    {
      StepMoves(s, a, timeout, p);
    }
  }

  /** What else the invariant says. */
  ghost predicate Agreement(s: State) {
    WaitingIsFree(s) && RecordsRight(s) && HoldersAgree(s.cache, s)
  }

  lemma PickKeeps(s: State, q: string)
    requires Inv(s) && s.loop.Idle? && q in s.queue
    ensures Agreement(Pick(s, q))
  {
    hide Free, PlacedOn, Count, OnePlace;
    forall p
      ensures Waits(Pick(s, q), p) <= Waits(s, p)
    {
    }
  }

  lemma GiveUpKeeps(s: State)
    requires Inv(s) && s.loop.Picked?
    ensures Agreement(GiveUp(s)) && Agreement(PutBack(s))
  {
    hide PlacedOn, Count, OnePlace;
    assert s.loop.pod in s.cache.pods ==> Free(s.cache, s.loop.pod) by {
      assert Waits(s, s.loop.pod) > 0;
    }
    forall p
      ensures Waits(GiveUp(s), p) <= Waits(s, p) && Waits(PutBack(s), p) <= Waits(s, p)
    {
    }
  }

  lemma ForgetKeeps(s: State, q: string)
    requires Inv(s) && q in s.queue
    ensures Agreement(Forget(s, q))
  {
    hide PlacedOn, Count, OnePlace;
    assert q in s.cache.pods ==> Free(s.cache, q) by {
      assert Waits(s, q) > 0;
    }
    forall p
      ensures Waits(Forget(s, q), p) <= Waits(s, p)
    {
    }
  }

  lemma AssumeKeeps(s: State, n: string)
    requires Inv(s) && s.loop.Picked?
    ensures Agreement(AssumeOn(s, n))
  {
    hide PendingCount, TakenCount, Count, C.Plus, GangsAgree, DogAgrees, Waits;
    var q, t := s.loop.pod, AssumeOn(s, n);
    PickedWaits(s);
    assert Places(s, q) <= 1;
    AssumeHolders(s, n);
    forall p
      ensures Waits(t, p) <= Waits(s, p) && (t.loop.Assumed? ==> Waits(t, q) == 0)
    {
      AssumeWaits(s, n, p);
      AssumeWaits(s, n, q);
    }
  }

  lemma AssumeWaits(s: State, n: string, p: string)
    requires s.loop.Picked?
    ensures Waits(AssumeOn(s, n), p) == Waits(s, p) - if s.loop.pod == p then 1 else 0
  {
    hide Count, C.Assume;
  }

  lemma AssumeHolders(s: State, n: string)
    requires Inv(s) && s.loop.Picked?
    ensures HoldersAgree(AssumeOn(s, n).cache, s)
  {
    hide Holds, HoldersAgree, RecordsRight, WaitingIsFree, C.Plus;
    PickedWaits(s);
    assert Places(s, s.loop.pod) <= 1;
    HoldersOnly(s, AssumeOn(s, n).cache);
  }

  lemma SingleKeeps(s: State)
    requires Inv(s) && s.loop.Assumed?
    ensures Agreement(SendSingle(s))
  {
    hide Count, OnePlace;
    forall p
      ensures Waits(SendSingle(s), p) == Waits(s, p)
    {
    }
  }

  lemma JoinKeeps(s: State, g: C.Gang)
    requires Inv(s) && s.loop.Assumed?
    ensures Agreement(Join(s, g))
  {
    hide PlacedOn, Free, Count, OnePlace;
    forall p
      ensures Waits(Join(s, g), p) == Waits(s, p)
    {
    }
  }

  lemma TakeKeeps(s: State)
    requires Inv(s) && s.loop.Full?
    ensures Agreement(TakeFull(s))
  {
    hide PlacedOn, Free, Count, OnePlace;
    forall p
      ensures Waits(TakeFull(s), p) == Waits(s, p)
    {
    }
  }

  lemma SendKeeps(s: State, q: string)
    requires Inv(s) && s.loop.Sending? && q in s.loop.rest
    ensures Agreement(Send(s, q))
  {
    hide Count, OnePlace;
    forall p
      ensures Waits(Send(s, q), p) == Waits(s, p)
    {
    }
  }

  lemma {:induction false} TakenAgree(c: C.Cache, taken: Taken, g: Store, ids: set<string>)
    requires GangsAgree(c, g) && TakenFrom(taken, g, ids)
    ensures DogAgrees(c, Took(taken))
    decreases |taken|
  {
    hide PlacedOn;
    if taken != [] {
      var last := taken[|taken| - 1];
      TakenAgree(c, taken[..|taken| - 1], g, ids - {last.0});
    }
  }

  lemma WatchKeeps(s: State, taken: Taken, timeout: nat)
    requires Inv(s) && s.dog.Resting? && TakenFrom(taken, s.gangs, TimedOutIds(s.gangs, s.now, timeout))
    ensures Agreement(Watch(s, taken, timeout))
  {
    hide PlacedOn, Free, Count, OnePlace, TakenFrom, TimedOutIds;
    TakenAgree(s.cache, taken, s.gangs, TimedOutIds(s.gangs, s.now, timeout));
    forall p
      ensures Waits(Watch(s, taken, timeout), p) == Waits(s, p)
    {
    }
  }

  lemma PushKeeps(s: State)
    requires Inv(s) && s.dog.Requeue?
    ensures Agreement(Push(s))
  {
    hide PlacedOn, Free, OnePlace;
    forall p
      ensures Waits(Push(s), p) == Waits(s, p)
    {
    }
  }

  /** What is rolled back was held for roll-back and nowhere else. */
  lemma RolledBackOnce(s: State, order: seq<string>, p: string)
    requires Inv(s) && s.dog.Took? && forall p :: Count(order, p) == TakenCount(s.dog.taken, p)
    requires p in order
    ensures TakenCount(s.dog.taken, p) == 1 && Waits(s, p) == PendingCount(s.gangs, p) == LoopHolds(s.loop, p) == 0
    ensures p !in s.settled && p !in s.dropped
  {
    hide PendingCount, TakenCount, Count, WaitingIsFree, RecordsRight, HoldersAgree;
    var i :| 0 <= i < |order| && order[i] == p;
    CountMember(order, i);
    assert Places(s, p) <= 1;
  }

  lemma RollBackKeeps(s: State, order: seq<string>)
    requires Inv(s) && s.dog.Took? && forall p :: Count(order, p) == TakenCount(s.dog.taken, p)
    ensures Agreement(RollBack(s, order))
  {
    hide PendingCount, TakenCount, Count, UnassumeAll, Waits, Inv;
    RollBackOrder(s, order);
    UnassumeAllEffect(s.cache, order);
    RollBackWaits(s, order);
    RollBackHolders(s, order);
    assert RecordsRight(RollBack(s, order)) by {
      InvParts(s);
      forall p | p in order
        ensures p !in s.settled && p !in s.dropped
      {
        RolledBackOnce(s, order, p);
      }
    }
  }

  lemma InvParts(s: State)
    requires Inv(s)
    ensures OnePlace(s) && WaitingIsFree(s) && RecordsRight(s) && HoldersAgree(s.cache, s)
  {
  }

  lemma RollBackWaits(s: State, order: seq<string>)
    requires Inv(s) && s.dog.Took? && forall p :: Count(order, p) == TakenCount(s.dog.taken, p)
    ensures WaitingIsFree(RollBack(s, order))
  {
    hide PendingCount, TakenCount, Count, UnassumeAll, OnePlace, RecordsRight, HoldersAgree;
    RollBackOrder(s, order);
    UnassumeAllEffect(s.cache, order);
    var t := RollBack(s, order);
    forall p | Waits(t, p) > 0 && p in t.cache.pods
      ensures Free(t.cache, p)
    {
      if Count(order, p) > 0 {
        CountPositive(order, p);
      } else {
        assert Waits(s, p) > 0;
      }
    }
  }

  lemma RollBackHolders(s: State, order: seq<string>)
    requires Inv(s) && s.dog.Took? && forall p :: Count(order, p) == TakenCount(s.dog.taken, p)
    ensures HoldersAgree(RollBack(s, order).cache, RollBack(s, order))
  {
    hide PendingCount, TakenCount, Count, UnassumeAll, OnePlace, RecordsRight, WaitingIsFree;
    RollBackOrder(s, order);
    UnassumeAllEffect(s.cache, order);
    var t := RollBack(s, order);
    var without := s.(dog := Resting);
    forall p, n | Holds(without, p) > 0 && PlacedOn(s.cache, p, n)
      ensures PlacedOn(t.cache, p, n)
    {
      if p in order {
        RolledBackOnce(s, order, p);
      }
    }
    HoldersOnly(without, t.cache);
  }

  lemma {:induction false} CountPositive(xs: seq<string>, p: string)
    requires Count(xs, p) > 0
    ensures p in xs
  {
    if xs[|xs| - 1] != p {
      CountPositive(xs[..|xs| - 1], p);
    }
  }

  /** The loop and the watchdog keep the invariant. */
  lemma StepKeepsInv(s: State, a: Action, timeout: nat)
    requires Inv(s) && Enabled(s, a, timeout) && !Outside(a)
    ensures Inv(Step(s, a, timeout))
  {
    hide OnePlace, WaitingIsFree, RecordsRight, HoldersAgree, TakenFrom, TimedOutIds;
    hide Pick, GiveUp, PutBack, Forget, AssumeOn, SendSingle, Join, TakeFull, Send, Watch, RollBack, Push;
    StepKeepsOnePlace(s, a, timeout);
    match a
    case APick(q) => PickKeeps(s, q);
    case AGiveUp => GiveUpKeeps(s);
    case APutBack => GiveUpKeeps(s);
    case AForget(q) => ForgetKeeps(s, q);
    case AAssume(n) => AssumeKeeps(s, n);
    case ASendSingle => SingleKeeps(s);
    case AJoin => JoinKeeps(s, s.loop.gang.value);
    case ATake => TakeKeeps(s);
    case ASend(q) => SendKeeps(s, q);
    case AWatch(taken) => WatchKeeps(s, taken, timeout);
    case ARollBack(order) => RollBackKeeps(s, order);
    case APush => PushKeeps(s);
    case AFinish => FinishKeeps(s);
    case ATick(now) => TickKeeps(s, now);
  }

  lemma FinishKeeps(s: State)
    requires Inv(s) && s.loop.Sending?
    ensures Agreement(s.(loop := Idle))
  {
    hide PlacedOn, Free, Count, OnePlace;
    forall p
      ensures Waits(s.(loop := Idle), p) == Waits(s, p)
    {
    }
  }

  lemma TickKeeps(s: State, now: nat)
    requires Inv(s)
    ensures Agreement(s.(now := now))
  {
    hide PlacedOn, Free, Count, OnePlace;
    forall p
      ensures Waits(s.(now := now), p) == Waits(s, p)
    {
    }
  }

  // ---------- Calls from outside ----------

  /** No pod that is held loses its place; a pod that waits is not placed; a name that waits is not added. */
  ghost predicate Allowed(s: State, a: Action) {
    match a
    case ADropPod(p) => Holds(s, p) == 0
    case ATakeOff(p) => Holds(s, p) == 0
    case ADropNode(n) => forall p :: p in C.Placed(s.cache, n) ==> Holds(s, p) == 0
    case APutPod(pod, _) =>
      if pod.name !in s.cache.pods then Waits(s, pod.name) == 0
      else
        && (Holds(s, pod.name) > 0 ==> pod.scheduled == s.cache.pods[pod.name].scheduled)
        && (Waits(s, pod.name) > 0 ==> pod.scheduled.None?)
    case Disturb(_, _, _) => false
    case _ => true
  }

  /** Who is in exactly which kind of place. */
  lemma PlaceOf(s: State, p: string)
    requires Inv(s)
    ensures Holds(s, p) > 0 ==> Waits(s, p) == 0 && p !in s.settled && p !in s.dropped && Placed(s.cache, p)
    ensures Waits(s, p) > 0 ==> Waits(s, p) == 1 && p !in s.settled && p !in s.dropped
    ensures p in s.cache.pods && s.cache.pods[p].scheduled.Some? && Holds(s, p) == 0 ==> p in s.settled && Waits(s, p) == 0
    ensures p in s.cache.pods && s.cache.pods[p].scheduled.None? && Waits(s, p) == 0 ==> p in s.dropped
  {
    hide PendingCount, TakenCount, Count, Holds, Waits, GangsAgree, LoopAgrees, DogAgrees;
    assert Places(s, p) <= 1 && (p in s.cache.pods ==> Places(s, p) == 1);
    if Holds(s, p) > 0 {
      var n := RecordedNode(s, p);
    }
    if Waits(s, p) > 0 && p in s.cache.pods {
      assert Free(s.cache, p);
    }
  }

  lemma SameHolds(s: State, t: State, p: string)
    requires t.gangs == s.gangs && t.loop == s.loop && t.dog == s.dog
    ensures Holds(t, p) == Holds(s, p) && Waits(t, p) - t.queue[p] == Waits(s, p) - s.queue[p]
    ensures forall c :: HoldersAgree(c, t) <==> HoldersAgree(c, s)
  {
  }

  lemma DropPodKeeps(s: State, q: string)
    requires Inv(s) && Holds(s, q) == 0
    ensures Inv(DropPod(s, q))
  {
    hide PendingCount, TakenCount, Count, Holds, Waits, GangsAgree, LoopAgrees, DogAgrees, C.Minus, Inv;
    var t := DropPod(s, q);
    InvParts(s);
    HoldersOnly(s, t.cache);
    forall p
      ensures Holds(t, p) == Holds(s, p) && Waits(t, p) == Waits(s, p)
      ensures Places(t, p) <= 1 && (p in t.cache.pods ==> Places(t, p) == 1)
    {
      SameHolds(s, t, p);
      assert Places(s, p) <= 1 && (p in s.cache.pods ==> Places(s, p) == 1);
    }
    SameHolds(s, t, q);
    assert WaitingIsFree(t);
    assert Inv(t) by { InvOf(t); }
  }

  lemma InvOf(s: State)
    requires OnePlace(s) && WaitingIsFree(s) && RecordsRight(s) && HoldersAgree(s.cache, s)
    ensures Inv(s)
  {
  }

  lemma TakeOffKeeps(s: State, q: string)
    requires Inv(s) && Holds(s, q) == 0
    ensures Inv(TakeOff(s, q))
  {
    hide PendingCount, TakenCount, Count, Holds, Waits, GangsAgree, LoopAgrees, DogAgrees, C.Minus, Inv;
    var t := TakeOff(s, q);
    InvParts(s);
    PlaceOf(s, q);
    HoldersOnly(s, t.cache);
    forall p
      ensures Places(t, p) <= 1 && (p in t.cache.pods ==> Places(t, p) == 1)
      ensures Waits(t, p) > 0 && p in t.cache.pods ==> Free(t.cache, p)
    {
      SameHolds(s, t, p);
      assert Places(s, p) <= 1 && (p in s.cache.pods ==> Places(s, p) == 1);
    }
    SameHolds(s, t, q);
    InvOf(t);
  }

  lemma DropNodeKeeps(s: State, n: string)
    requires Inv(s) && forall p :: p in C.Placed(s.cache, n) ==> Holds(s, p) == 0
    ensures Inv(DropNode(s, n))
  {
    hide PendingCount, TakenCount, Count, Holds, Waits, GangsAgree, LoopAgrees, DogAgrees, Inv;
    var t := DropNode(s, n);
    InvParts(s);
    HoldersOnly(s, t.cache);
    forall p
      ensures Places(t, p) <= 1 && (p in t.cache.pods ==> Places(t, p) == 1)
      ensures Waits(t, p) > 0 && p in t.cache.pods ==> Free(t.cache, p)
    {
      SameHolds(s, t, p);
      PlaceOf(s, p);
      assert Places(s, p) <= 1 && (p in s.cache.pods ==> Places(s, p) == 1);
    }
    SameHolds(s, t, n);
    InvOf(t);
  }

  lemma PutPodPlaces(s: State, pod: C.Pod, admitted: bool, p: string)
    requires Inv(s) && Allowed(s, APutPod(pod, admitted))
    ensures var t := PutPod(s, pod, admitted);
            && Places(t, p) <= 1 && (p in t.cache.pods ==> Places(t, p) == 1)
            && (Waits(t, p) > 0 && p in t.cache.pods ==> Free(t.cache, p))
  {
    hide Holds, Waits, HoldersAgree;
    SameHolds(s, PutPod(s, pod, admitted), p);
    PlaceOf(s, p);
    assert Places(s, p) <= 1 && (p in s.cache.pods ==> Places(s, p) == 1);
  }

  lemma PutPodRecords(s: State, pod: C.Pod, admitted: bool)
    requires Inv(s) && Allowed(s, APutPod(pod, admitted))
    ensures RecordsRight(PutPod(s, pod, admitted)) && HoldersAgree(PutPod(s, pod, admitted).cache, s)
  {
    hide Holds, Waits, GangsAgree, LoopAgrees, DogAgrees, OnePlace, WaitingIsFree;
    PlaceOf(s, pod.name);
    HoldersOnly(s, PutPod(s, pod, admitted).cache);
  }

  lemma PutPodKeeps(s: State, pod: C.Pod, admitted: bool)
    requires Inv(s) && Allowed(s, APutPod(pod, admitted))
    ensures Inv(PutPod(s, pod, admitted))
  {
    hide Places, Waits, HoldersAgree, Allowed, RecordsRight, Inv;
    var t := PutPod(s, pod, admitted);
    forall p
      ensures Places(t, p) <= 1 && (p in t.cache.pods ==> Places(t, p) == 1)
      ensures Waits(t, p) > 0 && p in t.cache.pods ==> Free(t.cache, p)
    {
      PutPodPlaces(s, pod, admitted, p);
    }
    PutPodRecords(s, pod, admitted);
    SameHolds(s, t, pod.name);
    InvOf(t);
  }

  lemma PutNodeKeeps(s: State, n: C.Node)
    requires Inv(s)
    ensures Inv(s.(cache := C.UpdateNode(s.cache, n)))
  {
    hide PendingCount, TakenCount, Count, Holds, Waits, GangsAgree, LoopAgrees, DogAgrees, Inv;
    var t := s.(cache := C.UpdateNode(s.cache, n));
    InvParts(s);
    HoldersOnly(s, t.cache);
    forall p
      ensures Places(t, p) == Places(s, p) && Waits(t, p) == Waits(s, p)
    {
      SameHolds(s, t, p);
    }
    SameHolds(s, t, n.name);
    InvOf(t);
  }

  // ---------- Exactly when a call from outside is safe ----------

  /** Removing a pod leaves the holders in agreement exactly when nobody holds it; so does taking it off. */
  lemma PodExactly(s: State, q: string)
    requires Inv(s)
    ensures HoldersAgree(DropPod(s, q).cache, s) <==> Holds(s, q) == 0
    ensures HoldersAgree(TakeOff(s, q).cache, s) <==> Holds(s, q) == 0
  {
    hide Holds, HoldersAgree, C.Minus;
    if Holds(s, q) > 0 {
      PlaceOf(s, q);
      var n := RecordedNode(s, q);
    } else {
      HoldersOnly(s, DropPod(s, q).cache);
      HoldersOnly(s, TakeOff(s, q).cache);
    }
  }

  /** Removing a node does exactly when no held pod is on it. */
  lemma NodeExactly(s: State, n: string)
    requires Inv(s)
    ensures HoldersAgree(DropNode(s, n).cache, s) <==> forall p :: p in C.Placed(s.cache, n) ==> Holds(s, p) == 0
  {
    hide Holds, HoldersAgree;
    if p :| p in C.Placed(s.cache, n) && Holds(s, p) > 0 {
      var m := RecordedNode(s, p);
    } else {
      HoldersOnly(s, DropNode(s, n).cache);
    }
  }

  lemma PutPodExactly(s: State, pod: C.Pod, admitted: bool)
    requires Inv(s) && Inv(PutPod(s, pod, admitted))
    ensures Allowed(s, APutPod(pod, admitted))
  {
    hide Holds, Waits, GangsAgree, LoopAgrees, DogAgrees;
    var p, t := pod.name, PutPod(s, pod, admitted);
    SameHolds(s, t, p);
    assert Places(t, p) <= 1;
    if Holds(s, p) > 0 {
      var n := RecordedNode(s, p);
    }
  }

  /** A call from outside keeps the invariant exactly when it is allowed. */
  lemma OutsideExactly(s: State, a: Action, timeout: nat)
    requires Inv(s) && Outside(a) && !a.Disturb?
    ensures Inv(Step(s, a, timeout)) <==> Allowed(s, a)
  {
    hide Holds, Waits, Places, OnePlace, WaitingIsFree, RecordsRight, HoldersAgree, PutPod;
    match a
    case ADropPod(p) =>
      PodExactly(s, p);
      SameHolders(s, DropPod(s, p));
      if Holds(s, p) == 0 {
        DropPodKeeps(s, p);
      }
    case ATakeOff(p) =>
      PodExactly(s, p);
      SameHolders(s, TakeOff(s, p));
      if Holds(s, p) == 0 {
        TakeOffKeeps(s, p);
      }
    case ADropNode(n) =>
      NodeExactly(s, n);
      SameHolders(s, DropNode(s, n));
      if Allowed(s, a) {
        DropNodeKeeps(s, n);
      }
    case APutPod(pod, admitted) =>
      if Inv(PutPod(s, pod, admitted)) {
        PutPodExactly(s, pod, admitted);
      }
      if Allowed(s, a) {
        PutPodKeeps(s, pod, admitted);
      }
    case APutNode(n) =>
      PutNodeKeeps(s, n);
  }

  lemma SameHolders(s: State, t: State)
    requires t.gangs == s.gangs && t.loop == s.loop && t.dog == s.dog
    ensures HoldersAgree(t.cache, t) <==> HoldersAgree(t.cache, s)
  {
  }

  // ---------- Runs ----------

  /** Every call from outside is allowed where it happens. */
  ghost predicate Orderly(s: State, run: seq<Action>, timeout: nat)
    requires Runs(s, run, timeout)
    decreases |run|
  {
    run != [] ==> (Outside(run[0]) ==> Allowed(s, run[0])) && Orderly(Step(s, run[0], timeout), run[1..], timeout)
  }

  lemma {:induction false} RunKeepsInv(s: State, run: seq<Action>, timeout: nat)
    requires Inv(s) && Runs(s, run, timeout) && Orderly(s, run, timeout)
    ensures Inv(Run(s, run, timeout))
    decreases |run|
  {
    hide Inv, Step, Enabled;
    if run != [] {
      if Outside(run[0]) {
        OutsideExactly(s, run[0], timeout);
      } else {
        StepKeepsInv(s, run[0], timeout);
      }
      RunKeepsInv(Step(s, run[0], timeout), run[1..], timeout);
    }
  }

  lemma InitialInv()
    ensures Inv(INITIAL) && SizesRight(INITIAL) && SentRight(INITIAL) && BatchesRight(INITIAL)
  {
  }

  /** From the empty start, over every run whose outside calls are allowed: every known pod is in exactly one
      place; waiting pods are unplaced; whoever holds a pod agrees with the cache on its node; and what was
      sent of gangs is exactly the whole gangs handed out, less the rest of the one being sent. */
  lemma EveryRunIsSafe(run: seq<Action>, timeout: nat)
    requires Runs(INITIAL, run, timeout) && Orderly(INITIAL, run, timeout)
    ensures var t := Run(INITIAL, run, timeout);
            Inv(t) && SizesRight(t) && SentRight(t) && BatchesRight(t)
  {
    hide Step, Enabled;
    InitialInv();
    RunKeepsInv(INITIAL, run, timeout);
    GangsGoOutWhole(INITIAL, run, timeout);
  }

  /** When a gang is handed out after such a run, it has exactly its size, and each member is placed on the
      node it is handed out with. */
  lemma HandedOutPlaced(run: seq<Action>, timeout: nat)
    requires Runs(INITIAL, run, timeout) && Orderly(INITIAL, run, timeout) && Run(INITIAL, run, timeout).loop.Full?
    ensures var s := Run(INITIAL, run, timeout);
            var t := TakeFull(s);
            && |t.batches| == |s.batches| + 1
            && var b := t.batches[|s.batches|];
               && |b.members| == Max1(b.size) && t.loop == Sending(b.members)
               && forall p :: p in b.members ==> PlacedOn(t.cache, p, b.members[p])
  {
    EveryRunIsSafe(run, timeout);
  }

  /** And it stays so until its assignment is sent. */
  lemma SentPlaced(run: seq<Action>, timeout: nat, p: string)
    requires Runs(INITIAL, run, timeout) && Orderly(INITIAL, run, timeout) && Run(INITIAL, run, timeout).loop.Sending?
    requires p in Run(INITIAL, run, timeout).loop.rest
    ensures var s := Run(INITIAL, run, timeout);
            var t := Send(s, p);
            && t.sent == s.sent + [Assignment(p, s.loop.rest[p], true)] && PlacedOn(t.cache, p, s.loop.rest[p])
            && p in t.settled && Waits(t, p) == Holds(t, p) == 0
  {
    hide Holds, Waits;
    EveryRunIsSafe(run, timeout);
    var s := Run(INITIAL, run, timeout);
    SendKeepsInv(s, p, timeout);
    PlaceOf(Send(s, p), p);
    assert Places(Send(s, p), p) <= 1;
  }

  /** After every such run a pod without a gang is sent to the node it is placed on, and stays there. */
  lemma SinglePlaced(run: seq<Action>, timeout: nat)
    requires Runs(INITIAL, run, timeout) && Orderly(INITIAL, run, timeout)
    requires var s := Run(INITIAL, run, timeout); s.loop.Assumed? && s.loop.gang.None?
    ensures var s := Run(INITIAL, run, timeout);
            var t := SendSingle(s);
            && t.sent == s.sent + [Assignment(s.loop.pod, s.loop.node, false)] && PlacedOn(t.cache, s.loop.pod, s.loop.node)
            && s.loop.pod in t.settled && Waits(t, s.loop.pod) == Holds(t, s.loop.pod) == 0
  {
    hide Holds, Waits;
    EveryRunIsSafe(run, timeout);
    var s := Run(INITIAL, run, timeout);
    SingleKeepsInv(s, timeout);
    PlaceOf(SendSingle(s), s.loop.pod);
    assert Places(SendSingle(s), s.loop.pod) <= 1;
  }

  lemma SingleKeepsInv(s: State, timeout: nat)
    requires Inv(s) && s.loop.Assumed? && s.loop.gang.None?
    ensures Inv(SendSingle(s))
  {
    hide Inv;
    StepKeepsInv(s, ASendSingle, timeout);
  }

  lemma SendKeepsInv(s: State, p: string, timeout: nat)
    requires Inv(s) && s.loop.Sending? && p in s.loop.rest
    ensures Inv(Send(s, p))
  {
    hide Inv;
    StepKeepsInv(s, ASend(p), timeout);
  }

  // ---------- Settled pods ----------

  /** The call is not about this pod or its node. */
  predicate Spares(s: State, a: Action, p: string) {
    match a
    case APutPod(pod, _) => pod.name != p
    case ADropPod(q) => q != p
    case ATakeOff(q) => q != p
    case ADropNode(n) => p !in C.Placed(s.cache, n)
    case _ => true
  }

  /** The pod is settled in both states, on the same node. */
  predicate StillSettled(s: State, t: State, p: string) {
    p in t.settled && p in s.cache.pods && p in t.cache.pods && t.cache.pods[p].scheduled == s.cache.pods[p].scheduled
  }

  lemma AssumeSparesSettled(s: State, n: string, p: string)
    requires Inv(s) && s.loop.Picked? && p in s.settled
    ensures StillSettled(s, AssumeOn(s, n), p)
  {
    hide Holds, Waits, HoldersAgree, WaitingIsFree, C.Plus;
    PickedWaits(s);
    assert Places(s, p) <= 1;
  }

  lemma RollBackSparesSettled(s: State, order: seq<string>, p: string)
    requires Inv(s) && s.dog.Took? && (forall q :: Count(order, q) == TakenCount(s.dog.taken, q)) && p in s.settled
    ensures StillSettled(s, RollBack(s, order), p)
  {
    hide Holds, Waits, HoldersAgree, WaitingIsFree, UnassumeAll, OnePlace, Count, TakenCount;
    RollBackOrder(s, order);
    UnassumeAllEffect(s.cache, order);
    if p in order {
      RolledBackOnce(s, order, p);
    }
  }

  lemma OutsideSparesSettled(s: State, a: Action, timeout: nat, p: string)
    requires RecordsRight(s) && Outside(a) && !a.Disturb? && Spares(s, a, p) && p in s.settled
    ensures StillSettled(s, Step(s, a, timeout), p)
  {
    hide C.Minus, AssumeOn, RollBack, Join, TakeFull, Send, Watch, Pick, GiveUp, PutBack, Forget, SendSingle, Push;
  }

  lemma StepKeepsSettled(s: State, a: Action, timeout: nat, p: string)
    requires Inv(s) && Enabled(s, a, timeout) && (Outside(a) ==> Allowed(s, a)) && Spares(s, a, p) && p in s.settled
    ensures StillSettled(s, Step(s, a, timeout), p)
  {
    hide OnePlace, HoldersAgree, WaitingIsFree, AssumeOn, RollBack, PutPod, DropPod, TakeOff, DropNode, AddMember, TimedOutIds;
    if a.AAssume? {
      AssumeSparesSettled(s, a.node, p);
    } else if a.ARollBack? {
      RollBackSparesSettled(s, a.order, p);
    } else if Outside(a) {
      OutsideSparesSettled(s, a, timeout, p);
    }
  }

  lemma PickedWaits(s: State)
    requires s.loop.Picked?
    ensures Waits(s, s.loop.pod) > 0
  {
  }

  ghost predicate SparesAll(s: State, run: seq<Action>, timeout: nat, p: string)
    requires Runs(s, run, timeout)
    decreases |run|
  {
    run != [] ==> Spares(s, run[0], p) && SparesAll(Step(s, run[0], timeout), run[1..], timeout, p)
  }

  /** A pod that was sent keeps its node, and neither waits, joins a gang nor is rolled back, through every
      further run whose outside calls spare it. */
  lemma {:induction false} SettledStays(s: State, run: seq<Action>, timeout: nat, p: string)
    requires Inv(s) && p in s.settled && Runs(s, run, timeout) && Orderly(s, run, timeout) && SparesAll(s, run, timeout, p)
    ensures var t := Run(s, run, timeout);
            && p in t.settled && p in t.cache.pods && p in s.cache.pods
            && t.cache.pods[p].scheduled == s.cache.pods[p].scheduled && Waits(t, p) == Holds(t, p) == 0
    decreases |run|
  {
    hide Inv, Step, Enabled, Holds, Waits;
    SettledAlone(s, p);
    if run != [] {
      StepKeepsSettled(s, run[0], timeout, p);
      if Outside(run[0]) {
        OutsideExactly(s, run[0], timeout);
      } else {
        StepKeepsInv(s, run[0], timeout);
      }
      SettledStays(Step(s, run[0], timeout), run[1..], timeout, p);
    }
  }

  lemma SettledAlone(s: State, p: string)
    requires Inv(s) && p in s.settled
    ensures p in s.cache.pods && Waits(s, p) == Holds(s, p) == 0
  {
    hide Holds, Waits, HoldersAgree;
    assert Places(s, p) <= 1;
  }

  // ---------- The watchdog ----------

  /** The watchdog takes incomplete entries only, never the one the loop is about to take. */
  lemma WatchTakesIncomplete(s: State, taken: Taken, ids: set<string>, timeout: nat)
    requires SizesRight(s) && TakenFrom(taken, s.gangs, ids) && ids <= TimedOutIds(s.gangs, s.now, timeout)
    ensures forall i :: 0 <= i < |taken| ==>
      taken[i].0 in s.gangs && |taken[i].1| < s.gangs[taken[i].0].size && s.loop != Full(taken[i].0)
  {
    hide TakenFrom;
    forall i | 0 <= i < |taken|
      ensures taken[i].0 in s.gangs && |taken[i].1| < s.gangs[taken[i].0].size && s.loop != Full(taken[i].0)
    {
      TakenExactly(taken, s.gangs, ids, taken[i].0);
      assert TimedOut(s.gangs[taken[i].0], s.now, timeout);
    }
  }

  /** After every such run, rolling back frees each member of the taken gangs and has it queued again exactly
      once, and it is in no gang, hand or assignment of that round. */
  lemma RollBackReturnsMembers(run: seq<Action>, timeout: nat, order: seq<string>, p: string)
    requires Runs(INITIAL, run, timeout) && Orderly(INITIAL, run, timeout)
    requires var s := Run(INITIAL, run, timeout);
             s.dog.Took? && (forall q :: Count(order, q) == TakenCount(s.dog.taken, q)) && TakenCount(s.dog.taken, p) > 0
    ensures var t := RollBack(Run(INITIAL, run, timeout), order);
            && Free(t.cache, p) && Count(t.dog.pods, p) == 1 && t.queue[p] == 0
            && Holds(t, p) == 0 && p !in t.settled && p !in t.dropped
  {
    EveryRunIsSafe(run, timeout);
    RollBackReturns(Run(INITIAL, run, timeout), order, p);
  }

  lemma RollBackReturns(s: State, order: seq<string>, p: string)
    requires Inv(s) && s.dog.Took? && (forall q :: Count(order, q) == TakenCount(s.dog.taken, q)) && TakenCount(s.dog.taken, p) > 0
    ensures var t := RollBack(s, order);
            && Free(t.cache, p) && Count(t.dog.pods, p) == 1 && t.queue[p] == 0
            && Holds(t, p) == 0 && p !in t.settled && p !in t.dropped
  {
    hide PendingCount, TakenCount, Count, UnassumeAll, HoldersAgree, WaitingIsFree, RecordsRight;
    RollBackOrder(s, order);
    UnassumeAllEffect(s.cache, order);
    CountPositive(order, p);
    RolledBackOnce(s, order, p);
  }

  // ---------- A call that is not allowed ----------

  /** Removing a member of a full gang just before it is handed out, of whatever size: the gang goes out with a
      pod the cache no longer has. */
  lemma RemovedMemberGoesOut(s: State, p: string)
    requires SizesRight(s) && s.loop.Full? && p in s.gangs[s.loop.id].assumed
    ensures var t := TakeFull(DropPod(s, p));
            |t.batches| == |s.batches| + 1 && p in t.batches[|s.batches|].members && p !in t.cache.pods
  {
  }

  lemma FirstStep(s: State, a: Action, rest: seq<Action>, timeout: nat)
    requires Enabled(s, a, timeout) && Runs(Step(s, a, timeout), rest, timeout)
    requires (Outside(a) ==> Allowed(s, a)) && Orderly(Step(s, a, timeout), rest, timeout)
    ensures Runs(s, [a] + rest, timeout) && Orderly(s, [a] + rest, timeout)
    ensures Run(s, [a] + rest, timeout) == Run(Step(s, a, timeout), rest, timeout)
  {
    hide Step, Enabled, Allowed;
    assert ([a] + rest)[1..] == rest;
  }

  // One node and one pod, the only member of its gang.
  const NODE := C.Node("n", 0, C.Resources(0, 0))
  const POD := C.Pod("p", C.Resources(0, 0), 0, Some(C.Gang("g", 1)), 0, None)
  const KNOWN: State := INITIAL.(cache := C.Cache(map[], map["n" := NODE]))
  const QUEUED: State := KNOWN.(cache := C.Cache(map["p" := POD], map["n" := NODE]), queue := multiset{"p"},
                                asked := map["p" := 0])
  const CHOSEN: State := QUEUED.(queue := multiset{}, loop := Picked("p", POD.gang))
  const PLACED: State := CHOSEN.(cache := C.Cache(map["p" := POD.(scheduled := Some("n"))], map["n" := NODE]),
                                 loop := Assumed("p", "n", POD.gang))
  const FULL: State := PLACED.(gangs := map["g" := Entry(1, map["p" := "n"], 0)], loop := Full("g"))

  lemma FirstSteps(timeout: nat)
    ensures Step(INITIAL, APutNode(NODE), timeout) == KNOWN
    ensures Step(KNOWN, APutPod(POD, true), timeout) == QUEUED && Allowed(KNOWN, APutPod(POD, true))
    ensures Step(QUEUED, APick("p"), timeout) == CHOSEN
  {
  }

  lemma PlacingStep(timeout: nat)
    ensures Step(CHOSEN, AAssume("n"), timeout) == PLACED
  {
  }

  lemma JoiningStep(timeout: nat)
    ensures Step(PLACED, AJoin, timeout) == FULL
  {
  }

  lemma LastRun(timeout: nat)
    ensures var run := [AAssume("n"), AJoin];
            Runs(CHOSEN, run, timeout) && Orderly(CHOSEN, run, timeout) && Run(CHOSEN, run, timeout) == FULL
  {
    hide Runs, Orderly, Run, Step;
    PlacingStep(timeout);
    JoiningStep(timeout);
    NoSteps(FULL, timeout);
    FirstStep(PLACED, AJoin, [], timeout);
    assert [AJoin] + [] == [AJoin];
    FirstStep(CHOSEN, AAssume("n"), [AJoin], timeout);
    assert [AAssume("n")] + [AJoin] == [AAssume("n"), AJoin];
  }

  const TO_FULL: seq<Action> := [APutNode(NODE)] + ([APutPod(POD, true)] + ([APick("p")] + [AAssume("n"), AJoin]))

  /** A full gang is reached in an orderly run, so the removal above is possible. */
  lemma FullGangIsReached(timeout: nat)
    ensures Runs(INITIAL, TO_FULL, timeout) && Orderly(INITIAL, TO_FULL, timeout) && Run(INITIAL, TO_FULL, timeout) == FULL
    ensures SizesRight(FULL) && FULL.loop.Full? && "p" in FULL.gangs[FULL.loop.id].assumed
  {
    hide Runs, Orderly, Run, Step;
    FirstSteps(timeout);
    LastRun(timeout);
    FirstStep(QUEUED, APick("p"), [AAssume("n"), AJoin], timeout);
    FirstStep(KNOWN, APutPod(POD, true), [APick("p")] + [AAssume("n"), AJoin], timeout);
    FirstStep(INITIAL, APutNode(NODE), [APutPod(POD, true)] + ([APick("p")] + [AAssume("n"), AJoin]), timeout);
  }

  lemma NoSteps(s: State, timeout: nat)
    ensures Runs(s, [], timeout) && Orderly(s, [], timeout) && Run(s, [], timeout) == s
  {
  }
}
