/** Gang scheduling as a protocol: the scheduling loop and the timeout watchdog interleave at their
    lock sections, sharing the cache, the waiting pods and the gang store.

    Node choice and time are arbitrary.  The calls from outside are steps too: pods are added, replaced
    and removed, taken off their node, and nodes come and go.  `Disturb` is any change of cache and queue
    at all; that gangs go out whole holds even with it.
 */
module GangProtocol {
  import opened Wrappers
  import opened SchedulerCache
  import opened GangStore

  /** Where the scheduling loop stands between two lock sections. */
  datatype Loop =
    | Idle
    | Picked(pod: string, gang: Option<Gang>)
    | Assumed(pod: string, node: string, gang: Option<Gang>)
    | Full(id: string)
    | Sending(rest: map<string, string>)

  /** Where the watchdog stands. */
  datatype Dog = Resting | Took(taken: Taken) | Requeue(pods: seq<string>)

  datatype Assignment = Assignment(pod: string, node: string, gang: bool)

  /** A gang handed out, with the size its entry had recorded. */
  datatype Batch = Batch(id: string, size: nat, members: map<string, string>)

  /** `queue` holds the names waiting in any of the queues, `asked` the priority a name was last queued with.  The last four fields only record what happened:
      gangs handed out, assignments sent, known pods whose placement is final (assigned, or placed from
      outside) and known pods that nobody will schedule. */
  datatype State = State(cache: Cache, queue: multiset<string>, asked: map<string, nat>, gangs: Store, loop: Loop, dog: Dog,
                         now: nat, batches: seq<Batch>, sent: seq<Assignment>,
                         settled: set<string>, dropped: set<string>)

  const INITIAL := State(Cache(map[], map[]), multiset{}, map[], map[], Idle, Resting, 0, [], [], {}, {})

  // ---------- Counting ----------

  function In(m: map<string, string>, p: string): nat { if p in m then 1 else 0 }

  function Count(xs: seq<string>, p: string): nat {
    if xs == [] then 0 else Count(xs[..|xs| - 1], p) + if xs[|xs| - 1] == p then 1 else 0
  }

  function TakenCount(taken: Taken, p: string): nat {
    if taken == [] then 0 else TakenCount(taken[..|taken| - 1], p) + In(taken[|taken| - 1].1, p)
  }

  // ---------- Steps of the scheduling loop ----------

  function Dropped(s: State, p: string): set<string> { if p in s.cache.pods then s.dropped + {p} else s.dropped }

  function Settled(s: State, p: string): set<string> { if p in s.cache.pods then s.settled + {p} else s.settled }

  /** The pod's priority is not the one it was queued with. */
  predicate Outdated(s: State, p: string) {
    p in s.cache.pods && (p !in s.asked || s.asked[p] != s.cache.pods[p].priority)
  }

  /** A pod that is gone is passed over, and so is one with an outdated priority. */
  function Pick(s: State, p: string): State {
    s.(queue := s.queue - multiset{p},
       loop := if p in s.cache.pods && !Outdated(s, p) then Picked(p, s.cache.pods[p].gang) else Idle,
       dropped := if Outdated(s, p) then s.dropped + {p} else s.dropped)
  }

  /** Gone by the time no node was found to fit. */
  function GiveUp(s: State): State
    requires s.loop.Picked?
  {
    s.(loop := Idle)
  }

  /** No node fits for now; the pod goes back with the priority it was picked with. */
  function PutBack(s: State): State
    requires s.loop.Picked?
  {
    s.(loop := Idle, queue := s.queue + multiset{s.loop.pod})
  }

  /** A queue loses an entry, as the clean-up of unschedulable pods does. */
  function Forget(s: State, p: string): State {
    s.(queue := s.queue - multiset{p}, dropped := Dropped(s, p))
  }

  function AssumeOn(s: State, n: string): State
    requires s.loop.Picked?
  {
    var (c, ok) := Assume(s.cache, s.loop.pod, n);
    if ok then s.(cache := c, loop := Assumed(s.loop.pod, n, s.loop.gang))
    else s.(cache := c, loop := Idle, dropped := Dropped(s, s.loop.pod))
  }

  function SendSingle(s: State): State
    requires s.loop.Assumed?
  {
    s.(loop := Idle, sent := s.sent + [Assignment(s.loop.pod, s.loop.node, false)], settled := Settled(s, s.loop.pod))
  }

  function Join(s: State, g: Gang): State
    requires s.loop.Assumed?
  {
    var (gangs, full) := AddMember(s.gangs, g.id, g.size, s.loop.pod, s.loop.node, s.now);
    s.(gangs := gangs, loop := if full then Full(g.id) else Idle)
  }

  function TakeFull(s: State): State
    requires s.loop.Full?
  {
    var (gangs, members) := TakeAndClear(s.gangs, s.loop.id);
    if members.None? then s.(loop := Idle)
    else s.(gangs := gangs, loop := Sending(members.value),
            batches := s.batches + [Batch(s.loop.id, s.gangs[s.loop.id].size, members.value)])
  }

  function Send(s: State, p: string): State
    requires s.loop.Sending? && p in s.loop.rest
  {
    s.(loop := Sending(s.loop.rest - {p}), sent := s.sent + [Assignment(p, s.loop.rest[p], true)],
       settled := Settled(s, p))
  }

  // ---------- Steps of the watchdog ----------

  function Watch(s: State, taken: Taken, timeout: nat): State {
    s.(gangs := s.gangs - TimedOutIds(s.gangs, s.now, timeout), dog := if taken == [] then Resting else Took(taken))
  }

  /** Unassume in order; the pods that were indeed placed are to be queued again. */
  function UnassumeAll(c: Cache, order: seq<string>): (Cache, seq<string>) {
    if order == [] then (c, [])
    else
      var (c', requeue) := UnassumeAll(c, order[..|order| - 1]);
      var (c'', p) := Unassume(c', order[|order| - 1]);
      (c'', if p.Some? then requeue + [order[|order| - 1]] else requeue)
  }

  function RollBack(s: State, order: seq<string>): State {
    var (c, requeue) := UnassumeAll(s.cache, order);
    s.(cache := c, dog := Requeue(requeue),
       asked := s.asked + map p | p in requeue && p in s.cache.pods :: s.cache.pods[p].priority)
  }

  function Push(s: State): State
    requires s.dog.Requeue?
  {
    var n := |s.dog.pods|;
    if n == 0 then s.(dog := Resting)
    else s.(queue := s.queue + multiset{s.dog.pods[n - 1]}, dog := Requeue(s.dog.pods[..n - 1]))
  }

  // ---------- Calls from outside ----------

  function DropPod(s: State, p: string): State {
    s.(cache := RemovePod(s.cache, p), settled := s.settled - {p}, dropped := s.dropped - {p})
  }

  /** The pods on the node are taken off and queued, then the node goes. */
  function DropNode(s: State, n: string): State {
    s.(cache := RemoveCacheNode(s.cache, n), queue := s.queue + multiset(Placed(s.cache, n)),
       asked := s.asked + map p | p in Placed(s.cache, n) && p in s.cache.pods :: s.cache.pods[p].priority,
       settled := s.settled - Placed(s.cache, n))
  }

  /** Only a pod that was placed is queued. */
  function TakeOff(s: State, p: string): State {
    var (c, pod) := Unassume(s.cache, p);
    if pod.None? then s
    else s.(cache := c, queue := s.queue + multiset{p}, asked := s.asked[p := pod.value.priority], settled := s.settled - {p})
  }

  /** A pod is stored as given.  Unplaced, it is queued if it is new or was placed, unless a plugin keeps it
      out of the queue; otherwise no queue is touched. */
  function PutPod(s: State, pod: Pod, admitted: bool): State {
    var (p, was) := (pod.name, Lookup(s.cache, pod.name));
    var wasPlaced := was.Some? && was.value.scheduled.Some?;
    var s' := s.(cache := UpdatePod(s.cache, pod));
    if pod.scheduled.Some? then
      s'.(settled := if wasPlaced then s.settled else s.settled + {p}, dropped := s.dropped - {p})
    else if was.Some? && !wasPlaced then s'
    else if admitted then s'.(queue := s.queue + multiset{p}, asked := s.asked[p := pod.priority], settled := s.settled - {p})
    else s'.(settled := s.settled - {p}, dropped := s.dropped + {p})
  }

  // ---------- Runs ----------

  datatype Action =
    | APick(pod: string)
    | AGiveUp
    | APutBack
    | AForget(pod: string)
    | AAssume(node: string)
    | ASendSingle
    | AJoin
    | ATake
    | ASend(pod: string)
    | AFinish
    | AWatch(taken: Taken)
    | ARollBack(order: seq<string>)
    | APush
    | ATick(now: nat)
    | APutPod(info: Pod, admitted: bool)
    | ADropPod(pod: string)
    | ATakeOff(pod: string)
    | APutNode(update: Node)
    | ADropNode(node: string)
    | Disturb(cache: Cache, queue: multiset<string>, asked: map<string, nat>)

  ghost predicate Enabled(s: State, a: Action, timeout: nat) {
    match a
    case APick(p) => s.loop.Idle? && p in s.queue
    case AGiveUp => s.loop.Picked? && s.loop.pod !in s.cache.pods
    case APutBack => s.loop.Picked?
    case AForget(p) => p in s.queue
    case AAssume(_) => s.loop.Picked?
    case ASendSingle => s.loop.Assumed? && s.loop.gang.None?
    case AJoin => s.loop.Assumed? && s.loop.gang.Some?
    case ATake => s.loop.Full?
    case ASend(p) => s.loop.Sending? && p in s.loop.rest
    case AFinish => s.loop.Sending? && s.loop.rest == map[]
    case AWatch(taken) => s.dog.Resting? && TakenFrom(taken, s.gangs, TimedOutIds(s.gangs, s.now, timeout))
    case ARollBack(order) => s.dog.Took? && forall p :: Count(order, p) == TakenCount(s.dog.taken, p)
    case APush => s.dog.Requeue?
    case ATick(now) => now >= s.now
    case _ => true
  }

  ghost function Step(s: State, a: Action, timeout: nat): State
    requires Enabled(s, a, timeout)
  {
    match a
    case APick(p) => Pick(s, p)
    case AGiveUp => GiveUp(s)
    case APutBack => PutBack(s)
    case AForget(p) => Forget(s, p)
    case AAssume(n) => AssumeOn(s, n)
    case ASendSingle => SendSingle(s)
    case AJoin => Join(s, s.loop.gang.value)
    case ATake => TakeFull(s)
    case ASend(p) => Send(s, p)
    case AFinish => s.(loop := Idle)
    case AWatch(taken) => Watch(s, taken, timeout)
    case ARollBack(order) => RollBack(s, order)
    case APush => Push(s)
    case ATick(now) => s.(now := now)
    case APutPod(pod, admitted) => PutPod(s, pod, admitted)
    case ADropPod(p) => DropPod(s, p)
    case ATakeOff(p) => TakeOff(s, p)
    case APutNode(n) => s.(cache := UpdateNode(s.cache, n))
    case ADropNode(n) => DropNode(s, n)
    case Disturb(c, q, asked) => s.(cache := c, queue := q, asked := asked)
  }

  ghost predicate Runs(s: State, run: seq<Action>, timeout: nat)
    decreases |run|
  {
    run != [] ==> Enabled(s, run[0], timeout) && Runs(Step(s, run[0], timeout), run[1..], timeout)
  }

  ghost function Run(s: State, run: seq<Action>, timeout: nat): State
    requires Runs(s, run, timeout)
    decreases |run|
  {
    if run == [] then s else Run(Step(s, run[0], timeout), run[1..], timeout)
  }
}
