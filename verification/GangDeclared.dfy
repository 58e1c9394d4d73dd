/** Gangs as their pods declare them: a batch has the declared size and only declared members, and no member of a gang
    goes out alone. */
module GangDeclared {
  import opened Wrappers
  import C = SchedulerCache
  import opened GangStore
  import opened GangProtocol
  import opened GangWhole

  // ---------- One join ----------

  /** The first join records the size the pod declares and the time; later ones keep both and add the pod.  The gang is
      full exactly when the members reach the recorded size. */
  lemma JoinExactly(s: State, timeout: nat)
    requires Enabled(s, AJoin, timeout)
    ensures var (g, t) := (s.loop.gang.value, Step(s, AJoin, timeout));
            var members := (if g.id in s.gangs then s.gangs[g.id].assumed else map[])[s.loop.pod := s.loop.node];
            && g.id in t.gangs && t.gangs[g.id].assumed == members
            && (g.id !in s.gangs ==> t.gangs[g.id].size == g.size && t.gangs[g.id].createdAt == s.now)
            && (g.id in s.gangs ==> t.gangs[g.id].size == s.gangs[g.id].size && t.gangs[g.id].createdAt == s.gangs[g.id].createdAt)
            && (forall id :: id != g.id ==> (id in t.gangs <==> id in s.gangs) && (id in s.gangs ==> t.gangs[id] == s.gangs[id]))
            && (t.loop == Full(g.id) <==> |members| >= t.gangs[g.id].size) && (t.loop == Full(g.id) || t.loop == Idle)
  {
  }

  // ---------- Declared sizes ----------

  predicate SizedPods(c: C.Cache, id: string, size: nat) {
    forall p :: p in c.pods && c.pods[p].gang.Some? && c.pods[p].gang.value.id == id ==> c.pods[p].gang.value.size == size
  }

  predicate SizedGang(g: Option<C.Gang>, id: string, size: nat) {
    g.Some? && g.value.id == id ==> g.value.size == size
  }

  /** Whoever declares the gang declares this size. */
  predicate Sized(s: State, id: string, size: nat) {
    && SizedPods(s.cache, id, size)
    && (s.loop.Picked? || s.loop.Assumed? ==> SizedGang(s.loop.gang, id, size))
    && (id in s.gangs ==> s.gangs[id].size == size)
    && (forall i :: 0 <= i < |s.batches| && s.batches[i].id == id ==> s.batches[i].size == size)
  }

  /** A pod put in with the gang declares this size. */
  predicate SizedAction(a: Action, id: string, size: nat) {
    (a.APutPod? ==> SizedGang(a.info.gang, id, size)) && (a.Disturb? ==> SizedPods(a.cache, id, size))
  }

  /** Placing, freeing and removing pods leave what they declare alone. */
  predicate SameGangs(c: C.Cache, c': C.Cache) {
    forall p :: p in c'.pods ==> p in c.pods && c'.pods[p].gang == c.pods[p].gang
  }

  lemma {:induction false} UnassumeAllGangs(c: C.Cache, order: seq<string>)
    ensures SameGangs(c, UnassumeAll(c, order).0)
  {
    if order != [] {
      UnassumeAllGangs(c, order[..|order| - 1]);
    }
  }

  lemma CacheGangs(c: C.Cache, p: string, n: string, node: C.Node)
    ensures SameGangs(c, C.Assume(c, p, n).0) && SameGangs(c, C.Unassume(c, p).0) && SameGangs(c, C.RemovePod(c, p))
    ensures SameGangs(c, C.RemoveCacheNode(c, n)) && SameGangs(c, C.UpdateNode(c, node))
  {
    hide C.Plus, C.Minus;
  }

  lemma StepGangs(s: State, a: Action, timeout: nat)
    requires Enabled(s, a, timeout) && !a.APutPod? && !a.Disturb?
    ensures SameGangs(s.cache, Step(s, a, timeout).cache)
  {
    hide C.Assume, C.Unassume, C.RemovePod, C.RemoveCacheNode, C.UpdateNode, UnassumeAll, Step, Enabled;
    StepCache(s, a, timeout);
    match a
    case AAssume(n) => CacheGangs(s.cache, if s.loop.Picked? then s.loop.pod else "", n, NO_NODE);
    case ARollBack(order) => UnassumeAllGangs(s.cache, order);
    case ADropPod(p) => CacheGangs(s.cache, p, "", NO_NODE);
    case ATakeOff(p) => CacheGangs(s.cache, p, "", NO_NODE);
    case ADropNode(n) => CacheGangs(s.cache, "", n, NO_NODE);
    case APutNode(n) => CacheGangs(s.cache, "", "", n);
    case _ =>
  }

  const NO_NODE := C.Node("", 0, C.Resources(0, 0))

  lemma StepSizesCache(s: State, a: Action, timeout: nat, id: string, size: nat)
    requires Enabled(s, a, timeout) && SizedPods(s.cache, id, size) && SizedAction(a, id, size)
    ensures SizedPods(Step(s, a, timeout).cache, id, size)
  {
    hide Step, Enabled;
    if a.APutPod? || a.Disturb? {
      StepCache(s, a, timeout);
    } else {
      StepGangs(s, a, timeout);
    }
  }

  lemma StepSizesLoop(s: State, a: Action, timeout: nat, id: string, size: nat)
    requires Enabled(s, a, timeout) && Sized(s, id, size)
    ensures var h := Step(s, a, timeout).loop; h.Picked? || h.Assumed? ==> SizedGang(h.gang, id, size)
  {
    hide Step, Enabled;
    StepInHand(s, a, timeout);
  }

  lemma StepSizesStore(s: State, a: Action, timeout: nat, id: string, size: nat)
    requires Enabled(s, a, timeout) && Sized(s, id, size)
    ensures id in Step(s, a, timeout).gangs ==> Step(s, a, timeout).gangs[id].size == size
  {
    if a.AJoin? {
      hide Step;
      JoinExactly(s, timeout);
    } else if Noisy(a) {
      hide TakenFrom, TimedOutIds;
    } else {
      hide Step, Enabled;
      QuietStep(s, a, timeout);
    }
  }

  lemma StepSizesBatches(s: State, a: Action, timeout: nat, id: string, size: nat)
    requires Enabled(s, a, timeout) && Sized(s, id, size)
    ensures var b := Step(s, a, timeout).batches; forall i :: 0 <= i < |b| && b[i].id == id ==> b[i].size == size
  {
    if Noisy(a) {
      hide AddMember, TakenFrom, TimedOutIds;
    } else {
      hide Step, Enabled;
      QuietStep(s, a, timeout);
    }
  }

  ghost predicate AllSized(run: seq<Action>, id: string, size: nat) {
    forall i :: 0 <= i < |run| ==> SizedAction(run[i], id, size)
  }

  lemma {:induction false} RunSized(s: State, run: seq<Action>, timeout: nat, id: string, size: nat)
    requires Sized(s, id, size) && Runs(s, run, timeout) && AllSized(run, id, size)
    ensures Sized(Run(s, run, timeout), id, size)
    decreases |run|
  {
    hide Step, Enabled, SizedAction, SizedPods, SizedGang;
    if run != [] {
      StepSizesCache(s, run[0], timeout, id, size);
      StepSizesLoop(s, run[0], timeout, id, size);
      StepSizesStore(s, run[0], timeout, id, size);
      StepSizesBatches(s, run[0], timeout, id, size);
      RunSized(Step(s, run[0], timeout), run[1..], timeout, id, size);
    }
  }

  /** From the empty start, whatever else happens: if every pod put in with a gang's id declares the same size, every
      batch of that gang has exactly so many members. */
  lemma BatchesHaveDeclaredSize(run: seq<Action>, timeout: nat, id: string, size: nat, i: nat)
    requires Runs(INITIAL, run, timeout) && AllSized(run, id, size)
    requires i < |Run(INITIAL, run, timeout).batches| && Run(INITIAL, run, timeout).batches[i].id == id
    ensures |Run(INITIAL, run, timeout).batches[i].members| == Max1(size)
  {
    hide Step, Enabled, SizedAction;
    RunSized(INITIAL, run, timeout, id, size);
    GangsGoOutWhole(INITIAL, run, timeout);
  }

  // ---------- Declared members ----------

  type Declaration = string -> Option<C.Gang>

  predicate InGang(d: Declaration, p: string, id: string) { d(p).Some? && d(p).value.id == id }

  /** Everything in the state is as the pods declare it. */
  ghost predicate AsDeclared(s: State, d: Declaration) {
    && (forall p :: p in s.cache.pods ==> s.cache.pods[p].gang == d(p))
    && (s.loop.Picked? || s.loop.Assumed? ==> s.loop.gang == d(s.loop.pod))
    && (forall id, p :: id in s.gangs && p in s.gangs[id].assumed ==> InGang(d, p, id))
    && (forall i, p :: 0 <= i < |s.batches| && p in s.batches[i].members ==> InGang(d, p, s.batches[i].id))
    && (forall i :: 0 <= i < |s.sent| && !s.sent[i].gang ==> d(s.sent[i].pod).None?)
  }

  predicate DeclaredAction(a: Action, d: Declaration) {
    (a.APutPod? ==> a.info.gang == d(a.info.name)) && !a.Disturb?
  }

  lemma StepDeclaresCache(s: State, a: Action, timeout: nat, d: Declaration)
    requires Enabled(s, a, timeout) && AsDeclared(s, d) && DeclaredAction(a, d)
    ensures forall p :: p in Step(s, a, timeout).cache.pods ==> Step(s, a, timeout).cache.pods[p].gang == d(p)
  {
    hide Step, Enabled;
    if a.APutPod? {
      StepCache(s, a, timeout);
    } else {
      StepGangs(s, a, timeout);
    }
  }

  lemma StepDeclaresLoop(s: State, a: Action, timeout: nat, d: Declaration)
    requires Enabled(s, a, timeout) && AsDeclared(s, d)
    ensures var h := Step(s, a, timeout).loop; h.Picked? || h.Assumed? ==> h.gang == d(h.pod)
  {
    hide Step, Enabled, InGang;
    StepInHand(s, a, timeout);
  }

  lemma StepDeclaresStore(s: State, a: Action, timeout: nat, d: Declaration)
    requires Enabled(s, a, timeout) && AsDeclared(s, d)
    ensures var t := Step(s, a, timeout); forall id, p :: id in t.gangs && p in t.gangs[id].assumed ==> InGang(d, p, id)
  {
    if a.AJoin? {
      hide Step, InGang;
      JoinExactly(s, timeout);
      JoinerDeclares(s, d);
    } else if Noisy(a) {
      hide TakenFrom, TimedOutIds, InGang;
    } else {
      hide Step, Enabled, InGang;
      QuietStep(s, a, timeout);
    }
  }

  lemma JoinerDeclares(s: State, d: Declaration)
    requires AsDeclared(s, d) && s.loop.Assumed? && s.loop.gang.Some?
    ensures InGang(d, s.loop.pod, s.loop.gang.value.id)
  {
  }

  lemma StepDeclaresOut(s: State, a: Action, timeout: nat, d: Declaration)
    requires Enabled(s, a, timeout) && AsDeclared(s, d)
    ensures var t := Step(s, a, timeout);
            && (forall i, p :: 0 <= i < |t.batches| && p in t.batches[i].members ==> InGang(d, p, t.batches[i].id))
            && (forall i :: 0 <= i < |t.sent| && !t.sent[i].gang ==> d(t.sent[i].pod).None?)
  {
    if Noisy(a) {
      hide AddMember, TakenFrom, TimedOutIds, InGang;
    } else {
      hide Step, Enabled, InGang;
      QuietStep(s, a, timeout);
    }
  }

  ghost predicate AllDeclared(run: seq<Action>, d: Declaration) {
    forall i :: 0 <= i < |run| ==> DeclaredAction(run[i], d)
  }

  lemma {:induction false} RunDeclared(s: State, run: seq<Action>, timeout: nat, d: Declaration)
    requires AsDeclared(s, d) && Runs(s, run, timeout) && AllDeclared(run, d)
    ensures AsDeclared(Run(s, run, timeout), d)
    decreases |run|
  {
    hide Step, Enabled, DeclaredAction, InGang;
    if run != [] {
      StepDeclaresCache(s, run[0], timeout, d);
      StepDeclaresLoop(s, run[0], timeout, d);
      StepDeclaresStore(s, run[0], timeout, d);
      StepDeclaresOut(s, run[0], timeout, d);
      RunDeclared(Step(s, run[0], timeout), run[1..], timeout, d);
    }
  }

  /** From the empty start, with pods that stick to what they declare: a batch holds only pods of its gang, and a pod of
      a gang is never assigned on its own. */
  lemma NoMemberGoesOutAlone(run: seq<Action>, timeout: nat, d: Declaration)
    requires Runs(INITIAL, run, timeout) && AllDeclared(run, d)
    ensures var t := Run(INITIAL, run, timeout);
            && (forall i, p :: 0 <= i < |t.batches| && p in t.batches[i].members ==> InGang(d, p, t.batches[i].id))
            && (forall i :: 0 <= i < |t.sent| && d(t.sent[i].pod).Some? ==> t.sent[i].gang)
  {
    hide Step, Enabled, DeclaredAction;
    RunDeclared(INITIAL, run, timeout, d);
  }

  // ---------- The clock ----------

  /** The watchdog takes exactly the incomplete entries whose first join is longer ago than the timeout. */
  lemma WatchTakesExactly(s: State, taken: Taken, timeout: nat, id: string)
    requires Enabled(s, AWatch(taken), timeout)
    ensures (exists i :: 0 <= i < |taken| && taken[i].0 == id) <==>
            id in s.gangs && |s.gangs[id].assumed| < s.gangs[id].size && s.now > s.gangs[id].createdAt + timeout
    ensures var t := Step(s, AWatch(taken), timeout);
            id in t.gangs <==> id in s.gangs && !(exists i :: 0 <= i < |taken| && taken[i].0 == id)
  {
    TakenExactly(taken, s.gangs, TimedOutIds(s.gangs, s.now, timeout), id);
  }

  /** An entry keeps the time of its first join: a new one has the present time, an old one what it had. */
  lemma StepKeepsBirth(s: State, a: Action, timeout: nat, id: string)
    requires Enabled(s, a, timeout) && id in Step(s, a, timeout).gangs
    ensures Step(s, a, timeout).gangs[id].createdAt == if id in s.gangs then s.gangs[id].createdAt else s.now
    ensures id !in s.gangs ==> a.AJoin?
  {
    if a.AJoin? {
      hide Step;
      JoinExactly(s, timeout);
    } else if Noisy(a) {
      hide TakenFrom, TimedOutIds;
    } else {
      hide Step, Enabled;
      QuietStep(s, a, timeout);
    }
  }

  /** The entry is there in every state of the run. */
  ghost predicate Stays(s: State, run: seq<Action>, timeout: nat, id: string)
    requires Runs(s, run, timeout)
    decreases |run|
  {
    id in s.gangs && (run != [] ==> Stays(Step(s, run[0], timeout), run[1..], timeout, id))
  }

  lemma {:induction false} RunKeepsBirth(s: State, run: seq<Action>, timeout: nat, id: string)
    requires Runs(s, run, timeout) && Stays(s, run, timeout, id)
    ensures var t := Run(s, run, timeout); id in t.gangs && t.gangs[id].createdAt == s.gangs[id].createdAt
    decreases |run|
  {
    hide Step, Enabled;
    if run != [] {
      StepKeepsBirth(s, run[0], timeout, id);
      RunKeepsBirth(Step(s, run[0], timeout), run[1..], timeout, id);
    }
  }

  /** However many members join after the first, the watchdog takes the entry exactly when it is incomplete and the
      timeout has passed since the first join. */
  lemma JoinsDoNotExtend(s: State, run: seq<Action>, taken: Taken, timeout: nat)
    requires s.loop.Assumed? && s.loop.gang.Some? && s.loop.gang.value.id !in s.gangs
    requires var first := Step(s, AJoin, timeout);
             && Runs(first, run, timeout) && Stays(first, run, timeout, s.loop.gang.value.id)
             && Enabled(Run(first, run, timeout), AWatch(taken), timeout)
    ensures var (id, t) := (s.loop.gang.value.id, Run(Step(s, AJoin, timeout), run, timeout));
            && id in t.gangs
            && ((exists i :: 0 <= i < |taken| && taken[i].0 == id) <==>
                |t.gangs[id].assumed| < t.gangs[id].size && t.now > s.now + timeout)
  {
    hide Run, Runs, Stays, Step, TakenFrom;
    var id, first := s.loop.gang.value.id, Step(s, AJoin, timeout);
    JoinExactly(s, timeout);
    RunKeepsBirth(first, run, timeout, id);
    WatchTakesExactly(Run(first, run, timeout), taken, timeout, id);
  }
}
