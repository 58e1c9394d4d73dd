/** The protocol over an accounted cache: the counters stay right however loop, watchdog and calls interleave. */
module GangAccounts {
  import opened Wrappers
  import C = SchedulerCache
  import opened GangStore
  import opened GangProtocol
  import opened GangWhole
  import opened GangPlaces
  import opened GangSafety

  /** What the accounts ask of the calls from outside. */
  predicate Billed(s: State, a: Action) {
    match a
    case APutPod(pod, _) => C.Allowed(s.cache, C.UpdatePodOp(pod))
    case APutNode(n) => C.Allowed(s.cache, C.UpdateNodeOp(n))
    case Disturb(_, _, _) => false
    case _ => true
  }

  lemma {:induction false} UnassumeAllAccounts(c: C.Cache, order: seq<string>)
    requires C.Accounted(c)
    ensures C.Accounted(UnassumeAll(c, order).0)
  {
    hide C.Accounted, C.Unassume;
    if order != [] {
      UnassumeAllAccounts(c, order[..|order| - 1]);
      C.UnassumeAccounts(UnassumeAll(c, order[..|order| - 1]).0, order[|order| - 1]);
    }
  }

  /** The loop only assumes pods that are not placed. */
  lemma AssumeIsBilled(s: State, n: string)
    requires Inv(s) && s.loop.Picked?
    ensures C.MayAssume(s.cache, s.loop.pod, n)
  {
    hide OnePlace, RecordsRight, HoldersAgree, Waits;
    PickedWaits(s);
  }

  /** A step keeps the accounts exactly when the call, if it is one from outside, may be billed. */
  lemma StepAccountsExactly(s: State, a: Action, timeout: nat)
    requires Inv(s) && C.Accounted(s.cache) && Enabled(s, a, timeout) && !a.Disturb?
    ensures C.Accounted(Step(s, a, timeout).cache) <==> Billed(s, a)
  {
    hide C.Accounted, Inv, C.MayAssume, C.Assume, UnassumeAll, Step, C.Lookup, C.Accounts;
    StepCache(s, a, timeout);
    match a
    case AAssume(n) =>
      AssumeIsBilled(s, n);
      C.AssumeAccounts(s.cache, s.loop.pod, n);
    case ARollBack(order) => UnassumeAllAccounts(s.cache, order);
    case APutPod(pod, _) => C.StepAccounts(s.cache, C.UpdatePodOp(pod));
    case APutNode(n) => C.StepAccounts(s.cache, C.UpdateNodeOp(n));
    case ADropPod(p) => C.StepAccounts(s.cache, C.RemovePodOp(p));
    case ATakeOff(p) => C.StepAccounts(s.cache, C.UnassumeOp(p));
    case ADropNode(n) => C.StepAccounts(s.cache, C.RemoveNodeOp(n));
    case _ =>
  }

  /** Every call from outside may be billed where it happens. */
  ghost predicate AllBilled(s: State, run: seq<Action>, timeout: nat)
    requires Runs(s, run, timeout)
    decreases |run|
  {
    run != [] ==> Billed(s, run[0]) && AllBilled(Step(s, run[0], timeout), run[1..], timeout)
  }

  lemma {:induction false} RunAccounts(s: State, run: seq<Action>, timeout: nat)
    requires Inv(s) && C.Accounted(s.cache) && Runs(s, run, timeout) && Orderly(s, run, timeout) && AllBilled(s, run, timeout)
    ensures C.Accounted(Run(s, run, timeout).cache)
    decreases |run|
  {
    hide Inv, Step, Enabled, C.Accounted;
    if run != [] {
      StepAccountsExactly(s, run[0], timeout);
      if Outside(run[0]) {
        OutsideExactly(s, run[0], timeout);
      } else {
        StepKeepsInv(s, run[0], timeout);
      }
      RunAccounts(Step(s, run[0], timeout), run[1..], timeout);
    }
  }

  /** From the empty start, over every such run, each node's counters are the sums over the pods placed on it. */
  lemma EveryRunAccounts(run: seq<Action>, timeout: nat)
    requires Runs(INITIAL, run, timeout) && Orderly(INITIAL, run, timeout) && AllBilled(INITIAL, run, timeout)
    ensures C.Accounted(Run(INITIAL, run, timeout).cache)
  {
    hide Step, Enabled;
    InitialInv();
    RunAccounts(INITIAL, run, timeout);
  }
}
