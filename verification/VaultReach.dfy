/** Whether an initialised vault can be opened, and runs that end where one would not expect. */
module VaultReach {
  import opened Wrappers
  import opened Gf256
  import opened VaultModel
  import opened VaultSafety
  import opened VaultUnseal
  import Shamir

  // ---------- Threshold 0 ----------

  /** One share is never combined, so with threshold 0 no operation changes anything, whichever calls fail. */
  lemma KeylessStep(kek: Key, op: Op)
    requires Legal(op)
    ensures Step(KeylessVault(kek), op) == KeylessVault(kek)
    ensures op.OpUnseal? ==> DoUnseal(KeylessVault(kek), op.key, false, op.hmac, op.faults).1 != Ok(true)
  {
    match op
    case OpInit(_, _, _, _, _) =>
    case OpUnseal(key, _, _) => OneShareIsNone(key);
    case OpUnsealOnce(key, _, _, _, _) => OneShareIsNone(key);
    case OpSeal(_) =>
  }

  lemma OneShareIsNone(key: Key)
    ensures Shamir.Recovered([] + [key]).None?
  {
    assert [] + [key] == [key];
  }

  /** Through every run it stays as it is. */
  lemma {:induction false} KeylessForever(kek: Key, ops: seq<Op>)
    requires AllLegal(ops)
    ensures Run(KeylessVault(kek), ops) == KeylessVault(kek)
    decreases |ops|
  {
    hide Step, KeylessVault;
    if ops != [] {
      KeylessStep(kek, ops[0]);
      KeylessForever(kek, ops[1..]);
    }
  }

  // ---------- Opening ----------

  /** Some run unseals the vault. */
  ghost predicate CanOpen(v: Vault) {
    exists ops :: AllLegal(ops) && !Run(v, ops).core.sealed
  }

  function Unseals(keys: seq<Key>, hmac: Key): (ops: seq<Op>)
    ensures |ops| == |keys| && AllLegal(ops)
  {
    seq(|keys|, i requires 0 <= i < |keys| => OpUnseal(keys[i], hmac, {}))
  }

  lemma {:induction false} RunSnoc(v: Vault, ops: seq<Op>, op: Op)
    ensures Run(v, ops + [op]) == Step(Run(v, ops), op)
    decreases |ops|
  {
    hide Step;
    if ops == [] {
      assert ([] + [op])[1..] == [];
    } else {
      assert (ops + [op])[1..] == ops[1..] + [op];
      RunSnoc(Step(v, ops[0]), ops[1..], op);
    }
  }

  lemma {:induction false} RunSubmits(v: Vault, keys: seq<Key>, hmac: Key)
    ensures Run(v, Unseals(keys, hmac)) == Submit(v, keys, hmac)
    decreases |keys|
  {
    hide DoUnseal;
    if keys != [] {
      var front, last := keys[..|keys| - 1], keys[|keys| - 1];
      RunSubmits(v, front, hmac);
      RunSnoc(v, Unseals(front, hmac), OpUnseal(last, hmac, {}));
      assert Unseals(keys, hmac) == Unseals(front, hmac) + [OpUnseal(last, hmac, {})];
    }
  }

  function UpTo(n: nat): (r: seq<nat>)
    ensures |r| == n && Shamir.Below(r, n)
  {
    seq(n, i requires 0 <= i => i)
  }

  lemma {:induction false} FirstsUpTo(n: nat)
    ensures Firsts(UpTo(n)) == UpTo(n)
  {
    if n > 0 {
      assert UpTo(n)[..n - 1] == UpTo(n - 1);
      FirstsUpTo(n - 1);
      FirstsStep(UpTo(n));
      assert UpTo(n) == UpTo(n - 1) + [n - 1];
    }
  }

  lemma BelowMore(picks: seq<nat>, n: nat, m: nat)
    requires Shamir.Below(picks, n) && n <= m
    ensures Shamir.Below(picks, m)
  {
  }

  /** A successfully initialised vault can be unsealed exactly when its threshold is at least 1. */
  lemma OpensExactly(v: Vault, config: SealConfig, kek: Key, hmac: Key, tape: Tape)
    requires v.barrier == BarrierState(None, true) && v.core == SEALED_CORE && |kek| == MAX_KEY
    requires Init(v, config, kek, hmac, tape, {}).1.Ok?
    ensures CanOpen(Init(v, config, kek, hmac, tape, {}).0) <==> config.secretThreshold >= 1
  {
    hide Init, Run, DoUnseal, Waiting, Firsts, Submit;
    InitDeals(v, config, kek, hmac, tape);
    var (v', r) := Init(v, config, kek, hmac, tape, {});
    var t := config.secretThreshold;
    if t == 0 {
      forall ops | AllLegal(ops)
        ensures Run(v', ops).core.sealed
      {
        KeylessForever(kek, ops);
      }
    } else {
      var picks := UpTo(t);
      FirstsUpTo(t);
      FirstsUpTo(t - 1);
      assert picks[..t - 1] == UpTo(t - 1);
      BelowMore(picks, t, config.secretShares);
      InitThenUnseal(v, config, kek, hmac, tape, picks, false);
      var keys := Shamir.Select(r.value, picks);
      RunSubmits(v', keys, hmac);
      assert !Run(v', Unseals(keys, hmac)).core.sealed;
    }
  }

  /** So a vault initialised for one share with threshold 0 succeeds, and no run ever opens it. */
  lemma ThresholdZeroNeverOpens(kek: Key, hmac: Key, tape: Tape, ops: seq<Op>)
    requires |kek| == MAX_KEY && AllLegal(ops)
    ensures var (v, r) := Init(FRESH, SealConfig(1, 0), kek, hmac, tape, {});
            r == Ok([kek]) && Run(v, ops) == v && v.core.sealed && v.barrier.sealed
  {
    hide Run;
    InitDeals(FRESH, SealConfig(1, 0), kek, hmac, tape);
    KeylessForever(kek, ops);
  }

  // ---------- Core and barrier apart ----------

  /** Three shares with threshold 2: two of them are submitted and the module set-up fails on the second.  The
      core ends sealed over an open barrier. */
  lemma BarrierLeftOpen(kek: Key, hmac: Key, tape: Tape)
    requires |kek| == MAX_KEY
    ensures var init := OpInit(SealConfig(3, 2), kek, hmac, tape, {});
            var shares := Init(FRESH, SealConfig(3, 2), kek, hmac, tape, {}).1;
            && shares.Ok? && |shares.value| == 3
            && var v := Run(FRESH, [init, OpUnseal(shares.value[0], hmac, {}), OpUnseal(shares.value[1], hmac, {PostUnseal})]);
               v.core.sealed && !v.barrier.sealed
  {
    hide DoUnseal, Init, Waiting, Dealt, KekOf, Firsts;
    var config := SealConfig(3, 2);
    InitDeals(FRESH, config, kek, hmac, tape);
    var (v1, r) := Init(FRESH, config, kek, hmac, tape, {});
    var s0, s1 := r.value[0], r.value[1];
    var v2 := DoUnseal(v1, s0, false, hmac, {}).0;
    OneOfTwo(v1, config, kek, r.value, hmac);
    AgreementLostExactly(v2, s1, false, hmac, {PostUnseal});
    ThreeSteps(OpInit(config, kek, hmac, tape, {}), OpUnseal(s0, hmac, {}), OpUnseal(s1, hmac, {PostUnseal}));
    LostIsSealed(v2, s1, hmac);
  }

  lemma ThreeSteps(a: Op, b: Op, c: Op)
    ensures Run(FRESH, [a, b, c]) == Step(Step(Step(FRESH, a), b), c)
  {
    hide Step;
    RunSnoc(FRESH, [], a);
    RunSnoc(FRESH, [a], b);
    RunSnoc(FRESH, [a, b], c);
    assert [] + [a] == [a] && [a] + [b] == [a, b] && [a, b] + [c] == [a, b, c];
  }

  lemma LostIsSealed(v: Vault, key: Key, hmac: Key)
    requires Inv(v) && v.core.sealed
    ensures DoUnseal(v, key, false, hmac, {PostUnseal}).0.core.sealed
  {
    hide KekOf;
  }

  lemma OneOfTwo(v: Vault, config: SealConfig, kek: Key, shares: seq<Key>, hmac: Key)
    requires Waiting(v, config, kek, shares) && config == SealConfig(3, 2) && |shares| == 3 && |kek| == MAX_KEY
    ensures var v' := DoUnseal(v, shares[0], false, hmac, {}).0;
            Inv(v') && v'.core.sealed && v'.barrier.sealed && OpensBarrier(v', shares[1], {PostUnseal})
  {
    hide DoUnseal, KekOf, Dealt;
    DealtFacts(shares, config, kek);
    NewShare(v, config, kek, [], shares[0], false, hmac);
    DealtKek(shares, config, kek, [0, 1]);
    assert Shamir.Select(shares, [0, 1]) == ([] + [shares[0]]) + [shares[1]];
  }

  /** Three shares with threshold 2, and the key derivation fails while the vault is initialised: the core ends sealed
      over an open barrier, and no later share is looked at. */
  lemma InitBarrierLeftOpen(kek: Key, hmac: Key, tape: Tape, key: Key, once: bool, hmac': Key)
    requires |kek| == MAX_KEY
    ensures var (v, r) := Init(FRESH, SealConfig(3, 2), kek, hmac, tape, {DeriveHmac});
            && r == Err(Failed(DeriveHmac)) && v.core == SEALED_CORE && v.barrier == BarrierState(Some(kek), false)
            && DoUnseal(v, key, once, hmac', {}) == (v, Err(BarrierUnsealed))
  {
    assert Inv(FRESH) by { FreshIsSafe(); }
    InitAgreementLostExactly(FRESH, SealConfig(3, 2), kek, hmac, tape, {DeriveHmac});
  }

  /** Five shares with threshold 1: nothing fails, the shares cannot be dealt, and the vault ends unsealed. */
  lemma InitLeftOpen(kek: Key, hmac: Key, tape: Tape)
    requires |kek| == MAX_KEY
    ensures var (v, r) := Init(FRESH, SealConfig(5, 1), kek, hmac, tape, {});
            r == Err(ShareCountInvalid) && !v.core.sealed && !v.barrier.sealed && v.core.kek == kek
  {
  }

  // ---------- One-time unseal ----------

  /** The threshold is 1 and the key itself is among the used shares. */
  ghost predicate Spent(v: Vault) {
    && v.barrier.key.Some? && v.config.Some? && v.config.value.secretThreshold == 1
    && v.barrier.key.value in Deprecated(v)
  }

  lemma SpentStep(v: Vault, op: Op)
    requires Inv(v) && Spent(v) && Legal(op) && ReadsSet(op)
    ensures Spent(Step(v, op)) && (v.barrier.sealed ==> Step(v, op).barrier.sealed)
  {
    hide GenerateUnsealKeys, Shamir.Recovered;
  }

  lemma {:induction false} SpentForever(v: Vault, ops: seq<Op>)
    requires Inv(v) && Spent(v) && AllLegal(ops) && AllReadSet(ops)
    ensures Inv(Run(v, ops)) && Spent(Run(v, ops))
    ensures v.barrier.sealed ==> Run(v, ops).barrier.sealed && Run(v, ops).core.sealed
    decreases |ops|
  {
    hide Step, Spent;
    if ops != [] {
      assert Legal(ops[0]) && ReadsSet(ops[0]);
      StepKeepsInv(v, ops[0]);
      SpentStep(v, ops[0]);
      SpentForever(Step(v, ops[0]), ops[1..]);
    }
  }

  /** With threshold 1 a one-time unseal answers with an error although the vault opens, and uses up the key. */
  lemma OnceSpends(v: Vault, key: Key, hmac: Key, tape: Tape, faults: set<Call>, later: set<Call>)
    requires Inv(v) && v.config.Some? && v.config.value.secretThreshold == 1 && ReadSet !in faults
    requires DoUnseal(v, key, true, hmac, faults).1 == Ok(true)
    ensures var (v', r) := UnsealOnce(v, key, hmac, tape, faults, later);
            r.Err? && !v'.core.sealed && Inv(v') && Spent(v')
  {
    hide Shamir.Recovered, Shamir.Shares;
    OneTimeUnsealDeprecates(v, key, hmac, faults, key);
    StepKeepsInv(v, OpUnsealOnce(key, hmac, tape, faults, later));
  }

  /** So a vault with threshold 1 is opened by a one-time unseal for the last time: once it is sealed again, no run
      that reads the used set opens it. */
  lemma OpenedForTheLastTime(before: seq<Op>, key: Key, hmac: Key, tape: Tape, faults: set<Call>, later: set<Call>,
                             open: seq<Op>, after: seq<Op>)
    requires AllLegal(before) && AllLegal(open) && AllLegal(after) && AllReadSet(open) && AllReadSet(after)
    requires var v := Run(FRESH, before);
             && v.config.Some? && v.config.value.secretThreshold == 1 && ReadSet !in faults
             && DoUnseal(v, key, true, hmac, faults).1 == Ok(true)
    ensures var v := UnsealOnce(Run(FRESH, before), key, hmac, tape, faults, later).0;
            Run(v, open).barrier.sealed ==> Run(Run(v, open), after).barrier.sealed && Run(Run(v, open), after).core.sealed
  {
    hide Run, DoUnseal, UnsealOnce, Inv, Spent;
    EveryRunIsSafe(before);
    OnceSpends(Run(FRESH, before), key, hmac, tape, faults, later);
    var v := UnsealOnce(Run(FRESH, before), key, hmac, tape, faults, later).0;
    SpentForever(v, open);
    SpentForever(Run(v, open), after);
  }

  /** One share with threshold 1: initialise, unseal once, seal, and nothing opens the vault again. */
  lemma SingleShareOpensOnce(kek: Key, hmac: Key, tape: Tape, ops: seq<Op>)
    requires |kek| == MAX_KEY && AllLegal(ops) && AllReadSet(ops)
    ensures var (v, r) := Init(FRESH, SealConfig(1, 1), kek, hmac, tape, {});
            && r == Ok([kek])
            && var (v', r') := UnsealOnce(v, kek, hmac, tape, {}, {});
            && r' == Err(ShareCountInvalid) && !v'.core.sealed
            && Seal(v', {}).1.Ok? && Run(Seal(v', {}).0, ops).core.sealed
  {
    hide Run, Spent;
    var v := Init(FRESH, SealConfig(1, 1), kek, hmac, tape, {}).0;
    assert Inv(FRESH) by { FreshIsSafe(); }
    StepKeepsInv(FRESH, OpInit(SealConfig(1, 1), kek, hmac, tape, {}));
    OnceSpends(v, kek, hmac, tape, {}, {});
    var v' := UnsealOnce(v, kek, hmac, tape, {}, {}).0;
    SpentStep(v', OpSeal({}));
    StepKeepsInv(v', OpSeal({}));
    SpentForever(Seal(v', {}).0, ops);
  }

  function OpenVault(config: SealConfig, kek: Key, hmac: Key, used: set<Key>): Vault {
    Vault(CoreState(true, false, hmac, [], kek), BarrierState(Some(kek), false), Some(config), Some(used))
  }

  lemma OnceAtThreshold(v: Vault, config: SealConfig, kek: Key, shares: seq<Key>, picks: seq<nat>, hmac: Key)
    requires Waiting(v, config, kek, shares) && picks != [] && Shamir.Below(picks, |shares|)
    requires |Firsts(picks)| == config.secretThreshold && |Firsts(picks[..|picks| - 1])| < config.secretThreshold
    ensures var keys := Shamir.Select(shares, picks);
            var used := v.deprecated.value + set i | 0 <= i < |picks| :: shares[picks[i]];
            DoUnseal(Submit(v, keys[..|keys| - 1], hmac), keys[|keys| - 1], true, hmac, {}) == (OpenVault(config, kek, hmac, used), Ok(true))
  {
    hide DoUnseal, KekOf, Dealt, Firsts;
    var front, last := picks[..|picks| - 1], picks[|picks| - 1];
    var keys := Shamir.Select(shares, picks);
    assert keys[..|keys| - 1] == Shamir.Select(shares, front);
    DealtFacts(shares, config, kek);
    FirstsStep(picks);
    CollectsBelowThreshold(v, config, kek, shares, front, true, hmac);
    var before, collected := Submit(v, Shamir.Select(shares, front), hmac), Shamir.Select(shares, Firsts(front));
    SelectedIffPicked(shares, Firsts(front), last);
    DealtKek(shares, config, kek, Firsts(picks));
    assert Shamir.Select(shares, Firsts(picks)) == collected + [shares[last]];
    NewShare(before, config, kek, collected, shares[last], true, hmac);
    UsedShares(shares, picks);
  }

  lemma OpenDealsAgain(config: SealConfig, kek: Key, hmac: Key, used: set<Key>, tape: Tape)
    requires |kek| == MAX_KEY && Shamir.SplitAccepts(config.secretShares, config.secretThreshold)
    ensures var v := OpenVault(config, kek, hmac, used);
            var r := GenerateUnsealKeys(v, tape, {});
            r.Ok? && |r.value| == config.secretShares && (Unused(v, r.value) ==> Waiting(Seal(v, {}).0, config, kek, r.value))
  {
    hide Dealt, Shamir.Share;
    SplitSharesDealt(kek, config, Noise(tape, |kek|, config.secretThreshold));
  }

  /** From threshold 2 on, a one-time unseal hands out new shares; sealed again, the vault waits for them as it did for
      the first ones, unless one of them happens to be a used one. */
  lemma NewSharesOpenAgain(v: Vault, config: SealConfig, kek: Key, shares: seq<Key>, picks: seq<nat>, hmac: Key, tape: Tape)
    requires Waiting(v, config, kek, shares) && |kek| == MAX_KEY
    requires Shamir.SplitAccepts(config.secretShares, config.secretThreshold)
    requires picks != [] && Shamir.Below(picks, |shares|)
    requires |Firsts(picks)| == config.secretThreshold && |Firsts(picks[..|picks| - 1])| < config.secretThreshold
    ensures var keys := Shamir.Select(shares, picks);
            var (v', r) := UnsealOnce(Submit(v, keys[..|keys| - 1], hmac), keys[|keys| - 1], hmac, tape, {}, {});
            && r.Ok? && |r.value| == config.secretShares && !v'.core.sealed
            && v'.deprecated == Some(v.deprecated.value + set i | 0 <= i < |picks| :: shares[picks[i]])
            && (Unused(v', r.value) ==> Waiting(Seal(v', {}).0, config, kek, r.value))
  {
    hide DoUnseal, Submit, Dealt, Firsts, GenerateUnsealKeys, Seal;
    OnceAtThreshold(v, config, kek, shares, picks, hmac);
    OpenDealsAgain(config, kek, hmac, v.deprecated.value + set i | 0 <= i < |picks| :: shares[picks[i]], tape);
  }

  lemma UsedShares(shares: seq<Key>, picks: seq<nat>)
    requires Shamir.Below(picks, |shares|) && Shamir.Below(Firsts(picks), |shares|)
    ensures (set s | s in Shamir.Select(shares, Firsts(picks))) == set i | 0 <= i < |picks| :: shares[picks[i]]
  {
    hide Firsts;
    var a, b := Shamir.Select(shares, Firsts(picks)), set i | 0 <= i < |picks| :: shares[picks[i]];
    forall s | s in a
      ensures s in b
    {
      var k :| 0 <= k < |a| && a[k] == s;
      assert Firsts(picks)[k] in picks;
    }
    forall i | 0 <= i < |picks|
      ensures shares[picks[i]] in a
    {
      assert picks[i] in Firsts(picks);
      var k :| 0 <= k < |Firsts(picks)| && Firsts(picks)[k] == picks[i];
      assert a[k] == shares[picks[i]];
    }
  }
}
