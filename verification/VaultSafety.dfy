/** What every run of the vault keeps, and what submitting enough shares achieves. */
module VaultSafety {
  import opened Wrappers
  import opened Gf256
  import opened VaultModel
  import Shamir

  datatype Op =
    | OpInit(config: SealConfig, kek: Key, hmac: Key, tape: Tape, faults: set<Call>)
    | OpUnseal(key: Key, hmac: Key, faults: set<Call>)
    | OpUnsealOnce(key: Key, hmac: Key, tape: Tape, faults: set<Call>, later: set<Call>)
    | OpSeal(faults: set<Call>)

  /** Generated keys are 32 bytes long. */
  predicate Legal(op: Op) {
    op.OpInit? ==> |op.kek| == MAX_KEY
  }

  ghost function Step(v: Vault, op: Op): Vault {
    match op
    case OpInit(config, kek, hmac, tape, faults) => Init(v, config, kek, hmac, tape, faults).0
    case OpUnseal(key, hmac, faults) => DoUnseal(v, key, false, hmac, faults).0
    case OpUnsealOnce(key, hmac, tape, faults, later) => UnsealOnce(v, key, hmac, tape, faults, later).0
    case OpSeal(faults) => Seal(v, faults).0
  }

  ghost function Run(v: Vault, ops: seq<Op>): Vault
    decreases |ops|
  {
    if ops == [] then v else Run(Step(v, ops[0]), ops[1..])
  }

  ghost predicate AllLegal(ops: seq<Op>) {
    forall i :: 0 <= i < |ops| ==> Legal(ops[i])
  }

  function Deprecated(v: Vault): set<Key> {
    if v.deprecated.Some? then v.deprecated.value else {}
  }

  // ---------- The invariant ----------

  ghost predicate Inv(v: Vault) {
    var s := v.core.unsealKeyShares;
    // a sealed core holds no key material and no view
    && (v.core.sealed ==> v.core.kek == [] && v.core.hmacKey == [] && !v.core.systemView)
    // an unsealed core sits on an unsealed barrier and holds that barrier's key
    && (!v.core.sealed ==> !v.barrier.sealed && v.barrier.key == Some(v.core.kek) && v.core.systemView)
    // collected shares are distinct and fewer than the threshold
    && (forall i, j :: 0 <= i < j < |s| ==> s[i] != s[j])
    && (s != [] ==> v.config.Some? && |s| < v.config.value.secretThreshold)
    // before initialisation there is nothing, afterwards both physical entries exist
    && (v.barrier.key.None? ==> v.core == SEALED_CORE && v.barrier.sealed && Deprecated(v) == {})
    && (v.barrier.key.Some? ==> |v.barrier.key.value| == MAX_KEY && v.config.Some? && v.deprecated.Some?)
  }

  lemma StepKeepsInv(v: Vault, op: Op)
    requires Inv(v) && Legal(op)
    ensures Inv(Step(v, op))
  {
    hide GenerateUnsealKeys, KekOf;
  }

  lemma {:induction false} RunKeepsInv(v: Vault, ops: seq<Op>)
    requires Inv(v) && AllLegal(ops)
    ensures Inv(Run(v, ops))
    decreases |ops|
  {
    hide Step, Inv;
    if ops != [] {
      assert Legal(ops[0]);
      StepKeepsInv(v, ops[0]);
      RunKeepsInv(Step(v, ops[0]), ops[1..]);
    }
  }

  /** Every reachable vault satisfies the invariant, whichever calls fail along the way. */
  lemma EveryRunIsSafe(ops: seq<Op>)
    requires AllLegal(ops)
    ensures Inv(Run(FRESH, ops))
  {
    RunKeepsInv(FRESH, ops);
  }

  // ---------- Used shares ----------

  lemma StepGrowsDeprecated(v: Vault, op: Op)
    requires Inv(v)
    ensures Deprecated(v) <= Deprecated(Step(v, op))
  {
    hide GenerateUnsealKeys, KekOf;
  }

  predicate ReadsSet(op: Op) {
    match op
    case OpUnseal(_, _, faults) => ReadSet !in faults
    case OpUnsealOnce(_, _, _, faults, _) => ReadSet !in faults
    case _ => true
  }

  ghost predicate AllReadSet(ops: seq<Op>) {
    forall i :: 0 <= i < |ops| ==> ReadsSet(ops[i])
  }

  /** No collected share is deprecated. */
  ghost predicate SharesUnused(v: Vault) {
    forall s :: s in v.core.unsealKeyShares ==> s !in Deprecated(v)
  }

  lemma StepKeepsSharesUnused(v: Vault, op: Op)
    requires Inv(v) && SharesUnused(v) && ReadsSet(op)
    ensures SharesUnused(Step(v, op))
  {
    hide GenerateUnsealKeys, KekOf;
  }

  lemma {:induction false} RunKeepsShares(v: Vault, ops: seq<Op>)
    requires Inv(v) && SharesUnused(v) && AllLegal(ops) && AllReadSet(ops)
    ensures Inv(Run(v, ops)) && SharesUnused(Run(v, ops)) && Deprecated(v) <= Deprecated(Run(v, ops))
    decreases |ops|
  {
    hide Step, Inv, Deprecated, SharesUnused;
    if ops != [] {
      assert Legal(ops[0]) && ReadsSet(ops[0]);
      StepKeepsInv(v, ops[0]);
      StepGrowsDeprecated(v, ops[0]);
      StepKeepsSharesUnused(v, ops[0]);
      RunKeepsShares(Step(v, ops[0]), ops[1..]);
    }
  }

  lemma DeprecatedIsRefused(v: Vault, key: Key, once: bool, hmac: Key, faults: set<Call>)
    requires Inv(v) && SharesUnused(v) && key in Deprecated(v) && ReadSet !in faults
    ensures DoUnseal(v, key, once, hmac, faults).0 == v && DoUnseal(v, key, once, hmac, faults).1.Err?
  {
    hide Complete;
  }

  /** Shares used in a completed one-time unseal are refused in every later state, without effect. */
  lemma UsedSharesStayRefused(before: seq<Op>, key: Key, hmac: Key, faults: set<Call>, after: seq<Op>,
                              used: Key, once: bool, hmac': Key, faults': set<Call>)
    requires AllLegal(before) && AllReadSet(before) && AllLegal(after) && AllReadSet(after)
    requires ReadSet !in faults && ReadSet !in faults'
    requires DoUnseal(Run(FRESH, before), key, true, hmac, faults).1 == Ok(true)
    requires used == key || used in Run(FRESH, before).core.unsealKeyShares
    ensures var v := Run(DoUnseal(Run(FRESH, before), key, true, hmac, faults).0, after);
            DoUnseal(v, used, once, hmac', faults').0 == v && DoUnseal(v, used, once, hmac', faults').1.Err?
  {
    hide Run, Inv, SharesUnused, KekOf;
    var v0 := Run(FRESH, before);
    assert Inv(FRESH) && SharesUnused(FRESH) by { FreshIsSafe(); }
    RunKeepsShares(FRESH, before);
    var tape: Tape := (_, _) => 0;
    var op := OpUnsealOnce(key, hmac, tape, faults, {});
    var v1 := DoUnseal(v0, key, true, hmac, faults).0;
    assert v1 == Step(v0, op);
    OneTimeUnsealDeprecates(v0, key, hmac, faults, used);
    StepKeepsInv(v0, op);
    StepKeepsSharesUnused(v0, op);
    RunKeepsShares(v1, after);
    DeprecatedIsRefused(Run(v1, after), used, once, hmac', faults');
  }

  lemma FreshIsSafe()
    ensures Inv(FRESH) && SharesUnused(FRESH)
  {
  }

  lemma OneTimeUnsealDeprecates(v: Vault, key: Key, hmac: Key, faults: set<Call>, used: Key)
    requires Inv(v) && ReadSet !in faults
    requires DoUnseal(v, key, true, hmac, faults).1 == Ok(true)
    requires used == key || used in v.core.unsealKeyShares
    ensures used in Deprecated(DoUnseal(v, key, true, hmac, faults).0)
  {
    hide KekOf;
    assert used in v.core.unsealKeyShares + [key];
  }

  // ---------- Core and barrier ----------

  /** The call gets as far as opening the barrier. */
  ghost predicate OpensBarrier(v: Vault, key: Key, faults: set<Call>) {
    && faults !! {ReadInit, ReadConfig, BarrierUnseal}
    && v.barrier.key.Some? && v.barrier.sealed
    && MIN_KEY <= |key| <= MAX_KEY + SHAMIR_OVERHEAD
    && ReadSealConfig(v, {}).Ok?
    && key !in v.core.unsealKeyShares
    && (ReadSet !in faults ==> key !in Deprecated(v))
    && |v.core.unsealKeyShares| + 1 >= v.config.value.secretThreshold
    && KekOf(v.config.value, v.core.unsealKeyShares + [key]) == v.barrier.key
  }

  /** From agreeing core and barrier, an unseal call ends in disagreement exactly when the barrier
      opens and then the key derivation or the module setup fails. */
  lemma AgreementLostExactly(v: Vault, key: Key, once: bool, hmac: Key, faults: set<Call>)
    requires Inv(v) && v.core.sealed == v.barrier.sealed
    ensures var v' := DoUnseal(v, key, once, hmac, faults).0;
            v'.core.sealed != v'.barrier.sealed <==>
            OpensBarrier(v, key, faults) && (DeriveHmac in faults || PostUnseal in faults)
  {
    hide KekOf;
  }

  /** From a vault without a key, initialisation ends with a sealed core over an open barrier exactly when the barrier
      was opened and the key derivation then fails. */
  lemma InitAgreementLostExactly(v: Vault, config: SealConfig, kek: Key, hmac: Key, tape: Tape, faults: set<Call>)
    requires Inv(v) && v.barrier.key.None? && |kek| == MAX_KEY
    ensures var v' := Init(v, config, kek, hmac, tape, faults).0;
            && (v'.core.sealed != v'.barrier.sealed <==>
                && faults !! {ReadInit, WriteConfig, WriteSet, BarrierInit, BarrierUnseal}
                && config.secretThreshold <= config.secretShares && DeriveHmac in faults)
            && (v'.core.sealed != v'.barrier.sealed ==> v'.core == SEALED_CORE && v'.barrier == BarrierState(Some(kek), false))
  {
    hide Shamir.Shares;
  }

  /** A vault is left open by initialisation exactly when the open core's shares cannot be dealt. */
  lemma InitLeavesOpenExactly(v: Vault, config: SealConfig, kek: Key, hmac: Key, tape: Tape, faults: set<Call>)
    requires Inv(v) && v.barrier.key.None? && |kek| == MAX_KEY
    ensures var (v', r) := Init(v, config, kek, hmac, tape, faults);
            && (r.Ok? ==> v'.core.sealed && v'.barrier.sealed)
            && (!v'.core.sealed <==>
                && faults !! {ReadInit, WriteConfig, WriteSet, BarrierInit, BarrierUnseal, DeriveHmac}
                && config.secretThreshold <= config.secretShares != 1
                && (ReadConfig in faults || !Shamir.SplitAccepts(config.secretShares, config.secretThreshold)))
  {
    hide Shamir.Shares;
  }
}
