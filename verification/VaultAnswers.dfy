/** What each operation answers and what it leaves behind, exactly. */
module VaultAnswers {
  import opened Wrappers
  import opened Gf256
  import opened VaultModel
  import opened VaultSafety
  import opened VaultUnseal
  import Shamir

  // ---------- Initialisation ----------

  /** Initialisation goes as far as the first failing call: what it has written by then stays.  A vault that has a key is
      left alone. */
  lemma InitWritesExactly(v: Vault, config: SealConfig, kek: Key, hmac: Key, tape: Tape, faults: set<Call>)
    requires Inv(v) && |kek| == MAX_KEY
    ensures var (v', r) := Init(v, config, kek, hmac, tape, faults);
            var (n, t) := (config.secretShares, config.secretThreshold);
            var begun := v.barrier.key.None? && t <= n && faults !! {ReadInit, WriteConfig};
            && v'.config == (if begun then Some(config) else v.config)
            && v'.deprecated == (if begun && WriteSet !in faults then Some({}) else v.deprecated)
            && v'.barrier.key == (if begun && faults !! {WriteSet, BarrierInit} then Some(kek) else v.barrier.key)
            && (r.Ok? <==>
                && begun && faults !! {WriteSet, BarrierInit, BarrierUnseal, DeriveHmac, PostUnseal, RootToken, PreSeal}
                && (n == 1 || (2 <= t && n <= 254 && ReadConfig !in faults)))
            && (!begun ==> v' == v)
            && (r == Err(BarrierAlreadyInit) <==> v.barrier.key.Some? && ReadInit !in faults)
            && (r == Err(SealConfigInvalid) <==> v.barrier.key.None? && ReadInit !in faults && t > n)
  {
    hide Shamir.Shares;
  }

  // ---------- Unseal ----------

  /** The call is about a sealed vault with a key. */
  predicate Asked(v: Vault, faults: set<Call>) { ReadInit !in faults && v.barrier.key.Some? && v.barrier.sealed }

  /** The key gets as far as being looked at: 16 to 33 bytes, and the configuration can be read. */
  predicate Heard(v: Vault, key: Key, faults: set<Call>) {
    && Asked(v, faults) && 16 <= |key| <= 33 && ReadConfig !in faults
    && v.config.Some? && v.config.value.secretThreshold <= v.config.value.secretShares
  }

  /** It is a new share that is not known to be a used one. */
  predicate Counted(v: Vault, key: Key, faults: set<Call>) {
    Heard(v, key, faults) && key !in v.core.unsealKeyShares && (ReadSet in faults || key !in Deprecated(v))
  }

  /** The answers that change nothing, each with its condition. */
  lemma UnsealRefusesExactly(v: Vault, key: Key, once: bool, hmac: Key, faults: set<Call>)
    requires Inv(v)
    ensures var (v', r) := DoUnseal(v, key, once, hmac, faults);
            && (r == Err(BarrierNotInit) <==> ReadInit !in faults && v.barrier.key.None?)
            && (r == Err(BarrierUnsealed) <==> ReadInit !in faults && v.barrier.key.Some? && !v.barrier.sealed)
            && (Asked(v, faults) && !(16 <= |key| <= 33) ==> r == Err(BarrierKeyInvalid))
            && (r == Err(BarrierKeyDeprecated) <==> Heard(v, key, faults) && key !in v.core.unsealKeyShares && !Counted(v, key, faults))
            && (Heard(v, key, faults) && key in v.core.unsealKeyShares ==> r == Ok(false))
            && (!Counted(v, key, faults) ==> v' == v && r != Ok(true))
  {
    hide KekOf;
  }

  /** A counted share below the threshold is collected; one that reaches it opens the vault exactly when the shares stand
      for the key and no call fails. */
  lemma UnsealCountsExactly(v: Vault, key: Key, once: bool, hmac: Key, faults: set<Call>)
    requires Inv(v) && Counted(v, key, faults)
    ensures var (v', r) := DoUnseal(v, key, once, hmac, faults);
            var shares := v.core.unsealKeyShares + [key];
            if |shares| < v.config.value.secretThreshold
            then r == Ok(false) && v' == v.(core := v.core.(unsealKeyShares := shares))
            else
              && (r == Ok(true) <==>
                  && KekOf(v.config.value, shares) == v.barrier.key && faults !! {BarrierUnseal, DeriveHmac, PostUnseal}
                  && !(once && ReadSet !in faults && WriteSet in faults))
              && (r == Ok(true) ==> v'.core == CoreState(true, false, hmac, [], v.barrier.key.value) && !v'.barrier.sealed)
  {
    hide KekOf;
  }

  /** When the barrier has opened and a later call fails: a failed derivation leaves the core as it was, a failed set-up
      leaves it sealed and empty, a failed write of the used set leaves it open. */
  lemma LateFailuresExactly(v: Vault, key: Key, once: bool, hmac: Key, faults: set<Call>)
    requires Inv(v) && OpensBarrier(v, key, faults)
    ensures var (v', r) := DoUnseal(v, key, once, hmac, faults);
            var ajar := v.(barrier := BarrierState(v.barrier.key, false));
            && (DeriveHmac in faults ==> r == Err(Failed(DeriveHmac)) && v' == ajar)
            && (DeriveHmac !in faults && PostUnseal in faults ==> r == Err(Failed(PostUnseal)) && v' == ajar.(core := SEALED_CORE))
            && (faults !! {DeriveHmac, PostUnseal} && once && ReadSet !in faults && WriteSet in faults ==>
                  && r == Err(Failed(WriteSet)) && !v'.core.sealed && v'.deprecated == v.deprecated)
            && (faults !! {DeriveHmac, PostUnseal} && !(once && ReadSet !in faults) ==> r == Ok(true) && v'.deprecated == v.deprecated)
  {
    hide KekOf;
  }

  /** A one-time unseal answers with shares exactly when it opens the vault and shares can be dealt; while shares are being
      collected it answers that the vault is unsealing. */
  lemma OnceAnswersExactly(v: Vault, key: Key, hmac: Key, tape: Tape, faults: set<Call>, later: set<Call>)
    requires Inv(v)
    ensures var (v', r) := UnsealOnce(v, key, hmac, tape, faults, later);
            var (u, answer) := DoUnseal(v, key, true, hmac, faults);
            && v' == u
            && (r.Ok? <==> answer == Ok(true) && ReadConfig !in later && 2 <= v.config.value.secretThreshold && v.config.value.secretShares <= 254)
            && (r == Err(BarrierUnsealing) <==> answer == Ok(false))
  {
    hide KekOf, Shamir.Shares;
  }

  // ---------- Failed attempts ----------

  /** A submission that completes the threshold without opening the barrier forgets what was collected and changes
      nothing else. */
  lemma FailedAttemptForgets(v: Vault, key: Key, once: bool, hmac: Key, faults: set<Call>)
    requires Inv(v)
    ensures var (v', r) := DoUnseal(v, key, once, hmac, faults);
            r.Err? && (r.error.BarrierUnsealFailed? || r.error == Failed(BarrierUnseal)) ==>
              v' == v.(core := v.core.(unsealKeyShares := []))
    ensures var (v', r) := DoUnseal(v, key, once, hmac, faults);
            |key| >= MIN_KEY && |key| <= MAX_KEY + SHAMIR_OVERHEAD && r == Err(BarrierKeyInvalid) ==>
              v' == v.(core := v.core.(unsealKeyShares := []))
  {
    hide KekOf;
  }

  /** Wrong shares, the right number of them: the vault refuses, and waits again for its own shares from the first. */
  lemma WrongSharesStartAgain(v: Vault, config: SealConfig, kek: Key, shares: seq<Key>, collected: seq<Key>, wrong: Key,
                              once: bool, hmac: Key)
    requires Waiting(v.(core := SEALED_CORE), config, kek, shares) && Collected(v, config, kek, collected)
    requires wrong !in collected && wrong !in v.deprecated.value && MIN_KEY <= |wrong| <= MAX_KEY + SHAMIR_OVERHEAD
    requires |collected| + 1 >= config.secretThreshold && KekOf(config, collected + [wrong]) != Some(kek)
    ensures var (v', r) := DoUnseal(v, wrong, once, hmac, {});
            && r == Err(if KekOf(config, collected + [wrong]).None? then BarrierKeyInvalid else BarrierUnsealFailed)
            && v' == v.(core := SEALED_CORE) && Waiting(v', config, kek, shares)
  {
    hide KekOf, Dealt;
  }

  // ---------- Seal ----------

  /** An open barrier is sealed unless a call fails, and the core forgets everything; otherwise nothing changes. */
  lemma SealsExactly(v: Vault, faults: set<Call>)
    ensures var (v', r) := Seal(v, faults);
            && (r.Ok? <==> faults !! {ReadInit, PreSeal} && v.barrier.key.Some? && !v.barrier.sealed)
            && (r == Err(BarrierNotInit) <==> ReadInit !in faults && v.barrier.key.None?)
            && (r == Err(BarrierSealed) <==> ReadInit !in faults && v.barrier.key.Some? && v.barrier.sealed)
            && v' == (if r.Ok? then v.(core := SEALED_CORE, barrier := BarrierState(v.barrier.key, true)) else v)
  {
  }

  // ---------- New shares ----------

  /** Shares are dealt exactly to an open vault with a readable configuration of 2 to 254 shares and a threshold of at
      least 2. */
  lemma DealsExactly(v: Vault, tape: Tape, faults: set<Call>)
    requires Inv(v)
    ensures var r := GenerateUnsealKeys(v, tape, faults);
            && (r.Ok? <==>
                && !v.core.sealed && ReadConfig !in faults
                && 2 <= v.config.value.secretThreshold <= v.config.value.secretShares <= 254)
            && (r == Err(BarrierSealed) <==> v.core.sealed)
            && (r == Err(ShareCountInvalid) <==>
                && !v.core.sealed && ReadConfig !in faults && v.config.value.secretThreshold <= v.config.value.secretShares
                && !(2 <= v.config.value.secretThreshold && v.config.value.secretShares <= 254))
            && (r.Ok? ==> |r.value| == v.config.value.secretShares && forall k :: 0 <= k < |r.value| ==> |r.value[k]| == 33)
  {
    hide Shamir.Share;
  }
}
