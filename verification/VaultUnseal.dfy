/** Initialise, then submit shares: the vault opens at the threshold and with the original key. */
module VaultUnseal {
  import opened Wrappers
  import opened Gf256
  import opened VaultModel
  import Shamir

  /** The positions in order of first appearance. */
  function Firsts(picks: seq<nat>): (r: seq<nat>)
    ensures forall p :: p in r <==> p in picks
    ensures forall i, j :: 0 <= i < j < |r| ==> r[i] != r[j]
  {
    if picks == [] then []
    else
      var front := Firsts(picks[..|picks| - 1]);
      var last := picks[|picks| - 1];
      assert picks == picks[..|picks| - 1] + [last];
      if last in front then front else front + [last]
  }

  lemma FirstsStep(picks: seq<nat>)
    requires picks != []
    ensures var front, last := picks[..|picks| - 1], picks[|picks| - 1];
            Firsts(picks) == if last in Firsts(front) then Firsts(front) else Firsts(front) + [last]
  {
  }

  lemma {:induction false} FirstsBelow(picks: seq<nat>, n: nat)
    requires Shamir.Below(picks, n)
    ensures Shamir.Below(Firsts(picks), n)
  {
    if picks != [] {
      FirstsBelow(picks[..|picks| - 1], n);
    }
  }

  /** The vault after submitting the keys one after another, with no call failing. */
  ghost function Submit(v: Vault, keys: seq<Key>, hmac: Key): Vault {
    if keys == [] then v
    else DoUnseal(Submit(v, keys[..|keys| - 1], hmac), keys[|keys| - 1], false, hmac, {}).0
  }

  /** The answer to the last of a sequence of submissions. */
  ghost function LastAnswer(v: Vault, keys: seq<Key>, once: bool, hmac: Key): Result<bool, Error>
    requires keys != []
  {
    DoUnseal(Submit(v, keys[..|keys| - 1], hmac), keys[|keys| - 1], once, hmac, {}).1
  }

  /** Keys of acceptable length, pairwise distinct, any `threshold` of which stand for `kek`. */
  ghost predicate Dealt(shares: seq<Key>, config: SealConfig, kek: Key) {
    && 0 < config.secretThreshold <= config.secretShares
    && (forall p :: 0 <= p < |shares| ==> MIN_KEY <= |shares[p]| <= MAX_KEY + SHAMIR_OVERHEAD)
    && (forall p, q :: 0 <= p < q < |shares| ==> shares[p] != shares[q])
    && (forall picks | Positions(picks, |shares|) && |picks| == config.secretThreshold ::
          KekOf(config, Shamir.Select(shares, picks)) == Some(kek))
  }

  /** Distinct positions below `n`. */
  ghost predicate Positions(picks: seq<nat>, n: nat) {
    && Shamir.Below(picks, n)
    && (forall i, j :: 0 <= i < j < |picks| ==> picks[i] != picks[j])
  }

  /** A sealed, initialised vault that has collected nothing and refuses none of the shares. */
  ghost predicate Waiting(v: Vault, config: SealConfig, kek: Key, shares: seq<Key>) {
    && v.core == SEALED_CORE
    && v.barrier == BarrierState(Some(kek), true)
    && v.config == Some(config)
    && Unused(v, shares)
    && Dealt(shares, config, kek)
  }

  /** The used set is there and none of the keys is in it. */
  ghost predicate Unused(v: Vault, keys: seq<Key>) {
    v.deprecated.Some? && forall p :: 0 <= p < |keys| ==> keys[p] !in v.deprecated.value
  }

  lemma SelectedIffPicked(shares: seq<Key>, picks: seq<nat>, p: nat)
    requires forall i, j :: 0 <= i < j < |shares| ==> shares[i] != shares[j]
    requires Shamir.Below(picks, |shares|) && p < |shares|
    ensures shares[p] in Shamir.Select(shares, picks) <==> p in picks
  {
    if p in picks {
      var k :| 0 <= k < |picks| && picks[k] == p;
      assert Shamir.Select(shares, picks)[k] == shares[p];
    }
  }

  /** A sealed vault that has collected the given shares. */
  ghost predicate Collected(v: Vault, config: SealConfig, kek: Key, collected: seq<Key>) {
    && v.core == SEALED_CORE.(unsealKeyShares := collected)
    && v.barrier == BarrierState(Some(kek), true)
    && v.config == Some(config) && config.secretThreshold <= config.secretShares
    && v.deprecated.Some?
  }

  lemma RepeatedShare(v: Vault, config: SealConfig, kek: Key, collected: seq<Key>, key: Key, once: bool, hmac: Key)
    requires Collected(v, config, kek, collected) && key in collected
    requires MIN_KEY <= |key| <= MAX_KEY + SHAMIR_OVERHEAD
    ensures DoUnseal(v, key, once, hmac, {}) == (v, Ok(false))
  {
    hide Complete;
  }

  lemma NewShare(v: Vault, config: SealConfig, kek: Key, collected: seq<Key>, key: Key, once: bool, hmac: Key)
    requires Collected(v, config, kek, collected) && key !in collected && key !in v.deprecated.value
    requires MIN_KEY <= |key| <= MAX_KEY + SHAMIR_OVERHEAD
    ensures var (v', r) := DoUnseal(v, key, once, hmac, {});
            && (|collected| + 1 < config.secretThreshold ==>
                  r == Ok(false) && v' == v.(core := SEALED_CORE.(unsealKeyShares := collected + [key])))
            && (|collected| + 1 >= config.secretThreshold && KekOf(config, collected + [key]) == Some(kek) ==>
                  && r == Ok(true) && v'.core == CoreState(true, false, hmac, [], kek)
                  && v'.barrier == BarrierState(Some(kek), false) && v'.config == v.config
                  && v'.deprecated == if once then Some(v.deprecated.value + set s | s in collected + [key]) else v.deprecated)
  {
    hide KekOf;
  }

  /** Below the threshold every submission answers false and the distinct shares accumulate in order. */
  lemma {:induction false} CollectsBelowThreshold(v: Vault, config: SealConfig, kek: Key, shares: seq<Key>,
                                                  picks: seq<nat>, once: bool, hmac: Key)
    requires Waiting(v, config, kek, shares)
    requires Shamir.Below(picks, |shares|)
    requires |Firsts(picks)| < config.secretThreshold
    ensures Shamir.Below(Firsts(picks), |shares|)
    ensures Submit(v, Shamir.Select(shares, picks), hmac)
         == v.(core := SEALED_CORE.(unsealKeyShares := Shamir.Select(shares, Firsts(picks))))
    ensures picks != [] ==> LastAnswer(v, Shamir.Select(shares, picks), once, hmac) == Ok(false)
  {
    hide Dealt, DoUnseal;
    DealtFacts(shares, config, kek);
    FirstsBelow(picks, |shares|);
    if picks == [] {
      assert Shamir.Select(shares, []) == [];
    } else {
      var front, last := picks[..|picks| - 1], picks[|picks| - 1];
      var keys := Shamir.Select(shares, picks);
      assert keys[..|keys| - 1] == Shamir.Select(shares, front);
      CollectsBelowThreshold(v, config, kek, shares, front, once, hmac);
      var before, collected := Submit(v, Shamir.Select(shares, front), hmac), Shamir.Select(shares, Firsts(front));
      SelectedIffPicked(shares, Firsts(front), last);
      if last in front {
        RepeatedShare(before, config, kek, collected, shares[last], once, hmac);
        RepeatedShare(before, config, kek, collected, shares[last], false, hmac);
      } else {
        NewShare(before, config, kek, collected, shares[last], once, hmac);
        NewShare(before, config, kek, collected, shares[last], false, hmac);
        assert Shamir.Select(shares, Firsts(picks)) == collected + [shares[last]];
      }
    }
  }

  lemma DealtFacts(shares: seq<Key>, config: SealConfig, kek: Key)
    requires Dealt(shares, config, kek)
    ensures 0 < config.secretThreshold <= config.secretShares
    ensures forall p :: 0 <= p < |shares| ==> MIN_KEY <= |shares[p]| <= MAX_KEY + SHAMIR_OVERHEAD
    ensures forall p, q :: 0 <= p < q < |shares| ==> shares[p] != shares[q]
  {
  }

  lemma DealtKek(shares: seq<Key>, config: SealConfig, kek: Key, picks: seq<nat>)
    requires Dealt(shares, config, kek)
    requires Positions(picks, |shares|) && |picks| == config.secretThreshold
    ensures KekOf(config, Shamir.Select(shares, picks)) == Some(kek)
  {
  }

  /** The share that completes the threshold opens the vault with the original key. */
  lemma OpensAtThreshold(v: Vault, config: SealConfig, kek: Key, shares: seq<Key>,
                         picks: seq<nat>, once: bool, hmac: Key)
    requires Waiting(v, config, kek, shares)
    requires picks != [] && Shamir.Below(picks, |shares|)
    requires |Firsts(picks)| == config.secretThreshold
    requires |Firsts(picks[..|picks| - 1])| < config.secretThreshold
    ensures LastAnswer(v, Shamir.Select(shares, picks), once, hmac) == Ok(true)
    ensures var v' := Submit(v, Shamir.Select(shares, picks), hmac);
            v'.core == CoreState(true, false, hmac, [], kek) && !v'.barrier.sealed
  {
    hide DoUnseal, KekOf, Dealt, Firsts;
    var front, last := picks[..|picks| - 1], picks[|picks| - 1];
    var keys := Shamir.Select(shares, picks);
    assert keys[..|keys| - 1] == Shamir.Select(shares, front);
    DealtFacts(shares, config, kek);
    FirstsStep(picks);
    CollectsBelowThreshold(v, config, kek, shares, front, once, hmac);
    var before, collected := Submit(v, Shamir.Select(shares, front), hmac), Shamir.Select(shares, Firsts(front));
    SelectedIffPicked(shares, Firsts(front), last);
    DealtKek(shares, config, kek, Firsts(picks));
    assert Shamir.Select(shares, Firsts(picks)) == collected + [shares[last]];
    NewShare(before, config, kek, collected, shares[last], once, hmac);
    NewShare(before, config, kek, collected, shares[last], false, hmac);
  }

  predicate Usable(config: SealConfig) {
    2 <= config.secretThreshold <= config.secretShares <= 254 || config == SealConfig(1, 1)
  }

  /** Initialised with threshold 0. */
  function KeylessVault(kek: Key): Vault {
    Vault(SEALED_CORE, BarrierState(Some(kek), true), Some(SealConfig(1, 0)), Some({}))
  }

  lemma SplitSharesDealt(kek: Key, config: SealConfig, noise: seq<seq<Byte>>)
    requires |kek| == MAX_KEY
    requires Shamir.SplitAccepts(config.secretShares, config.secretThreshold)
    requires Shamir.NoiseFor(noise, kek, config.secretThreshold)
    ensures Dealt(Shamir.Shares(kek, config.secretShares, noise), config, kek)
  {
    hide Shamir.Recovered, Shamir.ShareId;
    var shares := Shamir.Shares(kek, config.secretShares, noise);
    forall p, q | 0 <= p < q < |shares|
      ensures shares[p] != shares[q]
    {
      Shamir.ShareIdInjective(p + 1, q + 1);
      assert Shamir.Id(shares[p]) == Shamir.ShareId(p + 1);
      assert Shamir.Id(shares[q]) == Shamir.ShareId(q + 1);
    }
    forall picks | Positions(picks, |shares|) && |picks| == config.secretThreshold
      ensures KekOf(config, Shamir.Select(shares, picks)) == Some(kek)
    {
      Shamir.SplitCombineRoundTrip(kek, config.secretShares, config.secretThreshold, noise, picks);
    }
  }

  /** With no call failing, initialisation succeeds exactly for usable configurations and for one share with
      threshold 0.  For a usable one it hands out the configured number of shares and leaves the vault waiting
      for any threshold of them; for the other it hands out the key itself. */
  lemma InitDeals(v: Vault, config: SealConfig, kek: Key, hmac: Key, tape: Tape)
    requires v.barrier == BarrierState(None, true) && v.core == SEALED_CORE && |kek| == MAX_KEY
    ensures var (v', r) := Init(v, config, kek, hmac, tape, {});
            && (r.Ok? <==> Usable(config) || config == SealConfig(1, 0))
            && (config == SealConfig(1, 0) ==> r == Ok([kek]) && v' == KeylessVault(kek))
            && (Usable(config) ==> r.Ok? && |r.value| == config.secretShares && Waiting(v', config, kek, r.value))
  {
    hide Shamir.Recovered, Shamir.Share;
    if Shamir.SplitAccepts(config.secretShares, config.secretThreshold) {
      SplitSharesDealt(kek, config, Noise(tape, |kek|, config.secretThreshold));
    } else if Usable(config) {
      SingleShareDealt(kek, config);
    }
  }

  lemma SingleShareDealt(kek: Key, config: SealConfig)
    requires |kek| == MAX_KEY && config.secretShares == config.secretThreshold == 1
    ensures Dealt([kek], config, kek)
  {
    forall picks | Positions(picks, 1) && |picks| == 1
      ensures KekOf(config, Shamir.Select([kek], picks)) == Some(kek)
    {
      assert Shamir.Select([kek], picks)[0] == kek;
    }
  }

  /** Whatever order and repetition, the vault opens at the submission that brings the number of
      distinct shares to the threshold, not before, and holds the key it was initialised with. */
  lemma InitThenUnseal(v: Vault, config: SealConfig, kek: Key, hmac: Key, tape: Tape, picks: seq<nat>, once: bool)
    requires v.barrier == BarrierState(None, true) && v.core == SEALED_CORE && |kek| == MAX_KEY
    requires Usable(config) && picks != []
    requires Shamir.Below(picks, config.secretShares)
    requires |Firsts(picks[..|picks| - 1])| < config.secretThreshold
    ensures var (v', r) := Init(v, config, kek, hmac, tape, {});
            && r.Ok? && |r.value| == config.secretShares
            && var keys := Shamir.Select(r.value, picks);
            && LastAnswer(v', keys, once, hmac) == Ok(|Firsts(picks)| == config.secretThreshold)
            && (|Firsts(picks)| == config.secretThreshold ==>
                  var open := Submit(v', keys, hmac);
                  !open.core.sealed && open.core.kek == kek && !open.barrier.sealed)
  {
    hide Init, Waiting;
    InitDeals(v, config, kek, hmac, tape);
    var (v', r) := Init(v, config, kek, hmac, tape, {});
    if |Firsts(picks)| < config.secretThreshold {
      CollectsBelowThreshold(v', config, kek, r.value, picks, once, hmac);
    } else {
      OpensAtThreshold(v', config, kek, r.value, picks, once, hmac);
    }
  }
}
