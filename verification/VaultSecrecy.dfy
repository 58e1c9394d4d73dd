/** What the dealt shares say about the key: below the threshold, nothing. */
module VaultSecrecy {
  import opened Wrappers
  import opened Gf256
  import opened VaultModel
  import Shamir

  // ---------- Fewer shares than the threshold ----------

  function TapeOf(noise: seq<seq<Byte>>): Tape {
    (i: nat, j: nat) => if i < |noise| && j < |noise[i]| then noise[i][j] else 0
  }

  lemma NoiseOfTape(noise: seq<seq<Byte>>, rows: nat, threshold: nat)
    requires threshold > 0 && |noise| == rows && forall i :: 0 <= i < rows ==> |noise[i]| + 1 == threshold
    ensures Noise(TapeOf(noise), rows, threshold) == noise
  {
    var r := Noise(TapeOf(noise), rows, threshold);
    forall i | 0 <= i < rows
      ensures r[i] == noise[i]
    {
      assert forall j :: 0 <= j < threshold - 1 ==> r[i][j] == noise[i][j];
    }
  }

  /** Shares of the right length with the ids of the given positions. */
  predicate SharesAt(shares: seq<Key>, picks: seq<nat>, n: nat) {
    && |shares| == |picks| && n < 256
    && (forall k :: 0 <= k < |picks| ==> picks[k] < n)
    && (forall k, m :: 0 <= k < m < |picks| ==> picks[k] != picks[m])
    && (forall k :: 0 <= k < |picks| ==> |shares[k]| == 33 && Shamir.Id(shares[k]) as int == picks[k] + 1)
  }

  /** Some random bytes deal exactly the given shares, whatever the key. */
  lemma TapeFor(config: SealConfig, kek: Key, picks: seq<nat>, shares: seq<Key>) returns (tape: Tape)
    requires |kek| == MAX_KEY && Shamir.SplitAccepts(config.secretShares, config.secretThreshold)
    requires |picks| < config.secretThreshold && SharesAt(shares, picks, config.secretShares)
    ensures var dealt := Shamir.Shares(kek, config.secretShares, Noise(tape, |kek|, config.secretThreshold));
            forall k :: 0 <= k < |picks| ==> dealt[picks[k]] == shares[k]
  {
    hide Shamir.Share, Shamir.Coefficients, Noise;
    forall k, m | 0 <= k < m < |shares|
      ensures Shamir.Id(shares[k]) != Shamir.Id(shares[m])
    {
      assert picks[k] != picks[m];
    }
    forall k | 0 <= k < |shares|
      ensures Shamir.Id(shares[k]) != 0
    {
      IdIs(picks[k] + 1, Shamir.Id(shares[k]));
    }
    var noise := Shamir.BelowThresholdAnySecret(shares, config.secretThreshold, kek);
    tape := TapeOf(noise);
    NoiseOfTape(noise, |kek|, config.secretThreshold);
    forall k | 0 <= k < |picks|
      ensures Shamir.ShareId(picks[k] + 1) == Shamir.Id(shares[k])
    {
      IdIs(picks[k] + 1, Shamir.Id(shares[k]));
    }
  }

  lemma IdIs(i: nat, id: Byte)
    requires 0 < i < 256 && id as int == i
    ensures Shamir.ShareId(i) == id && id != 0
  {
  }

  /** An open vault deals any fewer than threshold shares under any key: they say nothing about it. */
  lemma DealtSharesHideKey(v: Vault, config: SealConfig, picks: seq<nat>, shares: seq<Key>) returns (tape: Tape)
    requires !v.core.sealed && |v.core.kek| == MAX_KEY && v.config == Some(config)
    requires Shamir.SplitAccepts(config.secretShares, config.secretThreshold)
    requires |picks| < config.secretThreshold && SharesAt(shares, picks, config.secretShares)
    ensures var r := GenerateUnsealKeys(v, tape, {});
            r.Ok? && |r.value| == config.secretShares && forall k :: 0 <= k < |picks| ==> r.value[picks[k]] == shares[k]
  {
    hide Shamir.Shares, Noise;
    tape := TapeFor(config, v.core.kek, picks, shares);
  }

  /** So does initialisation. */
  lemma InitSharesHideKey(v: Vault, config: SealConfig, kek: Key, hmac: Key, picks: seq<nat>, shares: seq<Key>)
    returns (tape: Tape)
    requires v.barrier == BarrierState(None, true) && v.core == SEALED_CORE && |kek| == MAX_KEY
    requires Shamir.SplitAccepts(config.secretShares, config.secretThreshold)
    requires |picks| < config.secretThreshold && SharesAt(shares, picks, config.secretShares)
    ensures var r := Init(v, config, kek, hmac, tape, {}).1;
            r.Ok? && |r.value| == config.secretShares && forall k :: 0 <= k < |picks| ==> r.value[picks[k]] == shares[k]
  {
    hide Shamir.Shares, Noise;
    tape := TapeFor(config, kek, picks, shares);
  }
}
