/** The vault core and its barrier as objects updated in place; every method follows `VaultModel`. */
module Core {
  import opened Wrappers
  import opened Gf256
  import opened M = VaultModel
  import Shamir

  /** Accepts exactly the key it was initialised with. */
  class SecurityBarrier {
    var key: Option<Key>
    var sealed: bool

    constructor ()
      ensures key == None && sealed
    {
      key, sealed := None, true;
    }

    method Inited(faults: set<Call>) returns (r: Result<bool, Error>)
      ensures r == if ReadInit in faults then Err(Failed(ReadInit)) else Ok(key.Some?)
    {
      r := if ReadInit in faults then Err(Failed(ReadInit)) else Ok(key.Some?);
    }

    method Init(kek: Key, faults: set<Call>) returns (r: Result<(), Error>)
      requires key.None? && MIN_KEY <= |kek| <= MAX_KEY
      modifies this`key
      ensures r == if BarrierInit in faults then Err(Failed(BarrierInit)) else Ok(())
      ensures key == if r.Ok? then Some(kek) else old(key)
    {
      if BarrierInit in faults {
        return Err(Failed(BarrierInit));
      }
      key := Some(kek);
      r := Ok(());
    }

    method Unseal(kek: Key, faults: set<Call>) returns (r: Result<(), Error>)
      requires key.Some? && sealed
      modifies this`sealed
      ensures r.Ok? <==> BarrierUnseal !in faults && kek == key.value
      ensures r.Err? ==> r.error == if BarrierUnseal in faults then Failed(BarrierUnseal) else BarrierUnsealFailed
      ensures sealed == r.Err?
    {
      if BarrierUnseal in faults {
        return Err(Failed(BarrierUnseal));
      }
      if kek != key.value {
        return Err(BarrierUnsealFailed);
      }
      sealed := false;
      r := Ok(());
    }

    method Seal()
      modifies this`sealed
      ensures sealed
    {
      sealed := true;
    }
  }

  class Core {
    const barrier: SecurityBarrier
    var state: CoreState
    var config: Option<SealConfig>
    var deprecated: Option<set<Key>>

    /** A barrier without a key is sealed. */
    predicate Valid()
      reads barrier
    {
      barrier.key.None? ==> barrier.sealed
    }

    constructor ()
      ensures Valid() && View() == FRESH && fresh(barrier)
    {
      barrier := new SecurityBarrier();
      state := SEALED_CORE;
      config, deprecated := None, None;
    }

    function View(): Vault
      reads this, barrier
    {
      Vault(state, BarrierState(barrier.key, barrier.sealed), config, deprecated)
    }

    method GenerateUnsealKeys(tape: Tape, faults: set<Call>) returns (r: Result<seq<Key>, Error>)
      ensures r == M.GenerateUnsealKeys(View(), tape, faults)
    {
      hide Shamir.Share;
      if state.sealed {
        return Err(BarrierSealed);
      }
      var kek := state.kek;
      if kek == [] {
        return Err(BarrierKeyInvalid);
      }
      var cfg := ReadSealConfig(View(), faults);
      if cfg.Err? {
        return Err(cfg.error);
      }
      var threshold := cfg.value.secretThreshold;
      var noise := if threshold > 0 then Noise(tape, |kek|, threshold) else [];
      var dealt := Shamir.Split(kek, cfg.value.secretShares, threshold, noise);
      r := if dealt.Ok? then Ok(dealt.value) else Err(ShareCountInvalid);
    }

    method Init(sealConfig: SealConfig, kek: Key, hmac: Key, tape: Tape, faults: set<Call>)
      returns (r: Result<seq<Key>, Error>)
      requires Valid() && |kek| == MAX_KEY
      modifies this, barrier
      ensures Valid() && (View(), r) == M.Init(old(View()), sealConfig, kek, hmac, tape, faults)
    {
      hide M.GenerateUnsealKeys;
      var inited := barrier.Inited(faults);
      if inited.Err? {
        return Err(inited.error);
      }
      if inited.value {
        return Err(BarrierAlreadyInit);
      }
      if sealConfig.secretThreshold > sealConfig.secretShares {
        return Err(SealConfigInvalid);
      }
      if WriteConfig in faults {
        return Err(Failed(WriteConfig));
      }
      config := Some(sealConfig);
      if WriteSet in faults {
        return Err(Failed(WriteSet));
      }
      deprecated := Some({});
      var initialised := barrier.Init(kek, faults);
      if initialised.Err? {
        return Err(initialised.error);
      }
      var unsealed := barrier.Unseal(kek, faults);
      if unsealed.Err? {
        return Err(unsealed.error);
      }
      var stateOld := state;
      if DeriveHmac in faults {
        return Err(Failed(DeriveHmac));
      }
      state := state.(hmacKey := hmac, systemView := true, sealed := false, kek := kek);
      var shares: Result<seq<Key>, Error>;
      if sealConfig.secretShares == 1 {
        shares := Ok([kek]);
      } else {
        shares := GenerateUnsealKeys(tape, faults);
        if shares.Err? {
          return Err(shares.error);
        }
      }
      r := Ok(shares.value);
      if PostUnseal in faults {
        r := Err(Failed(PostUnseal));
      } else if RootToken in faults {
        r := Err(Failed(RootToken));
      } else if PreSeal in faults {
        r := Err(Failed(PreSeal));
      }
      // deferred on every exit from here
      barrier.Seal();
      state := stateOld;
    }

    method DoUnseal(key: Key, once: bool, hmac: Key, faults: set<Call>) returns (r: Result<bool, Error>)
      requires Valid()
      modifies this, barrier
      ensures Valid() && (View(), r) == M.DoUnseal(old(View()), key, once, hmac, faults)
    {
      hide Shamir.Recovered;
      var inited := barrier.Inited(faults);
      if inited.Err? {
        return Err(inited.error);
      }
      if !inited.value {
        return Err(BarrierNotInit);
      }
      if !barrier.sealed {
        return Err(BarrierUnsealed);
      }
      if |key| < MIN_KEY || |key| > MAX_KEY + SHAMIR_OVERHEAD {
        return Err(BarrierKeyInvalid);
      }
      var cfg := ReadSealConfig(View(), faults);
      if cfg.Err? {
        return Err(cfg.error);
      }
      if key in state.unsealKeyShares {
        return Ok(false);
      }
      var readable := Readable(View(), faults);
      if readable && key in deprecated.value {
        return Err(BarrierKeyDeprecated);
      }
      var shares := state.unsealKeyShares + [key];
      if |shares| < cfg.value.secretThreshold {
        state := state.(unsealKeyShares := shares);
        return Ok(false);
      }
      var kek: Option<Key>;
      if cfg.value.secretThreshold == 1 {
        kek := Some(shares[0]);
      } else {
        kek := Shamir.Combine(shares);
      }
      if kek.None? {
        state := state.(unsealKeyShares := []);
        return Err(BarrierKeyInvalid);
      }
      var unsealed := barrier.Unseal(kek.value, faults);
      if unsealed.Err? {
        state := state.(unsealKeyShares := []);
        return Err(unsealed.error);
      }
      if DeriveHmac in faults {
        return Err(Failed(DeriveHmac));
      }
      state := CoreState(true, false, hmac, [], kek.value);
      if PostUnseal in faults {
        state := state.(unsealKeyShares := [], kek := [], hmacKey := [], systemView := false, sealed := true);
        return Err(Failed(PostUnseal));
      }
      if once && readable {
        if WriteSet in faults {
          return Err(Failed(WriteSet));
        }
        deprecated := Some(deprecated.value + set s | s in shares);
      }
      r := Ok(true);
    }

    method UnsealOnce(key: Key, hmac: Key, tape: Tape, faults: set<Call>, later: set<Call>)
      returns (r: Result<seq<Key>, Error>)
      requires Valid()
      modifies this, barrier
      ensures Valid() && (View(), r) == M.UnsealOnce(old(View()), key, hmac, tape, faults, later)
    {
      hide M.GenerateUnsealKeys, M.DoUnseal;
      var unsealed := DoUnseal(key, true, hmac, faults);
      if unsealed.Err? {
        return Err(unsealed.error);
      }
      if unsealed.value {
        r := GenerateUnsealKeys(tape, later);
      } else {
        r := Err(BarrierUnsealing);
      }
    }

    method Seal(faults: set<Call>) returns (r: Result<(), Error>)
      requires Valid()
      modifies this, barrier
      ensures Valid() && (View(), r) == M.Seal(old(View()), faults)
    {
      var inited := barrier.Inited(faults);
      if inited.Err? {
        return Err(inited.error);
      }
      if !inited.value {
        return Err(BarrierNotInit);
      }
      if barrier.sealed {
        return Err(BarrierSealed);
      }
      if PreSeal in faults {
        return Err(Failed(PreSeal));
      }
      state := state.(sealed := true, systemView := false, unsealKeyShares := [], hmacKey := [], kek := []);
      barrier.Seal();
      r := Ok(());
    }
  }
}
