/** The vault's seal state as a value, and every operation as a function of it.

    Calls that can fail for reasons outside this model (storage, module setup, crypto
    library) are listed in `Call`; an operation is given the set of calls that fail.
    The random tape supplies the bytes drawn when unseal keys are dealt.
 */
module VaultModel {
  import opened Wrappers
  import opened Gf256
  import Shamir

  type Key = seq<Byte>
  type Tape = (nat, nat) -> Byte

  datatype Call =
    | ReadInit | WriteConfig | WriteSet | BarrierInit | BarrierUnseal | DeriveHmac
    | ReadConfig | ReadSet | PostUnseal | RootToken | PreSeal

  datatype Error =
    | Failed(call: Call)
    | BarrierAlreadyInit | BarrierNotInit | BarrierSealed | BarrierUnsealed | BarrierUnsealing
    | BarrierKeyInvalid | BarrierKeyDeprecated | BarrierUnsealFailed
    | SealConfigInvalid | SealConfigNotFound | ShareCountInvalid

  datatype SealConfig = SealConfig(secretShares: Shamir.U8, secretThreshold: Shamir.U8)

  datatype CoreState = CoreState(systemView: bool, sealed: bool, hmacKey: Key, unsealKeyShares: seq<Key>, kek: Key)

  datatype BarrierState = BarrierState(key: Option<Key>, sealed: bool)

  /** Core state, barrier, and the two physical entries of the seal machinery. */
  datatype Vault = Vault(
    core: CoreState, barrier: BarrierState, config: Option<SealConfig>, deprecated: Option<set<Key>>)

  const SEALED_CORE := CoreState(false, true, [], [], [])
  const FRESH := Vault(SEALED_CORE, BarrierState(None, true), None, None)

  const MIN_KEY := 16
  const MAX_KEY := 32
  const SHAMIR_OVERHEAD := 1

  function Noise(tape: Tape, rows: nat, threshold: nat): (r: seq<seq<Byte>>)
    requires threshold > 0
    ensures |r| == rows && forall i :: 0 <= i < rows ==> |r[i]| + 1 == threshold
  {
    seq(rows, i requires 0 <= i => seq(threshold - 1, j requires 0 <= j => tape(i, j)))
  }

  function ReadSealConfig(v: Vault, faults: set<Call>): Result<SealConfig, Error> {
    if ReadConfig in faults then Err(Failed(ReadConfig))
    else if v.config.None? then Err(SealConfigNotFound)
    else if v.config.value.secretThreshold > v.config.value.secretShares then Err(SealConfigInvalid)
    else Ok(v.config.value)
  }

  function GenerateUnsealKeys(v: Vault, tape: Tape, faults: set<Call>): Result<seq<Key>, Error> {
    if v.core.sealed then Err(BarrierSealed)
    else if v.core.kek == [] then Err(BarrierKeyInvalid)
    else
      match ReadSealConfig(v, faults)
      case Err(e) => Err(e)
      case Ok(config) =>
        if Shamir.SplitAccepts(config.secretShares, config.secretThreshold)
        then Ok(Shamir.Shares(v.core.kek, config.secretShares, Noise(tape, |v.core.kek|, config.secretThreshold)))
        else Err(ShareCountInvalid)
  }

  /** First unseal, share generation and re-seal; errors before the re-seal is arranged leave the vault as it is. */
  function Init(v: Vault, config: SealConfig, kek: Key, hmac: Key, tape: Tape, faults: set<Call>)
    : (Vault, Result<seq<Key>, Error>)
  {
    if ReadInit in faults then (v, Err(Failed(ReadInit)))
    else if v.barrier.key.Some? then (v, Err(BarrierAlreadyInit))
    else if config.secretThreshold > config.secretShares then (v, Err(SealConfigInvalid))
    else if WriteConfig in faults then (v, Err(Failed(WriteConfig)))
    else
      var v1 := v.(config := Some(config));
      if WriteSet in faults then (v1, Err(Failed(WriteSet)))
      else
        var v2 := v1.(deprecated := Some({}));
        if BarrierInit in faults then (v2, Err(Failed(BarrierInit)))
        else
          var v3 := v2.(barrier := v.barrier.(key := Some(kek)));
          if BarrierUnseal in faults then (v3, Err(Failed(BarrierUnseal)))
          else InitUnsealed(v3.(barrier := BarrierState(Some(kek), false)), config, kek, hmac, tape, faults)
  }

  function InitUnsealed(v: Vault, config: SealConfig, kek: Key, hmac: Key, tape: Tape, faults: set<Call>)
    : (Vault, Result<seq<Key>, Error>)
  {
    if DeriveHmac in faults then (v, Err(Failed(DeriveHmac)))
    else
      var open := v.(core := CoreState(true, false, hmac, v.core.unsealKeyShares, kek));
      var shares := if config.secretShares == 1 then Ok([kek]) else GenerateUnsealKeys(open, tape, faults);
      if shares.Err? then (open, Err(shares.error))
      else
        var resealed := v.(barrier := v.barrier.(sealed := true));
        if PostUnseal in faults then (resealed, Err(Failed(PostUnseal)))
        else if RootToken in faults then (resealed, Err(Failed(RootToken)))
        else if PreSeal in faults then (resealed, Err(Failed(PreSeal)))
        else (resealed, Ok(shares.value))
  }

  predicate Readable(v: Vault, faults: set<Call>) {
    ReadSet !in faults && v.deprecated.Some?
  }

  ghost function DoUnseal(v: Vault, key: Key, once: bool, hmac: Key, faults: set<Call>): (Vault, Result<bool, Error>)
  {
    if ReadInit in faults then (v, Err(Failed(ReadInit)))
    else if v.barrier.key.None? then (v, Err(BarrierNotInit))
    else if !v.barrier.sealed then (v, Err(BarrierUnsealed))
    else if |key| < MIN_KEY || |key| > MAX_KEY + SHAMIR_OVERHEAD then (v, Err(BarrierKeyInvalid))
    else
      match ReadSealConfig(v, faults)
      case Err(e) => (v, Err(e))
      case Ok(config) =>
        if key in v.core.unsealKeyShares then (v, Ok(false))
        else if Readable(v, faults) && key in v.deprecated.value then (v, Err(BarrierKeyDeprecated))
        else
          var shares := v.core.unsealKeyShares + [key];
          if |shares| < config.secretThreshold
          then (v.(core := v.core.(unsealKeyShares := shares)), Ok(false))
          else Complete(v, config, shares, once, hmac, faults)
  }

  /** The key encryption key that a full list of shares stands for. */
  ghost function KekOf(config: SealConfig, shares: seq<Key>): Option<Key>
    requires shares != []
  {
    if config.secretThreshold == 1 then Some(shares[0]) else Shamir.Recovered(shares)
  }

  ghost function Complete(v: Vault, config: SealConfig, shares: seq<Key>, once: bool, hmac: Key, faults: set<Call>)
    : (Vault, Result<bool, Error>)
    requires shares != [] && v.barrier.key.Some?
  {
    var cleared := v.(core := v.core.(unsealKeyShares := []));
    var kek := KekOf(config, shares);
    if kek.None? then (cleared, Err(BarrierKeyInvalid))
    else if BarrierUnseal in faults then (cleared, Err(Failed(BarrierUnseal)))
    else if kek.value != v.barrier.key.value then (cleared, Err(BarrierUnsealFailed))
    else
      var v1 := v.(barrier := v.barrier.(sealed := false));
      if DeriveHmac in faults then (v1, Err(Failed(DeriveHmac)))
      else
        if PostUnseal in faults then (v1.(core := SEALED_CORE), Err(Failed(PostUnseal)))
        else
          var v2 := v1.(core := CoreState(true, false, hmac, [], kek.value));
          if once && Readable(v, faults) then
            if WriteSet in faults then (v2, Err(Failed(WriteSet)))
            else (v2.(deprecated := Some(v.deprecated.value + set s | s in shares)), Ok(true))
          else (v2, Ok(true))
  }

  ghost function UnsealOnce(v: Vault, key: Key, hmac: Key, tape: Tape, faults: set<Call>, later: set<Call>)
    : (Vault, Result<seq<Key>, Error>)
  {
    var (v', r) := DoUnseal(v, key, true, hmac, faults);
    if r.Err? then (v', Err(r.error))
    else if r.value then (v', GenerateUnsealKeys(v', tape, later))
    else (v', Err(BarrierUnsealing))
  }

  function Seal(v: Vault, faults: set<Call>): (Vault, Result<(), Error>) {
    if ReadInit in faults then (v, Err(Failed(ReadInit)))
    else if v.barrier.key.None? then (v, Err(BarrierNotInit))
    else if v.barrier.sealed then (v, Err(BarrierSealed))
    else if PreSeal in faults then (v, Err(Failed(PreSeal)))
    else (v.(core := SEALED_CORE, barrier := v.barrier.(sealed := true)), Ok(()))
  }
}
