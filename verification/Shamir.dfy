/** Threshold secret sharing: one polynomial per secret byte, shares are its values at the share's id.

    The random bytes drawn by the dealer are the parameter `noise`, one row per secret byte.
 */
module Shamir {
  import opened Wrappers
  import opened Gf256
  import opened Polynomial
  import opened Interpolation

  type U8 = x: int | 0 <= x < 256

  datatype Error = ShareCountInvalid

  /** One row of `threshold - 1` random bytes per secret byte. */
  predicate NoiseFor(noise: seq<seq<Byte>>, secret: seq<Byte>, threshold: nat) {
    |noise| == |secret| && forall i :: 0 <= i < |noise| ==> |noise[i]| + 1 == threshold
  }

  /** The dealer's polynomials: constant term from the secret, the rest random. */
  function Coefficients(secret: seq<Byte>, noise: seq<seq<Byte>>): (r: seq<seq<Byte>>)
    requires |noise| == |secret|
    ensures |r| == |secret|
  {
    seq(|secret|, i requires 0 <= i < |secret| => [secret[i]] + noise[i])
  }

  /** A share: the value of every polynomial at `id`, then `id` itself. */
  function Share(coefficients: seq<seq<Byte>>, id: Byte): (r: seq<Byte>)
    ensures |r| == |coefficients| + 1
  {
    seq(|coefficients|, i requires 0 <= i < |coefficients| => Eval(coefficients[i], id)) + [id]
  }

  /** The id byte of share number `i`, counting from 1. */
  function ShareId(i: nat): Byte
    requires i < 256
  {
    i as Byte
  }

  /** All shares of `split`, ids 1 .. part. */
  function Shares(secret: seq<Byte>, part: nat, noise: seq<seq<Byte>>): (r: seq<seq<Byte>>)
    requires |noise| == |secret| && part < 256
    ensures |r| == part
  {
    seq(part, k requires 0 <= k < part => Share(Coefficients(secret, noise), ShareId(k + 1)))
  }

  /** The shares of the given ids. */
  function Deal(coefficients: seq<seq<Byte>>, ids: seq<Byte>): (r: seq<seq<Byte>>)
    ensures |r| == |ids|
  {
    seq(|ids|, k requires 0 <= k < |ids| => Share(coefficients, ids[k]))
  }

  predicate Below(pick: seq<nat>, n: nat) {
    forall k :: 0 <= k < |pick| ==> pick[k] < n
  }

  /** The shares at the chosen positions, in the chosen order. */
  function Select(shares: seq<seq<Byte>>, pick: seq<nat>): (r: seq<seq<Byte>>)
    requires Below(pick, |shares|)
    ensures |r| == |pick|
  {
    seq(|pick|, k requires 0 <= k < |pick| => shares[pick[k]])
  }

  // ---------- Dealing ----------

  method WithSecret(secret: seq<Byte>, threshold: U8, noise: seq<seq<Byte>>) returns (coefficients: seq<seq<Byte>>)
    requires threshold > 0 && NoiseFor(noise, secret, threshold)
    ensures coefficients == Coefficients(secret, noise)
  {
    coefficients := [];
    for i := 0 to |secret|
      invariant coefficients == Coefficients(secret, noise)[..i]
    {
      var coef := [secret[i]];
      for r := 0 to |noise[i]|
        invariant coef == [secret[i]] + noise[i][..r]
      {
        coef := coef + [noise[i][r]];
      }
      assert coef == [secret[i]] + noise[i];
      coefficients := coefficients + [coef];
    }
  }

  method AccumulateShareBytes(id: Byte, coefficientBytes: seq<Byte>) returns (r: Result<Byte, Error>)
    ensures r == if id == 0 then Err(ShareCountInvalid) else Ok(Eval(coefficientBytes, id))
  {
    hide Mul, Add;
    if id == 0 {
      return Err(ShareCountInvalid);
    }
    var accumulator: Byte := 0;
    var xi: Byte := 1;
    for k := 0 to |coefficientBytes|
      invariant xi == PowerOf(id, k)
      invariant accumulator == Eval(coefficientBytes[..k], id)
    {
      var c := coefficientBytes[k];
      EvalSnoc(coefficientBytes[..k], c, id);
      assert coefficientBytes[..k + 1] == coefficientBytes[..k] + [c];
      MulCommutes(c, xi);
      accumulator := Add(accumulator, Mul(c, xi));
      xi := Mul(xi, id);
    }
    assert coefficientBytes[..|coefficientBytes|] == coefficientBytes;
    r := Ok(accumulator);
  }

  method GetShare(coefficients: seq<seq<Byte>>, id: Byte) returns (r: Result<seq<Byte>, Error>)
    ensures r == if id == 0 then Err(ShareCountInvalid) else Ok(Share(coefficients, id))
  {
    hide Mul, Add;
    if id == 0 {
      return Err(ShareCountInvalid);
    }
    var shareBytes: seq<Byte> := [];
    for i := 0 to |coefficients|
      invariant shareBytes == Share(coefficients, id)[..i]
    {
      var b := AccumulateShareBytes(id, coefficients[i]);
      shareBytes := shareBytes + [b.value];
    }
    shareBytes := shareBytes + [id];
    r := Ok(shareBytes);
  }

  predicate SplitAccepts(part: U8, threshold: U8) {
    2 <= threshold <= part <= 254
  }

  method Split(secret: seq<Byte>, part: U8, threshold: U8, noise: seq<seq<Byte>>)
    returns (r: Result<seq<seq<Byte>>, Error>)
    requires threshold > 0 ==> NoiseFor(noise, secret, threshold)
    ensures SplitAccepts(part, threshold) ==> r == Ok(Shares(secret, part, noise))
    ensures !SplitAccepts(part, threshold) ==> r == Err(ShareCountInvalid)
  {
    hide Mul, Add, Eval, ShareId;
    if part < threshold || threshold < 2 || part == 255 {
      return Err(ShareCountInvalid);
    }
    var coefficients := WithSecret(secret, threshold, noise);
    var out: seq<seq<Byte>> := [];
    for i: int := 1 to part + 1
      invariant out == Shares(secret, part, noise)[..i - 1]
    {
      ShareIdNonZero(i);
      var shared := GetShare(coefficients, ShareId(i));
      out := out + [shared.value];
    }
    assert out == Shares(secret, part, noise);
    r := Ok(out);
  }

  lemma ShareIdNonZero(i: nat)
    requires 0 < i < 256
    ensures ShareId(i) != 0
  {
    ByteOfNat(i);
  }

  lemma ShareIdInjective(i: nat, j: nat)
    requires i < 256 && j < 256 && i != j
    ensures ShareId(i) != ShareId(j)
  {
    ByteOfNat(i);
    ByteOfNat(j);
  }

  // ---------- Combining ----------

  function Id(share: seq<Byte>): Byte
    requires share != []
  {
    share[|share| - 1]
  }

  ghost predicate WellFormedShares(shares: seq<seq<Byte>>) {
    && |shares| >= 2
    && (forall k :: 0 <= k < |shares| ==> shares[k] != [] && |shares[k]| == |shares[0]|)
    && (forall k, m :: 0 <= k < m < |shares| ==> Id(shares[k]) != Id(shares[m]))
  }

  ghost function Ids(shares: seq<seq<Byte>>): (xs: seq<Byte>)
    requires WellFormedShares(shares)
    ensures |xs| == |shares| && Distinct(xs)
  {
    seq(|shares|, k requires 0 <= k < |shares| => Id(shares[k]))
  }

  /** Byte `j` of every share. */
  ghost function Column(shares: seq<seq<Byte>>, j: nat): (ys: seq<Byte>)
    requires forall k :: 0 <= k < |shares| ==> j < |shares[k]|
    ensures |ys| == |shares|
  {
    seq(|shares|, k requires 0 <= k < |shares| => shares[k][j])
  }

  lemma SomeInterpolant(xs: seq<Byte>, ys: seq<Byte>)
    requires |xs| == |ys| && Distinct(xs)
    ensures exists p :: Interpolates(p, xs, ys)
  {
    var p := InterpolantExists(xs, ys);
  }

  /** The constant term of the polynomial through the points. */
  ghost function ConstantTerm(xs: seq<Byte>, ys: seq<Byte>): Byte
    requires |xs| == |ys| > 0 && Distinct(xs)
  {
    SomeInterpolant(xs, ys);
    var p :| Interpolates(p, xs, ys);
    p[0]
  }

  /** What a list of shares determines: nothing when malformed, else one byte per column. */
  ghost function Recovered(shares: seq<seq<Byte>>): (r: Option<seq<Byte>>)
    ensures r.Some? <==> WellFormedShares(shares)
  {
    if !WellFormedShares(shares) then None
    else Some(seq(|shares[0]| - 1,
                  j requires 0 <= j < |shares[0]| - 1 => ConstantTerm(Ids(shares), Column(shares, j))))
  }

  method Combine(shares: seq<seq<Byte>>) returns (r: Option<seq<Byte>>)
    ensures r == Recovered(shares)
  {
    hide Mul, Add, Eval;
    if |shares| < 2 {
      return None;
    }
    var xs: seq<Byte> := [];
    for k := 0 to |shares|
      invariant |xs| == k
      invariant forall m :: 0 <= m < k ==> shares[m] != [] && |shares[m]| == |shares[0]| && xs[m] == Id(shares[m])
      invariant Distinct(xs)
    {
      var share := shares[k];
      if share == [] {
        return None;
      }
      var last := share[|share| - 1];
      if last in xs {
        return None;
      }
      if |share| != |shares[0]| {
        return None;
      }
      xs := xs + [last];
    }
    assert WellFormedShares(shares) && xs == Ids(shares);
    var mySecretData: seq<Byte> := [];
    for byteToUse := 0 to |shares[0]| - 1
      invariant mySecretData == Recovered(shares).value[..byteToUse]
    {
      var fxs: seq<Byte> := [];
      for k := 0 to |shares|
        invariant fxs == Column(shares, byteToUse)[..k]
      {
        fxs := fxs + [shares[k][byteToUse]];
      }
      var poly := FullLagrange(xs, fxs);
      assert fxs == Column(shares, byteToUse);
      InterpolantConstant(poly.value, xs, fxs);
      mySecretData := mySecretData + [poly.value[0]];
    }
    assert mySecretData == Recovered(shares).value;
    r := Some(mySecretData);
  }

  lemma InterpolantConstant(p: seq<Byte>, xs: seq<Byte>, ys: seq<Byte>)
    requires |xs| == |ys| > 0 && Distinct(xs) && Interpolates(p, xs, ys)
    ensures ConstantTerm(xs, ys) == p[0]
  {
    hide Mul, Add, Eval;
    SomeInterpolant(xs, ys);
    var q :| Interpolates(q, xs, ys) && ConstantTerm(xs, ys) == q[0];
    InterpolantIsUnique(p, q, xs, ys);
  }

  // ---------- Sharing and combining ----------

  /** Shorter polynomials through the points have the same constant term. */
  lemma ConstantTermOfShort(p: seq<Byte>, xs: seq<Byte>, ys: seq<Byte>)
    requires |xs| == |ys| && Distinct(xs) && 0 < |p| <= |xs|
    requires forall i :: 0 <= i < |xs| ==> Eval(p, xs[i]) == ys[i]
    ensures ConstantTerm(xs, ys) == p[0]
  {
    hide Mul, Add, Eval;
    var q := InterpolantExists(xs, ys);
    InterpolantConstant(q, xs, ys);
    AgreementIsEquality(p, q, xs);
    assert Coef(p, 0) == Coef(q, 0);
  }

  /** Any `threshold` or more shares with distinct ids recover the secret, in any order. */
  lemma AnyThresholdSharesRecover(secret: seq<Byte>, threshold: nat, noise: seq<seq<Byte>>, ids: seq<Byte>)
    requires threshold > 0 && NoiseFor(noise, secret, threshold)
    requires |ids| >= 2 && |ids| >= threshold && Distinct(ids)
    ensures Recovered(Deal(Coefficients(secret, noise), ids)) == Some(secret)
  {
    hide Mul, Add, Eval;
    var coefs := Coefficients(secret, noise);
    var shares := Deal(coefs, ids);
    assert forall k :: 0 <= k < |ids| ==> Id(shares[k]) == ids[k];
    assert WellFormedShares(shares) && Ids(shares) == ids;
    forall j | 0 <= j < |secret|
      ensures Recovered(shares).value[j] == secret[j]
    {
      ConstantTermOfShort(coefs[j], ids, Column(shares, j));
    }
    assert Recovered(shares).value == secret;
  }

  /** Whatever `split` hands out, every sufficiently large selection of its shares recovers the secret. */
  lemma SplitCombineRoundTrip(secret: seq<Byte>, part: U8, threshold: U8, noise: seq<seq<Byte>>, pick: seq<nat>)
    requires SplitAccepts(part, threshold) && NoiseFor(noise, secret, threshold)
    requires |pick| >= threshold
    requires Below(pick, part)
    requires forall k, m :: 0 <= k < m < |pick| ==> pick[k] != pick[m]
    ensures Recovered(Select(Shares(secret, part, noise), pick)) == Some(secret)
  {
    hide Mul, Add, Eval, ShareId, Recovered, Share;
    var ids := seq(|pick|, k requires 0 <= k < |pick| => ShareId(pick[k] + 1));
    forall k, m | 0 <= k < m < |pick|
      ensures ids[k] != ids[m]
    {
      ShareIdInjective(pick[k] + 1, pick[m] + 1);
    }
    AnyThresholdSharesRecover(secret, threshold, noise, ids);
    assert Select(Shares(secret, part, noise), pick) == Deal(Coefficients(secret, noise), ids);
  }

  // ---------- Below the threshold ----------

  lemma {:induction false} EvalPad(p: seq<Byte>, n: nat, x: Byte)
    ensures Eval(p + Zeros(n), x) == Eval(p, x)
  {
    hide Mul, Add;
    if n == 0 {
      assert p + Zeros(0) == p;
    } else {
      EvalPad(p, n - 1, x);
      assert p + Zeros(n) == (p + Zeros(n - 1)) + [0];
      EvalSnoc(p + Zeros(n - 1), 0, x);
      MulNonZero(PowerOf(x, |p| + n - 1), 0);
      AddLaws(Eval(p, x), 0, 0);
    }
  }

  /** A polynomial of the given length with the given constant term through fewer points than its length. */
  lemma PolynomialWithConstant(c: Byte, xs: seq<Byte>, ys: seq<Byte>, length: nat) returns (p: seq<Byte>)
    requires |xs| == |ys| < length && Distinct(xs) && 0 !in xs
    ensures |p| == length && p[0] == c
    ensures forall i :: 0 <= i < |xs| ==> Eval(p, xs[i]) == ys[i]
  {
    hide Mul, Add;
    var q := InterpolantExists([0] + xs, [c] + ys);
    p := q + Zeros(length - |q|);
    assert Eval(q, ([0] + xs)[0]) == c;
    EvalUnfold(q, 0);
    MulNonZero(0, Eval(Tail(q), 0));
    AddLaws(q[0], 0, 0);
    forall i | 0 <= i < |xs|
      ensures Eval(p, xs[i]) == ys[i]
    {
      EvalPad(q, length - |q|, xs[i]);
      assert Eval(q, ([0] + xs)[i + 1]) == ([c] + ys)[i + 1];
    }
  }

  /** Fewer than `threshold` shares fit every secret of the right length: some random bytes deal exactly them. */
  lemma BelowThresholdAnySecret(shares: seq<seq<Byte>>, threshold: nat, secret: seq<Byte>)
    returns (noise: seq<seq<Byte>>)
    requires |shares| < threshold
    requires forall k :: 0 <= k < |shares| ==> |shares[k]| == |secret| + 1 && Id(shares[k]) != 0
    requires forall k, m :: 0 <= k < m < |shares| ==> Id(shares[k]) != Id(shares[m])
    ensures NoiseFor(noise, secret, threshold)
    ensures forall k :: 0 <= k < |shares| ==> Share(Coefficients(secret, noise), Id(shares[k])) == shares[k]
  {
    hide Mul, Add, Eval;
    var xs := seq(|shares|, k requires 0 <= k < |shares| => Id(shares[k]));
    noise := [];
    for j := 0 to |secret|
      invariant |noise| == j
      invariant forall i :: 0 <= i < j ==> |noise[i]| + 1 == threshold
      invariant forall i, k :: 0 <= i < j && 0 <= k < |shares| ==> Eval([secret[i]] + noise[i], xs[k]) == shares[k][i]
    {
      var p := PolynomialWithConstant(secret[j], xs, Column(shares, j), threshold);
      assert p == [secret[j]] + p[1..];
      noise := noise + [p[1..]];
    }
    forall k | 0 <= k < |shares|
      ensures Share(Coefficients(secret, noise), Id(shares[k])) == shares[k]
    {
      assert shares[k] == shares[k][..|secret|] + [xs[k]];
    }
  }
}
