/** Polynomials over the byte field, as coefficient sequences with the constant term first. */
module Polynomial {
  import opened Gf256

  function Eval(p: seq<Byte>, x: Byte): Byte {
    if p == [] then 0 else Add(p[0], Mul(x, Eval(p[1..], x)))
  }

  /** Coefficient `i`, zero beyond the end. */
  function Coef(p: seq<Byte>, i: nat): Byte {
    if i < |p| then p[i] else 0
  }

  function Max(a: nat, b: nat): nat { if a < b then b else a }

  function Zeros(n: nat): seq<Byte> { seq(n, _ => 0) }

  function AddPoly(a: seq<Byte>, b: seq<Byte>): (r: seq<Byte>)
    ensures |r| == Max(|a|, |b|)
  {
    seq(Max(|a|, |b|), i requires 0 <= i => Add(Coef(a, i), Coef(b, i)))
  }

  function Scale(a: seq<Byte>, c: Byte): (r: seq<Byte>)
    ensures |r| == |a|
  {
    seq(|a|, i requires 0 <= i < |a| => Mul(a[i], c))
  }

  /** The product, accumulated over the terms of `b` from the constant term up. */
  function MulPoly(a: seq<Byte>, b: seq<Byte>): (r: seq<Byte>)
    ensures |r| == if b == [] then 0 else |a| + |b| - 1
  {
    if b == [] then []
    else
      var n := |b| - 1;
      AddPoly(MulPoly(a, b[..n]), Zeros(n) + Scale(a, b[n]))
  }

  method AddPolynomials(a: seq<Byte>, b: seq<Byte>) returns (results: seq<Byte>)
    ensures results == AddPoly(a, b)
  {
    hide Add;
    var a', b' := a, b;
    if |a| < |b| {
      a' := a + Zeros(|b| - |a|);
    } else if |a| > |b| {
      b' := b + Zeros(|a| - |b|);
    }
    results := [];
    for i := 0 to |a'|
      invariant results == AddPoly(a, b)[..i]
    {
      results := results + [Add(a'[i], b'[i])];
      assert AddPoly(a, b)[i] == Add(a'[i], b'[i]);
    }
  }

  method MultiplyPolynomials(a: seq<Byte>, b: seq<Byte>) returns (resultTerms: seq<Byte>)
    ensures resultTerms == MulPoly(a, b)
  {
    hide Mul, Add;
    resultTerms := [];
    var termPadding: seq<Byte> := [];
    for j := 0 to |b|
      invariant termPadding == Zeros(j)
      invariant resultTerms == MulPoly(a, b[..j])
    {
      var thisValue := termPadding;
      for i := 0 to |a|
        invariant thisValue == Zeros(j) + Scale(a, b[j])[..i]
      {
        thisValue := thisValue + [Mul(a[i], b[j])];
      }
      assert thisValue == Zeros(j) + Scale(a, b[j]);
      assert b[..j + 1][..j] == b[..j];
      resultTerms := AddPolynomials(resultTerms, thisValue);
      termPadding := termPadding + [0];
    }
    assert b[..|b|] == b;
  }

  // ---------- Evaluation is a ring homomorphism ----------

  function Tail(p: seq<Byte>): seq<Byte> { if p == [] then [] else p[1..] }

  lemma EvalUnfold(p: seq<Byte>, x: Byte)
    ensures Eval(p, x) == Add(Coef(p, 0), Mul(x, Eval(Tail(p), x)))
  {
    hide Mul, Add;
    MulNonZero(x, 0);
    AddLaws(0, 0, 0);
  }

  lemma {:induction false} EvalAdd(a: seq<Byte>, b: seq<Byte>, x: Byte)
    ensures Eval(AddPoly(a, b), x) == Add(Eval(a, x), Eval(b, x))
    decreases |a| + |b|
  {
    hide Mul, Add;
    if a == [] && b == [] {
      AddLaws(0, 0, 0);
    } else {
      EvalUnfold(a, x);
      EvalUnfold(b, x);
      EvalUnfold(AddPoly(a, b), x);
      assert Tail(AddPoly(a, b)) == AddPoly(Tail(a), Tail(b));
      EvalAdd(Tail(a), Tail(b), x);
      var ta, tb := Eval(Tail(a), x), Eval(Tail(b), x);
      MulDistributes(x, ta, tb);
      AddInterchange(Coef(a, 0), Coef(b, 0), Mul(x, ta), Mul(x, tb));
    }
  }

  lemma {:induction false} EvalScale(a: seq<Byte>, c: Byte, x: Byte)
    ensures Eval(Scale(a, c), x) == Mul(Eval(a, x), c)
  {
    hide Mul, Add;
    if a == [] {
      MulNonZero(0, c);
    } else {
      var t := Eval(a[1..], x);
      assert Scale(a, c)[1..] == Scale(a[1..], c);
      EvalScale(a[1..], c, x);
      MulAssociates(x, t, c);
      MulDistributes(c, a[0], Mul(x, t));
    }
  }

  function PowerOf(x: Byte, n: nat): Byte {
    if n == 0 then 1 else Mul(PowerOf(x, n - 1), x)
  }

  lemma {:induction false} EvalShift(a: seq<Byte>, n: nat, x: Byte)
    ensures Eval(Zeros(n) + a, x) == Mul(PowerOf(x, n), Eval(a, x))
  {
    hide Mul, Add;
    if n == 0 {
      assert Zeros(0) + a == a;
      MulOne(Eval(a, x));
    } else {
      EvalShift(a, n - 1, x);
      assert (Zeros(n) + a)[1..] == Zeros(n - 1) + a;
      var e := Eval(a, x);
      MulAssociates(x, PowerOf(x, n - 1), e);
      MulCommutes(x, PowerOf(x, n - 1));
      AddLaws(Mul(x, Eval(Zeros(n - 1) + a, x)), 0, 0);
    }
  }

  lemma {:induction false} EvalSnoc(b: seq<Byte>, c: Byte, x: Byte)
    ensures Eval(b + [c], x) == Add(Eval(b, x), Mul(PowerOf(x, |b|), c))
  {
    hide Mul, Add;
    assert b + [c] == AddPoly(b, Zeros(|b|) + [c]) by {
      AddZero(b, c);
    }
    EvalAdd(b, Zeros(|b|) + [c], x);
    EvalShift([c], |b|, x);
    EvalUnfold([c], x);
    assert Tail([c]) == [];
    MulNonZero(x, 0);
    AddLaws(c, 0, 0);
  }

  lemma AddZero(b: seq<Byte>, c: Byte)
    ensures b + [c] == AddPoly(b, Zeros(|b|) + [c])
  {
    hide Add;
    forall i | 0 <= i <= |b|
      ensures (b + [c])[i] == AddPoly(b, Zeros(|b|) + [c])[i]
    {
      AddLaws(if i < |b| then b[i] else c, 0, 0);
    }
  }

  lemma EvalMulStep(a: seq<Byte>, b: seq<Byte>, x: Byte)
    requires b != []
    ensures var n := |b| - 1;
            Eval(MulPoly(a, b), x) == Add(Eval(MulPoly(a, b[..n]), x), Mul(PowerOf(x, n), Mul(Eval(a, x), b[n])))
  {
    hide Mul, Add, Eval, PowerOf, AddPoly, Scale, Zeros;
    var n := |b| - 1;
    EvalAdd(MulPoly(a, b[..n]), Zeros(n) + Scale(a, b[n]), x);
    EvalShift(Scale(a, b[n]), n, x);
    EvalScale(a, b[n], x);
  }

  lemma {:induction false} EvalMul(a: seq<Byte>, b: seq<Byte>, x: Byte)
    ensures Eval(MulPoly(a, b), x) == Mul(Eval(a, x), Eval(b, x))
  {
    hide Mul, Add, PowerOf;
    if b == [] {
      MulNonZero(Eval(a, x), 0);
    } else {
      var n := |b| - 1;
      var front, e := b[..n], Eval(a, x);
      EvalMulStep(a, b, x);
      EvalMul(a, front, x);
      assert b == front + [b[n]];
      EvalSnoc(front, b[n], x);
      MulDistributes(e, Eval(front, x), Mul(PowerOf(x, n), b[n]));
      MulSwaps(e, PowerOf(x, n), b[n]);
    }
  }

  lemma MulSwaps(e: Byte, p: Byte, b: Byte)
    ensures Mul(e, Mul(p, b)) == Mul(p, Mul(e, b))
  {
    hide Mul;
    MulAssociates(e, p, b);
    MulCommutes(e, p);
    MulAssociates(p, e, b);
  }
}
