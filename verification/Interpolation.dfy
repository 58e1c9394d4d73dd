/** Interpolation over the byte field: existence, uniqueness, and the Lagrange construction. */
module Interpolation {
  import opened Wrappers
  import opened Gf256
  import opened Polynomial

  ghost predicate Distinct(xs: seq<Byte>) {
    forall i, j :: 0 <= i < j < |xs| ==> xs[i] != xs[j]
  }

  /** `p` has one coefficient per point and passes through every point. */
  ghost predicate Interpolates(p: seq<Byte>, xs: seq<Byte>, ys: seq<Byte>)
    requires |xs| == |ys|
  {
    |p| == |xs| && forall i :: 0 <= i < |xs| ==> Eval(p, xs[i]) == ys[i]
  }

  // ---------- Uniqueness ----------

  /** The quotient of `p` by the linear factor with root `r`. */
  function Quotient(p: seq<Byte>, r: Byte): (q: seq<Byte>)
    ensures |q| == if p == [] then 0 else |p| - 1
  {
    if |p| <= 1 then [] else [Eval(p[1..], r)] + Quotient(p[1..], r)
  }

  lemma {:induction false} QuotientEval(p: seq<Byte>, r: Byte, x: Byte)
    ensures Eval(p, x) == Add(Eval(p, r), Mul(Add(x, r), Eval(Quotient(p, r), x)))
  {
    hide Mul, Add;
    if |p| <= 1 {
      EvalConstant(p, x);
      EvalConstant(p, r);
      MulNonZero(Add(x, r), 0);
      AddLaws(Eval(p, r), 0, 0);
    } else {
      var t := p[1..];
      QuotientEval(t, r, x);
      assert Quotient(p, r)[1..] == Quotient(t, r);
      QuotientStep(p[0], Eval(t, r), Eval(Quotient(t, r), x), r, x);
    }
  }

  lemma EvalConstant(p: seq<Byte>, x: Byte)
    requires |p| <= 1
    ensures Eval(p, x) == Coef(p, 0)
  {
    hide Mul, Add;
    EvalUnfold(p, x);
    assert Tail(p) == [];
    MulNonZero(x, 0);
    AddLaws(Coef(p, 0), 0, 0);
  }

  /** c + x (e + (x+r) q) = (c + r e) + (x+r) (e + x q) */
  lemma QuotientStep(c: Byte, e: Byte, q: Byte, r: Byte, x: Byte)
    ensures Add(c, Mul(x, Add(e, Mul(Add(x, r), q)))) == Add(Add(c, Mul(r, e)), Mul(Add(x, r), Add(e, Mul(x, q))))
  {
    hide Mul, Add;
    var xr := Add(x, r);
    MulDistributes(x, e, Mul(xr, q));
    MulDistributes(xr, e, Mul(x, q));
    MulDistributes(e, x, r);
    MulAssociates(x, xr, q);
    MulCommutes(x, xr);
    MulAssociates(xr, x, q);
    var xe, re, rest := Mul(x, e), Mul(r, e), Mul(x, Mul(xr, q));
    CancelTwice(c, re, xe, rest);
  }

  lemma CancelTwice(c: Byte, u: Byte, v: Byte, w: Byte)
    ensures Add(c, Add(v, w)) == Add(Add(c, u), Add(Add(v, u), w))
  {
    assert c ^ (v ^ w) == (c ^ u) ^ ((v ^ u) ^ w);
  }

  /** A polynomial with at least as many distinct roots as coefficients is zero. */
  lemma {:induction false} ManyRootsIsZero(p: seq<Byte>, xs: seq<Byte>)
    requires Distinct(xs) && |p| <= |xs|
    requires forall i :: 0 <= i < |xs| ==> Eval(p, xs[i]) == 0
    ensures p == Zeros(|p|)
    decreases |xs|
  {
    hide Mul, Add;
    if p != [] {
      var r, q := xs[0], Quotient(p, xs[0]);
      forall i | 0 <= i < |xs| - 1
        ensures Eval(q, xs[1..][i]) == 0
      {
        var x := xs[i + 1];
        QuotientEval(p, r, x);
        AddLaws(Mul(Add(x, r), Eval(q, x)), 0, 0);
        AddLaws(x, r, 0);
        MulNonZero(Add(x, r), Eval(q, x));
      }
      ManyRootsIsZero(q, xs[1..]);
      ZeroQuotient(p, r);
    }
  }

  lemma {:induction false} ZeroQuotient(p: seq<Byte>, r: Byte)
    requires Eval(p, r) == 0 && Quotient(p, r) == Zeros(|Quotient(p, r)|)
    ensures p == Zeros(|p|)
  {
    hide Mul, Add;
    if |p| == 1 {
      EvalConstant(p, r);
    } else if |p| > 1 {
      var q := Quotient(p, r);
      assert q[0] == 0 && q[1..] == Quotient(p[1..], r) == Zeros(|q| - 1);
      ZeroQuotient(p[1..], r);
      MulNonZero(r, 0);
      AddLaws(p[0], 0, 0);
    }
  }

  /** Two polynomials that agree on as many distinct points as either has coefficients are equal. */
  lemma AgreementIsEquality(p: seq<Byte>, q: seq<Byte>, xs: seq<Byte>)
    requires Distinct(xs) && |p| <= |xs| && |q| <= |xs|
    requires forall i :: 0 <= i < |xs| ==> Eval(p, xs[i]) == Eval(q, xs[i])
    ensures forall i: nat :: Coef(p, i) == Coef(q, i)
  {
    hide Mul, Add;
    var d := AddPoly(p, q);
    forall i | 0 <= i < |xs|
      ensures Eval(d, xs[i]) == 0
    {
      EvalAdd(p, q, xs[i]);
      AddLaws(Eval(p, xs[i]), Eval(q, xs[i]), 0);
    }
    ManyRootsIsZero(d, xs);
    forall i: nat
      ensures Coef(p, i) == Coef(q, i)
    {
      assert i < |d| ==> d[i] == Add(Coef(p, i), Coef(q, i));
      AddLaws(Coef(p, i), Coef(q, i), 0);
    }
  }

  lemma InterpolantIsUnique(p: seq<Byte>, q: seq<Byte>, xs: seq<Byte>, ys: seq<Byte>)
    requires |xs| == |ys| && Distinct(xs)
    requires Interpolates(p, xs, ys) && Interpolates(q, xs, ys)
    ensures p == q
  {
    hide Mul, Add;
    AgreementIsEquality(p, q, xs);
    forall i | 0 <= i < |p|
      ensures p[i] == q[i]
    {
      assert Coef(p, i) == Coef(q, i);
    }
  }

  // ---------- Existence ----------

  /** The monic polynomial whose roots are `xs`. */
  function Vanishing(xs: seq<Byte>): (p: seq<Byte>)
    ensures |p| == |xs| + 1
  {
    if xs == [] then [1] else MulPoly(Vanishing(xs[1..]), [xs[0], 1])
  }

  lemma EvalLinear(a: Byte, b: Byte, x: Byte)
    ensures Eval([a, b], x) == Add(a, Mul(x, b))
  {
    hide Mul, Add;
    assert [a, b][1..] == [b];
    EvalConstant([b], x);
  }

  lemma {:induction false} VanishingRoots(xs: seq<Byte>, x: Byte)
    ensures Eval(Vanishing(xs), x) == 0 <==> x in xs
  {
    hide Mul, Add;
    if xs == [] {
      EvalConstant([1], x);
    } else {
      VanishingRoots(xs[1..], x);
      EvalMul(Vanishing(xs[1..]), [xs[0], 1], x);
      EvalLinear(xs[0], 1, x);
      MulOne(x);
      AddLaws(xs[0], x, 0);
      MulNonZero(Eval(Vanishing(xs[1..]), x), Add(xs[0], x));
    }
  }

  lemma {:induction false} InterpolantExists(xs: seq<Byte>, ys: seq<Byte>) returns (p: seq<Byte>)
    requires |xs| == |ys| && Distinct(xs)
    ensures Interpolates(p, xs, ys)
  {
    hide Mul, Add;
    if xs == [] {
      p := [];
    } else {
      var q := InterpolantExists(xs[1..], ys[1..]);
      var w, x := Vanishing(xs[1..]), xs[0];
      VanishingRoots(xs[1..], x);
      var gap := Add(ys[0], Eval(q, x));
      DivCorrect(gap, Eval(w, x));
      var c := CheckedDiv(gap, Eval(w, x)).value;
      p := AddPoly(q, Scale(w, c));
      forall i | 0 <= i < |xs|
        ensures Eval(p, xs[i]) == ys[i]
      {
        EvalAdd(q, Scale(w, c), xs[i]);
        EvalScale(w, c, xs[i]);
        if i == 0 {
          MulCommutes(c, Eval(w, x));
          AddBack(Eval(q, x), ys[0]);
        } else {
          assert xs[1..][i - 1] == xs[i];
          VanishingRoots(xs[1..], xs[i]);
          MulNonZero(0, c);
          AddLaws(ys[i], 0, 0);
        }
      }
    }
  }

  lemma AddBack(a: Byte, b: Byte)
    ensures Add(a, Add(b, a)) == b
  {
    assert a ^ (b ^ a) == b;
  }

  // ---------- The Lagrange construction ----------

  /** One factor of a basis polynomial: 1 at `xi`, 0 at `xj`. */
  lemma LagrangeFactor(xi: Byte, xj: Byte)
    requires xi != xj
    ensures var a, b := CheckedDiv(xj, Add(xi, xj)), CheckedDiv(1, Add(xi, xj));
            a.Some? && b.Some? && Eval([a.value, b.value], xi) == 1 && Eval([a.value, b.value], xj) == 0
  {
    hide Mul, Add, CheckedDiv;
    var d := Add(xi, xj);
    AddLaws(xi, xj, 0);
    DivCorrect(xj, d);
    DivCorrect(1, d);
    var a, b := CheckedDiv(xj, d).value, CheckedDiv(1, d).value;
    EvalLinear(a, b, xi);
    EvalLinear(a, b, xj);
    QuotientOf(xj, d, a, b);
    MulDistributes(b, xi, xj);
    AddLaws(Mul(xi, b), Mul(xj, b), 0);
    MulCommutes(b, d);
    AddLaws(Mul(xj, b), Mul(xj, b), 0);
  }

  lemma QuotientOf(x: Byte, d: Byte, a: Byte, b: Byte)
    requires d != 0 && Mul(a, d) == x && Mul(b, d) == 1
    ensures a == Mul(x, b)
  {
    hide Mul, Add;
    MulAssociates(a, d, b);
    MulCommutes(d, b);
    MulOne(a);
  }

  /** The basis polynomial of point `i`: 1 at `xs[i]`, 0 at the other points. */
  method LagrangeBasis(xs: seq<Byte>, i: nat) returns (r: Option<seq<Byte>>)
    requires i < |xs|
    ensures r.Some? <==> forall j :: 0 <= j < |xs| && j != i ==> xs[j] != xs[i]
    ensures r.Some? ==> |r.value| == |xs| && Eval(r.value, xs[i]) == 1
    ensures r.Some? ==> forall j :: 0 <= j < |xs| && j != i ==> Eval(r.value, xs[j]) == 0
  {
    hide Mul, Add, CheckedDiv;
    var thisPolynomial: seq<Byte> := [1];
    EvalConstant([1], xs[i]);
    for j := 0 to |xs|
      invariant |thisPolynomial| == if j <= i then j + 1 else j
      invariant Eval(thisPolynomial, xs[i]) == 1
      invariant forall m :: 0 <= m < j && m != i ==> xs[m] != xs[i] && Eval(thisPolynomial, xs[m]) == 0
    {
      if i == j {
        continue;
      }
      var denominator := Add(xs[i], xs[j]);
      var firstTerm := CheckedDiv(xs[j], denominator);
      var secondTerm := CheckedDiv(1, denominator);
      DivCorrect(1, denominator);
      AddLaws(xs[i], xs[j], 0);
      if firstTerm.None? || secondTerm.None? {
        DivCorrect(xs[j], denominator);
        return None;
      }
      LagrangeFactor(xs[i], xs[j]);
      var thisTerm := [firstTerm.value, secondTerm.value];
      ghost var before := thisPolynomial;
      thisPolynomial := MultiplyPolynomials(thisPolynomial, thisTerm);
      forall m | 0 <= m <= j && m != i
        ensures Eval(thisPolynomial, xs[m]) == 0
      {
        EvalMul(before, thisTerm, xs[m]);
        MulNonZero(Eval(before, xs[m]), Eval(thisTerm, xs[m]));
      }
      EvalMul(before, thisTerm, xs[i]);
      MulOne(1);
    }
    r := Some(thisPolynomial);
  }

  /** Fails exactly on repeated points, and otherwise yields the one polynomial through all of them. */
  method FullLagrange(xs: seq<Byte>, fxs: seq<Byte>) returns (r: Option<seq<Byte>>)
    requires |xs| == |fxs|
    ensures r.Some? <==> Distinct(xs)
    ensures r.Some? ==> Interpolates(r.value, xs, fxs)
  {
    hide Mul, Add;
    var returnedCoefficients: seq<Byte> := [];
    for i := 0 to |fxs|
      invariant |returnedCoefficients| == if i == 0 then 0 else |xs|
      invariant forall m :: 0 <= m < |xs| ==> Eval(returnedCoefficients, xs[m]) == if m < i then fxs[m] else 0
      invariant forall m, j :: 0 <= m < i && 0 <= j < |xs| && j != m ==> xs[j] != xs[m]
    {
      var basis := LagrangeBasis(xs, i);
      if basis.None? {
        return None;
      }
      var thisPolynomial := MultiplyPolynomials(basis.value, [fxs[i]]);
      ghost var before := returnedCoefficients;
      returnedCoefficients := AddPolynomials(returnedCoefficients, thisPolynomial);
      forall m | 0 <= m < |xs|
        ensures Eval(returnedCoefficients, xs[m]) == if m < i + 1 then fxs[m] else 0
      {
        EvalAdd(before, thisPolynomial, xs[m]);
        EvalMul(basis.value, [fxs[i]], xs[m]);
        EvalConstant([fxs[i]], xs[m]);
        MulOne(fxs[i]);
        MulNonZero(0, fxs[i]);
        AddLaws(Eval(before, xs[m]), 0, 0);
        AddLaws(fxs[i], 0, 0);
      }
    }
    r := Some(returnedCoefficients);
  }
}
