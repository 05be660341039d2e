/** The cost model's annuity factor and the loop that stores it on every
    cable type of the catalogue. */
module Annuity {
  import opened GridTypes

  /** b ** n for a natural exponent. */
  function Pow(b: real, n: nat): real {
    if n == 0 then 1.0 else b * Pow(b, n - 1)
  }

  /** (1 + i)^n * i / ((1 + i)^n - 1); the division fails when (1 + i)^n == 1. */
  function AnnuityFactor(n: nat, i: real): (r: Result<real>)
    ensures r.Failure? <==> Pow(1.0 + i, n) == 1.0
    ensures r.Failure? ==> r.error == AnnuityUndefined
    ensures r.Success? ==> r.value * (Pow(1.0 + i, n) - 1.0) == Pow(1.0 + i, n) * i
  {
    var q := Pow(1.0 + i, n);
    if q - 1.0 == 0.0 then Failure(AnnuityUndefined)
    else
      var a := q * i / (q - 1.0);
      assert a * (q - 1.0) == q * i;
      Success(a)
  }

  lemma {:induction false} PowOfOne(n: nat)
    ensures Pow(1.0, n) == 1.0
  {
    if n > 0 {
      PowOfOne(n - 1);
    }
  }

  lemma MulNonneg(x: real, y: real)
    requires x >= 0.0 && y >= 0.0
    ensures x * y >= 0.0
  {
  }

  lemma MulMono(c: real, x: real, y: real)
    requires c >= 0.0 && x >= y
    ensures c * x >= c * y
  {
    MulNonneg(c, x - y);
    assert c * x - c * y == c * (x - y);
  }

  lemma PosFactor(x: real, y: real)
    requires x * y > 0.0 && y > 0.0
    ensures x > 0.0
  {
  }

  lemma NonnegFactor(x: real, y: real)
    requires x * y >= 0.0 && y > 0.0
    ensures x >= 0.0
  {
  }

  lemma ZeroFactor(x: real, y: real)
    requires x * y == 0.0 && y > 0.0
    ensures x == 0.0
  {
  }

  /** Bernoulli's inequality: (1 + i)^n >= 1 + n * i for i >= 0. */
  lemma {:induction false} Bernoulli(i: real, n: nat)
    requires i >= 0.0
    ensures Pow(1.0 + i, n) >= 1.0 + (n as real) * i
  {
    if n > 0 {
      Bernoulli(i, n - 1);
      var p := Pow(1.0 + i, n - 1);
      var m := (n - 1) as real;
      MulMono(1.0 + i, p, 1.0 + m * i);
      assert (1.0 + i) * (1.0 + m * i) == 1.0 + (m + 1.0) * i + m * (i * i);
      MulNonneg(i, i);
      MulNonneg(m, i * i);
      assert Pow(1.0 + i, n) == (1.0 + i) * p;
    }
  }

  /** A zero period or a zero interest rate leaves the factor undefined. */
  lemma AnnuityUndefinedWhenDegenerate(n: nat, i: real)
    requires n == 0 || i == 0.0
    ensures AnnuityFactor(n, i) == Failure(AnnuityUndefined)
  {
    if i == 0.0 {
      PowOfOne(n);
    }
  }

  /** The algebra behind the bounds: a solves a * (q - 1) == q * i. */
  lemma AnnuityAlgebra(q: real, i: real, a: real)
    requires i > 0.0 && q - 1.0 >= i
    requires a * (q - 1.0) == q * i
    ensures i < a <= 1.0 + i
  {
    var d := a - i;
    assert d * (q - 1.0) == i;
    PosFactor(d, q - 1.0);
    var e := 1.0 + i - a;
    assert e * (q - 1.0) == q - 1.0 - i;
    NonnegFactor(e, q - 1.0);
  }

  /** For a positive rate over at least one year the factor exists and lies
      strictly above the rate and at most at 1 + rate (reached for one year). */
  lemma AnnuityBounds(n: nat, i: real)
    requires n >= 1 && i > 0.0
    ensures AnnuityFactor(n, i).Success?
    ensures i < AnnuityFactor(n, i).value <= 1.0 + i
    ensures n == 1 ==> AnnuityFactor(n, i).value == 1.0 + i
  {
    var q := Pow(1.0 + i, n);
    Bernoulli(i, n);
    MulNonneg((n - 1) as real, i);
    assert (n as real) * i == ((n - 1) as real) * i + i;
    assert q - 1.0 >= i;
    AnnuityAlgebra(q, i, AnnuityFactor(n, i).value);
    if n == 1 {
      assert Pow(1.0 + i, 0) == 1.0;
      assert q == 1.0 + i;
      var a := AnnuityFactor(n, i).value;
      assert a * (q - 1.0) == q * i;
      assert (a - (1.0 + i)) * i == 0.0;
      ZeroFactor(a - (1.0 + i), i);
    }
  }

  /** The loop of the model assembly that sets every catalogue row's annuity
      factor to AnnuityFactor(40, interest rate); the first evaluation that
      fails aborts before any row is changed. */
  method SetAnnuityFactors(lineTech: array<CableType>, rate: real) returns (r: Result<()>)
    modifies lineTech
    ensures r.Success? <==> lineTech.Length == 0 || AnnuityFactor(DEPRECIATION_YEARS, rate).Success?
    ensures r.Failure? ==> r.error == AnnuityUndefined && lineTech[..] == old(lineTech[..])
    ensures r.Success? ==> forall t :: 0 <= t < lineTech.Length ==>
              lineTech[t] == old(lineTech[t]).(annuityFactor := AnnuityFactor(DEPRECIATION_YEARS, rate).value)
  {
    for t := 0 to lineTech.Length
      invariant t > 0 ==> AnnuityFactor(DEPRECIATION_YEARS, rate).Success?
      invariant forall u :: 0 <= u < t ==>
                  lineTech[u] == old(lineTech[u]).(annuityFactor := AnnuityFactor(DEPRECIATION_YEARS, rate).value)
      invariant forall u :: t <= u < lineTech.Length ==> lineTech[u] == old(lineTech[u])
    {
      var a := AnnuityFactor(DEPRECIATION_YEARS, rate);
      if a.Failure? {
        assert lineTech[..] == old(lineTech[..]);
        return Failure(a.error);
      }
      lineTech[t] := lineTech[t].(annuityFactor := a.value);
    }
    return Success(());
  }
}
