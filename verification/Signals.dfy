/** `compareSignals` of the oversampling audit over exact complex arithmetic. */
module Signals {
  import Reals

  function Product(a: real, b: real): real {
    a * b
  }

  function Square(a: real): real {
    Product(a, a)
  }

  datatype Complex = Complex(re: real, im: real) {
    function Plus(w: Complex): Complex { Complex(re + w.re, im + w.im) }
    function Minus(w: Complex): Complex { Complex(re - w.re, im - w.im) }
    function Times(w: Complex): Complex { Complex(re * w.re - im * w.im, re * w.im + im * w.re) }
    function Conj(): Complex { Complex(re, -im) }
    function Over(x: real): Complex
      requires x != 0.0
    {
      Complex(re / x, im / x)
    }
    /** `std::norm`: the squared magnitude. */
    function Norm(): real { Square(re) + Square(im) }
  }

  const Zero := Complex(0.0, 0.0)

  // ---------- what the loop accumulates ----------

  function Correlation(o: seq<Complex>, r: seq<Complex>): Complex
    requires |o| == |r|
  {
    if o == [] then Zero
    else Correlation(o[..|o| - 1], r[..|r| - 1]).Plus(o[|o| - 1].Times(r[|r| - 1].Conj()))
  }

  function Energy(s: seq<Complex>): real {
    if s == [] then 0.0 else Energy(s[..|s| - 1]) + s[|s| - 1].Norm()
  }

  /** Sum of |o - g r|^2: the error left when the reference is scaled by `g`. */
  function Residual(o: seq<Complex>, r: seq<Complex>, g: Complex): real
    requires |o| == |r|
  {
    if o == [] then 0.0
    else Residual(o[..|o| - 1], r[..|r| - 1], g) + o[|o| - 1].Minus(g.Times(r[|r| - 1])).Norm()
  }

  // ---------- the mathematics of the fit ----------

  /** |o - g r|^2 written out in the real and imaginary parts of o, r and g. */
  lemma DifferencePolynomial(a: real, b: real, c: real, d: real, p: real, q: real)
    ensures Square(a - (p * c - q * d)) + Square(b - (p * d + q * c))
            == (Square(a) + Square(b)) - 2.0 * (p * (a * c + b * d) + q * (b * c - a * d))
               + (Square(p) + Square(q)) * (Square(c) + Square(d))
  {
  }

  /** The same with names for the product (x, y) and the norms. */
  lemma NamedDifference(a: real, b: real, c: real, d: real, p: real, q: real, x: real, y: real, ng: real, nr: real)
    requires x == a * c + b * d && y == b * c - a * d
    requires ng == Square(p) + Square(q) && nr == Square(c) + Square(d)
    ensures Square(a - (p * c - q * d)) + Square(b - (p * d + q * c))
            == (Square(a) + Square(b)) - 2.0 * (p * x + q * y) + ng * nr
  {
    hide Square;
    DifferencePolynomial(a, b, c, d, p, q);
  }

  lemma TimesNegated(a: real, b: real)
    ensures a * (-b) == -(a * b)
  {
  }

  lemma TimesConjugate(o: Complex, r: Complex)
    ensures o.Times(r.Conj()).re == o.re * r.re + o.im * r.im
    ensures o.Times(r.Conj()).im == o.im * r.re - o.re * r.im
  {
    TimesNegated(o.im, r.im);
    TimesNegated(o.re, r.im);
  }

  lemma NormParts(z: Complex)
    ensures z.Norm() == Square(z.re) + Square(z.im)
  {
  }

  lemma DifferenceParts(o: Complex, r: Complex, g: Complex)
    ensures o.Minus(g.Times(r)).Norm()
            == Square(o.re - (g.re * r.re - g.im * r.im)) + Square(o.im - (g.re * r.im + g.im * r.re))
  {
    hide Square;
    var t := g.Times(r);
    assert o.Minus(t).re == o.re - (g.re * r.re - g.im * r.im);
    assert o.Minus(t).im == o.im - (g.re * r.im + g.im * r.re);
  }

  lemma NormOfDifference(o: Complex, r: Complex, g: Complex)
    ensures o.Minus(g.Times(r)).Norm()
            == o.Norm() - 2.0 * (g.re * o.Times(r.Conj()).re + g.im * o.Times(r.Conj()).im) + g.Norm() * r.Norm()
  {
    var u := o.Times(r.Conj());
    TimesConjugate(o, r);
    hide Square, Complex.Conj, Complex.Norm, Complex.Times, Complex.Minus;
    DifferenceParts(o, r, g);
    NormParts(o);
    NormParts(r);
    NormParts(g);
    NamedDifference(o.re, o.im, r.re, r.im, g.re, g.im, u.re, u.im, g.Norm(), r.Norm());
  }

  lemma ProductOfPositives(a: real, b: real)
    requires a > 0.0 && b > 0.0
    ensures Product(a, b) > 0.0
  {
  }

  lemma ProductOfNegatives(a: real, b: real)
    requires a < 0.0 && b < 0.0
    ensures Product(a, b) > 0.0
  {
  }

  lemma ProductWithZero(a: real, b: real)
    requires a == 0.0 || b == 0.0
    ensures Product(a, b) == 0.0
  {
  }

  lemma SquareSign(a: real)
    ensures Square(a) >= 0.0
    ensures a != 0.0 ==> Square(a) > 0.0
  {
    hide Product;
    if a > 0.0 {
      ProductOfPositives(a, a);
    } else if a < 0.0 {
      ProductOfNegatives(a, a);
    } else {
      ProductWithZero(a, a);
    }
  }

  lemma NormSign(z: Complex)
    ensures z.Norm() >= 0.0
    ensures z != Zero ==> z.Norm() > 0.0
    ensures z == Zero ==> z.Norm() == 0.0
  {
    hide Square;
    SquareSign(z.re);
    SquareSign(z.im);
    if z == Zero {
      SquareOfZero();
    }
  }

  lemma SquareOfZero()
    ensures Square(0.0) == 0.0
  {
  }

  lemma {:induction false} EnergyIsNonNegative(s: seq<Complex>)
    ensures Energy(s) >= 0.0
    ensures Energy(s) == 0.0 ==> forall i :: 0 <= i < |s| ==> s[i] == Zero
  {
    hide Complex.Norm;
    if s != [] {
      EnergyIsNonNegative(s[..|s| - 1]);
      NormSign(s[|s| - 1]);
    }
  }

  lemma {:induction false} ResidualIsNonNegative(o: seq<Complex>, r: seq<Complex>, g: Complex)
    requires |o| == |r|
    ensures Residual(o, r, g) >= 0.0
  {
    hide Complex.Norm, Complex.Minus, Complex.Times;
    if o != [] {
      ResidualIsNonNegative(o[..|o| - 1], r[..|r| - 1], g);
      NormSign(o[|o| - 1].Minus(g.Times(r[|r| - 1])));
    }
  }

  /** Sum|o - g r|^2 = E_o - 2 Re(conj(g) C) + |g|^2 E_r. */
  lemma {:induction false} ResidualExpands(o: seq<Complex>, r: seq<Complex>, g: Complex)
    requires |o| == |r|
    ensures Residual(o, r, g)
            == Energy(o) - 2.0 * (g.re * Correlation(o, r).re + g.im * Correlation(o, r).im) + g.Norm() * Energy(r)
  {
    hide Complex.Norm, Complex.Minus, Complex.Times;
    if o != [] {
      var o', r' := o[..|o| - 1], r[..|r| - 1];
      var term := o[|o| - 1].Times(r[|r| - 1].Conj());
      var c := Correlation(o', r');
      ResidualExpands(o', r', g);
      NormOfDifference(o[|o| - 1], r[|r| - 1], g);
      Distribute(g.re, c.re, term.re);
      Distribute(g.im, c.im, term.im);
      Distribute(g.Norm(), Energy(r'), r[|r| - 1].Norm());
    }
  }

  lemma Distribute(a: real, b: real, c: real)
    ensures a * (b + c) == a * b + a * c
  {
  }

  /** The fitted gain of the source: zero when the reference is silent. */
  function Fitted(o: seq<Complex>, r: seq<Complex>): Complex
    requires |o| == |r|
  {
    if Energy(r) == 0.0 then Zero else Correlation(o, r).Over(Energy(r))
  }

  lemma TimesZero(z: Complex)
    ensures z.Times(Zero.Conj()) == Zero
  {
    hide Complex.Times;
    ConjOfZero();
    TimesNothing(z, Zero.Conj());
  }

  lemma ConjOfZero()
    ensures Zero.Conj().re == 0.0 && Zero.Conj().im == 0.0
  {
  }

  lemma TimesNothing(z: Complex, w: Complex)
    requires w.re == 0.0 && w.im == 0.0
    ensures z.Times(w) == Zero
  {
    TimesParts(z, w);
    hide Complex.Times;
    ZeroProducts(z.re, z.im, w.re, w.im);
  }

  lemma TimesParts(z: Complex, w: Complex)
    ensures z.Times(w) == Complex(z.re * w.re - z.im * w.im, z.re * w.im + z.im * w.re)
  {
  }

  lemma ZeroProducts(a: real, b: real, c: real, d: real)
    requires c == 0.0 && d == 0.0
    ensures a * c - b * d == 0.0 && a * d + b * c == 0.0
  {
    Reals.TimesZero(a, c);
    Reals.TimesZero(a, d);
    Reals.TimesZero(b, c);
    Reals.TimesZero(b, d);
  }

  lemma {:induction false} SilentReference(o: seq<Complex>, r: seq<Complex>)
    requires |o| == |r| && forall i :: 0 <= i < |r| ==> r[i] == Zero
    ensures Correlation(o, r) == Zero
  {
    hide Complex.Times, Complex.Conj;
    if o != [] {
      SilentReference(o[..|o| - 1], r[..|r| - 1]);
      TimesZero(o[|o| - 1]);
    }
  }

  lemma OverTimes(z: Complex, x: real)
    requires x != 0.0
    ensures z.Over(x).re * x == z.re && z.Over(x).im * x == z.im
  {
  }

  lemma FitTimesEnergy(o: seq<Complex>, r: seq<Complex>)
    requires |o| == |r|
    ensures Correlation(o, r).re == Fitted(o, r).re * Energy(r)
    ensures Correlation(o, r).im == Fitted(o, r).im * Energy(r)
  {
    hide Complex.Over, Correlation, Energy;
    if Energy(r) == 0.0 {
      EnergyIsNonNegative(r);
      SilentReference(o, r);
    } else {
      OverTimes(Correlation(o, r), Energy(r));
    }
  }

  /** Completing the square, where the correlation (u, v) is (p, q) times the energy e. */
  lemma CompleteSquare(x: real, e: real, u: real, v: real, p: real, q: real, g: real, h: real)
    requires u == p * e && v == q * e
    ensures x - 2.0 * (g * u + h * v) + (Square(g) + Square(h)) * e
            == (x - 2.0 * (p * u + q * v) + (Square(p) + Square(q)) * e)
               + (Square(g - p) + Square(h - q)) * e
  {
    hide Square;
    CompleteSquareExpanded(x, e, p, q, g, h);
  }

  lemma CompleteSquareExpanded(x: real, e: real, p: real, q: real, g: real, h: real)
    ensures x - 2.0 * (g * (p * e) + h * (q * e)) + (Square(g) + Square(h)) * e
            == (x - 2.0 * (p * (p * e) + q * (q * e)) + (Square(p) + Square(q)) * e)
               + (Square(g - p) + Square(h - q)) * e
  {
  }

  lemma ProductSign(a: real, b: real)
    requires a >= 0.0 && b >= 0.0
    ensures a * b >= 0.0
    ensures a * b == 0.0 <==> a == 0.0 || b == 0.0
  {
  }

  /** The error of any gain `g` exceeds that of the fitted gain by |g - f|^2 times the energy of
      the reference, so the fitted gain is the least-squares optimum. */
  lemma FitIsLeastSquares(o: seq<Complex>, r: seq<Complex>, g: Complex)
    requires |o| == |r|
    ensures Residual(o, r, g)
            == Residual(o, r, Fitted(o, r)) + g.Minus(Fitted(o, r)).Norm() * Energy(r)
    ensures Residual(o, r, Fitted(o, r)) <= Residual(o, r, g)
    ensures Residual(o, r, Fitted(o, r)) == Residual(o, r, g) <==> Energy(r) == 0.0 || g == Fitted(o, r)
  {
    hide Residual, Energy, Correlation, Fitted, Square;
    var f, e, c := Fitted(o, r), Energy(r), Correlation(o, r);
    ResidualExpands(o, r, g);
    ResidualExpands(o, r, f);
    FitTimesEnergy(o, r);
    CompleteSquare(Energy(o), e, c.re, c.im, f.re, f.im, g.re, g.im);
    var d := g.Minus(f);
    NormSign(d);
    EnergyIsNonNegative(r);
    ProductSign(d.Norm(), e);
    assert d == Zero <==> g == f;
  }

  /** The end of the Cauchy-Schwarz argument: multiply the optimal error by the energy e. */
  lemma MultiplyThrough(x: real, e: real, u: real, v: real, p: real, q: real)
    requires u == p * e && v == q * e && e >= 0.0
    requires x - 2.0 * (p * u + q * v) + (Square(p) + Square(q)) * e >= 0.0
    ensures Square(u) + Square(v) <= x * e
  {
    var rest := x - 2.0 * (p * u + q * v) + (Square(p) + Square(q)) * e;
    RestTimesEnergy(x, e, p, q);
    ProductSign(rest, e);
  }

  lemma RestTimesEnergy(x: real, e: real, p: real, q: real)
    ensures (x - 2.0 * (p * (p * e) + q * (q * e)) + (Square(p) + Square(q)) * e) * e
            == x * e - (Square(p * e) + Square(q * e))
  {
  }

  /** Cauchy-Schwarz for the accumulated sums. */
  lemma CauchySchwarz(o: seq<Complex>, r: seq<Complex>)
    requires |o| == |r|
    ensures Correlation(o, r).Norm() <= Energy(o) * Energy(r)
  {
    hide Residual, Energy, Correlation, Fitted, Square;
    var f, c := Fitted(o, r), Correlation(o, r);
    ResidualExpands(o, r, f);
    ResidualIsNonNegative(o, r, f);
    FitTimesEnergy(o, r);
    EnergyIsNonNegative(r);
    MultiplyThrough(Energy(o), Energy(r), c.re, c.im, f.re, f.im);
  }

  /** The plain error is the energy of both signals less twice the real correlation. */
  lemma PlainError(o: seq<Complex>, r: seq<Complex>)
    requires |o| == |r|
    ensures Residual(o, r, One) == Energy(o) + Energy(r) - 2.0 * Correlation(o, r).re
  {
    hide Residual, Energy, Correlation;
    ResidualExpands(o, r, One);
  }

  // ---------- the loop ----------

  function Min(a: nat, b: nat): nat {
    if a < b then a else b
  }

  /** The compared window [from, to): both edges are skipped, or nothing is compared. */
  function WindowStart(n: nat, m: nat, skipEdge: nat): nat {
    Min(skipEdge, Min(n, m))
  }

  function WindowEnd(n: nat, m: nat, skipEdge: nat): nat {
    if n > skipEdge && m > skipEdge then Min(n, m) - skipEdge else Min(n, m)
  }

  function Window(s: seq<Complex>, n: nat, m: nat, skipEdge: nat): seq<Complex>
    requires Min(n, m) <= |s|
  {
    var from, to := WindowStart(n, m, skipEdge), WindowEnd(n, m, skipEdge);
    if from < to then s[from..to] else []
  }

  /** The quantities `compareSignals` returns, before the square roots and the angle are taken. */
  datatype Comparison = Comparison(meanSquareError: real, squaredCorrelation: real, fitted: Complex, count: nat)

  const One := Complex(1.0, 0.0)

  function Mean(total: real, count: nat): real {
    if count == 0 then 0.0 else total / count as real
  }

  /** The square of the normalised correlation. */
  function Normalized(correlation: Complex, outputEnergy: real, referenceEnergy: real): real {
    if outputEnergy == 0.0 || referenceEnergy == 0.0 then 0.0
    else (NormProductNonZero(outputEnergy, referenceEnergy); correlation.Norm() / (outputEnergy * referenceEnergy))
  }

  /** What the result means for the compared parts `o` and `r` of the two signals. */
  ghost predicate Measures(result: Comparison, o: seq<Complex>, r: seq<Complex>)
    requires |o| == |r|
  {
    && result.count == |r|
    && result.meanSquareError * result.count as real == Residual(o, r, One)
    && (result.count == 0 ==> result.meanSquareError == 0.0)
    && result.squaredCorrelation * (Energy(o) * Energy(r)) == Correlation(o, r).Norm()
    && 0.0 <= result.squaredCorrelation <= 1.0
    && (Energy(o) == 0.0 || Energy(r) == 0.0 ==> result.squaredCorrelation == 0.0)
    && (forall g: Complex :: Residual(o, r, result.fitted) <= Residual(o, r, g))
    && (Energy(r) == 0.0 ==> result.fitted == Zero)
  }

  lemma WindowLength(s: seq<Complex>, n: nat, m: nat, skipEdge: nat)
    requires Min(n, m) <= |s|
    ensures |Window(s, n, m, skipEdge)| == if 2 * skipEdge < Min(n, m) then Min(n, m) - 2 * skipEdge else 0
    ensures forall k :: 0 <= k < |Window(s, n, m, skipEdge)| ==> Window(s, n, m, skipEdge)[k] == s[skipEdge + k]
  {
  }

  method CompareSignals(reference: seq<Complex>, observed: seq<Complex>, skipEdge: nat) returns (result: Comparison)
    ensures var n, m := |reference|, |observed|;
            var r, o := Window(reference, n, m, skipEdge), Window(observed, n, m, skipEdge);
            |o| == |r| && Measures(result, o, r)
  {
    hide Complex.Norm, Complex.Minus, Complex.Plus, Complex.Times, Complex.Over, Measures, Correlation, Energy;
    hide Residual;
    hide Mean, Normalized;
    var n, m := |reference|, |observed|;
    var start := Min(skipEdge, Min(n, m));
    var end := if n > skipEdge && m > skipEdge then Min(n, m) - skipEdge else Min(n, m);
    ghost var r, o := Window(reference, n, m, skipEdge), Window(observed, n, m, skipEdge);
    WindowLength(reference, n, m, skipEdge);
    WindowLength(observed, n, m, skipEdge);

    var correlation := Zero;
    var outputEnergy, referenceEnergy, mse := 0.0, 0.0, 0.0;
    var count := 0;
    SumsStart(o, r);
    var i := start;
    while i < end
      invariant start <= i && (i <= end || count == 0)
      invariant count == i - start <= |r|
      invariant correlation == Correlation(o[..count], r[..count])
      invariant outputEnergy == Energy(o[..count])
      invariant referenceEnergy == Energy(r[..count])
      invariant mse == Residual(o[..count], r[..count], One)
    {
      SumsGrow(o, r, count);
      correlation := correlation.Plus(observed[i].Times(reference[i].Conj()));
      outputEnergy := outputEnergy + observed[i].Norm();
      referenceEnergy := referenceEnergy + reference[i].Norm();
      mse := mse + observed[i].Minus(reference[i]).Norm();
      count := count + 1;
      i := i + 1;
    }
    assert r[..count] == r && o[..count] == o;

    var fitted := if referenceEnergy == 0.0 then Zero else correlation.Over(referenceEnergy);
    result := Comparison(Mean(mse, count), Normalized(correlation, outputEnergy, referenceEnergy), fitted, count);
    ResultMeasures(result, o, r);
  }

  lemma NormProductNonZero(a: real, b: real)
    requires a != 0.0 && b != 0.0
    ensures a * b != 0.0
  {
  }

  lemma SumsStart(o: seq<Complex>, r: seq<Complex>)
    ensures Correlation(o[..0], r[..0]) == Zero
    ensures Energy(o[..0]) == Energy(r[..0]) == Residual(o[..0], r[..0], One) == 0.0
  {
  }

  lemma SumsGrow(o: seq<Complex>, r: seq<Complex>, k: nat)
    requires k < |o| == |r|
    ensures Correlation(o[..k + 1], r[..k + 1]) == Correlation(o[..k], r[..k]).Plus(o[k].Times(r[k].Conj()))
    ensures Energy(o[..k + 1]) == Energy(o[..k]) + o[k].Norm()
    ensures Energy(r[..k + 1]) == Energy(r[..k]) + r[k].Norm()
    ensures Residual(o[..k + 1], r[..k + 1], One) == Residual(o[..k], r[..k], One) + o[k].Minus(r[k]).Norm()
  {
    hide Complex.Norm, Complex.Minus, Complex.Plus, Complex.Times;
    assert r[..k + 1][..k] == r[..k] && o[..k + 1][..k] == o[..k];
    TimesOne(r[k]);
  }

  lemma ResultMeasures(result: Comparison, o: seq<Complex>, r: seq<Complex>)
    requires |o| == |r|
    requires result == Comparison(Mean(Residual(o, r, One), |r|), Normalized(Correlation(o, r), Energy(o), Energy(r)),
                                  Fitted(o, r), |r|)
    ensures Measures(result, o, r)
  {
    hide Complex.Norm, Energy, Correlation, Residual, Fitted, Normalized;
    CorrelationRatio(o, r);
    forall g: Complex
      ensures Residual(o, r, result.fitted) <= Residual(o, r, g)
    {
      FitIsLeastSquares(o, r, g);
    }
    MeanTimesCount(o, r);
    FitOfSilence(o, r);
  }

  lemma MeanTimesCount(o: seq<Complex>, r: seq<Complex>)
    requires |o| == |r|
    ensures Mean(Residual(o, r, One), |r|) * |r| as real == Residual(o, r, One)
  {
    hide Residual, Mean;
    NothingLeftOver(o, r);
    MeanTimes(Residual(o, r, One), |r|);
  }

  lemma NothingLeftOver(o: seq<Complex>, r: seq<Complex>)
    requires |o| == |r|
    ensures |r| == 0 ==> Residual(o, r, One) == 0.0
  {
    hide Complex.Norm;
  }

  lemma MeanTimes(total: real, count: nat)
    requires count == 0 ==> total == 0.0
    ensures Mean(total, count) * count as real == total
  {
    if count == 0 {
      Reals.TimesZero(total, count as real);
    } else {
      Reals.QuotientTimes(total, count as real);
    }
  }

  lemma FitOfSilence(o: seq<Complex>, r: seq<Complex>)
    requires |o| == |r|
    ensures Energy(r) == 0.0 ==> Fitted(o, r) == Zero
  {
  }

  lemma TimesOne(z: Complex)
    ensures One.Times(z) == z
  {
  }

  lemma CorrelationRatio(o: seq<Complex>, r: seq<Complex>)
    requires |o| == |r|
    ensures var q := Normalized(Correlation(o, r), Energy(o), Energy(r));
            && q * (Energy(o) * Energy(r)) == Correlation(o, r).Norm() && 0.0 <= q <= 1.0
            && (Energy(o) == 0.0 || Energy(r) == 0.0 ==> q == 0.0)
  {
    hide Complex.Norm, Energy, Correlation;
    var c, p := Correlation(o, r), Energy(o) * Energy(r);
    CauchySchwarz(o, r);
    EnergyIsNonNegative(o);
    EnergyIsNonNegative(r);
    NormSign(c);
    ProductSign(Energy(o), Energy(r));
    if Energy(o) != 0.0 && Energy(r) != 0.0 {
      RatioBounds(c.Norm(), p);
    }
  }

  lemma RatioBounds(x: real, p: real)
    requires 0.0 <= x <= p && p > 0.0
    ensures 0.0 <= x / p <= 1.0 && x / p * p == x
  {
  }
}
