/** The clock-quantisation formulas of the oversampling audit, over the reals.
    R stands for the oversampled rate, rate * ratio. */
module Clocking {
  import opened Reals

  /** The source divides by floor(R / prf), which is zero when prf > R. */
  function QuantizedPrf(R: real, prf: real): real
    requires 0.0 < prf <= R
  {
    RatioAtLeastOne(R, prf);
    var samples := Floor(R / prf) as real;
    QuotientPositive(samples, R);
    1.0 / (samples / R)
  }

  function QuantizedSkip(R: real, skip: real): real
    requires R > 0.0
  {
    Floor(R * skip) as real / R
  }

  function CwBufferSize(R: real, duration: real): int
    requires R > 0.0
  {
    QuotientPositive(1.0, R);
    Ceil(duration / (1.0 / R))
  }

  /** `wrappedDelayFromFracWinDelay`: the negated delay less its floor. */
  function WrappedDelay(delay: real): real {
    -delay - Floor(-delay) as real
  }

  // ---------- samples per pulse ----------

  lemma RatioAtLeastOne(R: real, prf: real)
    requires 0.0 < prf <= R
    ensures R / prf >= 1.0 && Floor(R / prf) >= 1
  {
    QuotientTimes(R, prf);
    CancelAtMost(1.0, R / prf, prf);
  }

  lemma Reciprocals(a: real, b: real, R: real, k: real)
    requires R > 0.0 && k > 0.0 && a * k == R && b * R == k
    ensures a * b == 1.0
  {
    calc {
      (a * b) * R;
      a * (b * R);
      { assert b * R == k; }
      a * k;
      R;
    }
    QuotientIs(R, R, a * b);
    QuotientIs(R, R, 1.0);
  }

  /** 1 / (k / R) is R / k. */
  lemma PrfOfSamples(R: real, k: real)
    requires R > 0.0 && k > 0.0
    ensures k / R > 0.0 && 1.0 / (k / R) == R / k
  {
    QuotientPositive(k, R);
    QuotientTimes(k, R);
    QuotientTimes(R, k);
    Reciprocals(R / k, k / R, R, k);
    QuotientIs(1.0, k / R, R / k);
  }

  lemma SamplesFit(k: real, x: real, prf: real, R: real)
    requires k <= x && x * prf == R && prf > 0.0
    ensures k * prf <= R
  {
    ProductAtMost(k, x, prf);
  }

  lemma SamplesFill(x: real, next: real, prf: real, R: real)
    requires x < next && x * prf == R && prf > 0.0
    ensures R < next * prf
  {
    ProductLess(x, next, prf);
  }

  /** A pulse of `k` samples: they fit the requested period, one more would not, and they make the frequency `p`. */
  ghost predicate Pulse(R: real, prf: real, p: real, k: real) {
    k >= 1.0 && k * prf <= R < (k + 1.0) * prf && p * k == R
  }

  /** The whole number of samples per pulse and what it leaves over. */
  lemma SamplesPerPulse(R: real, prf: real) returns (k: real)
    requires 0.0 < prf <= R
    ensures k == Floor(R / prf) as real && Pulse(R, prf, QuantizedPrf(R, prf), k)
  {
    RatioAtLeastOne(R, prf);
    FloorBounds(R / prf);
    k := Floor(R / prf) as real;
    QuotientTimes(R, prf);
    SamplesFit(k, R / prf, prf, R);
    SamplesFill(R / prf, k + 1.0, prf, R);
    PrfOfSamples(R, k);
    QuotientTimes(R, k);
  }

  lemma ErrorFromSamples(p: real, k: real, prf: real, R: real)
    requires Pulse(R, prf, p, k) && 0.0 < prf < R
    ensures 0.0 <= p - prf < prf * prf / (R - prf)
  {
    CancelAtMost(prf, p, k);
    var d := p - prf;
    assert d * k == p * k - k * prf;
    assert d * k < prf;
    ProductLess(d * k, prf, prf);
    assert k * prf >= R - prf;
    ProductAtMost(R - prf, k * prf, d);
    calc {
      d * (R - prf);
    <=
      (k * prf) * d;
      (d * k) * prf;
    <
      prf * prf;
    }
    QuotientTimes(prf * prf, R - prf);
    CancelLess(d, prf * prf / (R - prf), R - prf);
  }

  /** The effective PRF is never below the requested one, and exceeds it by less than prf^2 / (R - prf). */
  lemma PrfErrorBound(R: real, prf: real)
    requires 0.0 < prf < R
    ensures 0.0 <= QuantizedPrf(R, prf) - prf < prf * prf / (R - prf)
  {
    var k := SamplesPerPulse(R, prf);
    ErrorFromSamples(QuantizedPrf(R, prf), k, prf, R);
  }

  /** Among the frequencies the clock can make, those with a whole number of samples per pulse, it is the least that is
      not below the requested one. */
  lemma PrfIsLeast(R: real, prf: real, q: real, n: int) returns (k: int)
    requires 0.0 < prf <= R
    ensures k >= 1 && QuantizedPrf(R, prf) * k as real == R && prf <= QuantizedPrf(R, prf)
    ensures n >= 1 && q * n as real == R && prf <= q ==> QuantizedPrf(R, prf) <= q
  {
    var x := SamplesPerPulse(R, prf);
    k := Floor(R / prf);
    CancelAtMost(prf, QuantizedPrf(R, prf), x);
    if n >= 1 && q * n as real == R && prf <= q {
      FewerSamples(R, prf, QuantizedPrf(R, prf), k, q, n);
    }
  }

  lemma FewerSamples(R: real, prf: real, p: real, k: int, q: real, n: int)
    requires Pulse(R, prf, p, k as real) && n >= 1 && q * n as real == R && 0.0 < prf <= q
    ensures p <= q
  {
    ProductAtMost(prf, q, n as real);
    Commute(n as real, prf);
    AtMostAsMany(n as real, k as real, prf, R);
    assert n <= k;
    MoreSamples(p, k as real, q, n as real, R);
  }

  lemma Commute(a: real, b: real)
    ensures a * b == b * a
  {
  }

  /** Samples that fit are fewer than one more than the most that fit. */
  lemma AtMostAsMany(y: real, x: real, prf: real, R: real)
    requires y * prf <= R < (x + 1.0) * prf && prf > 0.0
    ensures y < x + 1.0
  {
    CancelLess(y, x + 1.0, prf);
  }

  /** More samples per pulse make a lower frequency. */
  lemma MoreSamples(p: real, x: real, q: real, y: real, R: real)
    requires p * x == R && q * y == R && q > 0.0 && 0.0 < y <= x
    ensures p <= q
  {
    ProductAtMost(y, x, q);
    Commute(y, q);
    Commute(x, q);
    CancelAtMost(p, q, x);
  }

  lemma WholeSamples(R: real, p: real, n: int)
    requires p * n as real == R && R > 0.0 && n >= 1
    ensures 0.0 < p <= R && QuantizedPrf(R, p) == p
  {
    CancelLess(0.0, p, n as real);
    ProductAtMost(1.0, n as real, p);
    QuotientIs(R, p, n as real);
    FloorIs(R / p, n);
    PrfOfSamples(R, n as real);
    QuotientIs(R, n as real, p);
  }

  /** Quantising a quantised PRF changes nothing. */
  lemma PrfIdempotent(R: real, prf: real)
    requires 0.0 < prf <= R
    ensures 0.0 < QuantizedPrf(R, prf) <= R
    ensures QuantizedPrf(R, QuantizedPrf(R, prf)) == QuantizedPrf(R, prf)
  {
    var k := SamplesPerPulse(R, prf);
    WholeSamples(R, QuantizedPrf(R, prf), Floor(R / prf));
  }

  lemma QuotientScales(x: real, y: real, m: real)
    requires y != 0.0
    ensures (m * x) / y == m * (x / y)
  {
    QuotientTimes(x, y);
    calc {
      (m * (x / y)) * y;
      m * ((x / y) * y);
      { assert (x / y) * y == x; }
      m * x;
    }
    QuotientIs(m * x, y, m * (x / y));
  }

  lemma FinerPeriod(p: real, k: real, pf: real, j: real, m: real, R: real, fine: real, prf: real)
    requires Pulse(R, prf, p, k) && Pulse(fine, prf, pf, j)
    requires R > 0.0 && fine == m * R && m * k <= j
    ensures prf <= pf <= p
  {
    CancelLess(0.0, p, k);
    ProductAtMost(m * k, j, p);
    CancelAtMost(prf, pf, j);
    calc {
      pf * j;
      m * R;
      { assert p * k == R; }
      m * (p * k);
      (m * k) * p;
    <=
      p * j;
    }
    CancelAtMost(pf, p, j);
  }

  /** The samples of `m` coarse pulses still fit into one pulse of the finer clock. */
  lemma FinerSamples(R: real, fine: real, m: nat, prf: real)
    requires prf > 0.0 && m >= 1 && fine == m as real * R
    ensures m as real * Floor(R / prf) as real <= Floor(fine / prf) as real
  {
    QuotientScales(R, prf, m as real);
    ScaledFloor(m, R / prf, fine / prf);
  }

  lemma FinerRate(R: real, fine: real, m: nat)
    requires R > 0.0 && m >= 1 && fine == m as real * R
    ensures R <= fine
  {
    ProductAtMost(1.0, m as real, R);
  }

  /** A clock that is `m` times finer never worsens the pulse repetition. */
  lemma PrfImprovesWithRatio(R: real, fine: real, m: nat, prf: real)
    requires 0.0 < prf <= R && m >= 1 && fine == m as real * R
    ensures prf <= fine
    ensures prf <= QuantizedPrf(fine, prf) <= QuantizedPrf(R, prf)
  {
    FinerRate(R, fine, m);
    hide QuantizedPrf, Floor, Pulse;
    var k := SamplesPerPulse(R, prf);
    var j := SamplesPerPulse(fine, prf);
    FinerSamples(R, fine, m, prf);
    FinerPeriod(QuantizedPrf(R, prf), k, QuantizedPrf(fine, prf), j, m as real, R, fine, prf);
  }

  // ---------- window skip ----------

  lemma SkipOnSample(R: real, skip: real, n: int)
    requires R > 0.0 && R * skip == n as real
    ensures QuantizedSkip(R, skip) == n as real / R
  {
    FloorIs(R * skip, n);
  }

  /** The quantised skip is the last sample instant not after the requested one; quantising
      it again changes nothing. */
  lemma SkipIsLastSample(R: real, skip: real)
    requires R > 0.0
    ensures 0.0 <= skip - QuantizedSkip(R, skip) && (skip - QuantizedSkip(R, skip)) * R < 1.0
    ensures QuantizedSkip(R, QuantizedSkip(R, skip)) == QuantizedSkip(R, skip)
  {
    var x := R * skip;
    var q := QuantizedSkip(R, skip);
    FloorBounds(x);
    QuotientTimes(Floor(x) as real, R);
    assert q * R == Floor(x) as real;
    assert (skip - q) * R == x - Floor(x) as real;
    CancelAtMost(0.0, skip - q, R);
    SkipOnSample(R, q, Floor(x));
  }

  /** `q` is sample `n` of a clock of rate R. */
  ghost predicate OnSample(R: real, q: real, n: real) {
    q * R == n
  }

  lemma SkipNotAfter(R: real, skip: real)
    requires R > 0.0
    ensures QuantizedSkip(R, skip) <= skip
  {
    SkipIsLastSample(R, skip);
  }

  lemma FinerSkip(q: real, fineQ: real, R: real, fine: real, m: real, n: real, fineN: real)
    requires m > 0.0 && fine > 0.0 && fine == m * R
    requires OnSample(R, q, n) && OnSample(fine, fineQ, fineN) && m * n <= fineN
    ensures q <= fineQ
  {
    calc {
      q * fine;
      { assert fine == m * R; }
      q * (m * R);
      m * (q * R);
      { assert q * R == n; }
      m * n;
    <=
      fineN;
    }
    CancelAtMost(q, fineQ, fine);
  }

  lemma SkipTimes(R: real, skip: real, x: real)
    requires R > 0.0 && x == R * skip
    ensures OnSample(R, QuantizedSkip(R, skip), Floor(x) as real)
  {
    QuotientTimes(Floor(R * skip) as real, R);
  }

  /** A clock that is `m` times finer never worsens the skip. */
  lemma SkipImprovesWithRatio(R: real, fine: real, m: nat, skip: real)
    requires R > 0.0 && m >= 1 && fine == m as real * R
    ensures fine > 0.0
    ensures QuantizedSkip(R, skip) <= QuantizedSkip(fine, skip) <= skip
  {
    hide QuantizedSkip, OnSample, Floor;
    ProductLess(0.0, m as real, R);
    SkipNotAfter(fine, skip);
    var x, y := R * skip, fine * skip;
    ScaledSkip(m as real, R, fine, skip);
    SkipTimes(R, skip, x);
    SkipTimes(fine, skip, y);
    ScaledFloor(m, x, y);
    FinerSkip(QuantizedSkip(R, skip), QuantizedSkip(fine, skip), R, fine, m as real, Floor(x) as real,
              Floor(y) as real);
  }

  lemma ScaledSkip(m: real, R: real, fine: real, skip: real)
    requires fine == m * R
    ensures fine * skip == m * (R * skip)
  {
  }

  // ---------- continuous-wave buffers ----------

  lemma BufferIsCeiling(R: real, duration: real)
    requires R > 0.0
    ensures CwBufferSize(R, duration) == Ceil(duration * R)
  {
    var dt := 1.0 / R;
    QuotientPositive(1.0, R);
    QuotientTimes(1.0, R);
    calc {
      (duration * R) * dt;
      duration * (dt * R);
      { assert dt * R == 1.0; }
      duration;
    }
    QuotientIs(duration, dt, duration * R);
  }

  /** The buffer size is the least whole number of samples that covers the duration. */
  lemma BufferIsLeastCover(R: real, duration: real, n: int)
    requires R > 0.0
    ensures CwBufferSize(R, duration) <= n <==> duration <= n as real / R
  {
    BufferIsCeiling(R, duration);
    var q := n as real / R;
    QuotientTimes(n as real, R);
    if duration <= q {
      ProductAtMost(duration, q, R);
    } else {
      ProductLess(q, duration, R);
    }
    CeilingAtMost(duration * R, n);
  }

  lemma CeilingAtMost(x: real, n: int)
    ensures Ceil(x) <= n <==> x <= n as real
  {
  }

  /** Buffers of adjacent intervals add up to the whole to within one sample, never less. */
  lemma BufferAdds(R: real, a: real, b: real)
    requires R > 0.0
    ensures CwBufferSize(R, a + b) <= CwBufferSize(R, a) + CwBufferSize(R, b) <= CwBufferSize(R, a + b) + 1
  {
    BufferIsCeiling(R, a);
    BufferIsCeiling(R, b);
    BufferIsCeiling(R, a + b);
    CeilingAdds(a * R, b * R, (a + b) * R);
  }

  lemma CeilingAdds(x: real, y: real, z: real)
    requires z == x + y
    ensures Ceil(z) <= Ceil(x) + Ceil(y) <= Ceil(z) + 1
  {
  }

  // ---------- wrapped delay ----------

  /** The wrapped delay is the representative of the negated delay in [0, 1), and the only one. */
  lemma WrappedDelayIsFraction(delay: real, x: real, k: int)
    requires x == -delay + k as real
    ensures 0.0 <= WrappedDelay(delay) < 1.0
    ensures 0.0 <= x < 1.0 <==> x == WrappedDelay(delay)
  {
    FloorBounds(-delay);
    if 0.0 <= x < 1.0 {
      FloorIs(-delay, -k);
    }
  }
}
