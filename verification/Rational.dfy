/** Integer arithmetic behind the exact fractional rates of the timelines: greatest common divisor,
    rescaling of a remainder, and the scaling of elapsed source ticks. */
module Rational {

  ghost predicate Divides(d: int, n: int)
    requires d != 0
  {
    n % d == 0
  }

  /** std::gcd on positive arguments. */
  function Gcd(a: nat, b: nat): (g: nat)
    requires a > 0
    ensures g > 0
    decreases b
  {
    if b == 0 then a else Gcd(b, a % b)
  }

  lemma MulMonotone(a: int, b: int, d: nat)
    requires a <= b
    ensures a * d <= b * d
  {
  }

  lemma MulCancelLess(a: int, b: int, d: nat)
    requires a * d < b * d
    ensures a < b
  {
    if b <= a {
      MulMonotone(b, a, d);
    }
  }

  lemma PositiveProduct(a: int, b: int)
    requires a > 0 && b > 0
    ensures a * b > 0
  {
  }

  /** Euclidean division is determined by its defining equation. */
  lemma QuotientUnique(n: int, d: int, q: int, r: int)
    requires d > 0 && 0 <= r < d && n == q * d + r
    ensures n / d == q && n % d == r
  {
    var k, m := n / d, n % d;
    assert n == k * d + m;
    assert (q + 1) * d == q * d + d && (k + 1) * d == k * d + d;
    MulCancelLess(q, k + 1, d);
    MulCancelLess(k, q + 1, d);
  }

  lemma DividesWitness(d: int, n: int, k: int)
    requires d > 0 && n == k * d
    ensures Divides(d, n) && n / d == k
  {
    QuotientUnique(n, d, k, 0);
  }

  lemma {:induction false} GcdDivides(a: nat, b: nat)
    requires a > 0
    ensures Divides(Gcd(a, b), a) && Divides(Gcd(a, b), b)
    decreases b
  {
    var g := Gcd(a, b);
    if b == 0 {
      DividesWitness(g, a, 1);
      DividesWitness(g, b, 0);
    } else {
      GcdDivides(b, a % b);
      var k, m := b / g, (a % b) / g;
      assert a == (a / b) * b + a % b;
      assert b == k * g && a % b == m * g;
      assert a == ((a / b) * k + m) * g by {
        assert (a / b) * b == ((a / b) * k) * g;
      }
      DividesWitness(g, a, (a / b) * k + m);
    }
  }

  lemma {:induction false} GcdGreatest(a: nat, b: nat, d: nat)
    requires a > 0 && d > 0 && Divides(d, a) && Divides(d, b)
    ensures d <= Gcd(a, b)
    decreases b
  {
    if b == 0 {
      assert a == (a / d) * d;
      assert a / d >= 1;
      assert (a / d) * d >= d;
    } else {
      var k, m := a / d, b / d;
      assert a == k * d && b == m * d;
      assert a % b == (k - (a / b) * m) * d by {
        assert a % b == a - (a / b) * b;
        assert (a / b) * b == ((a / b) * m) * d;
      }
      DividesWitness(d, a % b, k - (a / b) * m);
      GcdGreatest(b, a % b, d);
    }
  }

  /** Dividing both terms of a fraction by their gcd keeps its value and leaves it in lowest terms. */
  lemma LowestTerms(a: nat, b: nat)
    requires a > 0 && b > 0
    ensures var g := Gcd(a, b); a / g > 0 && b / g > 0
    ensures var g := Gcd(a, b); (a / g) * b == a * (b / g)
    ensures var g := Gcd(a, b); Gcd(a / g, b / g) == 1
  {
    var g := Gcd(a, b);
    GcdDivides(a, b);
    var p, q := a / g, b / g;
    assert a == p * g && b == q * g;
    MulCancelLess(0, p, g);
    MulCancelLess(0, q, g);
    CrossProduct(p, q, g);
    CoprimeTerms(a, b, p, q);
  }

  lemma CrossProduct(p: int, q: int, g: int)
    ensures p * (q * g) == (p * g) * q
  {
  }

  lemma CoprimeTerms(a: nat, b: nat, p: nat, q: nat)
    requires a > 0 && b > 0 && p > 0 && q > 0
    requires a == p * Gcd(a, b) && b == q * Gcd(a, b)
    ensures Gcd(p, q) == 1
  {
    var g, h := Gcd(a, b), Gcd(p, q);
    GcdDivides(p, q);
    CommonFactor(a, p, h, g);
    CommonFactor(b, q, h, g);
    GcdGreatest(a, b, h * g);
    assert h * g < 2 * g;
    MulCancelLess(h, 2, g);
  }

  lemma CommonFactor(a: nat, p: nat, h: nat, g: nat)
    requires h > 0 && g > 0 && Divides(h, p) && a == p * g
    ensures h * g > 0 && Divides(h * g, a)
  {
    var u := p / h;
    assert p == u * h;
    assert a == u * (h * g) by { assert (u * h) * g == u * (h * g); }
    assert h * g > 0;
    DividesWitness(h * g, a, u);
  }

  datatype Elapsed = Elapsed(ticks: int, remainder: int)

  /** Scales elapsed source ticks by num/den, dividing first so that no intermediate grows with uptime. */
  function ScaleElapsed(elapsed: nat, remainder: nat, num: nat, den: nat): (r: Elapsed)
    requires den > 0
  {
    var part := remainder + (elapsed % den) * num;
    Elapsed((elapsed / den) * num + part / den, part % den)
  }

  /** The divided form computes the quotient and remainder of the undivided product. */
  lemma ScaleElapsedExact(elapsed: nat, remainder: nat, num: nat, den: nat)
    requires den > 0
    ensures var r := ScaleElapsed(elapsed, remainder, num, den);
            && r.ticks == (elapsed * num + remainder) / den
            && r.remainder == (elapsed * num + remainder) % den
            && 0 <= r.remainder < den && 0 <= r.ticks
            && r.ticks * den + r.remainder == elapsed * num + remainder
  {
    var q, m := elapsed / den, elapsed % den;
    Bounds(elapsed, den, num);
    QuotientOfSum(q * num, m * num + remainder, den);
    Regroup(q, m, num, den, remainder);
    SameProduct(elapsed, q * den + m, num);
  }

  lemma SameProduct(a: int, b: int, c: int)
    requires a == b
    ensures a * c == b * c
  {
  }

  lemma QuotientOfSum(whole: nat, part: nat, den: nat)
    requires den > 0
    ensures var n := whole * den + part;
            && n / den == whole + part / den && n % den == part % den && 0 <= part / den
            && (whole + part / den) * den + part % den == n
  {
    Bounds(part, den, 0);
    Distribute(whole, part / den, den);
    QuotientUnique(whole * den + part, den, whole + part / den, part % den);
  }

  lemma Regroup(q: int, m: int, num: int, den: int, remainder: int)
    ensures (q * den + m) * num + remainder == (q * num) * den + (m * num + remainder)
  {
    Distribute(q * den, m, num);
    CrossProduct(q, num, den);
    CrossProduct(q, den, num);
  }

  lemma ScaleElapsedMonotonic(e1: nat, e2: nat, remainder: nat, num: nat, den: nat)
    requires den > 0 && e1 <= e2
    ensures ScaleElapsed(e1, remainder, num, den).ticks <= ScaleElapsed(e2, remainder, num, den).ticks
  {
    ScaleElapsedExact(e1, remainder, num, den);
    ScaleElapsedExact(e2, remainder, num, den);
    var a, b := ScaleElapsed(e1, remainder, num, den), ScaleElapsed(e2, remainder, num, den);
    MulMonotone(e1, e2, num);
    QuotientOrder(e1 * num + remainder, e2 * num + remainder, a, b, den);
  }

  lemma QuotientOrder(n1: int, n2: int, a: Elapsed, b: Elapsed, den: nat)
    requires n1 <= n2 && 0 <= a.remainder && b.remainder < den
    requires a.ticks * den + a.remainder == n1 && b.ticks * den + b.remainder == n2
    ensures a.ticks <= b.ticks
  {
    Distribute(b.ticks, 1, den);
    MulCancelLess(a.ticks, b.ticks + 1, den);
  }

  /** No elapsed time and less than a whole tick held: nothing to count, and the remainder is kept. */
  lemma ScaleNothing(remainder: nat, num: nat, den: nat)
    requires remainder < den
    ensures ScaleElapsed(0, remainder, num, den) == Elapsed(0, remainder)
  {
    QuotientUnique(remainder, den, 0, remainder);
    QuotientUnique(0, den, 0, 0);
  }

  /** A part of a tick stays a part of a tick when it is re-expressed over another denominator. */
  lemma RescaledRemainder(remainder: nat, den: nat, newDen: nat)
    requires remainder < den && newDen > 0
    ensures 0 <= remainder * newDen / den < newDen
  {
    MulMonotone(remainder + 1, den, newDen);
    Distribute(remainder, 1, newDen);
    QuotientBounds(remainder * newDen, den, newDen);
  }

  lemma QuotientBounds(n: int, den: nat, bound: nat)
    requires den > 0 && 0 <= n < den * bound
    ensures 0 <= n / den < bound
  {
    var k := n / den;
    assert n == k * den + n % den;
    MulCancelLess(k, bound, den);
    Distribute(k, 1, den);
    MulCancelLess(0, k + 1, den);
  }

  lemma Distribute(a: int, b: int, c: int)
    ensures (a + b) * c == a * c + b * c
  {
  }

  // ---- 64-bit range ---------------------------------------------------------------------------

  const INT64_MAX: int := 0x7FFF_FFFF_FFFF_FFFF

  predicate Fits(n: int) { -INT64_MAX - 1 <= n <= INT64_MAX }

  datatype Checked = Overflow | Value(n: int)

  /** One 64-bit arithmetic result; out of range is undefined behaviour in the source. */
  function Check(n: int): Checked { if Fits(n) then Value(n) else Overflow }

  function CheckedAdd(a: Checked, b: Checked): Checked {
    if a.Value? && b.Value? then Check(a.n + b.n) else Overflow
  }

  function CheckedMul(a: Checked, b: Checked): Checked {
    if a.Value? && b.Value? then Check(a.n * b.n) else Overflow
  }

  datatype Checked64 = Overflow64 | Exact64(result: Elapsed)

  /** ScaleElapsed evaluated operation by operation in 64-bit arithmetic. */
  function ScaleElapsed64(elapsed: nat, remainder: nat, num: nat, den: nat): Checked64
    requires den > 0
  {
    var part := CheckedAdd(Check(remainder), CheckedMul(Check(elapsed % den), Check(num)));
    if part.Overflow? then Overflow64 else
    var ticks := CheckedAdd(CheckedMul(Check(elapsed / den), Check(num)), Check(part.n / den));
    if ticks.Overflow? then Overflow64 else Exact64(Elapsed(ticks.n, part.n % den))
  }

  /** The 64-bit evaluation is exact if and only if the true quotient and the one product taken on the
      remainder of elapsed both fit; elapsed * num itself never has to. */
  lemma ScaleElapsed64Exact(elapsed: nat, remainder: nat, num: nat, den: nat)
    requires den > 0 && Fits(elapsed) && Fits(num) && Fits(den) && remainder < den
    ensures ScaleElapsed64(elapsed, remainder, num, den)
            == (if Fits((elapsed * num + remainder) / den) && Fits(remainder + (elapsed % den) * num)
                then Exact64(Elapsed((elapsed * num + remainder) / den, (elapsed * num + remainder) % den))
                else Overflow64)
  {
    ScaleElapsedExact(elapsed, remainder, num, den);
    var q, m := elapsed / den, elapsed % den;
    Bounds(elapsed, den, num);
    Bounds(remainder + m * num, den, num);
    CheckedSum(remainder, m * num);
    if Fits(remainder + m * num) {
      CheckedSum((remainder + m * num) / den, q * num);
    }
  }

  /** A sum of two non-negative terms overflows exactly when it does not fit. */
  lemma CheckedSum(a: nat, b: nat)
    requires Fits(a)
    ensures CheckedAdd(Check(a), Check(b)) == CheckedAdd(Check(b), Check(a)) == Check(a + b)
  {
  }

  lemma Bounds(n: nat, den: nat, num: nat)
    requires den > 0
    ensures 0 <= n / den <= n && 0 <= n % den && 0 <= n % den * num && 0 <= n / den * num
  {
    var q := n / den;
    assert n == q * den + n % den;
    assert (q + 1) * den == q * den + den;
    MulCancelLess(0, q + 1, den);
    MulMonotone(1, den, q);
  }

  /** In particular it is exact for every uptime whose true tick count fits, provided one bound on the
      rate alone, (den - 1) * (num + 1), fits. */
  lemma ScaleElapsed64Bound(elapsed: nat, remainder: nat, num: nat, den: nat)
    requires den > 0 && Fits(elapsed) && Fits(num) && Fits(den) && remainder < den
    requires Fits((elapsed * num + remainder) / den)
    requires Fits((den - 1) * (num + 1))
    ensures ScaleElapsed64(elapsed, remainder, num, den)
            == Exact64(Elapsed((elapsed * num + remainder) / den, (elapsed * num + remainder) % den))
  {
    LargestPart(elapsed % den, remainder, num, den);
    ScaleElapsed64Exact(elapsed, remainder, num, den);
  }

  lemma LargestPart(m: nat, remainder: nat, num: nat, den: nat)
    requires m < den && remainder < den
    ensures 0 <= remainder + m * num <= (den - 1) * (num + 1)
  {
    MulMonotone(m, den - 1, num);
    MulMonotone(0, m, num);
    Distribute(num, 1, den - 1);
  }

  /** Multiplying first would not do: a day of microseconds at 120 ticks a microsecond, held as
      120000000/1000000, overflows, while the divided form is exact. */
  lemma MultiplyFirstOverflows()
    ensures var elapsed, num, den := 86_400_000_000, 120_000_000, 1_000_000;
            && !Fits(elapsed * num)
            && ScaleElapsed64(elapsed, 0, num, den) == Exact64(Elapsed(elapsed * num / den, 0))
  {
    var elapsed, num, den := 86_400_000_000, 120_000_000, 1_000_000;
    QuotientUnique(elapsed, den, 86_400, 0);
    QuotientUnique(elapsed * num, den, 86_400 * num, 0);
    ScaleElapsed64Exact(elapsed, 0, num, den);
  }

  // ---- 64-bit range of a change of rate -----------------------------------------------------------

  /** The remainder re-expressed over another denominator, operation by operation: the product comes first. */
  function Rescale64(remainder: nat, den: nat, newDen: nat): Checked
    requires den > 0
  {
    var product := CheckedMul(Check(remainder), Check(newDen));
    if product.Overflow? then Overflow else Check(product.n / den)
  }

  /** It is exact if and only if the product fits; the exact result itself always does. */
  lemma Rescale64Exact(remainder: nat, den: nat, newDen: nat)
    requires remainder < den && newDen > 0 && Fits(den) && Fits(newDen)
    ensures Rescale64(remainder, den, newDen)
            == if Fits(remainder * newDen) then Value(remainder * newDen / den) else Overflow
  {
    RescaledRemainder(remainder, den, newDen);
    MulMonotone(0, remainder, newDen);
  }

  /** On the two denominators alone: every part of a tick survives the change exactly if and only if
      (den - 1) * newDen fits. */
  lemma Rescale64Always(den: nat, newDen: nat)
    requires den > 0 && newDen > 0 && Fits(den) && Fits(newDen)
    ensures Fits((den - 1) * newDen)
        <==> forall r: nat :: r < den ==> Rescale64(r, den, newDen) == Value(r * newDen / den)
  {
    if Fits((den - 1) * newDen) {
      forall r: nat | r < den ensures Rescale64(r, den, newDen) == Value(r * newDen / den) {
        MulMonotone(r, den - 1, newDen);
        MulMonotone(0, r, newDen);
        Rescale64Exact(r, den, newDen);
      }
    } else {
      Rescale64Exact(den - 1, den, newDen);
      assert Rescale64(den - 1, den, newDen) != Value((den - 1) * newDen / den);
    }
  }

  datatype Rates64 = RatesOverflow | Rates(num: int, den: int, remainder: int)

  /** A change of rate: the two raw terms, the rate in lowest terms, the rescaled remainder. */
  function Recompute64(ticks: nat, speedNum: nat, sourceRate: nat, speedDen: nat, remainder: nat, den: nat): (r: Rates64)
    requires ticks > 0 && speedNum > 0 && sourceRate > 0 && speedDen > 0 && remainder < den
    ensures r.Rates? ==> r.num > 0 && 0 <= r.remainder < r.den
  {
    PositiveProduct(ticks, speedNum);
    PositiveProduct(sourceRate, speedDen);
    var rawNum, rawDen := CheckedMul(Check(ticks), Check(speedNum)), CheckedMul(Check(sourceRate), Check(speedDen));
    if rawNum.Overflow? || rawDen.Overflow? then RatesOverflow else
    LowestTerms(rawNum.n, rawDen.n);
    var divisor := Gcd(rawNum.n, rawDen.n);
    RescaledRemainder(remainder, den, rawDen.n / divisor);
    var rescaled := Rescale64(remainder, den, rawDen.n / divisor);
    if rescaled.Overflow? then RatesOverflow else Rates(rawNum.n / divisor, rawDen.n / divisor, rescaled.n)
  }

  /** All three products of a change of rate fit. */
  ghost predicate RatesFit(ticks: nat, speedNum: nat, sourceRate: nat, speedDen: nat, remainder: nat)
    requires ticks > 0 && speedNum > 0 && sourceRate > 0 && speedDen > 0
  {
    PositiveProduct(ticks, speedNum);
    PositiveProduct(sourceRate, speedDen);
    var rawNum, rawDen := ticks * speedNum, sourceRate * speedDen;
    Fits(rawNum) && Fits(rawDen) && Fits(remainder * (rawDen / Gcd(rawNum, rawDen)))
  }

  /** In 64 bits a change of rate is exact if and only if its three products fit. */
  lemma Recompute64Exact(ticks: nat, speedNum: nat, sourceRate: nat, speedDen: nat, remainder: nat, den: nat)
    requires ticks > 0 && speedNum > 0 && sourceRate > 0 && speedDen > 0 && remainder < den
    requires Fits(ticks) && Fits(speedNum) && Fits(sourceRate) && Fits(speedDen) && Fits(den)
    ensures ticks * speedNum > 0 && sourceRate * speedDen > 0
    ensures var rawNum, rawDen := ticks * speedNum, sourceRate * speedDen;
      var divisor := Gcd(rawNum, rawDen);
      Recompute64(ticks, speedNum, sourceRate, speedDen, remainder, den)
      == if RatesFit(ticks, speedNum, sourceRate, speedDen, remainder)
         then Rates(rawNum / divisor, rawDen / divisor, remainder * (rawDen / divisor) / den)
         else RatesOverflow
  {
    PositiveProduct(ticks, speedNum);
    PositiveProduct(sourceRate, speedDen);
    var rawNum, rawDen := ticks * speedNum, sourceRate * speedDen;
    if Fits(rawNum) && Fits(rawDen) {
      LowestTerms(rawNum, rawDen);
      Bounds(rawDen, Gcd(rawNum, rawDen), 0);
      Rescale64Exact(remainder, den, rawDen / Gcd(rawNum, rawDen));
    }
  }

  /** Two's complement wrap-around of a product, and division that truncates. */
  function Wrapped(n: int): int { (n + INT64_MAX + 1) % (2 * (INT64_MAX + 1)) - INT64_MAX - 1 }

  function Truncated(n: int, d: nat): int
    requires d > 0
  {
    if n >= 0 then n / d else -(-n / d)
  }

  lemma GcdStep(a: nat, b: nat, q: nat, r: nat)
    requires b > 0 && r < b && a == q * b + r
    ensures a > 0 ==> Gcd(a, b) == Gcd(b, r)
  {
    QuotientUnique(a, b, q, r);
  }

  lemma FirstTerms()
    ensures Gcd(74_074_020, 1_000_000_000_000) == 20
  {
    GcdStep(74_074_020, 1_000_000_000_000, 0, 74_074_020);
    GcdStep(1_000_000_000_000, 74_074_020, 13_500, 730_000);
    GcdStep(74_074_020, 730_000, 101, 344_020);
    GcdStep(730_000, 344_020, 2, 41_960);
    GcdStep(344_020, 41_960, 8, 8_340);
    GcdStep(41_960, 8_340, 5, 260);
    GcdStep(8_340, 260, 32, 20);
    GcdStep(260, 20, 13, 0);
    assert Gcd(20, 0) == 20;
  }

  lemma SecondTerms()
    ensures Gcd(20_740_740, 1_000_000_000_000) == 20
  {
    GcdStep(20_740_740, 1_000_000_000_000, 0, 20_740_740);
    GcdStep(1_000_000_000_000, 20_740_740, 48_214, 5_961_640);
    GcdStep(20_740_740, 5_961_640, 3, 2_855_820);
    GcdStep(5_961_640, 2_855_820, 2, 250_000);
    GcdStep(2_855_820, 250_000, 11, 105_820);
    GcdStep(250_000, 105_820, 2, 38_360);
    GcdStep(105_820, 38_360, 2, 29_100);
    GcdStep(38_360, 29_100, 1, 9_260);
    GcdStep(29_100, 9_260, 3, 1_320);
    GcdStep(9_260, 1_320, 7, 20);
    GcdStep(1_320, 20, 66, 0);
    assert Gcd(20, 0) == 20;
  }

  lemma FirstSpeed()
    ensures Recompute64(60, 1_234_567, 1_000_000, 1_000_000, 0, 1) == Rates(3_703_701, 50_000_000_000, 0)
    ensures ScaleElapsed64(13_000, 0, 3_703_701, 50_000_000_000) == Exact64(Elapsed(0, 48_148_113_000))
  {
    FirstTerms();
    QuotientUnique(13_000, 50_000_000_000, 0, 13_000);
  }

  lemma SecondSpeed()
    ensures Recompute64(60, 345_679, 1_000_000, 1_000_000, 48_148_113_000, 50_000_000_000) == RatesOverflow
  {
    SecondTerms();
    assert !Fits(48_148_113_000 * 50_000_000_000);
  }

  lemma WrappedPart()
    ensures Truncated(Wrapped(48_148_113_000 * 50_000_000_000), 50_000_000_000) == -182_356_473
  {
    assert Wrapped(48_148_113_000 * 50_000_000_000) == -9_117_823_655_951_261_696;
    QuotientUnique(9_117_823_655_951_261_696, 50_000_000_000, 182_356_473, 5_951_261_696);
  }

  /** Ordinary settings reach a product that does not fit. A timeline of 60 ticks a second on a microsecond
      clock runs at speed 1.234567, so at 3703701/50000000000; after 13000 microseconds it holds a part of a
      tick of 48148113000. Setting speed 0.345679, at 1037037/50000000000, multiplies the two; the exact
      result is the same part of a tick, the wrapped one is negative. */
  lemma RescaleOverflows()
    ensures var den, remainder := 50_000_000_000, 48_148_113_000;
      && Recompute64(60, 1_234_567, 1_000_000, 1_000_000, 0, 1) == Rates(3_703_701, den, 0)
      && ScaleElapsed64(13_000, 0, 3_703_701, den) == Exact64(Elapsed(0, remainder))
      && Recompute64(60, 345_679, 1_000_000, 1_000_000, remainder, den) == RatesOverflow
      && Truncated(Wrapped(remainder * den), den) == -182_356_473
  {
    FirstSpeed();
    SecondSpeed();
    WrappedPart();
  }
}
