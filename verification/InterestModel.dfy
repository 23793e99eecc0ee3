// The two-slope rate model: a borrow rate with a kink at the optimal utilization,
// a supply rate derived from it, and the utilization both depend on.
module InterestModel {
  import opened FixedPoint

  datatype RateParams = RateParams(baseRate: int, slope1: int, slope2: int, optimalUtilization: int)

  predicate ValidRates(p: RateParams) {
    p.baseRate >= 0 && p.slope1 >= 0 && p.slope2 >= 0 && 0 < p.optimalUtilization < ONE
  }

  function BorrowRate(p: RateParams, utilization: int): int {
    if utilization <= p.optimalUtilization then
      var ratio := MulDiv(utilization, ONE, p.optimalUtilization);
      p.baseRate + MulDiv(ratio, p.slope1, ONE)
    else
      var ratio := MulDiv(utilization - p.optimalUtilization, ONE, ONE - p.optimalUtilization);
      p.baseRate + p.slope1 + MulDiv(ratio, p.slope2, ONE)
  }

  predicate BorrowRateFits(p: RateParams, utilization: int) {
    if utilization <= p.optimalUtilization then
      var ratio := MulDiv(utilization, ONE, p.optimalUtilization);
      && MulDivFits(utilization, ONE, p.optimalUtilization)
      && MulDivFits(ratio, p.slope1, ONE)
      && InI128(BorrowRate(p, utilization))
    else
      var ratio := MulDiv(utilization - p.optimalUtilization, ONE, ONE - p.optimalUtilization);
      && InI128(utilization - p.optimalUtilization)
      && InI128(ONE - p.optimalUtilization)
      && MulDivFits(utilization - p.optimalUtilization, ONE, ONE - p.optimalUtilization)
      && MulDivFits(ratio, p.slope2, ONE)
      && InI128(p.baseRate + p.slope1)
      && InI128(BorrowRate(p, utilization))
  }

  function SupplyRate(p: RateParams, utilization: int, reserveFactor: int): int {
    var borrowRate := BorrowRate(p, utilization);
    MulDiv(borrowRate - PercentOf(borrowRate, reserveFactor), utilization, ONE)
  }

  predicate SupplyRateFits(p: RateParams, utilization: int, reserveFactor: int) {
    var borrowRate := BorrowRate(p, utilization);
    var toReserve := PercentOf(borrowRate, reserveFactor);
    && BorrowRateFits(p, utilization)
    && PercentOfFits(borrowRate, reserveFactor)
    && InI128(borrowRate - toReserve)
    && MulDivFits(borrowRate - toReserve, utilization, ONE)
  }

  function Utilization(totalSupply: int, totalBorrow: int): int {
    if totalSupply == 0 then 0 else MulDiv(totalBorrow, ONE, totalSupply)
  }

  predicate UtilizationFits(totalSupply: int, totalBorrow: int) {
    totalSupply == 0 || MulDivFits(totalBorrow, ONE, totalSupply)
  }

  // ---- Shape

  lemma UtilizationMonotone(supply: int, borrow: int, borrow': int)
    requires supply >= 0 && 0 <= borrow <= borrow'
    ensures 0 <= Utilization(supply, borrow) <= Utilization(supply, borrow')
  {
    if supply > 0 {
      MulDivMonotone(borrow, ONE, borrow', ONE, supply);
    }
  }

  // Utilization is the exact ratio of the totals, rounded down.
  lemma UtilizationExact(supply: int, borrow: int)
    requires supply >= 0 && borrow >= 0
    ensures supply > 0 ==> IsFloor(Utilization(supply, borrow), borrow * ONE, supply)
    ensures supply == 0 ==> Utilization(supply, borrow) == 0
  {
    if supply > 0 {
      IsFloorIff(Utilization(supply, borrow), borrow, ONE, supply);
    }
  }

  // The lower branch never climbs above the value at which the upper one starts.
  lemma BelowKink(p: RateParams, u: int)
    requires ValidRates(p) && 0 <= u <= p.optimalUtilization
    ensures p.baseRate <= BorrowRate(p, u) <= p.baseRate + p.slope1
  {
    var ratio := MulDiv(u, ONE, p.optimalUtilization);
    MulDivShrinks(ONE, u, p.optimalUtilization);
    assert u * ONE == ONE * u;
    assert ratio == MulDiv(ONE, u, p.optimalUtilization);
    MulDivShrinks(p.slope1, ratio, ONE);
    assert ratio * p.slope1 == p.slope1 * ratio;
  }

  lemma AboveKink(p: RateParams, u: int)
    requires ValidRates(p) && p.optimalUtilization < u
    ensures p.baseRate + p.slope1 <= BorrowRate(p, u)
  {
  }

  // The borrow rate never falls as utilization grows: on either side of the kink,
  // across it, and beyond full utilization.
  lemma BorrowRateMonotone(p: RateParams, u: int, u': int)
    requires ValidRates(p) && 0 <= u <= u'
    ensures 0 <= p.baseRate <= BorrowRate(p, u) <= BorrowRate(p, u')
  {
    var opt := p.optimalUtilization;
    if u' <= opt {
      BelowKink(p, u);
      MulDivMonotone(u, ONE, u', ONE, opt);
      MulDivMonotone(MulDiv(u, ONE, opt), p.slope1, MulDiv(u', ONE, opt), p.slope1, ONE);
    } else if u <= opt {
      BelowKink(p, u);
      AboveKink(p, u');
    } else {
      AboveKink(p, u);
      MulDivMonotone(u - opt, ONE, u' - opt, ONE, ONE - opt);
      MulDivMonotone(MulDiv(u - opt, ONE, ONE - opt), p.slope2,
                     MulDiv(u' - opt, ONE, ONE - opt), p.slope2, ONE);
    }
  }

  // What is left of a rate after the reserve cut grows with the rate: a larger rate
  // never pays so much more reserve that the remainder shrinks.
  lemma AfterReserveMonotone(rate: int, rate': int, reserveFactor: int)
    requires 0 <= rate <= rate' && 0 <= reserveFactor <= ONE
    ensures 0 <= rate - PercentOf(rate, reserveFactor) <= rate' - PercentOf(rate', reserveFactor)
  {
    MulDivShrinks(rate, reserveFactor, ONE);
    var d := rate' - rate;
    var q := PercentOf(rate, reserveFactor);
    MulDivFloor(rate, reserveFactor, ONE);
    assert rate' * reserveFactor == rate * reserveFactor + d * reserveFactor;
    assert d * reserveFactor <= d * ONE;
    assert (q + d + 1) * ONE == q * ONE + d * ONE + ONE;
    FloorGreatest(rate', reserveFactor, ONE, q + d + 1);
  }

  lemma SupplyRateMonotone(p: RateParams, u: int, u': int, reserveFactor: int)
    requires ValidRates(p) && 0 <= u <= u' && 0 <= reserveFactor <= ONE
    ensures 0 <= SupplyRate(p, u, reserveFactor) <= SupplyRate(p, u', reserveFactor)
  {
    BorrowRateMonotone(p, u, u');
    var rate, rate' := BorrowRate(p, u), BorrowRate(p, u');
    AfterReserveMonotone(rate, rate', reserveFactor);
    MulDivMonotone(rate - PercentOf(rate, reserveFactor), u, rate' - PercentOf(rate', reserveFactor), u', ONE);
  }

  // ---- Accuracy

  // The documented formula, with exact division.
  ghost function ExactBorrowRate(p: RateParams, u: int): real
    requires ValidRates(p)
  {
    var opt := p.optimalUtilization;
    if u <= opt then
      p.baseRate as real + (u * p.slope1) as real / opt as real
    else
      (p.baseRate + p.slope1) as real + ((u - opt) * p.slope2) as real / (ONE - opt) as real
  }

  lemma NestedFloorsAlgebra(u: int, one: int, d: int, slope: int, q: int, r: int)
    requires u >= 0 && one > 0 && d > 0 && slope >= 0
    requires q * d <= u * one < q * d + d
    requires r * one <= q * slope < r * one + one
    ensures r * d <= u * slope
    ensures u * slope * one < (r * one + one + slope) * d
  {
  }

  // Two nested floors lose less than one unit plus the slope in whole units of ONE.
  lemma NestedFloors(u: int, slope: int, denominator: int)
    requires u >= 0 && slope >= 0 && denominator > 0
    ensures var r := MulDiv(MulDiv(u, ONE, denominator), slope, ONE);
            && r >= 0
            && r * denominator <= u * slope
            && u * slope * ONE < (r * ONE + ONE + slope) * denominator
  {
    var q := MulDiv(u, ONE, denominator);
    MulDivFloor(u, ONE, denominator);
    MulDivFloor(q, slope, ONE);
    NestedFloorsAlgebra(u, ONE, denominator, slope, q, MulDiv(q, slope, ONE));
  }

  lemma QuotientAtLeast(k: real, x: real, y: real)
    requires y > 0.0 && k * y <= x
    ensures k <= x / y
  {
  }

  lemma QuotientBelow(k: real, x: real, y: real)
    requires y > 0.0 && x < k * y
    ensures x / y < k
  {
  }

  lemma RealQuotient(r: int, x: int, y: int, slope: int)
    requires y > 0
    requires r * y <= x && x * ONE < (r * ONE + ONE + slope) * y
    ensures r as real <= x as real / y as real < r as real + 1.0 + slope as real / ONE as real
  {
    assert (r * y) as real == r as real * y as real;
    QuotientAtLeast(r as real, x as real, y as real);
    var n := r * ONE + ONE + slope;
    assert (x * ONE) as real == x as real * ONE as real;
    assert (n * y) as real == n as real * y as real;
    QuotientBelow(n as real / ONE as real, x as real, y as real);
  }

  // The rate is never above the documented formula; it is below it by less than one
  // unit plus the slope in units of ONE, so by less than two for slopes up to ONE.
  lemma BorrowRateAccurate(p: RateParams, u: int)
    requires ValidRates(p) && u >= 0
    ensures var slope := if u <= p.optimalUtilization then p.slope1 else p.slope2;
            BorrowRate(p, u) as real <= ExactBorrowRate(p, u)
            < BorrowRate(p, u) as real + 1.0 + slope as real / ONE as real
    ensures p.slope1 <= ONE && p.slope2 <= ONE ==>
              ExactBorrowRate(p, u) < BorrowRate(p, u) as real + 2.0
  {
    var opt := p.optimalUtilization;
    if u <= opt {
      NestedFloors(u, p.slope1, opt);
      RealQuotient(MulDiv(MulDiv(u, ONE, opt), p.slope1, ONE), u * p.slope1, opt, p.slope1);
    } else {
      NestedFloors(u - opt, p.slope2, ONE - opt);
      RealQuotient(MulDiv(MulDiv(u - opt, ONE, ONE - opt), p.slope2, ONE),
                   (u - opt) * p.slope2, ONE - opt, p.slope2);
    }
  }

  // The documented formula at the exact ratio of the totals. At the kink both branches
  // give the same.
  ghost function DocumentedRate(p: RateParams, supply: int, borrow: int): real
    requires ValidRates(p) && supply >= 0
  {
    var opt := p.optimalUtilization;
    if supply == 0 then p.baseRate as real
    else if borrow * ONE <= opt * supply then
      p.baseRate as real + (borrow * ONE * p.slope1) as real / (opt * supply) as real
    else
      (p.baseRate + p.slope1) as real
      + ((borrow * ONE - opt * supply) * p.slope2) as real / ((ONE - opt) * supply) as real
  }

  // What three nested floors can cost: a unit, and the slope per unit of the ratio and of
  // its share in the width of the branch.
  ghost function RateError(p: RateParams, supply: int, borrow: int): real
    requires ValidRates(p)
  {
    if borrow * ONE <= p.optimalUtilization * supply
    then 1.0 + p.slope1 as real / ONE as real + p.slope1 as real / p.optimalUtilization as real
    else 1.0 + p.slope2 as real / ONE as real + p.slope2 as real / (ONE - p.optimalUtilization) as real
  }

  lemma ThreeFloorsAtMost(x: int, supply: int, u: int, r: int, slope: int, width: int)
    requires supply > 0 && slope >= 0 && u * supply <= x && r * width <= u * slope
    ensures r * (width * supply) <= x * slope
  {
    MulKeepsOrder(r * width, u * slope, supply);
    MulKeepsOrder(u * supply, x, slope);
    assert r * (width * supply) == (r * width) * supply && (u * slope) * supply == (u * supply) * slope;
  }

  lemma OuterFloor(x: int, supply: int, u: int, slope: int)
    requires slope >= 0 && x <= (u + 1) * supply
    ensures (x * slope) * ONE <= (u * slope * ONE) * supply + slope * ONE * supply
  {
    MulKeepsOrder(x, (u + 1) * supply, slope);
    assert ((u + 1) * supply) * slope == (u * slope) * supply + slope * supply;
    assert ((u * slope) * supply + slope * supply) * ONE == (u * slope * ONE) * supply + slope * ONE * supply;
  }

  lemma InnerFloors(product: int, inner: int, n: int, width: int, slope: int, supply: int)
    requires supply > 0 && width > 0 && inner < n * width
    requires product <= inner * supply + slope * ONE * supply
    ensures product * width < (n * width + slope * ONE) * (width * supply)
  {
    MulOrder(inner, n * width, supply);
    MulOrder(product, (n * width) * supply + slope * ONE * supply, width);
    assert ((n * width) * supply + slope * ONE * supply) * width == (n * width + slope * ONE) * (width * supply);
  }

  lemma ThreeFloorsAlgebra(x: int, supply: int, u: int, r: int, slope: int, width: int)
    requires supply > 0 && width > 0 && slope >= 0 && IsFloor(u, x, supply)
    requires r * width <= u * slope
    requires u * slope * ONE < (r * ONE + ONE + slope) * width
    ensures r * (width * supply) <= x * slope
    ensures (x * slope) * (ONE * width) < ((r * ONE + ONE + slope) * width + slope * ONE) * (width * supply)
  {
    ThreeFloorsAtMost(x, supply, u, r, slope, width);
    assert (u + 1) * supply == u * supply + supply;
    OuterFloor(x, supply, u, slope);
    InnerFloors((x * slope) * ONE, u * slope * ONE, r * ONE + ONE + slope, width, slope, supply);
    assert ((x * slope) * ONE) * width == (x * slope) * (ONE * width);
  }

  lemma ThreeFloors(x: int, supply: int, u: int, slope: int, width: int)
    requires supply > 0 && width > 0 && slope >= 0 && u >= 0 && IsFloor(u, x, supply)
    ensures var r := MulDiv(MulDiv(u, ONE, width), slope, ONE);
            r as real <= (x * slope) as real / (width * supply) as real
            < r as real + 1.0 + slope as real / ONE as real + slope as real / width as real
  {
    var r := MulDiv(MulDiv(u, ONE, width), slope, ONE);
    NestedFloors(u, slope, width);
    ThreeFloorsAlgebra(x, supply, u, r, slope, width);
    MulOrder(0, width, supply);
    ThreeQuotients(r, x * slope, width * supply, slope, width);
  }

  lemma SumOfQuotients(r: int, slope: int, width: int)
    requires width > 0
    ensures (r as real + 1.0 + slope as real / ONE as real + slope as real / width as real) * (ONE * width) as real
         == ((r * ONE + ONE + slope) * width + slope * ONE) as real
  {
    var o, w, s := ONE as real, width as real, slope as real;
    assert (ONE * width) as real == o * w;
    assert s / o * (o * w) == s * w && s / w * (o * w) == s * o;
    assert (r * ONE) as real == r as real * o && ((r * ONE + ONE + slope) * width) as real
        == (r as real * o + o + s) * w;
    assert (slope * ONE) as real == s * o;
  }

  lemma ScaledBelow(x: real, k: real, y: real, m: real)
    requires m > 0.0 && x * m < (k * m) * y
    ensures x < k * y
  {
    assert (k * m) * y == (k * y) * m;
  }

  lemma QuotientOrder(x: int, y: int, n: int, m: int, k: real)
    requires y > 0 && m > 0 && x * m < n * y && k * m as real == n as real
    ensures x as real / y as real < k
  {
    assert (x * m) as real == x as real * m as real;
    assert (n * y) as real == n as real * y as real;
    ScaledBelow(x as real, k, y as real, m as real);
    QuotientBelow(k, x as real, y as real);
  }

  lemma WholeQuotient(r: int, x: int, y: int)
    requires y > 0 && r * y <= x
    ensures r as real <= x as real / y as real
  {
    assert (r * y) as real == r as real * y as real;
    QuotientAtLeast(r as real, x as real, y as real);
  }

  lemma ThreeQuotients(r: int, x: int, y: int, slope: int, width: int)
    requires y > 0 && width > 0 && r * y <= x
    requires x * (ONE * width) < ((r * ONE + ONE + slope) * width + slope * ONE) * y
    ensures r as real <= x as real / y as real
            < r as real + 1.0 + slope as real / ONE as real + slope as real / width as real
  {
    WholeQuotient(r, x, y);
    SumOfQuotients(r, slope, width);
    QuotientOrder(x, y, (r * ONE + ONE + slope) * width + slope * ONE, ONE * width,
                  r as real + 1.0 + slope as real / ONE as real + slope as real / width as real);
  }

  // At the kink the upper branch starts where the lower one ends.
  lemma AtKink(p: RateParams)
    requires ValidRates(p)
    ensures BorrowRate(p, p.optimalUtilization) == p.baseRate + p.slope1
  {
    var opt := p.optimalUtilization;
    IsFloorIff(ONE, opt, ONE, opt);
    IsFloorIff(p.slope1, ONE, p.slope1, ONE);
  }

  // The side of the kink, seen from the rounded ratio.
  lemma SideOfKink(opt: int, supply: int, u: int, x: int)
    requires supply > 0 && IsFloor(u, x, supply)
    ensures x <= opt * supply ==> u <= opt
    ensures x > opt * supply ==> u >= opt && IsFloor(u - opt, x - opt * supply, supply)
  {
    assert (u + 1) * supply == u * supply + supply;
    MulOrder(u, opt, supply);
    MulOrder(opt, u + 1, supply);
    assert (u - opt) * supply == u * supply - opt * supply;
  }

  lemma RateBelowKink(p: RateParams, supply: int, borrow: int, u: int)
    requires ValidRates(p) && supply > 0 && 0 <= u <= p.optimalUtilization && IsFloor(u, borrow * ONE, supply)
    requires borrow * ONE <= p.optimalUtilization * supply
    ensures BorrowRate(p, u) as real <= DocumentedRate(p, supply, borrow)
            < BorrowRate(p, u) as real + RateError(p, supply, borrow)
  {
    ThreeFloors(borrow * ONE, supply, u, p.slope1, p.optimalUtilization);
  }

  lemma RateAboveKink(p: RateParams, supply: int, borrow: int, u: int)
    requires ValidRates(p) && supply > 0 && u >= p.optimalUtilization
    requires borrow * ONE > p.optimalUtilization * supply
    requires IsFloor(u - p.optimalUtilization, borrow * ONE - p.optimalUtilization * supply, supply)
    ensures BorrowRate(p, u) as real <= DocumentedRate(p, supply, borrow)
            < BorrowRate(p, u) as real + RateError(p, supply, borrow)
  {
    var opt := p.optimalUtilization;
    AtKink(p);
    ThreeFloors(borrow * ONE - opt * supply, supply, u - opt, p.slope2, ONE - opt);
  }

  // The rate the pool charges is the documented formula at the exact ratio of its totals,
  // short of it by less than what the floors cost.
  lemma RateAtTotals(p: RateParams, supply: int, borrow: int)
    requires ValidRates(p) && supply >= 0 && borrow >= 0
    ensures var rate := BorrowRate(p, Utilization(supply, borrow)) as real;
            rate <= DocumentedRate(p, supply, borrow) < rate + RateError(p, supply, borrow)
  {
    var u := Utilization(supply, borrow);
    UtilizationExact(supply, borrow);
    UtilizationMonotone(supply, borrow, borrow);
    if supply == 0 {
      RateWithoutSupply(p, borrow);
    } else {
      SideOfKink(p.optimalUtilization, supply, u, borrow * ONE);
      if borrow * ONE <= p.optimalUtilization * supply {
        RateBelowKink(p, supply, borrow, u);
      } else {
        RateAboveKink(p, supply, borrow, u);
      }
    }
  }

  lemma RateWithoutSupply(p: RateParams, borrow: int)
    requires ValidRates(p)
    ensures BorrowRate(p, 0) == p.baseRate && RateError(p, 0, borrow) >= 1.0
  {
    QuotientNonNegative(p.slope1, ONE);
    QuotientNonNegative(p.slope2, ONE);
    QuotientNonNegative(p.slope1, p.optimalUtilization);
    QuotientNonNegative(p.slope2, ONE - p.optimalUtilization);
  }

  lemma QuotientNonNegative(a: int, b: int)
    requires a >= 0 && b > 0
    ensures a as real / b as real >= 0.0
  {
  }

  // ---- No interest is created by rounding

  lemma CoveredAlgebra(paid: int, rate: int, cut: int, u: int, supply: int, borrow: int, one: int)
    requires cut <= rate && supply > 0 && one > 0
    requires paid * one <= (rate - cut) * u && u * supply <= borrow * one
    ensures paid * supply + cut * borrow <= rate * borrow
  {
    var kept := rate - cut;
    assert kept * u == u * kept;
    ChainAtMost(borrow, u, paid, supply, one, one, kept);
    assert paid * (one * supply) == (paid * supply) * one;
    assert borrow * (kept * one) == (kept * borrow) * one;
    MulOrder(paid * supply, kept * borrow, one);
    assert kept * borrow == rate * borrow - cut * borrow;
  }

  // For any borrow rate.
  lemma RateCovered(rate: int, supply: int, borrow: int, reserveFactor: int)
    requires rate >= 0 && supply > 0 && borrow >= 0 && 0 <= reserveFactor <= ONE
    ensures var cut := PercentOf(rate, reserveFactor);
            MulDiv(rate - cut, Utilization(supply, borrow), ONE) * supply + cut * borrow <= rate * borrow
  {
    var u, cut := Utilization(supply, borrow), PercentOf(rate, reserveFactor);
    MulDivFloor(borrow, ONE, supply);
    MulDivShrinks(rate, reserveFactor, ONE);
    MulDivFloor(rate - cut, u, ONE);
    CoveredAlgebra(MulDiv(rate - cut, u, ONE), rate, cut, u, supply, borrow, ONE);
  }

  // Suppliers and the reserve together are never promised more than borrowers pay,
  // through the floors of utilization, reserve cut and supply rate.
  lemma InterestCovered(p: RateParams, supply: int, borrow: int, reserveFactor: int)
    requires ValidRates(p) && supply > 0 && borrow >= 0 && 0 <= reserveFactor <= ONE
    ensures var u := Utilization(supply, borrow);
            var rate := BorrowRate(p, u);
            SupplyRate(p, u, reserveFactor) * supply + PercentOf(rate, reserveFactor) * borrow <= rate * borrow
  {
    var u := Utilization(supply, borrow);
    UtilizationMonotone(supply, borrow, borrow);
    BorrowRateMonotone(p, u, u);
    RateCovered(BorrowRate(p, u), supply, borrow, reserveFactor);
  }

  lemma SharedAlgebra(paid: int, rate: int, cut: int, u: int, supply: int, borrow: int, one: int)
    requires cut <= rate && supply > 0 && one > 0
    requires (rate - cut) * u < (paid + 1) * one && borrow * one <= (u + 1) * supply
    ensures (rate * borrow) * one < (paid * supply + cut * borrow) * one + supply * one + (rate - cut) * supply
  {
    var kept := rate - cut;
    MulKeepsOrder(borrow * one, (u + 1) * supply, kept);
    MulOrder(kept * u, (paid + 1) * one, supply);
    assert ((u + 1) * supply) * kept == (kept * u) * supply + kept * supply;
    assert ((paid + 1) * one) * supply == (paid * supply) * one + supply * one;
    assert (borrow * one) * kept == (rate * borrow) * one - (cut * borrow) * one;
  }

  lemma PromisedParts(rate: int, u: int, reserveFactor: int)
    requires rate >= 0 && u >= 0 && 0 <= reserveFactor <= ONE
    ensures var cut := PercentOf(rate, reserveFactor);
            && IsFloor(cut, rate * reserveFactor, ONE) && cut <= rate
            && (rate - cut) * u < (MulDiv(rate - cut, u, ONE) + 1) * ONE
  {
    MulDivFloor(rate, reserveFactor, ONE);
    MulDivShrinks(rate, reserveFactor, ONE);
    MulDivFloor(rate - PercentOf(rate, reserveFactor), u, ONE);
  }

  // And they are promised all of it but for rounding: less than one unit, and what is
  // left of the rate in units of ONE, on every unit supplied. The reserve's part is the
  // configured share.
  lemma InterestShared(p: RateParams, supply: int, borrow: int, reserveFactor: int)
    requires ValidRates(p) && supply > 0 && borrow >= 0 && 0 <= reserveFactor <= ONE
    ensures var u := Utilization(supply, borrow);
            var rate := BorrowRate(p, u);
            var cut := PercentOf(rate, reserveFactor);
            && IsFloor(cut, rate * reserveFactor, ONE)
            && (rate * borrow) * ONE
               < (SupplyRate(p, u, reserveFactor) * supply + cut * borrow) * ONE + supply * ONE + (rate - cut) * supply
  {
    var u := Utilization(supply, borrow);
    UtilizationExact(supply, borrow);
    UtilizationMonotone(supply, borrow, borrow);
    BorrowRateMonotone(p, u, u);
    PromisedParts(BorrowRate(p, u), u, reserveFactor);
    assert (u + 1) * supply == u * supply + supply;
    SharedAlgebra(SupplyRate(p, u, reserveFactor), BorrowRate(p, u), PercentOf(BorrowRate(p, u), reserveFactor),
                  u, supply, borrow, ONE);
  }
}
