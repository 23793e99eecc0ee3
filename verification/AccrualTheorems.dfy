// Accruals with no other operation between them: how much the schedule matters, and how
// far the numbers can go before an accrual panics.
module AccrualTheorems {
  import opened FixedPoint
  import opened InterestModel
  import opened LendingPool
  import opened PoolRuns
  import opened PoolTheorems

  function AccrueAll(c: PoolConfig, s: PoolState, times: seq<U64>): PoolState {
    if times == [] then s else Accrue(c, AccrueAll(c, s, times[..|times| - 1]), times[|times| - 1])
  }

  // From `start`, each time no earlier than the one before.
  predicate Ascending(start: U64, times: seq<U64>) {
    times == [] ||
    (&& Ascending(start, times[..|times| - 1])
     && Last(start, times[..|times| - 1]) <= times[|times| - 1])
  }

  function Last(start: U64, times: seq<U64>): U64 {
    if times == [] then start else times[|times| - 1]
  }

  // What the pieces would charge in all if the borrow rate stayed at its first value.
  function FlatRate(borrowRate: int, start: U64, times: seq<U64>): int {
    if times == [] then 0 else
      var earlier := times[..|times| - 1];
      FlatRate(borrowRate, start, earlier)
      + MulDiv(borrowRate, times[|times| - 1] - Last(start, earlier), SECONDS_PER_YEAR)
  }

  function CurrentRate(c: PoolConfig, s: PoolState): int {
    BorrowRate(c.rates, Utilization(s.totalSupply, s.totalBorrow))
  }

  lemma RateNonNegative(c: PoolConfig, s: PoolState)
    requires ValidConfig(c) && s.totalSupply >= 0 && s.totalBorrow >= 0
    ensures CurrentRate(c, s) >= 0
  {
    var u := Utilization(s.totalSupply, s.totalBorrow);
    UtilizationMonotone(s.totalSupply, s.totalBorrow, s.totalBorrow);
    BorrowRateMonotone(c.rates, u, u);
  }

  // ---- What one accrual does, in amounts

  // `rate` is charged for the interval: every amount that moves is an exact product
  // rounded down, and nothing else moves but the clock.
  predicate ChargedTo(c: PoolConfig, s: PoolState, now: U64, rate: int, t: PoolState) {
    var interest := t.totalBorrow - s.totalBorrow;
    && t.totalSupply == s.totalSupply
    && IsFloor(interest, s.totalBorrow * rate, ONE)
    && IsFloor(t.totalReserves - s.totalReserves, interest * c.reserveFactor, ONE)
    && IsFloor(t.supplyIndex, s.supplyIndex * (ONE + rate), ONE)
    && IsFloor(t.borrowIndex, s.borrowIndex * (ONE + rate), ONE)
    && t.lastUpdate == now
  }

  lemma ChargedOnce(c: PoolConfig, s: PoolState, now: U64, rate: int, t: PoolState, t': PoolState)
    requires ChargedTo(c, s, now, rate, t) && ChargedTo(c, s, now, rate, t')
    ensures t == t'
  {
    FloorUnique(t.totalBorrow - s.totalBorrow, t'.totalBorrow - s.totalBorrow, s.totalBorrow * rate, ONE);
    FloorUnique(t.totalReserves - s.totalReserves, t'.totalReserves - s.totalReserves,
                (t.totalBorrow - s.totalBorrow) * c.reserveFactor, ONE);
    FloorUnique(t.supplyIndex, t'.supplyIndex, s.supplyIndex * (ONE + rate), ONE);
    FloorUnique(t.borrowIndex, t'.borrowIndex, s.borrowIndex * (ONE + rate), ONE);
  }

  lemma AccrualCharges(c: PoolConfig, s: PoolState, now: U64)
    requires ValidConfig(c) && s.totalSupply >= 0 && s.totalBorrow >= 0
    requires s.supplyIndex >= ONE && s.borrowIndex >= ONE && now >= s.lastUpdate
    ensures IsFloor(AccrualOf(c, s, now).rate, CurrentRate(c, s) * (now - s.lastUpdate), SECONDS_PER_YEAR)
    ensures ChargedTo(c, s, now, AccrualOf(c, s, now).rate, Accrue(c, s, now))
  {
    var a := AccrualOf(c, s, now);
    RateNonNegative(c, s);
    AccrualNonNegative(c, s, now);
    MulDivFloor(CurrentRate(c, s), now - s.lastUpdate, SECONDS_PER_YEAR);
    if now == s.lastUpdate {
      assert a.rate == 0;
    } else {
      IndexStep(c, s, now);
      MulDivFloor(s.totalBorrow, a.rate, ONE);
      MulDivFloor(a.interest, c.reserveFactor, ONE);
    }
  }

  // An accrual is decided by the annual rate: it charges that rate for the part of a year
  // that passed, rounded down, and ends in the one state that is so charged.
  lemma AccrualDecided(c: PoolConfig, s: PoolState, now: U64, rate: int, t: PoolState)
    requires ValidConfig(c) && s.totalSupply >= 0 && s.totalBorrow >= 0
    requires s.supplyIndex >= ONE && s.borrowIndex >= ONE && now >= s.lastUpdate
    requires IsFloor(rate, CurrentRate(c, s) * (now - s.lastUpdate), SECONDS_PER_YEAR)
    ensures t == Accrue(c, s, now) <==> ChargedTo(c, s, now, rate, t)
  {
    var a := AccrualOf(c, s, now);
    AccrualCharges(c, s, now);
    FloorUnique(rate, a.rate, CurrentRate(c, s) * (now - s.lastUpdate), SECONDS_PER_YEAR);
    if ChargedTo(c, s, now, rate, t) {
      ChargedOnce(c, s, now, rate, t, Accrue(c, s, now));
    }
  }

  // `rate` is what an annual rate of `exact` brings in `elapsed` seconds, short of it by
  // at most a unit and the error of the annual rate.
  ghost predicate ChargesFor(rate: int, elapsed: int, exact: real, error: real) {
    (rate * SECONDS_PER_YEAR) as real <= exact * elapsed as real
    <= ((rate + 1) * SECONDS_PER_YEAR) as real + error * elapsed as real
  }

  lemma ChargeAlgebra(annual: int, exact: real, error: real, elapsed: int, rate: int)
    requires elapsed >= 0 && IsFloor(rate, annual * elapsed, SECONDS_PER_YEAR)
    requires annual as real <= exact < annual as real + error
    ensures ChargesFor(rate, elapsed, exact, error)
  {
    var a, e := annual as real, elapsed as real;
    assert (annual * elapsed) as real == a * e;
    RealOrder(a, exact, e);
    RealOrder(exact, a + error, e);
    assert (a + error) * e == a * e + error * e;
  }

  lemma RealOrder(a: real, b: real, c: real)
    requires a <= b && c >= 0.0
    ensures a * c <= b * c
  {
  }

  // The rate charged for the interval follows the documented formula at the exact ratio
  // of the totals.
  ghost predicate ChargesDocumented(c: PoolConfig, s: PoolState, now: U64)
    requires ValidConfig(c) && s.totalSupply >= 0
  {
    ChargesFor(AccrualOf(c, s, now).rate, now - s.lastUpdate,
               DocumentedRate(c.rates, s.totalSupply, s.totalBorrow), RateError(c.rates, s.totalSupply, s.totalBorrow))
  }

  lemma AccrualDocumented(c: PoolConfig, s: PoolState, now: U64)
    requires ValidConfig(c) && s.totalSupply >= 0 && s.totalBorrow >= 0
    requires s.supplyIndex >= ONE && s.borrowIndex >= ONE && now >= s.lastUpdate
    ensures ChargesDocumented(c, s, now)
  {
    AccrualCharges(c, s, now);
    RateAtTotals(c.rates, s.totalSupply, s.totalBorrow);
    ChargeAlgebra(CurrentRate(c, s), DocumentedRate(c.rates, s.totalSupply, s.totalBorrow),
                  RateError(c.rates, s.totalSupply, s.totalBorrow), now - s.lastUpdate, AccrualOf(c, s, now).rate);
  }

  // So in every reachable state.
  lemma RateCharged(calls: seq<Call>, now: U64)
    requires AllSensible(calls)
    requires var b := Run(NEW_BOOK, calls); b.config.Some? && now >= b.state.lastUpdate
    ensures var b := Run(NEW_BOOK, calls);
            && ValidConfig(b.config.value) && b.state.totalSupply >= 0
            && ChargesDocumented(b.config.value, b.state, now)
  {
    RunHealthy(calls);
    var b := Run(NEW_BOOK, calls);
    AccrualDocumented(b.config.value, b.state, now);
  }

  // And every call that goes through leaves the pool so charged before it does its part.
  lemma ReachableAccrual(calls: seq<Call>, now: U64, rate: int, t: PoolState)
    requires AllSensible(calls)
    requires var b := Run(NEW_BOOK, calls);
             && b.config.Some? && now >= b.state.lastUpdate
             && IsFloor(rate, CurrentRate(b.config.value, b.state) * (now - b.state.lastUpdate), SECONDS_PER_YEAR)
    ensures var b := Run(NEW_BOOK, calls);
            t == Accrued(b, now).state <==> ChargedTo(b.config.value, b.state, now, rate, t)
  {
    RunHealthy(calls);
    var b := Run(NEW_BOOK, calls);
    AccrualDecided(b.config.value, b.state, now, rate, t);
  }

  // ---- How the schedule matters

  // One more accrual adds at least what the first rate would on the first borrow total,
  // because neither utilization nor the rate can have fallen meanwhile.
  lemma PieceAtLeast(c: PoolConfig, s: PoolState, t: PoolState, now: U64)
    requires ValidConfig(c) && s.totalSupply >= 0 && s.totalBorrow >= 0
    requires t.totalSupply == s.totalSupply && t.totalBorrow >= s.totalBorrow && t.lastUpdate <= now
    ensures var r := MulDiv(CurrentRate(c, s), now - t.lastUpdate, SECONDS_PER_YEAR);
            var t' := Accrue(c, t, now);
            && r >= 0
            && t'.totalSupply == s.totalSupply && t'.lastUpdate == now
            && t'.totalBorrow >= t.totalBorrow
            && s.totalBorrow * r - (ONE - 1) <= ONE * (t'.totalBorrow - t.totalBorrow)
  {
    UtilizationMonotone(s.totalSupply, s.totalBorrow, t.totalBorrow);
    BorrowRateMonotone(c.rates, Utilization(s.totalSupply, s.totalBorrow), Utilization(t.totalSupply, t.totalBorrow));
    var elapsed := now - t.lastUpdate;
    var r := MulDiv(CurrentRate(c, s), elapsed, SECONDS_PER_YEAR);
    var r' := MulDiv(CurrentRate(c, t), elapsed, SECONDS_PER_YEAR);
    MulDivMonotone(CurrentRate(c, s), elapsed, CurrentRate(c, t), elapsed, SECONDS_PER_YEAR);
    MulDivFloor(t.totalBorrow, r', ONE);
    MulMonotone(s.totalBorrow, r, t.totalBorrow, r');
  }

  // After n pieces worth `flat` at the first rate.
  ghost predicate AtLeastFlat(s: PoolState, t: PoolState, flat: int, n: nat) {
    && t.totalSupply == s.totalSupply
    && t.totalBorrow >= s.totalBorrow
    && s.totalBorrow * flat - n * (ONE - 1) <= ONE * (t.totalBorrow - s.totalBorrow)
  }

  lemma NoPieces(s: PoolState)
    ensures AtLeastFlat(s, s, 0, 0)
  {
  }

  lemma AddPiece(borrow: int, flat: int, r: int, n: int, before: int, after: int)
    requires borrow * flat - n * (ONE - 1) <= ONE * (before - borrow)
    requires borrow * r - (ONE - 1) <= ONE * (after - before)
    ensures borrow * (flat + r) - (n + 1) * (ONE - 1) <= ONE * (after - borrow)
  {
  }

  lemma OneMorePiece(c: PoolConfig, s: PoolState, t: PoolState, now: U64, flat: int, n: nat)
    requires ValidConfig(c) && s.totalSupply >= 0 && s.totalBorrow >= 0
    requires AtLeastFlat(s, t, flat, n) && t.lastUpdate <= now
    ensures var r := MulDiv(CurrentRate(c, s), now - t.lastUpdate, SECONDS_PER_YEAR);
            AtLeastFlat(s, Accrue(c, t, now), flat + r, n + 1) && Accrue(c, t, now).lastUpdate == now
  {
    PieceAtLeast(c, s, t, now);
    var r := MulDiv(CurrentRate(c, s), now - t.lastUpdate, SECONDS_PER_YEAR);
    AddPiece(s.totalBorrow, flat, r, n, t.totalBorrow, Accrue(c, t, now).totalBorrow);
  }

  lemma {:induction false} PiecesAtLeast(c: PoolConfig, s: PoolState, times: seq<U64>)
    requires ValidConfig(c) && s.totalSupply >= 0 && s.totalBorrow >= 0 && Ascending(s.lastUpdate, times)
    ensures AccrueAll(c, s, times).lastUpdate == Last(s.lastUpdate, times)
    ensures AtLeastFlat(s, AccrueAll(c, s, times), FlatRate(CurrentRate(c, s), s.lastUpdate, times), |times|)
  {
    if times == [] {
      NoPieces(s);
    } else {
      var earlier, now := times[..|times| - 1], times[|times| - 1];
      var t, rate := AccrueAll(c, s, earlier), CurrentRate(c, s);
      PiecesAtLeast(c, s, earlier);
      OneMorePiece(c, s, t, now, FlatRate(rate, s.lastUpdate, earlier), |earlier|);
      assert FlatRate(rate, s.lastUpdate, times)
          == FlatRate(rate, s.lastUpdate, earlier) + MulDiv(rate, now - t.lastUpdate, SECONDS_PER_YEAR);
    }
  }

  // Cutting an interval into n >= 1 pieces loses at most n - 1 units of the rate.
  lemma {:induction false} FlatRateLoses(borrowRate: int, start: U64, times: seq<U64>)
    requires borrowRate >= 0 && Ascending(start, times) && times != []
    ensures start <= Last(start, times)
    ensures MulDiv(borrowRate, Last(start, times) - start, SECONDS_PER_YEAR) - (|times| - 1)
         <= FlatRate(borrowRate, start, times)
  {
    var earlier, now := times[..|times| - 1], times[|times| - 1];
    if earlier == [] {
      assert FlatRate(borrowRate, start, earlier) == 0;
    } else {
      FlatRateLoses(borrowRate, start, earlier);
      var middle := Last(start, earlier);
      SplitInterval(borrowRate, middle - start, now - middle);
    }
  }

  lemma SplitInterval(borrowRate: int, d: int, d': int)
    requires borrowRate >= 0 && d >= 0 && d' >= 0
    ensures MulDiv(borrowRate, d + d', SECONDS_PER_YEAR)
         <= MulDiv(borrowRate, d, SECONDS_PER_YEAR) + MulDiv(borrowRate, d', SECONDS_PER_YEAR) + 1
  {
  }

  lemma SingleAtMost(c: PoolConfig, s: PoolState, now: U64)
    requires ValidConfig(c) && s.totalSupply >= 0 && s.totalBorrow >= 0 && now >= s.lastUpdate
    ensures ONE * (Accrue(c, s, now).totalBorrow - s.totalBorrow)
         <= s.totalBorrow * MulDiv(CurrentRate(c, s), now - s.lastUpdate, SECONDS_PER_YEAR)
  {
    RateNonNegative(c, s);
    MulDivFloor(CurrentRate(c, s), now - s.lastUpdate, SECONDS_PER_YEAR);
    MulDivFloor(s.totalBorrow, MulDiv(CurrentRate(c, s), now - s.lastUpdate, SECONDS_PER_YEAR), ONE);
  }

  lemma ScheduleAlgebra(borrow: int, whole: int, flat: int, n: int, single: int, pieces: int)
    requires borrow >= 0 && whole - (n - 1) <= flat
    requires ONE * (single - borrow) <= borrow * whole
    requires borrow * flat - n * (ONE - 1) <= ONE * (pieces - borrow)
    ensures ONE * single <= ONE * pieces + (n - 1) * borrow + n * (ONE - 1)
  {
    MulKeepsOrder(whole - (n - 1), flat, borrow);
    assert (whole - (n - 1)) * borrow == borrow * whole - (n - 1) * borrow;
    assert flat * borrow == borrow * flat;
  }

  // Accruing an interval in n >= 1 pieces leaves the borrow total no lower than one
  // accrual over the whole of it would, up to n units plus n - 1 parts in ONE of the
  // borrow total. Compounding can only add to it.
  lemma ScheduleBound(c: PoolConfig, s: PoolState, times: seq<U64>)
    requires ValidConfig(c) && s.totalSupply >= 0 && s.totalBorrow >= 0
    requires times != [] && Ascending(s.lastUpdate, times)
    ensures var n := |times|;
            var single := Accrue(c, s, times[n - 1]).totalBorrow;
            var pieces := AccrueAll(c, s, times).totalBorrow;
            ONE * single <= ONE * pieces + (n - 1) * s.totalBorrow + n * (ONE - 1)
  {
    var n, now, rate := |times|, times[|times| - 1], CurrentRate(c, s);
    RateNonNegative(c, s);
    FlatRateLoses(rate, s.lastUpdate, times);
    SingleAtMost(c, s, now);
    PiecesAtLeast(c, s, times);
    ScheduleAlgebra(s.totalBorrow, MulDiv(rate, now - s.lastUpdate, SECONDS_PER_YEAR),
                    FlatRate(rate, s.lastUpdate, times), n,
                    Accrue(c, s, now).totalBorrow, AccrueAll(c, s, times).totalBorrow);
  }

  // So from every reachable state of the pool.
  lemma ReachableScheduleBound(calls: seq<Call>, times: seq<U64>)
    requires AllSensible(calls)
    requires var b := Run(NEW_BOOK, calls);
             b.config.Some? && times != [] && Ascending(b.state.lastUpdate, times)
    ensures var b := Run(NEW_BOOK, calls);
            var n, c, s := |times|, b.config.value, b.state;
            ONE * Accrue(c, s, times[n - 1]).totalBorrow
            <= ONE * AccrueAll(c, s, times).totalBorrow + (n - 1) * s.totalBorrow + n * (ONE - 1)
  {
    var b := Run(NEW_BOOK, calls);
    RunHealthy(calls);
    ScheduleBound(b.config.value, b.state, times);
  }

  // ---- Accuracy

  lemma NestedInterest(rate: int, elapsed: int, borrow: int, year: int, one: int, q: int, r: int)
    requires borrow >= 0 && year > 0 && one > 0
    requires q * year <= rate * elapsed < q * year + year
    requires r * one <= borrow * q < r * one + one
    ensures r * (one * year) <= rate * elapsed * borrow
    ensures rate * elapsed * borrow <= (r * one + one + borrow) * year
  {
  }

  // The interest of one accrual is the borrow total times the annual rate times the part
  // of a year that passed, never more, and less by at most one unit plus the borrow total
  // in units of ONE.
  lemma InterestAccurate(c: PoolConfig, s: PoolState, now: U64)
    requires ValidConfig(c) && s.totalSupply >= 0 && s.totalBorrow >= 0 && now >= s.lastUpdate
    ensures var exact := CurrentRate(c, s) * (now - s.lastUpdate) * s.totalBorrow;
            var interest := Accrue(c, s, now).totalBorrow - s.totalBorrow;
            && interest * (ONE * SECONDS_PER_YEAR) <= exact
            && exact <= (interest * ONE + ONE + s.totalBorrow) * SECONDS_PER_YEAR
  {
    var rate, elapsed := CurrentRate(c, s), now - s.lastUpdate;
    RateNonNegative(c, s);
    var q := MulDiv(rate, elapsed, SECONDS_PER_YEAR);
    MulDivFloor(rate, elapsed, SECONDS_PER_YEAR);
    MulDivFloor(s.totalBorrow, q, ONE);
    NestedInterest(rate, elapsed, s.totalBorrow, SECONDS_PER_YEAR, ONE, q, MulDiv(s.totalBorrow, q, ONE));
    if elapsed == 0 {
      assert q == 0;
    }
  }

  // ---- Range

  const TEN_TO_THE_19: int := 10_000_000_000_000_000_000
  const TEN_TO_THE_38: int := 100_000_000_000_000_000_000_000_000_000_000_000_000

  lemma ProductFits(a: int, b: int, c: int, a': int, b': int)
    requires 0 <= a <= a' && 0 <= b <= b' && c > 0 && a' * b' <= I128_MAX
    ensures MulDivFits(a, b, c)
    ensures 0 <= MulDiv(a, b, c) <= a * b <= a' * b'
  {
    MulMonotone(a, b, a', b');
    MulDivFloor(a, b, c);
    MulKeepsOrder(1, c, MulDiv(a, b, c));
    assert 1 * MulDiv(a, b, c) <= c * MulDiv(a, b, c);
    assert c * MulDiv(a, b, c) == MulDiv(a, b, c) * c;
  }

  lemma BranchInRange(x: int, denominator: int, slope: int)
    requires 0 <= x <= denominator <= ONE && denominator > 0 && 0 <= slope <= ONE
    ensures MulDivFits(x, ONE, denominator)
    ensures var ratio := MulDiv(x, ONE, denominator);
            MulDivFits(ratio, slope, ONE) && 0 <= MulDiv(ratio, slope, ONE) <= ONE
  {
    ProductFits(x, ONE, denominator, ONE, ONE);
    var ratio := MulDiv(x, ONE, denominator);
    MulDivCommutes(x, ONE, denominator);
    MulDivShrinks(ONE, x, denominator);
    ProductFits(ratio, slope, ONE, ONE, ONE);
    MulDivShrinks(ratio, slope, ONE);
  }

  lemma RateInRange(p: RateParams, u: int)
    requires ValidRates(p) && p.baseRate <= ONE && p.slope1 <= ONE && p.slope2 <= ONE && 0 <= u <= ONE
    ensures BorrowRateFits(p, u)
    ensures 0 <= BorrowRate(p, u) <= 3 * ONE
  {
    if u <= p.optimalUtilization {
      BranchInRange(u, p.optimalUtilization, p.slope1);
    } else {
      BranchInRange(u - p.optimalUtilization, ONE - p.optimalUtilization, p.slope2);
    }
  }

  lemma SupplyRateInRange(p: RateParams, u: int, reserveFactor: int)
    requires ValidRates(p) && p.baseRate <= ONE && p.slope1 <= ONE && p.slope2 <= ONE && 0 <= u <= ONE
    requires 0 <= reserveFactor <= ONE
    ensures SupplyRateFits(p, u, reserveFactor)
  {
    RateInRange(p, u);
    var rate := BorrowRate(p, u);
    ProductFits(rate, reserveFactor, ONE, 3 * ONE, ONE);
    MulDivShrinks(rate, reserveFactor, ONE);
    ProductFits(rate - PercentOf(rate, reserveFactor), u, ONE, 3 * ONE, ONE);
  }

  lemma UtilizationInRange(supply: int, borrow: int)
    requires 0 <= borrow <= supply && borrow <= TEN_TO_THE_19
    ensures UtilizationFits(supply, borrow) && 0 <= Utilization(supply, borrow) <= ONE
  {
    if supply > 0 {
      ProductFits(borrow, ONE, supply, TEN_TO_THE_19, ONE);
      MulDivCommutes(borrow, ONE, supply);
      MulDivShrinks(ONE, borrow, supply);
    }
  }

  // How far into its branch of the rate model a utilization is, and the slope there.
  function BranchRatio(p: RateParams, u: int): int {
    if u <= p.optimalUtilization then MulDiv(u, ONE, p.optimalUtilization)
    else MulDiv(u - p.optimalUtilization, ONE, ONE - p.optimalUtilization)
  }

  function BranchSlope(p: RateParams, u: int): int {
    if u <= p.optimalUtilization then p.slope1 else p.slope2
  }

  // The products and the sum that can leave the range in the rate model.
  predicate RateWithinRange(p: RateParams, u: int) {
    && (u > p.optimalUtilization ==> (u - p.optimalUtilization) * ONE <= I128_MAX)
    && BranchRatio(p, u) * BranchSlope(p, u) <= I128_MAX
    && BorrowRate(p, u) <= I128_MAX
  }

  lemma RateFitsIff(p: RateParams, u: int)
    requires ValidRates(p) && u >= 0
    ensures BorrowRateFits(p, u) <==> RateWithinRange(p, u)
  {
    var opt := p.optimalUtilization;
    BorrowRateMonotone(p, u, u);
    if u <= opt {
      ProductFitsIff(u, ONE, opt);
      ProductFitsIff(MulDiv(u, ONE, opt), p.slope1, ONE);
    } else {
      ProductFitsIff(u - opt, ONE, ONE - opt);
      ProductFitsIff(MulDiv(u - opt, ONE, ONE - opt), p.slope2, ONE);
    }
  }

  // Where an accrual can overflow: utilization, rate model, charge, interest, reserve and
  // index, and the supply rate it announces.
  predicate WithinRange(c: PoolConfig, s: PoolState, now: U64) {
    var u, a := Utilization(s.totalSupply, s.totalBorrow), AccrualOf(c, s, now);
    var annual := BorrowRate(c.rates, u);
    && (s.totalSupply > 0 ==> s.totalBorrow * ONE <= I128_MAX)
    && RateWithinRange(c.rates, u)
    && annual * (now - s.lastUpdate) <= I128_MAX
    && s.totalBorrow * a.rate <= I128_MAX
    && a.interest * c.reserveFactor <= I128_MAX
    && s.totalBorrow + a.interest <= I128_MAX
    && InI128(s.totalReserves + a.reserve)
    && s.supplyIndex * (ONE + a.rate) <= I128_MAX
    && s.borrowIndex * (ONE + a.rate) <= I128_MAX
    && annual * c.reserveFactor <= I128_MAX
    && (annual - PercentOf(annual, c.reserveFactor)) * u <= I128_MAX
  }

  lemma SupplyRateFitsIff(p: RateParams, u: int, reserveFactor: int)
    requires ValidRates(p) && u >= 0 && 0 <= reserveFactor <= ONE && BorrowRateFits(p, u)
    ensures var annual := BorrowRate(p, u);
            SupplyRateFits(p, u, reserveFactor) <==>
              && annual * reserveFactor <= I128_MAX
              && (annual - PercentOf(annual, reserveFactor)) * u <= I128_MAX
  {
    var annual := BorrowRate(p, u);
    BorrowRateMonotone(p, u, u);
    ProductFitsIff(annual, reserveFactor, ONE);
    MulDivShrinks(annual, reserveFactor, ONE);
    ProductFitsIff(annual - PercentOf(annual, reserveFactor), u, ONE);
  }

  lemma ChargeFitsIff(c: PoolConfig, s: PoolState, now: U64)
    requires ValidConfig(c) && s.totalSupply >= 0 && s.totalBorrow >= 0
    requires s.supplyIndex >= ONE && s.borrowIndex >= ONE && now >= s.lastUpdate
    ensures var a := AccrualOf(c, s, now);
            && (MulDivFits(CurrentRate(c, s), now - s.lastUpdate, SECONDS_PER_YEAR) <==>
                  CurrentRate(c, s) * (now - s.lastUpdate) <= I128_MAX)
            && (MulDivFits(s.totalBorrow, a.rate, ONE) <==> s.totalBorrow * a.rate <= I128_MAX)
            && (MulDivFits(a.interest, c.reserveFactor, ONE) <==> a.interest * c.reserveFactor <= I128_MAX)
            && (MulDivFits(s.supplyIndex, ONE + a.rate, ONE) <==> s.supplyIndex * (ONE + a.rate) <= I128_MAX)
            && (MulDivFits(s.borrowIndex, ONE + a.rate, ONE) <==> s.borrowIndex * (ONE + a.rate) <= I128_MAX)
            && (s.supplyIndex * (ONE + a.rate) <= I128_MAX ==> InI128(ONE + a.rate))
            && (InI128(s.totalBorrow + a.interest) <==> s.totalBorrow + a.interest <= I128_MAX)
  {
    var a := AccrualOf(c, s, now);
    RateNonNegative(c, s);
    AccrualNonNegative(c, s, now);
    ProductFitsIff(CurrentRate(c, s), now - s.lastUpdate, SECONDS_PER_YEAR);
    ProductFitsIff(s.totalBorrow, a.rate, ONE);
    ProductFitsIff(a.interest, c.reserveFactor, ONE);
    ProductFitsIff(s.supplyIndex, ONE + a.rate, ONE);
    ProductFitsIff(s.borrowIndex, ONE + a.rate, ONE);
    MulMonotone(1, ONE + a.rate, s.supplyIndex, ONE + a.rate);
  }

  // An accrual panics if and only if the clock is behind or one of these overflows.
  lemma AccrualFitsIff(c: PoolConfig, s: PoolState, now: U64)
    requires ValidConfig(c) && s.totalSupply >= 0 && s.totalBorrow >= 0
    requires s.supplyIndex >= ONE && s.borrowIndex >= ONE
    ensures AccrualFits(c, s, now) <==> now == s.lastUpdate || (now > s.lastUpdate && WithinRange(c, s, now))
  {
    if now > s.lastUpdate {
      var u := Utilization(s.totalSupply, s.totalBorrow);
      UtilizationMonotone(s.totalSupply, s.totalBorrow, s.totalBorrow);
      if s.totalSupply > 0 {
        ProductFitsIff(s.totalBorrow, ONE, s.totalSupply);
      }
      RateFitsIff(c.rates, u);
      ChargeFitsIff(c, s, now);
      if BorrowRateFits(c.rates, u) {
        SupplyRateFitsIff(c.rates, u, c.reserveFactor);
      }
    }
  }

  // Within these bounds no intermediate result of an accrual leaves the i128 range.
  lemma AccrualInRange(c: PoolConfig, s: PoolState, now: U64)
    requires ValidConfig(c)
    requires c.rates.baseRate <= ONE && c.rates.slope1 <= ONE && c.rates.slope2 <= ONE
    requires 0 <= s.totalBorrow <= s.totalSupply && s.totalBorrow <= TEN_TO_THE_19
    requires 0 <= s.totalReserves <= TEN_TO_THE_38
    requires 0 <= s.supplyIndex <= 40 * ONE && 0 <= s.borrowIndex <= 40 * ONE
    requires s.lastUpdate <= now <= s.lastUpdate + SECONDS_PER_YEAR
    ensures AccrualFits(c, s, now)
  {
    var u := Utilization(s.totalSupply, s.totalBorrow);
    UtilizationInRange(s.totalSupply, s.totalBorrow);
    RateInRange(c.rates, u);
    SupplyRateInRange(c.rates, u, c.reserveFactor);
    var rate, elapsed, a := BorrowRate(c.rates, u), now - s.lastUpdate, AccrualOf(c, s, now);
    ProductFits(rate, elapsed, SECONDS_PER_YEAR, 3 * ONE, SECONDS_PER_YEAR);
    MulDivShrinks(rate, elapsed, SECONDS_PER_YEAR);
    InterestInRange(s.totalBorrow, a.rate, c.reserveFactor);
    ProductFits(s.supplyIndex, ONE + a.rate, ONE, 40 * ONE, 4 * ONE);
    ProductFits(s.borrowIndex, ONE + a.rate, ONE, 40 * ONE, 4 * ONE);
  }

  lemma InterestInRange(borrow: int, rate: int, reserveFactor: int)
    requires 0 <= borrow <= TEN_TO_THE_19 && 0 <= rate <= 3 * ONE && 0 <= reserveFactor <= ONE
    ensures MulDivFits(borrow, rate, ONE)
    ensures var interest := MulDiv(borrow, rate, ONE);
            && 0 <= interest <= 3 * TEN_TO_THE_19
            && MulDivFits(interest, reserveFactor, ONE)
            && 0 <= MulDiv(interest, reserveFactor, ONE) <= 3 * TEN_TO_THE_19
  {
    ProductFits(borrow, rate, ONE, TEN_TO_THE_19, 3 * ONE);
    MulDivMonotone(borrow, rate, TEN_TO_THE_19, 3 * ONE, ONE);
    var interest := MulDiv(borrow, rate, ONE);
    assert MulDiv(TEN_TO_THE_19, 3 * ONE, ONE) == 3 * TEN_TO_THE_19;
    ProductFits(interest, reserveFactor, ONE, 3 * TEN_TO_THE_19, ONE);
    MulDivShrinks(interest, reserveFactor, ONE);
  }
}
