// What the three contracts guarantee together.
module LiquidationTheorems {
  import opened FixedPoint
  import opened Ledgers
  import opened Liquidation
  import Pool = LendingPool
  import Runs = PoolRuns
  import PT = PoolTheorems
  import PR = PoolReplies
  import CM = CollateralManager
  import CT = CollateralTheorems

  // ---- The two health tests

  // The test on the rounded ratio is the test on the amounts themselves.
  lemma HealthyIffCovered(weighted: int, debt: int)
    requires weighted >= 0 && debt > 0
    ensures MulDiv(weighted, ONE, debt) >= ONE <==> weighted >= debt
  {
  }

  // The figures a liquidator passes are the manager's own for the borrower.
  ghost predicate Matches(p: Params, v: CM.Vault) {
    && CM.CollateralValue(v, p.borrower) == Some(p.collateralValueUsd)
    && forall asset :: asset in CM.Holdings(v, p.borrower) ==> Get(v.thresholds, asset) == p.collateralThreshold
  }

  lemma SumOfOne(m: map<Address, int>, k: Address)
    requires m.Keys == {k}
    ensures Sum(m) == m[k]
  {
    assert m == map[][k := m[k]];
    SumUpdate(map[], k, m[k]);
  }

  // With a single collateral asset both contracts compute the same factor.
  lemma SameForOneAsset(p: Params, v: CM.Vault, asset: Address)
    requires Matches(p, v) && CM.Holdings(v, p.borrower).Keys == {asset}
    requires HealthFits(p) && CM.HealthFactor(v, p.borrower, DebtValue(p)).Some?
    ensures CM.HealthFactor(v, p.borrower, DebtValue(p)) == Some(HealthFactor(p))
  {
    var h := CM.Holdings(v, p.borrower);
    assert asset in h;
    CT.ValuationsAreSums(v, p.borrower);
    SumOfOne(CT.Values(v, h), asset);
    SumOfOne(CT.Capacities(v, h), asset);
  }

  // A sum of floors is at most the floor of the sum, and by less than one per asset.
  lemma {:induction false} SharedThreshold(v: CM.Vault, h: map<Address, int>, t: int, ks: seq<Address>)
    requires CT.Sound(v, h) && 0 <= t <= ONE
    requires forall k :: k in h ==> Get(v.thresholds, k) == t
    requires forall k :: k in ks ==> k in h
    ensures SumAlong(CT.Values(v, h), ks) >= 0
    ensures var available := SumAlong(CT.Capacities(v, h), ks);
            var weighted := PercentOf(SumAlong(CT.Values(v, h), ks), t);
            available <= weighted <= available + (if ks == [] then 0 else |ks| - 1)
  {
    if ks != [] {
      var rest, k := ks[..|ks| - 1], ks[|ks| - 1];
      SharedThreshold(v, h, t, rest);
      MulDivFloor(h[k], CM.PriceOf(v, k), ONE);
      FloorsOfSum(SumAlong(CT.Values(v, h), rest), CT.AssetValue(v, k, h[k]), t, ONE);
    }
  }

  lemma CapacityWithinWeighted(p: Params, v: CM.Vault)
    requires Matches(p, v) && CT.Sound(v, CM.Holdings(v, p.borrower)) && 0 <= p.collateralThreshold <= ONE
    ensures var capacity, n := Sum(CT.Capacities(v, CM.Holdings(v, p.borrower))), |CM.Holdings(v, p.borrower)|;
            && 0 <= capacity <= WeightedCollateral(p)
            && WeightedCollateral(p) <= capacity + (if n == 0 then 0 else n - 1)
  {
    var h := CM.Holdings(v, p.borrower);
    var ks := SortedKeys(h.Keys);
    SortedKeysListed(h.Keys);
    CT.ValuationsAreSums(v, p.borrower);
    assert CT.Values(v, h).Keys == CT.Capacities(v, h).Keys == h.Keys;
    SharedThreshold(v, h, p.collateralThreshold, ks);
    CT.CapacityNonNegative(v, h);
  }

  // For assets that share a threshold: what liquidation weighs is never less than what
  // the manager allows to borrow, and exceeds it by less than the number of assets.
  lemma WeightedAgainstCapacity(p: Params, v: CM.Vault, available: int)
    requires Matches(p, v) && CT.Sound(v, CM.Holdings(v, p.borrower)) && 0 <= p.collateralThreshold <= ONE
    requires CM.AvailableBorrow(v, p.borrower) == Some(available)
    ensures var n := |CM.Holdings(v, p.borrower)|;
            && 0 <= available <= WeightedCollateral(p)
            && WeightedCollateral(p) <= available + (if n == 0 then 0 else n - 1)
  {
    CT.ValuationsAreSums(v, p.borrower);
    CapacityWithinWeighted(p, v);
  }

  // Whoever liquidation accepts is under-collateralized for the manager as well. The
  // converse fails exactly for a debt above the manager's capacity that the weighted
  // collateral still covers, so only within less than one unit per asset above capacity.
  lemma AcceptedIsUnhealthy(p: Params, v: CM.Vault, available: int)
    requires Matches(p, v) && CT.Sound(v, CM.Holdings(v, p.borrower)) && 0 <= p.collateralThreshold <= ONE
    requires CM.AvailableBorrow(v, p.borrower) == Some(available)
    requires DebtValue(p) > 0
    ensures HealthFactor(p) < ONE ==> MulDiv(available, ONE, DebtValue(p)) < ONE
    ensures MulDiv(available, ONE, DebtValue(p)) < ONE <= HealthFactor(p) <==>
              available < DebtValue(p) <= WeightedCollateral(p)
    ensures MulDiv(available, ONE, DebtValue(p)) < ONE <= HealthFactor(p) ==>
              DebtValue(p) < available + |CM.Holdings(v, p.borrower)|
  {
    WeightedAgainstCapacity(p, v, available);
    HealthyIffCovered(available, DebtValue(p));
    HealthyIffCovered(WeightedCollateral(p), DebtValue(p));
  }

  // The same collateral figures against a debt worth `value`.
  function Against(p: Params, value: int): Params {
    p.(debtAmount := value, debtPrice := ONE)
  }

  lemma AgainstIsWorth(p: Params, value: int)
    requires value > 0
    ensures DebtValue(Against(p, value)) == value
  {
    FloorGreatest(value, ONE, ONE, value);
    FloorGreatest(value, ONE, ONE, value + 1);
  }

  // Without the debt: the two tests agree on every debt if and only if rounding has cost
  // the manager's capacity nothing.
  lemma TestsAgreeIff(p: Params, v: CM.Vault, available: int)
    requires Matches(p, v) && CT.Sound(v, CM.Holdings(v, p.borrower)) && 0 <= p.collateralThreshold <= ONE
    requires CM.AvailableBorrow(v, p.borrower) == Some(available)
    ensures (forall value :: value > 0 ==>
               (HealthFactor(Against(p, value)) < ONE <==> MulDiv(available, ONE, value) < ONE))
            <==> WeightedCollateral(p) == available
  {
    WeightedAgainstCapacity(p, v, available);
    var weighted := WeightedCollateral(p);
    forall value | value > 0
      ensures HealthFactor(Against(p, value)) < ONE <==> weighted < value
      ensures MulDiv(available, ONE, value) < ONE <==> available < value
    {
      AgainstIsWorth(p, value);
      assert WeightedCollateral(Against(p, value)) == weighted;
      HealthyIffCovered(weighted, value);
      HealthyIffCovered(available, value);
    }
    if available < weighted {
      assert MulDiv(available, ONE, weighted) < ONE <= HealthFactor(Against(p, weighted));
    }
  }

  // ---- Who is accepted, and what is seized, in amounts

  // The factor on the caller's figures: a hundred for a debt worth nothing, else weighted
  // collateral over debt, each rounded down.
  lemma FactorDecided(p: Params)
    requires p.debtAmount >= 0 && p.debtPrice >= 0 && p.collateralValueUsd >= 0 && p.collateralThreshold >= 0
    ensures var worth, weighted := p.debtAmount * p.debtPrice / ONE, p.collateralValueUsd * p.collateralThreshold / ONE;
            && (worth == 0 ==> HealthFactor(p) == 100 * ONE)
            && (worth > 0 ==> IsFloor(HealthFactor(p), weighted * ONE, worth))
            && (HealthFits(p) <==>
                  && p.debtAmount * p.debtPrice <= I128_MAX
                  && p.collateralValueUsd * p.collateralThreshold <= I128_MAX
                  && (worth > 0 ==> weighted * ONE <= I128_MAX))
  {
    FloorIsQuotient(p.debtAmount, p.debtPrice, ONE);
    FloorIsQuotient(p.collateralValueUsd, p.collateralThreshold, ONE);
    ProductFitsIff(p.debtAmount, p.debtPrice, ONE);
    ProductFitsIff(p.collateralValueUsd, p.collateralThreshold, ONE);
    if DebtValue(p) > 0 {
      MulDivFloor(WeightedCollateral(p), ONE, DebtValue(p));
      ProductFitsIff(WeightedCollateral(p), ONE, DebtValue(p));
    }
  }

  // What is seized: the debt named in collateral, and the penalty on it, of whatever sign,
  // each rounded towards zero.
  lemma SeizureDecided(p: Params, penalty: int)
    requires p.debtAmount > 0 && p.debtPrice > 0 && p.collateralPrice > 0
    requires IsTruncated(penalty, (p.debtAmount * p.debtPrice / p.collateralPrice) * p.liquidationPenalty, ONE)
    ensures var inCollateral := p.debtAmount * p.debtPrice / p.collateralPrice;
            && CollateralToSeize(p) == inCollateral + penalty
            && (SeizureFits(p) <==>
                  && p.debtAmount * p.debtPrice <= I128_MAX
                  && InI128(inCollateral * p.liquidationPenalty)
                  && InI128(inCollateral + penalty))
  {
    var inCollateral := DebtInCollateral(p);
    FloorIsQuotient(p.debtAmount, p.debtPrice, p.collateralPrice);
    ProductFitsIff(p.debtAmount, p.debtPrice, p.collateralPrice);
    MulDivMeaning(inCollateral, p.liquidationPenalty, ONE);
    TruncatedUnique(penalty, PercentOf(inCollateral, p.liquidationPenalty), inCollateral * p.liquidationPenalty, ONE);
  }

  lemma ShortIff(weighted: int, worth: int)
    requires worth > 0
    ensures MulDiv(weighted, ONE, worth) < ONE <==> weighted < worth
  {
    if weighted >= 0 {
      HealthyIffCovered(weighted, worth);
    } else {
      MulDivMeaning(weighted, ONE, worth);
    }
  }

  // Accepted is who is short of collateral on the figures given, of whatever sign: the
  // worth of the debt named positive and above the weighted collateral, provided that
  // amount and prices are positive and no product leaves the range.
  lemma AcceptsIff(p: Params, weighted: int, penalty: int)
    requires IsTruncated(weighted, p.collateralValueUsd * p.collateralThreshold, ONE)
    requires p.collateralPrice > 0 ==>
               IsTruncated(penalty, (p.debtAmount * p.debtPrice / p.collateralPrice) * p.liquidationPenalty, ONE)
    ensures Accepts(p) <==>
              && p.debtAmount > 0 && p.debtPrice > 0 && p.collateralPrice > 0
              && 0 < p.debtAmount * p.debtPrice / ONE && weighted < p.debtAmount * p.debtPrice / ONE
              && p.debtAmount * p.debtPrice <= I128_MAX
              && InI128(p.collateralValueUsd * p.collateralThreshold)
              && InI128(weighted * ONE)
              && InI128((p.debtAmount * p.debtPrice / p.collateralPrice) * p.liquidationPenalty)
              && InI128(p.debtAmount * p.debtPrice / p.collateralPrice + penalty)
  {
    if p.debtAmount > 0 && p.debtPrice > 0 && p.collateralPrice > 0 {
      MulDivMeaning(p.collateralValueUsd, p.collateralThreshold, ONE);
      TruncatedUnique(weighted, WeightedCollateral(p), p.collateralValueUsd * p.collateralThreshold, ONE);
      FloorIsQuotient(p.debtAmount, p.debtPrice, ONE);
      ProductFitsIff(p.debtAmount, p.debtPrice, ONE);
      if DebtValue(p) > 0 {
        MulDivMeaning(weighted, ONE, DebtValue(p));
        ShortIff(weighted, DebtValue(p));
      }
      SeizureDecided(p, penalty);
    }
  }

  // ---- The pool's own check against liquidation

  // A user whose withdrawal passed the manager's check has capacity for the whole debt.
  lemma CheckedIsCovered(b: Pool.Book, v: CM.Vault, user: Address, asset: Address)
    requires user in b.borrows && Pool.HealthCheck(b, user, asset, Some(v)).Done?
    requires CT.Sound(v, CM.Holdings(v, user)) && CM.PriceOf(v, asset) >= 0
    ensures var debt := b.borrows[user].principal + b.borrows[user].accruedInterest;
            var value := MulDiv(debt, CM.PriceOf(v, asset), ONE);
            debt > 0 && value > 0 ==>
              CM.AvailableBorrow(v, user).Some? && CM.AvailableBorrow(v, user).value >= value
  {
    var debt := b.borrows[user].principal + b.borrows[user].accruedInterest;
    var value := MulDiv(debt, CM.PriceOf(v, asset), ONE);
    if debt > 0 && value > 0 {
      var available := CM.AvailableBorrow(v, user).value;
      CT.ValuationsAreSums(v, user);
      CT.CapacityNonNegative(v, CM.Holdings(v, user));
      HealthyIffCovered(available, value);
    }
  }

  // The same for the sum itself, which does not panic, and for whatever debt.
  lemma CheckedCapacity(b: Pool.Book, v: CM.Vault, user: Address, asset: Address)
    requires user in b.borrows && Pool.HealthCheck(b, user, asset, Some(v)).Done?
    requires CT.Sound(v, CM.Holdings(v, user)) && CM.PriceOf(v, asset) >= 0
    ensures var debt := b.borrows[user].principal + b.borrows[user].accruedInterest;
            debt >= 0 ==> MulDiv(debt, CM.PriceOf(v, asset), ONE) <= Sum(CT.Capacities(v, CM.Holdings(v, user)))
  {
    CheckedIsCovered(b, v, user, asset);
    CT.ValuationsAreSums(v, user);
    CT.CapacityNonNegative(v, CM.Holdings(v, user));
  }

  // With capacity for the whole debt, no part of it is accepted.
  lemma CoveredIsNotAccepted(p: Params, v: CM.Vault, debt: int)
    requires Matches(p, v) && CT.Sound(v, CM.Holdings(v, p.borrower)) && 0 <= p.collateralThreshold <= ONE
    requires p.debtAmount <= debt
    requires MulDiv(debt, p.debtPrice, ONE) <= Sum(CT.Capacities(v, CM.Holdings(v, p.borrower)))
    ensures !Accepts(p)
  {
    if p.debtAmount > 0 && p.debtPrice > 0 {
      MulDivMonotone(p.debtAmount, p.debtPrice, debt, p.debtPrice, ONE);
      CapacityWithinWeighted(p, v);
      if DebtValue(p) > 0 {
        HealthyIffCovered(WeightedCollateral(p), DebtValue(p));
      }
    }
  }

  // So a user who passed the check cannot be liquidated, for any part of that debt, on
  // the same figures.
  lemma CheckedIsNotLiquidated(b: Pool.Book, v: CM.Vault, p: Params)
    requires p.borrower in b.borrows && Pool.HealthCheck(b, p.borrower, p.debtAsset, Some(v)).Done?
    requires CT.Sound(v, CM.Holdings(v, p.borrower)) && 0 <= p.collateralThreshold <= ONE
    requires Matches(p, v) && p.debtPrice == CM.PriceOf(v, p.debtAsset)
    requires p.debtAmount <= b.borrows[p.borrower].principal + b.borrows[p.borrower].accruedInterest
    ensures !Accepts(p)
  {
    if p.debtAmount > 0 && p.debtPrice > 0 {
      CheckedCapacity(b, v, p.borrower, p.debtAsset);
      CoveredIsNotAccepted(p, v, b.borrows[p.borrower].principal + b.borrows[p.borrower].accruedInterest);
    }
  }

  // ---- One liquidation end to end

  function RepayPart(now: U64, p: Params): Runs.Call {
    Runs.LiquidateCall(now, p.liquidator, p.borrower, p.debtAsset, p.debtAmount)
  }

  function SeizePart(p: Params): CT.Call {
    CT.Seize(p.liquidator, p.borrower, p.collateralAsset, CollateralToSeize(p))
  }

  // A liquidation is one call on the pool and one on the manager, or neither: so every
  // result about runs of either contract covers liquidations among its calls.
  lemma LiquidationIsTwoCalls(d: Desk, now: U64, p: Params)
    requires Liquidated(d, now, p).Settled?
    ensures var after := Liquidated(d, now, p);
            && Runs.Apply(d.book, RepayPart(now, p)) == Pool.Outcome(after.desk.book, Pool.Done(after.covered))
            && CT.Attempt(d.vault, SeizePart(p)) == Some(after.desk.vault)
  {
  }

  lemma RefusedAtEntry(b: Pool.Book, v: CM.Vault, now: U64, p: Params)
    requires !Accepts(p) || !Pool.Entry(b, now, p.debtAsset).Done?
    ensures Liquidated(Desk(b, v), now, p) == Aborted
  {
  }

  // From every reachable state of the pool a liquidation settles if and only if the
  // liquidation contract accepts it, the pool is open for the asset, the borrower has a
  // record there, and the collateral can be seized: the repayment itself never fails.
  lemma SettledIff(calls: seq<Runs.Call>, v: CM.Vault, now: U64, p: Params)
    requires PT.AllSensible(calls)
    ensures var b := Runs.Run(Pool.NEW_BOOK, calls);
            Liquidated(Desk(b, v), now, p).Settled? <==>
              && Accepts(p)
              && Pool.Entry(b, now, p.debtAsset).Done?
              && p.borrower in b.borrows
              && CT.Returns(v, SeizePart(p))
  {
    var b := Runs.Run(Pool.NEW_BOOK, calls);
    if Accepts(p) && Pool.Entry(b, now, p.debtAsset).Done? {
      PR.RepayDecided(calls, now, p.borrower, p.debtAsset, p.debtAmount);
      CT.CallDecided(v, SeizePart(p));
    } else {
      RefusedAtEntry(b, v, now, p);
    }
  }

  // After the accrual the borrower's principal and the borrow total fall by exactly the
  // amount covered, which is the debt named or, if that is less, the whole principal;
  // nothing else at the pool changes.
  ghost predicate DebtFalls(b: Pool.Book, now: U64, p: Params, s: Settlement)
    requires b.config.Some? && s.Settled?
  {
    var principal := Pool.BorrowOf(b, p.borrower).principal;
    && s.covered == (if p.debtAmount <= principal then p.debtAmount else principal)
    && 0 <= s.covered
    && s.desk.book == PR.DebtChanged(Pool.Accrued(b, now), p.borrower, -s.covered)
  }

  lemma SettledRepaid(b: Pool.Book, v: CM.Vault, now: U64, p: Params)
    requires Liquidated(Desk(b, v), now, p).Settled?
    ensures p.debtAmount > 0 && p.debtPrice > 0 && p.collateralPrice > 0
    ensures Pool.Entry(b, now, p.debtAsset).Done? && p.borrower in b.borrows
    ensures var s := Liquidated(Desk(b, v), now, p);
            Pool.Repay(b, now, p.borrower, p.debtAsset, p.debtAmount) == Pool.Outcome(s.desk.book, Pool.Done(s.covered))
  {
  }

  lemma RepaidFalls(calls: seq<Runs.Call>, now: U64, p: Params, s: Settlement)
    requires PT.AllSensible(calls) && s.Settled? && p.debtAmount > 0
    requires var b := Runs.Run(Pool.NEW_BOOK, calls);
             && Pool.Entry(b, now, p.debtAsset).Done? && p.borrower in b.borrows
             && Pool.Repay(b, now, p.borrower, p.debtAsset, p.debtAmount)
                == Pool.Outcome(s.desk.book, Pool.Done(s.covered))
    ensures DebtFalls(Runs.Run(Pool.NEW_BOOK, calls), now, p, s)
  {
    PR.RepayDecided(calls, now, p.borrower, p.debtAsset, p.debtAmount);
    PR.EnteredDebt(calls, now, p.debtAsset, p.borrower);
  }

  // In every reachable state of the pool.
  lemma DebtSettled(calls: seq<Runs.Call>, v: CM.Vault, now: U64, p: Params)
    requires PT.AllSensible(calls)
    requires Liquidated(Desk(Runs.Run(Pool.NEW_BOOK, calls), v), now, p).Settled?
    ensures var b := Runs.Run(Pool.NEW_BOOK, calls);
            b.config.Some? && p.borrower in b.borrows && DebtFalls(b, now, p, Liquidated(Desk(b, v), now, p))
  {
    var b := Runs.Run(Pool.NEW_BOOK, calls);
    SettledRepaid(b, v, now, p);
    RepaidFalls(calls, now, p, Liquidated(Desk(b, v), now, p));
  }

  // Collateral only changes hands: each asset's total over all users stays, also when
  // liquidator and borrower are one; the amount seized leaves the one for the other.
  lemma CollateralMoves(b: Pool.Book, v: CM.Vault, now: U64, p: Params, user: Address, asset: Address)
    requires Liquidated(Desk(b, v), now, p).Settled?
    ensures var after := Liquidated(Desk(b, v), now, p).desk.vault;
            && CT.AssetTotal(after, asset) == CT.AssetTotal(v, asset)
            && CM.Held(after, user, asset) == CM.Held(v, user, asset)
                 + (if user == p.liquidator && asset == p.collateralAsset then CollateralToSeize(p) else 0)
                 - (if user == p.borrower && asset == p.collateralAsset then CollateralToSeize(p) else 0)
  {
    CT.SeizureConserves(v, p.liquidator, p.borrower, p.collateralAsset, CollateralToSeize(p), asset);
    CT.SeizureMoves(v, p.liquidator, p.borrower, p.collateralAsset, CollateralToSeize(p), user, asset);
  }

  lemma SeizureAlgebra(debt: int, price: int, inCollateral: int, penalty: int, bonus: int, one: int)
    requires one > 0 && price > 0 && 0 <= penalty <= one
    requires inCollateral * price <= debt < inCollateral * price + price
    requires bonus * one <= inCollateral * penalty < bonus * one + one
    ensures (inCollateral + bonus) * (one * price) <= debt * (one + penalty)
    ensures debt * (one + penalty) <= (inCollateral + bonus + 3) * (one * price)
  {
    var seized, rate := inCollateral + bonus, one + penalty;
    assert debt * 1 == debt && rate * 1 == rate;
    assert seized * one == inCollateral * one + bonus * one;
    assert inCollateral * rate == inCollateral * one + inCollateral * penalty;
    ChainAtMost(debt, inCollateral, seized, price, one, 1, rate);
    assert (inCollateral + 1) * price == inCollateral * price + price;
    assert (inCollateral + 1) * rate == inCollateral * rate + rate;
    assert (seized + 3) * one == seized * one + 3 * one;
    ChainAtLeast(debt, inCollateral + 1, seized + 3, price, one, 1, rate);
  }

  // The amount seized is at most the worth of the debt named plus the penalty, and within
  // three units of it.
  lemma SeizedIsFair(p: Params)
    requires p.debtAmount > 0 && p.debtPrice > 0 && p.collateralPrice > 0 && 0 <= p.liquidationPenalty <= ONE
    ensures var exact := (p.debtAmount * p.debtPrice) * (ONE + p.liquidationPenalty);
            && CollateralToSeize(p) * (ONE * p.collateralPrice) <= exact
            && exact <= (CollateralToSeize(p) + 3) * (ONE * p.collateralPrice)
  {
    MulDivFloor(p.debtAmount, p.debtPrice, p.collateralPrice);
    MulDivFloor(DebtInCollateral(p), p.liquidationPenalty, ONE);
    SeizureAlgebra(p.debtAmount * p.debtPrice, p.collateralPrice, DebtInCollateral(p), p.liquidationPenalty,
                   PercentOf(DebtInCollateral(p), p.liquidationPenalty), ONE);
  }

  // `named` is what is seized for, `covered` what is covered.
  lemma ForCovered(seized: int, unit: int, named: int, covered: int, price: int, rate: int)
    requires price > 0 && rate > 0 && covered <= named
    requires seized * unit <= (named * price) * rate <= (seized + 3) * unit
    ensures covered == named ==> seized * unit <= (covered * price) * rate
    ensures ((named - covered) * price) * rate > 3 * unit ==> seized * unit > (covered * price) * rate
  {
    assert (named - covered) * price == named * price - covered * price;
    assert (named * price - covered * price) * rate == (named * price) * rate - (covered * price) * rate;
    assert (seized + 3) * unit == seized * unit + 3 * unit;
  }

  // The amount seized is worth at most the debt covered plus the penalty.
  predicate FairFor(p: Params, covered: int) {
    CollateralToSeize(p) * (ONE * p.collateralPrice) <= (covered * p.debtPrice) * (ONE + p.liquidationPenalty)
  }

  // The debt named beyond the principal is worth more than the rounding can hide.
  predicate Overstated(p: Params, principal: int) {
    ((p.debtAmount - principal) * p.debtPrice) * (ONE + p.liquidationPenalty) > 3 * (ONE * p.collateralPrice)
  }

  lemma FairIff(p: Params, covered: int, principal: int)
    requires p.debtAmount > 0 && p.debtPrice > 0 && p.collateralPrice > 0 && 0 <= p.liquidationPenalty <= ONE
    requires covered == if p.debtAmount <= principal then p.debtAmount else principal
    ensures p.debtAmount <= principal ==> FairFor(p, covered)
    ensures p.debtAmount > principal && Overstated(p, principal) ==> !FairFor(p, covered)
  {
    SeizedIsFair(p);
    ForCovered(CollateralToSeize(p), ONE * p.collateralPrice, p.debtAmount, covered, p.debtPrice,
               ONE + p.liquidationPenalty);
  }

  // What is seized against the debt actually covered. Naming no more than the principal
  // keeps the seizure within its worth plus the penalty. The code also seizes for what is
  // named beyond the principal, which it does not cover: once that is worth more than
  // the rounding, the bound holds if and only if the debt named is within the principal.
  lemma SeizedForCovered(calls: seq<Runs.Call>, v: CM.Vault, now: U64, p: Params)
    requires PT.AllSensible(calls) && 0 <= p.liquidationPenalty <= ONE
    requires Liquidated(Desk(Runs.Run(Pool.NEW_BOOK, calls), v), now, p).Settled?
    ensures var b := Runs.Run(Pool.NEW_BOOK, calls);
            var covered, principal := Liquidated(Desk(b, v), now, p).covered, Pool.BorrowOf(b, p.borrower).principal;
            && (p.debtAmount <= principal ==> FairFor(p, covered))
            && (p.debtAmount <= principal || Overstated(p, principal) ==>
                  (FairFor(p, covered) <==> p.debtAmount <= principal))
  {
    var b := Runs.Run(Pool.NEW_BOOK, calls);
    SettledRepaid(b, v, now, p);
    DebtSettled(calls, v, now, p);
    FairIff(p, Liquidated(Desk(b, v), now, p).covered, Pool.BorrowOf(b, p.borrower).principal);
  }
}
