// Liquidation: a health test on the caller's figures, then one atomic step over two other
// contracts - a repayment at the pool and a seizure at the collateral manager.
module Liquidation {
  import opened FixedPoint
  import opened Ledgers
  import Pool = LendingPool
  import CM = CollateralManager

  // ---- Specification

  datatype Params = Params(
    liquidator: Address,
    borrower: Address,
    debtAsset: Address,
    debtAmount: int,
    debtPrice: int,
    collateralAsset: Address,
    collateralPrice: int,
    collateralValueUsd: int,
    collateralThreshold: int,
    liquidationPenalty: int)

  function DebtValue(p: Params): int {
    MulDiv(p.debtAmount, p.debtPrice, ONE)
  }

  function WeightedCollateral(p: Params): int {
    PercentOf(p.collateralValueUsd, p.collateralThreshold)
  }

  function HealthFactor(p: Params): int {
    if DebtValue(p) == 0 then ONE * 100 else MulDiv(WeightedCollateral(p), ONE, DebtValue(p))
  }

  predicate HealthFits(p: Params) {
    && MulDivFits(p.debtAmount, p.debtPrice, ONE)
    && PercentOfFits(p.collateralValueUsd, p.collateralThreshold)
    && (DebtValue(p) != 0 ==> MulDivFits(WeightedCollateral(p), ONE, DebtValue(p)))
  }

  function DebtInCollateral(p: Params): int {
    MulDiv(p.debtAmount, p.debtPrice, p.collateralPrice)
  }

  function CollateralToSeize(p: Params): int {
    DebtInCollateral(p) + PercentOf(DebtInCollateral(p), p.liquidationPenalty)
  }

  predicate SeizureFits(p: Params) {
    && MulDivFits(p.debtAmount, p.debtPrice, p.collateralPrice)
    && PercentOfFits(DebtInCollateral(p), p.liquidationPenalty)
    && InI128(CollateralToSeize(p))
  }

  // The checks that come before either contract is called.
  predicate Accepts(p: Params) {
    && p.debtAmount > 0
    && p.debtPrice > 0
    && p.collateralPrice > 0
    && HealthFits(p)
    && HealthFactor(p) < ONE
    && SeizureFits(p)
  }

  datatype Desk = Desk(book: Pool.Book, vault: CM.Vault)

  // The amount covered and the two contracts after, or nothing at all.
  datatype Settlement = Aborted | Settled(desk: Desk, covered: int)

  function Settles(book: Pool.Book, vault: CM.Vault, now: U64, p: Params, collateralToSeize: int): Settlement {
    var repaid := Pool.Repay(book, now, p.borrower, p.debtAsset, p.debtAmount);
    var seized := CM.Seized(vault, p.liquidator, p.borrower, p.collateralAsset, collateralToSeize);
    if repaid.reply.Done? && seized.Some? then Settled(Desk(repaid.book, seized.value), repaid.reply.value)
    else Aborted
  }

  function Liquidated(d: Desk, now: U64, p: Params): Settlement {
    if Accepts(p) then Settles(d.book, d.vault, now, p, CollateralToSeize(p)) else Aborted
  }

  // ---- The contract

  class Liquidator {
    method Liquidate(now: U64, params: Params, pool: Pool.Pool, manager: CM.Manager) returns (covered: Option<int>)
      modifies pool`state, pool`borrows, manager`collateral
      ensures Liquidated(old(Desk(pool.View(), manager.View())), now, params) ==
              if covered.None? then Aborted else Settled(Desk(pool.View(), manager.View()), covered.value)
      ensures covered.None? ==> pool.View() == old(pool.View()) && manager.View() == old(manager.View())
    {
      if params.debtAmount <= 0 {
        return None;
      }
      if params.debtPrice <= 0 || params.collateralPrice <= 0 {
        return None;
      }
      var healthFactor := Health(params);
      if healthFactor == None || healthFactor.value >= ONE {
        return None;
      }
      if !SeizureFits(params) {
        return None;
      }
      var debtInCollateral := MulDiv(params.debtAmount, params.debtPrice, params.collateralPrice);
      var collateralToSeize := debtInCollateral + PercentOf(debtInCollateral, params.liquidationPenalty);

      covered := Settle(now, params, collateralToSeize, pool, manager);
    }

    // The two calls, undone together if either fails.
    method Settle(now: U64, params: Params, collateralToSeize: int, pool: Pool.Pool, manager: CM.Manager)
      returns (covered: Option<int>)
      modifies pool`state, pool`borrows, manager`collateral
      ensures Settles(old(pool.View()), old(manager.View()), now, params, collateralToSeize) ==
              if covered.None? then Aborted else Settled(Desk(pool.View(), manager.View()), covered.value)
      ensures covered.None? ==> pool.View() == old(pool.View()) && manager.View() == old(manager.View())
    {
      var stateBefore, borrowsBefore := pool.state, pool.borrows;
      var repaid := pool.LiquidateRepay(now, params.liquidator, params.borrower, params.debtAsset, params.debtAmount);
      if !repaid.Done? {
        return None;
      }
      var ok := manager.SeizeCollateral(params.liquidator, params.borrower, params.collateralAsset, collateralToSeize);
      if !ok {
        pool.state, pool.borrows := stateBefore, borrowsBefore;  // the host discards the repayment too
        return None;
      }
      return Some(repaid.value);
    }

    method Health(params: Params) returns (factor: Option<int>)
      ensures factor == if HealthFits(params) then Some(HealthFactor(params)) else None
    {
      if !MulDivFits(params.debtAmount, params.debtPrice, ONE)
         || !PercentOfFits(params.collateralValueUsd, params.collateralThreshold) {
        return None;
      }
      var debtValueUsd := MulDiv(params.debtAmount, params.debtPrice, ONE);
      var weightedCollateral := PercentOf(params.collateralValueUsd, params.collateralThreshold);
      if debtValueUsd == 0 {
        return Some(ONE * 100);
      }
      if !MulDivFits(weightedCollateral, ONE, debtValueUsd) {
        return None;
      }
      return Some(MulDiv(weightedCollateral, ONE, debtValueUsd));
    }
  }
}
