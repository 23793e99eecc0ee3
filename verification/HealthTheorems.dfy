// When the pool's health check passes, in amounts, and what it makes of a withdrawal.
module HealthTheorems {
  import opened FixedPoint
  import opened Ledgers
  import opened LendingPool
  import opened PoolRuns
  import opened PoolTheorems
  import opened PoolReplies
  import CM = CollateralManager
  import CT = CollateralTheorems

  // What the user owes; nothing without a record.
  function Debt(b: Book, user: Address): int {
    BorrowOf(b, user).principal + BorrowOf(b, user).accruedInterest
  }

  // A debt, or the capacity to be compared with it, that cannot be scaled.
  ghost predicate Overflows(v: CM.Vault, user: Address) {
    var h := CM.Holdings(v, user);
    !CT.ValuesFit(v, h) || !CT.WeightsFit(v, h) || CT.Capacity(v, user) * ONE > I128_MAX
  }

  // The debt's worth at the manager's price, rounded down, against the user's capacity.
  ghost function CoverReply(debt: int, v: CM.Vault, user: Address, asset: Address): Reply
    requires debt >= 0 && CM.PriceOf(v, asset) >= 0
  {
    var worth := debt * CM.PriceOf(v, asset) / ONE;
    if debt * CM.PriceOf(v, asset) > I128_MAX then Panicked
    else if worth == 0 then Done(0)
    else if Overflows(v, user) then Panicked
    else if CT.Capacity(v, user) < worth then Refused(InsufficientCollateral)
    else Done(0)
  }

  lemma BelowOneIff(factor: int, capacity: int, worth: int)
    requires worth > 0 && IsFloor(factor, capacity * ONE, worth)
    ensures factor < ONE <==> capacity < worth
  {
    assert (factor + 1) * worth == factor * worth + worth;
    MulOrder(factor + 1, ONE, worth);
    MulOrder(capacity, worth, ONE);
    if factor < ONE {
      MulKeepsOrder(factor + 1, ONE, worth);
    } else {
      MulKeepsOrder(ONE, factor, worth);
    }
  }

  lemma FactorDecided(v: CM.Vault, user: Address, worth: int)
    requires worth > 0 && CT.Sound(v, CM.Holdings(v, user))
    ensures CM.HealthFactor(v, user, worth).Some? <==> !Overflows(v, user)
    ensures !Overflows(v, user) ==>
              (CM.HealthFactor(v, user, worth).value < ONE <==> CT.Capacity(v, user) < worth)
  {
    var capacity := CT.Capacity(v, user);
    CT.HealthFactorDecided(v, user, worth);
    if !Overflows(v, user) {
      BelowOneIff(CM.HealthFactor(v, user, worth).value, capacity, worth);
    }
  }

  // The check, in amounts: it passes if and only if no manager is attached, nothing is
  // owed, what is owed is worth nothing, or the capacity covers that worth. Otherwise it
  // refuses, or panics where an amount is out of range.
  lemma HealthDecided(b: Book, user: Address, asset: Address, manager: Option<CM.Vault>)
    requires manager.Some? ==>
               CT.Sound(manager.value, CM.Holdings(manager.value, user)) && CM.PriceOf(manager.value, asset) >= 0
    ensures HealthCheck(b, user, asset, manager) ==
            if manager == None then Done(0)
            else if !InI128(Debt(b, user)) then Panicked
            else if Debt(b, user) <= 0 then Done(0)
            else CoverReply(Debt(b, user), manager.value, user, asset)
  {
    if manager.Some? && Debt(b, user) > 0 {
      var v, debt := manager.value, Debt(b, user);
      var price := CM.PriceOf(v, asset);
      ProductFitsIff(debt, price, ONE);
      FloorIsQuotient(debt, price, ONE);
      if debt * price <= I128_MAX && MulDiv(debt, price, ONE) > 0 {
        FactorDecided(v, user, MulDiv(debt, price, ONE));
      }
    }
  }

  lemma NothingOwedPasses(v: CM.Vault, user: Address, asset: Address)
    requires CM.PriceOf(v, asset) >= 0
    ensures CoverReply(0, v, user, asset) == Done(0)
  {
  }

  // The reply to a supplier's withdrawal, with the check in amounts: in every reachable
  // state of a pool without a token, or with one attached fresh, past the entry checks.
  lemma WithdrawalByCover(calls: seq<Call>, now: U64, caller: Address, asset: Address, amount: int,
                          manager: Option<CM.Vault>)
    requires AllSensible(calls) && AttachedFresh(calls) && amount >= 0
    requires var b := Run(NEW_BOOK, calls); caller in b.supplies && Entry(b, now, asset).Done?
    requires manager.Some? ==>
               CT.Sound(manager.value, CM.Holdings(manager.value, caller)) && CM.PriceOf(manager.value, asset) >= 0
    ensures var b := Run(NEW_BOOK, calls);
            && 0 <= Debt(b, caller) <= I128_MAX
            && Withdraw(b, now, caller, asset, amount, manager).reply
               == DecidedReply(Accrued(b, now), caller, amount,
                               if manager == None then Done(0)
                               else CoverReply(Debt(b, caller), manager.value, caller, asset))
  {
    var b := Run(NEW_BOOK, calls);
    EnteredDebt(calls, now, asset, caller);
    HealthDecided(Accrued(b, now), caller, asset, manager);
    if manager.Some? {
      NothingOwedPasses(manager.value, caller, asset);
    }
    assert Debt(Accrued(b, now), caller) == Debt(b, caller);
    WithdrawalDecided(calls, now, caller, asset, amount, manager);
  }
}
