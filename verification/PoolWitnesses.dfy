// Reachable states in which a withdrawal does not do what one would expect of it.
module PoolWitnesses {
  import opened FixedPoint
  import opened Ledgers
  import opened InterestModel
  import opened LendingPool
  import opened PoolRuns
  import opened PoolTheorems

  // A pool that charges 100% a year whatever its utilization.
  const CONFIG := PoolConfig(9, 1, RateParams(ONE, 0, 0, ONE / 2), 0, true)

  const A_YEAR_ON: U64 := 31_536_001

  // With nothing borrowed, a year at that rate doubles the index.
  lemma AfterAYear(s: PoolState)
    requires 0 < s.totalSupply && InI128(s.totalSupply) && s.totalBorrow == s.totalReserves == 0
    requires s.supplyIndex == s.borrowIndex == ONE && s.lastUpdate == 1
    ensures AccrualFits(CONFIG, s, A_YEAR_ON)
    ensures Accrue(CONFIG, s, A_YEAR_ON)
         == s.(supplyIndex := 2 * ONE, borrowIndex := 2 * ONE, lastUpdate := A_YEAR_ON)
  {
    assert Utilization(s.totalSupply, 0) == 0;
    assert BorrowRate(CONFIG.rates, 0) == ONE;
    assert AccrualOf(CONFIG, s, A_YEAR_ON) == Accrual(ONE, 0, 0);
  }

  // ---- Withdraw does not undo supply

  const FIRST_SUPPLY: seq<Call> := [InitCall(1, CONFIG), SupplyCall(1, 7, 1, 1000)]

  const SECOND_SUPPLY: Call := SupplyCall(A_YEAR_ON, 7, 1, 10)

  const TAKE_BACK: Call := WithdrawCall(A_YEAR_ON, 7, 1, 10, None)

  lemma AfterFirstSupply()
    ensures Run(NEW_BOOK, FIRST_SUPPLY)
         == Book(Some(CONFIG), NEW_STATE.(totalSupply := 1000, lastUpdate := 1),
                 map[7 := UserSupply(1000, 1000)], map[], None)
  {
    var init := [InitCall(1, CONFIG)];
    assert FIRST_SUPPLY == init + [SupplyCall(1, 7, 1, 1000)];
    assert init == [] + [InitCall(1, CONFIG)];
    RunPush(NEW_BOOK, [], InitCall(1, CONFIG));
    RunPush(NEW_BOOK, init, SupplyCall(1, 7, 1, 1000));
  }

  // Ten supplied and at once withdrawn, a year on: principal and total are back where
  // they were, the shares are not.
  lemma SupplyThenWithdrawDiffers()
    ensures AllSensible(FIRST_SUPPLY + [SECOND_SUPPLY] + [TAKE_BACK])
    ensures var before := Run(NEW_BOOK, FIRST_SUPPLY);
            var after := Run(NEW_BOOK, FIRST_SUPPLY + [SECOND_SUPPLY] + [TAKE_BACK]);
            && before.supplies == map[7 := UserSupply(1000, 1000)]
            && after.supplies == map[7 := UserSupply(1015, 1000)]
            && after.state.totalSupply == before.state.totalSupply == 1000
            && after.state.supplyIndex == 2 * ONE
  {
    var before := Run(NEW_BOOK, FIRST_SUPPLY);
    AfterFirstSupply();
    AfterAYear(before.state);
    RunPush(NEW_BOOK, FIRST_SUPPLY, SECOND_SUPPLY);
    RunPush(NEW_BOOK, FIRST_SUPPLY + [SECOND_SUPPLY], TAKE_BACK);
    var middle := Apply(before, SECOND_SUPPLY).book;
    assert middle.supplies == map[7 := UserSupply(1020, 1010)];
    assert Apply(middle, TAKE_BACK).book.supplies == map[7 := UserSupply(1015, 1000)];
  }

  // ---- A withdrawal within one's principal refused for want of liquidity

  const TWO_SUPPLIERS: seq<Call> :=
    [InitCall(1, CONFIG), SupplyCall(1, 7, 1, 20), SupplyCall(1, 8, 1, 10)]

  const OVERDRAW: Call := WithdrawCall(A_YEAR_ON, 7, 1, 30, None)

  lemma AfterTwoSuppliers()
    ensures Run(NEW_BOOK, TWO_SUPPLIERS)
         == Book(Some(CONFIG), NEW_STATE.(totalSupply := 30, lastUpdate := 1),
                 map[7 := UserSupply(20, 20), 8 := UserSupply(10, 10)], map[], None)
  {
    var init := [InitCall(1, CONFIG)];
    var one := init + [SupplyCall(1, 7, 1, 20)];
    assert TWO_SUPPLIERS == one + [SupplyCall(1, 8, 1, 10)];
    assert init == [] + [InitCall(1, CONFIG)];
    RunPush(NEW_BOOK, [], InitCall(1, CONFIG));
    RunPush(NEW_BOOK, init, SupplyCall(1, 7, 1, 20));
    RunPush(NEW_BOOK, one, SupplyCall(1, 8, 1, 10));
    assert Run(NEW_BOOK, one).supplies == map[7 := UserSupply(20, 20)];
  }

  lemma OverdrawBody(e: Book)
    requires e == Book(Some(CONFIG), PoolState(30, 0, 0, 2 * ONE, 2 * ONE, A_YEAR_ON),
                       map[7 := UserSupply(20, 20), 8 := UserSupply(10, 10)], map[], None)
    ensures WithdrawBody(e, 7, 1, 30, None)
         == Outcome(Book(Some(CONFIG), PoolState(0, 0, 0, 2 * ONE, 2 * ONE, A_YEAR_ON),
                         map[7 := UserSupply(5, -10), 8 := UserSupply(10, 10)], map[], None), Done(30))
  {
    assert MulDiv(30, ONE, 2 * ONE) == 15;
    assert e.supplies[7 := UserSupply(5, -10)] == map[7 := UserSupply(5, -10), 8 := UserSupply(10, 10)];
  }

  lemma AfterOverdraw()
    ensures Run(NEW_BOOK, TWO_SUPPLIERS + [OVERDRAW])
         == Book(Some(CONFIG), PoolState(0, 0, 0, 2 * ONE, 2 * ONE, A_YEAR_ON),
                 map[7 := UserSupply(5, -10), 8 := UserSupply(10, 10)], map[], None)
  {
    var before := Run(NEW_BOOK, TWO_SUPPLIERS);
    AfterTwoSuppliers();
    AfterAYear(before.state);
    RunPush(NEW_BOOK, TWO_SUPPLIERS, OVERDRAW);
    OverdrawBody(Accrued(before, A_YEAR_ON));
  }

  // At twice the index the one supplier's shares pay for more than they supplied, and
  // the other's principal exceeds what is left.
  lemma LiquidityRefusalReachable()
    ensures AllSensible(TWO_SUPPLIERS + [OVERDRAW])
    ensures var b := Run(NEW_BOOK, TWO_SUPPLIERS + [OVERDRAW]);
            && b.supplies == map[7 := UserSupply(5, -10), 8 := UserSupply(10, 10)]
            && b.state.totalSupply == 0
            && Withdraw(b, A_YEAR_ON, 8, 1, 10, None).reply == Refused(InsufficientLiquidity)
  {
    AfterOverdraw();
    assert MulDiv(10, ONE, 2 * ONE) == 5;
  }
}
