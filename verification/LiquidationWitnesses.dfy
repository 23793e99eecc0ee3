// Concrete positions in which liquidation does not do what one would expect of it.
module LiquidationWitnesses {
  import opened FixedPoint
  import opened Ledgers
  import opened Liquidation
  import opened LiquidationTheorems
  import Pool = LendingPool
  import Runs = PoolRuns
  import PT = PoolTheorems
  import PW = PoolWitnesses
  import Protocol
  import CP = CheckedPositions
  import HT = HealthTheorems
  import CM = CollateralManager

  // ---- The two health tests differ

  // A position of two assets worth one unit each at half weight, against a debt of one.
  const GAP_VAULT := CM.Vault(None, map[7 := map[1 := 1, 2 := 1]], map[1 := ONE / 2, 2 := ONE / 2],
                              map[1 := ONE, 2 := ONE], None)

  const GAP_PARAMS := Params(8, 7, 0, 1, ONE, 1, ONE, 2, ONE / 2, 0)

  lemma TwoKeys()
    ensures SortedKeys({1, 2}) == [1, 2]
  {
    assert Largest({1, 2}) == 2;
    assert {1, 2} - {2} == {1};
    assert Largest({1}) == 1;
    assert {1} - {1} == {};
    assert SortedKeys({1}) == [1];
  }

  lemma FoldOfTwo(terms: map<Address, Option<int>>, x: int, y: int)
    requires 1 in terms && 2 in terms && terms[1] == Some(x) && terms[2] == Some(y)
    requires InI128(x) && InI128(x + y)
    ensures CM.Fold(terms, [1, 2]) == Some(x + y)
  {
    assert [1, 2][..1] == [1] && [1][..0] == [];
    assert CM.Fold(terms, [1]) == Some(x);
  }

  lemma GapTerms(asset: Address)
    requires asset == 1 || asset == 2
    ensures CM.ValueTerm(GAP_VAULT, asset, 1) == Some(1) && CM.CapacityTerm(GAP_VAULT, asset, 1) == Some(0)
  {
    assert CM.PriceOf(GAP_VAULT, asset) == ONE && Get(GAP_VAULT.thresholds, asset) == ONE / 2;
  }

  lemma GapFolds(h: map<Address, int>)
    requires h == map[1 := 1, 2 := 1]
    ensures CM.Fold(CM.ValueTerms(GAP_VAULT, h), [1, 2]) == Some(2)
    ensures CM.Fold(CM.CapacityTerms(GAP_VAULT, h), [1, 2]) == Some(0)
  {
    GapTerms(1);
    GapTerms(2);
    FoldOfTwo(CM.ValueTerms(GAP_VAULT, h), 1, 1);
    FoldOfTwo(CM.CapacityTerms(GAP_VAULT, h), 0, 0);
  }

  lemma GapValuations()
    ensures CM.Holdings(GAP_VAULT, 7) == map[1 := 1, 2 := 1]
    ensures CM.CollateralValue(GAP_VAULT, 7) == Some(2) && CM.AvailableBorrow(GAP_VAULT, 7) == Some(0)
  {
    var h := CM.Holdings(GAP_VAULT, 7);
    assert h.Keys == {1, 2};
    TwoKeys();
    GapFolds(h);
  }

  lemma GapFigures()
    ensures DebtValue(GAP_PARAMS) == 1 && HealthFits(GAP_PARAMS) && HealthFactor(GAP_PARAMS) == ONE
  {
  }

  // The gap is real: together they cover the debt, after each has been rounded down on
  // its own they do not.
  lemma GapIsReal()
    ensures Matches(GAP_PARAMS, GAP_VAULT)
    ensures HealthFits(GAP_PARAMS) && HealthFactor(GAP_PARAMS) >= ONE
    ensures CM.HealthFactor(GAP_VAULT, GAP_PARAMS.borrower, DebtValue(GAP_PARAMS)) == Some(0)
  {
    GapValuations();
    GapFigures();
  }

  // ---- More seized than covered

  // User 8 owes 100 and has put up 500, at half weight enough for 250. The liquidator
  // passes the manager's own figures, and names a debt of 400.
  const BORROWED: seq<Runs.Call> :=
    [Runs.InitCall(1, PW.CONFIG), Runs.SupplyCall(1, 7, 1, 1000), Runs.BorrowCall(1, 8, 1, 100)]

  const PLEDGED := CM.Vault(None, map[8 := map[2 := 500]], map[2 := ONE / 2], map[1 := ONE, 2 := ONE], None)

  const TOO_MUCH := Params(9, 8, 1, 400, ONE, 2, ONE, 500, ONE / 2, 0)

  lemma AfterBorrowing()
    ensures Runs.Run(Pool.NEW_BOOK, BORROWED)
         == Pool.Book(Some(PW.CONFIG), Pool.PoolState(1000, 100, 0, ONE, ONE, 1),
                      map[7 := Pool.UserSupply(1000, 1000)], map[8 := Pool.UserBorrow(100, ONE, 0)], None)
  {
    PW.AfterFirstSupply();
    Runs.RunPush(Pool.NEW_BOOK, PW.FIRST_SUPPLY, Runs.BorrowCall(1, 8, 1, 100));
    assert BORROWED == PW.FIRST_SUPPLY + [Runs.BorrowCall(1, 8, 1, 100)];
  }

  lemma OneKey()
    ensures SortedKeys({2}) == [2]
  {
    assert Largest({2}) == 2;
    assert {2} - {2} == {};
  }

  lemma FoldOfOne(terms: map<Address, Option<int>>, x: int)
    requires 2 in terms && terms[2] == Some(x) && InI128(x)
    ensures CM.Fold(terms, [2]) == Some(x)
  {
    assert [2][..0] == [];
  }

  lemma PledgedTerms()
    ensures CM.ValueTerm(PLEDGED, 2, 500) == Some(500) && CM.CapacityTerm(PLEDGED, 2, 500) == Some(250)
  {
    assert CM.PriceOf(PLEDGED, 2) == ONE && Get(PLEDGED.thresholds, 2) == ONE / 2;
  }

  lemma PledgedValuations()
    ensures CM.Holdings(PLEDGED, 8) == map[2 := 500]
    ensures CM.CollateralValue(PLEDGED, 8) == Some(500) && CM.AvailableBorrow(PLEDGED, 8) == Some(250)
  {
    var h := CM.Holdings(PLEDGED, 8);
    assert h.Keys == {2};
    OneKey();
    PledgedTerms();
    FoldOfOne(CM.ValueTerms(PLEDGED, h), 500);
    FoldOfOne(CM.CapacityTerms(PLEDGED, h), 250);
  }

  lemma TooMuchFigures()
    ensures Accepts(TOO_MUCH) && CollateralToSeize(TOO_MUCH) == 400
  {
    assert DebtValue(TOO_MUCH) == 400 && WeightedCollateral(TOO_MUCH) == 250;
    assert HealthFactor(TOO_MUCH) == 250 * ONE / 400;
    assert DebtInCollateral(TOO_MUCH) == 400;
  }

  lemma PassesCheck(b: Pool.Book)
    requires 8 in b.borrows && b.borrows[8] == Pool.UserBorrow(100, ONE, 0)
    ensures Pool.HealthCheck(b, 8, 1, Some(PLEDGED)).Done?
  {
    PledgedValuations();
    assert CM.PriceOf(PLEDGED, 1) == ONE && MulDiv(100, ONE, ONE) == 100;
    assert MulDiv(250, ONE, 100) == 250 * ONE / 100;
  }

  lemma TooMuchSettles()
    ensures PT.AllSensible(BORROWED)
    ensures Liquidated(Desk(Runs.Run(Pool.NEW_BOOK, BORROWED), PLEDGED), 1, TOO_MUCH).Settled?
  {
    AfterBorrowing();
    TooMuchFigures();
    assert CM.Held(PLEDGED, 8, 2) == 500 && CM.Held(PLEDGED, 9, 2) == 0;
    SettledIff(BORROWED, PLEDGED, 1, TOO_MUCH);
  }

  lemma TooMuchCovered()
    ensures var s := Liquidated(Desk(Runs.Run(Pool.NEW_BOOK, BORROWED), PLEDGED), 1, TOO_MUCH);
            s.Settled? && s.covered == 100 && s.desk.book.borrows == map[8 := Pool.UserBorrow(0, ONE, 0)]
  {
    AfterBorrowing();
    TooMuchSettles();
    DebtSettled(BORROWED, PLEDGED, 1, TOO_MUCH);
  }

  lemma TooMuchMoves(b: Pool.Book)
    requires Liquidated(Desk(b, PLEDGED), 1, TOO_MUCH).Settled?
    ensures var after := Liquidated(Desk(b, PLEDGED), 1, TOO_MUCH).desk.vault;
            CM.Held(PLEDGED, 8, 2) == 500 && CM.Held(after, 8, 2) == 100 && CM.Held(after, 9, 2) == 400
  {
    TooMuchFigures();
    assert CM.Held(PLEDGED, 8, 2) == 500 && CM.Held(PLEDGED, 9, 2) == 0;
    CollateralMoves(b, PLEDGED, 1, TOO_MUCH, 8, 2);
    CollateralMoves(b, PLEDGED, 1, TOO_MUCH, 9, 2);
  }

  // On the manager's figures for a borrower who would pass the pool's own check: 400 of
  // collateral is seized, of the same price as the debt and without penalty, for 100.
  lemma SeizedExceedsCovered()
    ensures PT.AllSensible(BORROWED)
    ensures var b := Runs.Run(Pool.NEW_BOOK, BORROWED);
            var s := Liquidated(Desk(b, PLEDGED), 1, TOO_MUCH);
            && Matches(TOO_MUCH, PLEDGED)
            && Pool.HealthCheck(b, 8, 1, Some(PLEDGED)).Done?
            && s.Settled? && s.covered == 100 && s.desk.book.borrows == map[8 := Pool.UserBorrow(0, ONE, 0)]
            && CM.Held(PLEDGED, 8, 2) == 500 && CM.Held(s.desk.vault, 8, 2) == 100
            && CM.Held(s.desk.vault, 9, 2) == 400
  {
    var b := Runs.Run(Pool.NEW_BOOK, BORROWED);
    AfterBorrowing();
    PledgedValuations();
    PassesCheck(b);
    TooMuchSettles();
    TooMuchCovered();
    TooMuchMoves(b);
  }

  // ---- A withdrawal that passes the check

  // The same borrower supplies 50 and, the manager attached, takes 10 of them out again.
  const CHECKED_RUN: seq<Protocol.Call> :=
    [Protocol.OnPool(Runs.InitCall(1, PW.CONFIG)), Protocol.SetManager({9}),
     Protocol.OnPool(Runs.SupplyCall(1, 7, 1, 1000)), Protocol.OnPool(Runs.BorrowCall(1, 8, 1, 100)),
     Protocol.OnPool(Runs.SupplyCall(1, 8, 1, 50))]

  const TAKE_TEN := Runs.WithdrawCall(1, 8, 1, 10, None)

  const WHOLE_DEBT := TOO_MUCH.(debtAmount := 100)

  lemma SystemPush(s: Protocol.System, calls: seq<Protocol.Call>, c: Protocol.Call)
    ensures Protocol.Run(s, calls + [c]) == Protocol.Apply(Protocol.Run(s, calls), c)
  {
    assert (calls + [c])[..|calls|] == calls;
  }

  const CHECKED_BOOK := Pool.Book(Some(PW.CONFIG), Pool.PoolState(1050, 100, 0, ONE, ONE, 1),
                                  map[7 := Pool.UserSupply(1000, 1000), 8 := Pool.UserSupply(50, 50)],
                                  map[8 := Pool.UserBorrow(100, ONE, 0)], None)

  lemma AfterThreeCalls()
    ensures Protocol.Run(Protocol.Start(PLEDGED), CHECKED_RUN[..3])
         == Protocol.System(Desk(Pool.Book(Some(PW.CONFIG), Pool.PoolState(1000, 0, 0, ONE, ONE, 1),
                                           map[7 := Pool.UserSupply(1000, 1000)], map[], None), PLEDGED), true)
  {
    var s, c := Protocol.Start(PLEDGED), CHECKED_RUN;
    assert c[..1] == [] + [c[0]] && c[..2] == c[..1] + [c[1]] && c[..3] == c[..2] + [c[2]];
    SystemPush(s, [], c[0]);
    SystemPush(s, c[..1], c[1]);
    SystemPush(s, c[..2], c[2]);
  }

  const LENT_BOOK := CHECKED_BOOK.(state := Pool.PoolState(1000, 100, 0, ONE, ONE, 1),
                                   supplies := map[7 := Pool.UserSupply(1000, 1000)])

  lemma AfterFourCalls()
    ensures Protocol.Run(Protocol.Start(PLEDGED), CHECKED_RUN[..4]) == Protocol.System(Desk(LENT_BOOK, PLEDGED), true)
  {
    var s, c := Protocol.Start(PLEDGED), CHECKED_RUN;
    assert c[..4] == c[..3] + [c[3]];
    AfterThreeCalls();
    SystemPush(s, c[..3], c[3]);
  }

  lemma FiftySupplied()
    ensures Runs.Apply(LENT_BOOK, Runs.SupplyCall(1, 8, 1, 50)) == Pool.Outcome(CHECKED_BOOK, Pool.Done(50))
  {
    assert Pool.Accrued(LENT_BOOK, 1) == LENT_BOOK && MulDiv(50, ONE, ONE) == 50;
    assert LENT_BOOK.supplies[8 := Pool.UserSupply(50, 50)] == CHECKED_BOOK.supplies;
  }

  lemma AfterCheckedRun()
    ensures Protocol.Run(Protocol.Start(PLEDGED), CHECKED_RUN)
         == Protocol.System(Desk(CHECKED_BOOK, PLEDGED), true)
  {
    var s, c := Protocol.Start(PLEDGED), CHECKED_RUN;
    assert c == c[..4] + [c[4]];
    AfterFourCalls();
    SystemPush(s, c[..4], c[4]);
    FiftySupplied();
  }

  lemma TenTaken()
    ensures var w := TAKE_TEN.(manager := Some(PLEDGED));
            var o := Runs.Apply(CHECKED_BOOK, w);
            o.reply == Pool.Done(10) && o.book.config == Some(PW.CONFIG) && o.book.borrows == CHECKED_BOOK.borrows
  {
    PassesCheck(CHECKED_BOOK);
    assert MulDiv(10, ONE, ONE) == 10;
  }

  lemma WholeDebtOnRecord(b: Pool.Book)
    requires b.config == Some(PW.CONFIG) && b.borrows == CHECKED_BOOK.borrows
    ensures CP.OnRecord(Desk(b, PLEDGED), WHOLE_DEBT)
  {
    PledgedValuations();
    assert HT.Debt(b, 8) == 100;
  }

  lemma PledgeIsFair()
    ensures CP.FairlyPriced(PLEDGED) && CP.NoneNegative(CM.Holdings(PLEDGED, 8))
  {
  }

  lemma ChecksManager(s: Protocol.System)
    requires s.managed
    ensures Protocol.Checked(s, TAKE_TEN) == TAKE_TEN.(manager := Some(s.desk.vault))
    ensures Protocol.Apply(s, Protocol.OnPool(TAKE_TEN)).desk
         == Desk(Runs.Apply(s.desk.book, TAKE_TEN.(manager := Some(s.desk.vault))).book, s.desk.vault)
  {
  }

  // The hypotheses of `NotLiquidatedLater` can be met, by a user with a debt.
  lemma CheckReachable()
    ensures var s := Protocol.Run(Protocol.Start(PLEDGED), CHECKED_RUN);
            && s.managed
            && Runs.Apply(s.desk.book, Protocol.Checked(s, TAKE_TEN)).reply.Done?
            && CP.FairlyPriced(s.desk.vault) && CP.NoneNegative(CM.Holdings(s.desk.vault, 8))
            && CP.OnRecord(Protocol.Apply(s, Protocol.OnPool(TAKE_TEN)).desk, WHOLE_DEBT)
            && WHOLE_DEBT.debtAmount == 100
  {
    AfterCheckedRun();
    ChecksManager(Protocol.Run(Protocol.Start(PLEDGED), CHECKED_RUN));
    TenTaken();
    PledgeIsFair();
    WholeDebtOnRecord(Runs.Apply(CHECKED_BOOK, TAKE_TEN.(manager := Some(PLEDGED))).book);
  }
}
