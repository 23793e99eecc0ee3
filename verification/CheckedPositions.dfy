// What the pool's health check is worth afterwards: a user whose withdrawal passed it
// stays out of reach of liquidation for as long as nothing turns against them.
module CheckedPositions {
  import opened FixedPoint
  import opened Ledgers
  import opened Liquidation
  import opened Protocol
  import HT = HealthTheorems
  import LT = LiquidationTheorems
  import Pool = LendingPool
  import Runs = PoolRuns
  import PT = PoolTheorems
  import CM = CollateralManager
  import CT = CollateralTheorems

  // ---- The invariant

  ghost predicate DebtsInOrder(b: Pool.Book) {
    forall u :: u in b.borrows ==> b.borrows[u].principal >= 0 && b.borrows[u].accruedInterest == 0
  }

  // Prices are nonnegative, thresholds are fractions, of whatever asset.
  ghost predicate FairlyPriced(v: CM.Vault) {
    forall asset :: CM.PriceOf(v, asset) >= 0 && 0 <= Get(v.thresholds, asset) <= ONE
  }

  ghost predicate NoneNegative(holdings: map<Address, int>) {
    forall asset :: asset in holdings ==> holdings[asset] >= 0
  }

  predicate Trades(b: Pool.Book, asset: Address) {
    b.config.Some? && b.config.value.asset == asset
  }

  // The user's capacity at the manager covers the whole debt at the pool, which lends
  // `asset`.
  ghost predicate Covered(d: Desk, user: Address, asset: Address) {
    && Trades(d.book, asset)
    && DebtsInOrder(d.book)
    && FairlyPriced(d.vault)
    && NoneNegative(CM.Holdings(d.vault, user))
    && MulDiv(HT.Debt(d.book, user), CM.PriceOf(d.vault, asset), ONE) <= CT.Capacity(d.vault, user)
  }

  // ---- A passed check establishes it

  lemma CheckEstablishes(b: Pool.Book, v: CM.Vault, user: Address, asset: Address)
    requires Trades(b, asset) && DebtsInOrder(b) && FairlyPriced(v) && NoneNegative(CM.Holdings(v, user))
    requires Pool.HealthCheck(b, user, asset, Some(v)).Done?
    ensures Covered(Desk(b, v), user, asset)
  {
    assert CT.Sound(v, CM.Holdings(v, user));
    if user in b.borrows {
      LT.CheckedCapacity(b, v, user, asset);
    } else {
      CT.CapacityNonNegative(v, CM.Holdings(v, user));
    }
  }

  lemma WithdrawalChecked(b: Pool.Book, w: Runs.Call)
    requires w.WithdrawCall? && Runs.Apply(b, w).reply.Done?
    ensures Trades(b, w.asset) && Pool.HealthCheck(b, w.caller, w.asset, w.manager).Done?
    ensures Runs.Apply(b, w).book.config == b.config && Runs.Apply(b, w).book.borrows == b.borrows
  {
    assert Pool.HealthCheck(Pool.Accrued(b, w.now), w.caller, w.asset, w.manager)
        == Pool.HealthCheck(b, w.caller, w.asset, w.manager);
  }

  // ---- It rules liquidation out

  // The liquidator passes the manager's own figures, and names no more than the recorded
  // debt, in the asset the pool lends.
  ghost predicate OnRecord(d: Desk, p: Params) {
    && LT.Matches(p, d.vault)
    && 0 <= p.collateralThreshold <= ONE
    && Trades(d.book, p.debtAsset)
    && p.debtPrice == CM.PriceOf(d.vault, p.debtAsset)
    && p.debtAmount <= HT.Debt(d.book, p.borrower)
  }

  lemma CoveredIsSafe(d: Desk, now: U64, p: Params, asset: Address)
    requires Covered(d, p.borrower, asset) && OnRecord(d, p)
    ensures !Accepts(p) && Liquidated(d, now, p) == Aborted
  {
    assert CT.Sound(d.vault, CM.Holdings(d.vault, p.borrower));
    LT.CoveredIsNotAccepted(p, d.vault, HT.Debt(d.book, p.borrower));
  }

  // ---- Calls that leave the user's position no worse

  // At the pool: anything but a loan to the user.
  predicate KeepsDebt(c: Runs.Call, user: Address) {
    PT.Sensible(c) && !(c.BorrowCall? && c.caller == user)
  }

  // At the manager: no repricing, and nothing that takes collateral from the user.
  predicate KeepsCollateral(c: CT.Call, user: Address) {
    match c
    case Deposit(who, _, amount) => who == user ==> amount >= 0
    case Withdraw(who, _, _) => who != user
    case Seize(caller, borrower, _, amount) => borrower != user && (caller == user ==> amount >= 0)
    case Reprice(_, _, _) => false
  }

  // Liquidations of others, and attempts at the user on the record.
  ghost predicate Gentle(s: System, c: Call, user: Address) {
    match c
    case OnPool(pool) => KeepsDebt(pool, user)
    case SetManager(_) => true
    case OnManager(manager) => KeepsCollateral(manager, user)
    case OnLiquidation(_, p) =>
      if p.borrower == user then OnRecord(s.desk, p) else KeepsCollateral(LT.SeizePart(p), user)
  }

  ghost predicate GentleRun(s: System, calls: seq<Call>, user: Address) {
    calls != [] ==>
      var earlier := calls[..|calls| - 1];
      GentleRun(s, earlier, user) && Gentle(Run(s, earlier), calls[|calls| - 1], user)
  }

  lemma RepayShrinks(b: Pool.Book, borrower: Address, amount: int, user: Address)
    requires DebtsInOrder(b) && amount >= 0
    ensures var b' := Pool.RepayBody(b, borrower, amount).book;
            DebtsInOrder(b') && 0 <= HT.Debt(b', user) <= HT.Debt(b, user)
  {
  }

  lemma LoanElsewhere(b: Pool.Book, caller: Address, amount: int, user: Address)
    requires DebtsInOrder(b) && amount >= 0 && caller != user
    ensures var b' := Pool.BorrowBody(b, caller, amount).book;
            DebtsInOrder(b') && 0 <= HT.Debt(b', user) <= HT.Debt(b, user)
  {
  }

  lemma OtherCallsKeepDebt(b: Pool.Book, c: Runs.Call)
    requires c.InitCall? || c.AttachCall? || c.SupplyCall? || c.WithdrawCall?
    ensures Runs.Apply(b, c).book.borrows == b.borrows
  {
  }

  lemma OperationKeepsDebt(b: Pool.Book, c: Runs.Call, user: Address)
    requires b.config.Some? && DebtsInOrder(b) && KeepsDebt(c, user) && Runs.Apply(b, c).reply.Done?
    ensures var b' := Runs.Apply(b, c).book;
            DebtsInOrder(b') && 0 <= HT.Debt(b', user) <= HT.Debt(b, user)
  {
    match c
    case BorrowCall(now, caller, _, amount) => LoanElsewhere(Pool.Accrued(b, now), caller, amount, user);
    case RepayCall(now, caller, _, amount) => RepayShrinks(Pool.Accrued(b, now), caller, amount, user);
    case LiquidateCall(now, _, borrower, _, amount) => RepayShrinks(Pool.Accrued(b, now), borrower, amount, user);
    case _ => OtherCallsKeepDebt(b, c);
  }

  lemma PoolCallKeepsDebt(b: Pool.Book, c: Runs.Call, user: Address)
    requires b.config.Some? && DebtsInOrder(b) && KeepsDebt(c, user)
    ensures var b' := Runs.Apply(b, c).book;
            b'.config == b.config && DebtsInOrder(b') && 0 <= HT.Debt(b', user) <= HT.Debt(b, user)
  {
    if Runs.Apply(b, c).reply.Done? {
      OperationKeepsDebt(b, c, user);
      if Runs.Operates(c) {
        PT.OperationGate(b, c);
      }
    } else {
      Runs.FailureLeavesBook(b, c);
    }
  }

  predicate SamePrices(v: CM.Vault, v': CM.Vault) {
    v'.prices == v.prices && v'.thresholds == v.thresholds && v'.oracle == v.oracle
  }

  ghost predicate NoWorse(v: CM.Vault, v': CM.Vault, user: Address) {
    SamePrices(v, v') && NoneNegative(CM.Holdings(v', user)) && CT.Capacity(v, user) <= CT.Capacity(v', user)
  }

  lemma PositionStays(v: CM.Vault, v': CM.Vault, user: Address)
    requires NoneNegative(CM.Holdings(v, user)) && SamePrices(v, v')
    requires CM.Holdings(v', user) == CM.Holdings(v, user)
    ensures NoWorse(v, v', user)
  {
    CT.PricedAlike(v, v', CM.Holdings(v, user));
  }

  lemma CapacityGains(v: CM.Vault, v': CM.Vault, h: map<Address, int>, asset: Address, amount: int)
    requires SamePrices(v, v') && amount >= 0 && Get(h, asset) >= 0
    requires CM.PriceOf(v, asset) >= 0 && 0 <= Get(v.thresholds, asset) <= ONE
    ensures Sum(CT.Capacities(v, h)) <= Sum(CT.Capacities(v', h[asset := Get(h, asset) + amount]))
  {
    CT.PricedAlike(v, v', h[asset := Get(h, asset) + amount]);
    CT.SumsGrow(v, h, asset, amount);
  }

  lemma StillNoneNegative(h: map<Address, int>, asset: Address, amount: int)
    requires NoneNegative(h) && amount >= 0
    ensures Get(h, asset) >= 0 && NoneNegative(h[asset := Get(h, asset) + amount])
  {
  }

  lemma FairAt(v: CM.Vault, asset: Address)
    requires FairlyPriced(v)
    ensures CM.PriceOf(v, asset) >= 0 && 0 <= Get(v.thresholds, asset) <= ONE
  {
  }

  lemma PositionGains(v: CM.Vault, v': CM.Vault, user: Address, asset: Address, amount: int)
    requires FairlyPriced(v) && NoneNegative(CM.Holdings(v, user)) && SamePrices(v, v') && amount >= 0
    requires CM.Holdings(v', user) == CM.Holdings(v, user)[asset := CM.Held(v, user, asset) + amount]
    ensures NoWorse(v, v', user)
  {
    FairAt(v, asset);
    StillNoneNegative(CM.Holdings(v, user), asset, amount);
    CapacityGains(v, v', CM.Holdings(v, user), asset, amount);
  }

  lemma DepositNoWorse(v: CM.Vault, who: Address, asset: Address, amount: int, user: Address)
    requires FairlyPriced(v) && NoneNegative(CM.Holdings(v, user)) && (who == user ==> amount >= 0)
    requires CM.Deposited(v, who, asset, amount).Some?
    ensures NoWorse(v, CM.Deposited(v, who, asset, amount).value, user)
  {
    var v' := CM.Deposited(v, who, asset, amount).value;
    if who == user {
      PositionGains(v, v', user, asset, amount);
    } else {
      PositionStays(v, v', user);
    }
  }

  lemma SeizureNoWorse(v: CM.Vault, caller: Address, borrower: Address, asset: Address, amount: int, user: Address)
    requires FairlyPriced(v) && NoneNegative(CM.Holdings(v, user))
    requires borrower != user && (caller == user ==> amount >= 0)
    requires CM.Seized(v, caller, borrower, asset, amount).Some?
    ensures NoWorse(v, CM.Seized(v, caller, borrower, asset, amount).value, user)
  {
    var v' := CM.Seized(v, caller, borrower, asset, amount).value;
    if caller == user {
      PositionGains(v, v', user, asset, amount);
    } else {
      PositionStays(v, v', user);
    }
  }

  lemma ManagerCallNoWorse(v: CM.Vault, c: CT.Call, user: Address)
    requires FairlyPriced(v) && NoneNegative(CM.Holdings(v, user)) && KeepsCollateral(c, user)
    ensures NoWorse(v, CT.Run(v, [c]), user)
  {
    assert [c][..0] == [];
    match CT.Attempt(v, c)
    case None => PositionStays(v, v, user);
    case Some(v') =>
      match c
      case Deposit(who, asset, amount) => DepositNoWorse(v, who, asset, amount, user);
      case Withdraw(_, _, _) => PositionStays(v, v', user);
      case Seize(caller, borrower, asset, amount) => SeizureNoWorse(v, caller, borrower, asset, amount, user);
  }

  // ---- So it holds for good

  lemma StaysCovered(d: Desk, d': Desk, user: Address, asset: Address)
    requires Covered(d, user, asset) && NoWorse(d.vault, d'.vault, user)
    requires Trades(d'.book, asset) && DebtsInOrder(d'.book) && 0 <= HT.Debt(d'.book, user) <= HT.Debt(d.book, user)
    ensures Covered(d', user, asset)
  {
    assert forall a :: CM.PriceOf(d'.vault, a) == CM.PriceOf(d.vault, a);
    var price := CM.PriceOf(d.vault, asset);
    MulDivMonotone(HT.Debt(d'.book, user), price, HT.Debt(d.book, user), price, ONE);
  }

  lemma LiquidationKeepsCovered(s: System, now: U64, p: Params, user: Address, asset: Address)
    requires Covered(s.desk, user, asset) && Gentle(s, OnLiquidation(now, p), user)
    ensures Covered(Apply(s, OnLiquidation(now, p)).desk, user, asset)
  {
    if p.borrower == user {
      CoveredIsSafe(s.desk, now, p, asset);
    } else if Liquidated(s.desk, now, p).Settled? {
      var d := Liquidated(s.desk, now, p).desk;
      LT.LiquidationIsTwoCalls(s.desk, now, p);
      PoolCallKeepsDebt(s.desk.book, LT.RepayPart(now, p), user);
      SeizureNoWorse(s.desk.vault, p.liquidator, p.borrower, p.collateralAsset, CollateralToSeize(p), user);
      StaysCovered(s.desk, d, user, asset);
    }
  }

  lemma CallKeepsCovered(s: System, c: Call, user: Address, asset: Address)
    requires Covered(s.desk, user, asset) && Gentle(s, c, user)
    ensures Covered(Apply(s, c).desk, user, asset)
  {
    match c
    case OnPool(pool) =>
      PositionStays(s.desk.vault, s.desk.vault, user);
      PoolCallKeepsDebt(s.desk.book, Checked(s, pool), user);
      StaysCovered(s.desk, Apply(s, c).desk, user, asset);
    case SetManager(_) =>
    case OnManager(manager) =>
      ManagerCallNoWorse(s.desk.vault, manager, user);
      StaysCovered(s.desk, Apply(s, c).desk, user, asset);
    case OnLiquidation(now, p) => LiquidationKeepsCovered(s, now, p, user, asset);
  }

  lemma {:induction false} RunKeepsCovered(s: System, calls: seq<Call>, user: Address, asset: Address)
    requires Covered(s.desk, user, asset) && GentleRun(s, calls, user)
    ensures Covered(Run(s, calls).desk, user, asset)
  {
    if calls != [] {
      var earlier := calls[..|calls| - 1];
      RunKeepsCovered(s, earlier, user, asset);
      CallKeepsCovered(Run(s, earlier), calls[|calls| - 1], user, asset);
    }
  }

  lemma CheckPasses(v: CM.Vault, before: seq<Call>, w: Runs.Call)
    requires (forall c :: c in before ==> Sensible(c)) && w.WithdrawCall?
    requires var s := Run(Start(v), before);
             && s.managed
             && FairlyPriced(s.desk.vault) && NoneNegative(CM.Holdings(s.desk.vault, w.caller))
             && Runs.Apply(s.desk.book, Checked(s, w)).reply.Done?
    ensures Covered(Apply(Run(Start(v), before), OnPool(w)).desk, w.caller, w.asset)
  {
    var s := Run(Start(v), before);
    SystemHealthy(v, before);
    WithdrawalChecked(s.desk.book, Checked(s, w));
    CheckEstablishes(s.desk.book, s.desk.vault, w.caller, w.asset);
    PositionStays(s.desk.vault, s.desk.vault, w.caller);
    StaysCovered(s.desk, Apply(s, OnPool(w)).desk, w.caller, w.asset);
  }

  // From every state the system can reach: after a withdrawal that passed the check, no
  // liquidation of that user on the record is accepted, along any run that neither
  // reprices nor takes collateral from the user nor lets them borrow. Whatever else
  // happens, time included, the user is as safe as on the day of the check.
  lemma NotLiquidatedLater(v: CM.Vault, before: seq<Call>, w: Runs.Call, after: seq<Call>, now: U64, p: Params)
    requires (forall c :: c in before ==> Sensible(c)) && w.WithdrawCall?
    requires var s := Run(Start(v), before);
             && s.managed
             && FairlyPriced(s.desk.vault) && NoneNegative(CM.Holdings(s.desk.vault, w.caller))
             && Runs.Apply(s.desk.book, Checked(s, w)).reply.Done?
    requires GentleRun(Apply(Run(Start(v), before), OnPool(w)), after, w.caller)
    requires p.borrower == w.caller && OnRecord(Run(Apply(Run(Start(v), before), OnPool(w)), after).desk, p)
    ensures !Accepts(p)
    ensures var d := Run(Apply(Run(Start(v), before), OnPool(w)), after).desk;
            Liquidated(d, now, p) == Aborted
  {
    var s := Apply(Run(Start(v), before), OnPool(w));
    CheckPasses(v, before, w);
    RunKeepsCovered(s, after, w.caller, w.asset);
    CoveredIsSafe(Run(s, after).desk, now, p, w.asset);
  }
}
