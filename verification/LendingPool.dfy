// The lending pool: supply, withdraw, borrow and repay against pooled totals, each call
// first accruing the interest due since the last one.
module LendingPool {
  import opened FixedPoint
  import opened Ledgers
  import opened InterestModel
  import CM = CollateralManager
  import ST = SToken

  const SECONDS_PER_YEAR: int := 31_536_000

  // The contract's own address, as other contracts see it. Addresses are only compared,
  // so any one will do.
  const POOL_ADDRESS: Address := 0

  // The configuration fields the operations read.
  datatype PoolConfig = PoolConfig(
    admin: Address,
    asset: Address,
    rates: RateParams,
    reserveFactor: int,
    isActive: bool)

  datatype PoolState = PoolState(
    totalSupply: int,
    totalBorrow: int,
    totalReserves: int,
    supplyIndex: int,
    borrowIndex: int,
    lastUpdate: U64)

  datatype UserSupply = UserSupply(shares: int, principal: int)

  datatype UserBorrow = UserBorrow(principal: int, interestIndex: int, accruedInterest: int)

  datatype ContractError =
    | AlreadyInitialized
    | UserSupplyNotFound
    | InsufficientShares
    | InsufficientLiquidity
    | InsufficientPoolLiquidity
    | UserBorrowNotFound
    | PoolNotActive
    | AssetMismatch
    | InsufficientCollateral

  // A call returns, refuses with an error or panics. The last two leave no trace.
  datatype Reply = Done(value: int) | Refused(error: ContractError) | Panicked

  // ---- Accrual

  // The rate charged for the interval, the interest it brings and the reserve's part.
  datatype Accrual = Accrual(rate: int, interest: int, reserve: int)

  function AccrualOf(c: PoolConfig, s: PoolState, now: U64): Accrual {
    var borrowRate := BorrowRate(c.rates, Utilization(s.totalSupply, s.totalBorrow));
    var rate := MulDiv(borrowRate, now - s.lastUpdate, SECONDS_PER_YEAR);
    var interest := MulDiv(s.totalBorrow, rate, ONE);
    Accrual(rate, interest, MulDiv(interest, c.reserveFactor, ONE))
  }

  function Accrue(c: PoolConfig, s: PoolState, now: U64): PoolState {
    if now == s.lastUpdate then s else
      var a := AccrualOf(c, s, now);
      PoolState(s.totalSupply, s.totalBorrow + a.interest, s.totalReserves + a.reserve,
                MulDiv(s.supplyIndex, ONE + a.rate, ONE), MulDiv(s.borrowIndex, ONE + a.rate, ONE), now)
  }

  // Every intermediate result of an accrual is in range, so that it does not panic.
  predicate AccrualFits(c: PoolConfig, s: PoolState, now: U64) {
    var utilization := Utilization(s.totalSupply, s.totalBorrow);
    var borrowRate := BorrowRate(c.rates, utilization);
    var a := AccrualOf(c, s, now);
    now == s.lastUpdate ||
    (&& now > s.lastUpdate
     && UtilizationFits(s.totalSupply, s.totalBorrow)
     && BorrowRateFits(c.rates, utilization)
     && MulDivFits(borrowRate, now - s.lastUpdate, SECONDS_PER_YEAR)
     && MulDivFits(s.totalBorrow, a.rate, ONE)
     && MulDivFits(a.interest, c.reserveFactor, ONE)
     && InI128(s.totalBorrow + a.interest)
     && InI128(s.totalReserves + a.reserve)
     && InI128(ONE + a.rate)
     && MulDivFits(s.supplyIndex, ONE + a.rate, ONE)
     && MulDivFits(s.borrowIndex, ONE + a.rate, ONE)
     && SupplyRateFits(c.rates, utilization, c.reserveFactor))
  }

  // ---- Operations on the stored state

  // `token` is the state of the attached receipt token, if one is attached.
  datatype Book = Book(
    config: Option<PoolConfig>,
    state: PoolState,
    supplies: map<Address, UserSupply>,
    borrows: map<Address, UserBorrow>,
    token: Option<ST.Shares>)

  const NEW_STATE := PoolState(0, 0, 0, ONE, ONE, 0)

  const NEW_BOOK := Book(None, NEW_STATE, map[], map[], None)

  datatype Outcome = Outcome(book: Book, reply: Reply)

  function SupplyOf(b: Book, user: Address): UserSupply {
    if user in b.supplies then b.supplies[user] else UserSupply(0, 0)
  }

  function BorrowOf(b: Book, user: Address): UserBorrow {
    if user in b.borrows then b.borrows[user] else UserBorrow(0, b.state.borrowIndex, 0)
  }

  // What every operation does first: read the configuration, check that the pool is
  // active and the asset its own, accrue.
  function Entry(b: Book, now: U64, asset: Address): Reply {
    if b.config == None then Panicked
    else if !b.config.value.isActive then Refused(PoolNotActive)
    else if b.config.value.asset != asset then Refused(AssetMismatch)
    else if !AccrualFits(b.config.value, b.state, now) then Panicked
    else Done(0)
  }

  function Accrued(b: Book, now: U64): Book
    requires b.config.Some?
  {
    b.(state := Accrue(b.config.value, b.state, now))
  }

  // A call that does not return leaves the book as it was, accrual included.
  function Commit(b: Book, o: Outcome): Outcome {
    if o.reply.Done? then o else Outcome(b, o.reply)
  }

  function SupplyBody(b: Book, caller: Address, amount: int): Outcome {
    var s := b.state;
    if s.totalSupply != 0 && !MulDivFits(amount, s.supplyIndex, ONE) then Outcome(b, Panicked) else
      var shares := if s.totalSupply == 0 then amount else MulDiv(amount, s.supplyIndex, ONE);
      var u := SupplyOf(b, caller);
      if !InI128(u.shares + shares) || !InI128(u.principal + amount) || !InI128(s.totalSupply + amount) then
        Outcome(b, Panicked)
      else
        var b' := b.(supplies := b.supplies[caller := UserSupply(u.shares + shares, u.principal + amount)],
                     state := s.(totalSupply := s.totalSupply + amount));
        match b.token
        case None => Outcome(b', Done(shares))
        case Some(token) =>
          match ST.Minted(token, {POOL_ADDRESS}, caller, shares)
          case None => Outcome(b, Panicked)
          case Some(minted) => Outcome(b'.(token := Some(minted)), Done(shares))
  }

  function Supply(b: Book, now: U64, caller: Address, asset: Address, amount: int): Outcome {
    var entry := Entry(b, now, asset);
    if entry.Done? then Commit(b, SupplyBody(Accrued(b, now), caller, amount)) else Outcome(b, entry)
  }

  // What the collateral manager makes of a withdrawal by a user with debt.
  function HealthCheck(b: Book, user: Address, asset: Address, manager: Option<CM.Vault>): Reply {
    if manager == None || user !in b.borrows then Done(0) else
      var debt := b.borrows[user].principal + b.borrows[user].accruedInterest;
      if !InI128(debt) then Panicked
      else if debt <= 0 then Done(0)
      else
        var price := CM.PriceOf(manager.value, asset);
        if !MulDivFits(debt, price, ONE) then Panicked else
          match CM.HealthFactor(manager.value, user, MulDiv(debt, price, ONE))
          case None => Panicked
          case Some(health) => if health < ONE then Refused(InsufficientCollateral) else Done(0)
  }

  function WithdrawBody(b: Book, caller: Address, asset: Address, amount: int, manager: Option<CM.Vault>): Outcome {
    var s := b.state;
    if caller !in b.supplies then Outcome(b, Refused(UserSupplyNotFound))
    else if !MulDivFits(amount, ONE, s.supplyIndex) then Outcome(b, Panicked)
    else
      var u := b.supplies[caller];
      var shares := MulDiv(amount, ONE, s.supplyIndex);
      var health := HealthCheck(b, caller, asset, manager);
      if shares > u.shares then Outcome(b, Refused(InsufficientShares))
      else if amount > s.totalSupply then Outcome(b, Refused(InsufficientLiquidity))
      else if !health.Done? then Outcome(b, health)
      else if !InI128(u.shares - shares) || !InI128(u.principal - amount) || !InI128(s.totalSupply - amount) then
        Outcome(b, Panicked)
      else
        var b' := b.(supplies := b.supplies[caller := UserSupply(u.shares - shares, u.principal - amount)],
                     state := s.(totalSupply := s.totalSupply - amount));
        match b.token
        case None => Outcome(b', Done(amount))
        case Some(token) =>
          match ST.Burned(token, {POOL_ADDRESS}, caller, shares)
          case None => Outcome(b, Panicked)
          case Some(burned) => Outcome(b'.(token := Some(burned)), Done(amount))
  }

  function Withdraw(b: Book, now: U64, caller: Address, asset: Address, amount: int,
                    manager: Option<CM.Vault>): Outcome
  {
    var entry := Entry(b, now, asset);
    if entry.Done? then Commit(b, WithdrawBody(Accrued(b, now), caller, asset, amount, manager)) else Outcome(b, entry)
  }

  function BorrowBody(b: Book, caller: Address, amount: int): Outcome {
    var s := b.state;
    var u := BorrowOf(b, caller);
    if !InI128(s.totalSupply - s.totalBorrow) then Outcome(b, Panicked)
    else if amount > s.totalSupply - s.totalBorrow then Outcome(b, Refused(InsufficientPoolLiquidity))
    else if !InI128(u.principal + amount) || !InI128(s.totalBorrow + amount) then Outcome(b, Panicked)
    else
      Outcome(b.(borrows := b.borrows[caller := u.(principal := u.principal + amount)],
                 state := s.(totalBorrow := s.totalBorrow + amount)), Done(0))
  }

  function Borrow(b: Book, now: U64, caller: Address, asset: Address, amount: int): Outcome {
    var entry := Entry(b, now, asset);
    if entry.Done? then Commit(b, BorrowBody(Accrued(b, now), caller, amount)) else Outcome(b, entry)
  }

  // A payment goes to the principal first; a payment that covers it settles the interest.
  function RepayBody(b: Book, borrower: Address, amount: int): Outcome {
    if borrower !in b.borrows then Outcome(b, Refused(UserBorrowNotFound)) else
      var s, u := b.state, b.borrows[borrower];
      var debt := u.principal + u.accruedInterest;
      var repaid := if amount > debt then debt else amount;
      var rest := repaid - u.principal;
      var covers := repaid >= u.principal;
      var payment := if covers then u.principal else repaid;
      if !InI128(debt)
         || (covers && (!InI128(rest) || !InI128(u.accruedInterest - rest)))
         || (!covers && !InI128(u.principal - repaid))
         || !InI128(s.totalBorrow - payment) then Outcome(b, Panicked)
      else
        var u' := if covers then u.(principal := 0, accruedInterest := u.accruedInterest - rest)
                  else u.(principal := u.principal - repaid);
        Outcome(b.(borrows := b.borrows[borrower := u'], state := s.(totalBorrow := s.totalBorrow - payment)),
                Done(repaid))
  }

  // By the borrower, or by a liquidator on the borrower's behalf.
  function Repay(b: Book, now: U64, borrower: Address, asset: Address, amount: int): Outcome {
    var entry := Entry(b, now, asset);
    if entry.Done? then Commit(b, RepayBody(Accrued(b, now), borrower, amount)) else Outcome(b, entry)
  }

  function Initialize(b: Book, now: U64, config: PoolConfig): Outcome {
    if b.config.Some? then Outcome(b, Refused(AlreadyInitialized)) else
      Outcome(b.(config := Some(config), state := NEW_STATE.(lastUpdate := now)), Done(0))
  }

  // The stored administrator must be among those who have authorized the call.
  predicate Administers(config: Option<PoolConfig>, signers: set<Address>) {
    config.Some? && config.value.admin in signers
  }

  function AttachToken(b: Book, signers: set<Address>, token: ST.Shares): Outcome {
    if Administers(b.config, signers) then Outcome(b.(token := Some(token)), Done(0)) else Outcome(b, Panicked)
  }

  // ---- The contract

  class Pool {
    var config: Option<PoolConfig>
    var state: PoolState
    var supplies: map<Address, UserSupply>
    var borrows: map<Address, UserBorrow>
    var stoken: ST.Token?
    var manager: CM.Manager?

    ghost function View(): Book
      reads this, stoken
    {
      Book(config, state, supplies, borrows, if stoken == null then None else Some(stoken.View()))
    }

    // The collateral manager as a withdrawal sees it.
    ghost function ManagerView(): Option<CM.Vault>
      reads this, manager, if manager == null then null else manager.oracle
    {
      if manager == null then None else Some(manager.View())
    }

    constructor ()
      ensures View() == NEW_BOOK && manager == null && stoken == null
    {
      config, state, supplies, borrows := None, NEW_STATE, map[], map[];
      stoken, manager := null, null;
    }

    method InitializePool(now: U64, config: PoolConfig) returns (r: Reply)
      modifies this`config, this`state
      ensures Outcome(View(), r) == Initialize(old(View()), now, config)
    {
      if this.config.Some? {
        return Refused(AlreadyInitialized);
      }
      this.config := Some(config);
      state := PoolState(0, 0, 0, ONE, ONE, now);
      return Done(0);
    }

    method SetStoken(signers: set<Address>, token: ST.Token) returns (r: Reply)
      modifies this`stoken
      ensures Outcome(View(), r) == AttachToken(old(View()), signers, token.View())
      ensures stoken == if r.Done? then token else old(stoken)
    {
      if config == None {
        return Panicked;
      }
      if config.value.admin !in signers {
        return Panicked;
      }
      stoken := token;
      return Done(0);
    }

    method SetCollateralManager(signers: set<Address>, manager: CM.Manager) returns (r: Reply)
      modifies this`manager
      ensures r == if Administers(config, signers) then Done(0) else Panicked
      ensures this.manager == if r.Done? then manager else old(this.manager)
    {
      if config == None {
        return Panicked;
      }
      if config.value.admin !in signers {
        return Panicked;
      }
      this.manager := manager;
      return Done(0);
    }

    method AccrueInterest(now: U64) returns (ok: bool)
      requires config.Some?
      modifies this`state
      ensures ok <==> AccrualFits(config.value, old(state), now)
      ensures state == if ok then Accrue(config.value, old(state), now) else old(state)
    {
      if now < state.lastUpdate {
        return false;
      }
      var timeDiff := now - state.lastUpdate;
      if timeDiff == 0 {
        return true;
      }
      if !UtilizationFits(state.totalSupply, state.totalBorrow) {
        return false;
      }
      var utilization := Utilization(state.totalSupply, state.totalBorrow);
      if !BorrowRateFits(config.value.rates, utilization) {
        return false;
      }
      var borrowRate := BorrowRate(config.value.rates, utilization);
      if !MulDivFits(borrowRate, timeDiff, SECONDS_PER_YEAR) {
        return false;
      }
      var ratePerSecond := MulDiv(borrowRate, timeDiff, SECONDS_PER_YEAR);
      if !MulDivFits(state.totalBorrow, ratePerSecond, ONE) {
        return false;
      }
      var borrowInterest := MulDiv(state.totalBorrow, ratePerSecond, ONE);
      if !MulDivFits(borrowInterest, config.value.reserveFactor, ONE) {
        return false;
      }
      var reserve := MulDiv(borrowInterest, config.value.reserveFactor, ONE);
      if !InI128(state.totalBorrow + borrowInterest) || !InI128(state.totalReserves + reserve)
         || !InI128(ONE + ratePerSecond)
         || !MulDivFits(state.supplyIndex, ONE + ratePerSecond, ONE)
         || !MulDivFits(state.borrowIndex, ONE + ratePerSecond, ONE)
         || !SupplyRateFits(config.value.rates, utilization, config.value.reserveFactor) {
        return false;
      }
      state := state.(totalBorrow := state.totalBorrow + borrowInterest,
                      totalReserves := state.totalReserves + reserve,
                      supplyIndex := MulDiv(state.supplyIndex, ONE + ratePerSecond, ONE),
                      borrowIndex := MulDiv(state.borrowIndex, ONE + ratePerSecond, ONE),
                      lastUpdate := now);
      return true;
    }

    // The common prefix of the operations.
    method Enter(now: U64, asset: Address) returns (r: Reply)
      modifies this`state
      ensures r == Entry(old(View()), now, asset)
      ensures View() == if r.Done? then Accrued(old(View()), now) else old(View())
    {
      if config == None {
        return Panicked;
      }
      if !config.value.isActive {
        return Refused(PoolNotActive);
      }
      if config.value.asset != asset {
        return Refused(AssetMismatch);
      }
      var ok := AccrueInterest(now);
      return if ok then Done(0) else Panicked;
    }

    method SupplyAsset(now: U64, caller: Address, asset: Address, amount: int) returns (r: Reply)
      modifies this`state, this`supplies, stoken
      ensures Outcome(View(), r) == Supply(old(View()), now, caller, asset, amount)
    {
      var before := state;
      r := Enter(now, asset);
      if r.Done? {
        r := CreditSupply(caller, amount);
        if !r.Done? {
          state := before;  // the host discards everything a failed call wrote
        }
      }
    }

    method CreditSupply(caller: Address, amount: int) returns (r: Reply)
      modifies this`state, this`supplies, stoken
      ensures Outcome(View(), r) == SupplyBody(old(View()), caller, amount)
    {
      if state.totalSupply != 0 && !MulDivFits(amount, state.supplyIndex, ONE) {
        return Panicked;
      }
      var shares := if state.totalSupply == 0 then amount else MulDiv(amount, state.supplyIndex, ONE);
      var userSupply := if caller in supplies then supplies[caller] else UserSupply(0, 0);
      if !InI128(userSupply.shares + shares) || !InI128(userSupply.principal + amount)
         || !InI128(state.totalSupply + amount) {
        return Panicked;
      }
      var stateBefore, suppliesBefore := state, supplies;
      supplies := supplies[caller := UserSupply(userSupply.shares + shares, userSupply.principal + amount)];
      state := state.(totalSupply := state.totalSupply + amount);
      if stoken != null {
        var ok := stoken.Mint({POOL_ADDRESS}, caller, shares);
        if !ok {
          state, supplies := stateBefore, suppliesBefore;
          return Panicked;
        }
      }
      return Done(shares);
    }

    method CheckHealth(user: Address, asset: Address) returns (r: Reply)
      ensures r == HealthCheck(View(), user, asset, ManagerView())
    {
      if manager != null && user in borrows {
        var debt := borrows[user].principal + borrows[user].accruedInterest;
        if !InI128(debt) {
          return Panicked;
        }
        if debt > 0 {
          var price := manager.GetPrice(asset);
          if !MulDivFits(debt, price, ONE) {
            return Panicked;
          }
          var health := manager.GetHealthFactor(user, MulDiv(debt, price, ONE));
          if health == None {
            return Panicked;
          }
          if health.value < ONE {
            return Refused(InsufficientCollateral);
          }
        }
      }
      return Done(0);
    }

    method WithdrawAsset(now: U64, caller: Address, asset: Address, amount: int) returns (r: Reply)
      modifies this`state, this`supplies, stoken
      ensures Outcome(View(), r) == Withdraw(old(View()), now, caller, asset, amount, old(ManagerView()))
    {
      var before := state;
      r := Enter(now, asset);
      if r.Done? {
        assert ManagerView() == old(ManagerView());
        r := DebitSupply(caller, asset, amount);
        if !r.Done? {
          state := before;
        }
      }
    }

    method DebitSupply(caller: Address, asset: Address, amount: int) returns (r: Reply)
      modifies this`state, this`supplies, stoken
      ensures Outcome(View(), r) == WithdrawBody(old(View()), caller, asset, amount, old(ManagerView()))
    {
      if caller !in supplies {
        return Refused(UserSupplyNotFound);
      }
      var userSupply := supplies[caller];
      if !MulDivFits(amount, ONE, state.supplyIndex) {
        return Panicked;
      }
      var shares := MulDiv(amount, ONE, state.supplyIndex);
      if shares > userSupply.shares {
        return Refused(InsufficientShares);
      }
      if amount > state.totalSupply {
        return Refused(InsufficientLiquidity);
      }
      r := CheckHealth(caller, asset);
      if !r.Done? {
        return;
      }
      if !InI128(userSupply.shares - shares) || !InI128(userSupply.principal - amount)
         || !InI128(state.totalSupply - amount) {
        return Panicked;
      }
      var stateBefore, suppliesBefore := state, supplies;
      supplies := supplies[caller := UserSupply(userSupply.shares - shares, userSupply.principal - amount)];
      state := state.(totalSupply := state.totalSupply - amount);
      if stoken != null {
        var ok := stoken.Burn({POOL_ADDRESS}, caller, shares);
        if !ok {
          state, supplies := stateBefore, suppliesBefore;
          return Panicked;
        }
      }
      return Done(amount);
    }

    method BorrowAsset(now: U64, caller: Address, asset: Address, amount: int) returns (r: Reply)
      modifies this`state, this`borrows
      ensures Outcome(View(), r) == Borrow(old(View()), now, caller, asset, amount)
    {
      var before := state;
      r := Enter(now, asset);
      if r.Done? {
        r := ChargeDebt(caller, amount);
        if !r.Done? {
          state := before;
        }
      }
    }

    method ChargeDebt(caller: Address, amount: int) returns (r: Reply)
      modifies this`state, this`borrows
      ensures Outcome(View(), r) == BorrowBody(old(View()), caller, amount)
    {
      var availableLiquidity := state.totalSupply - state.totalBorrow;
      if !InI128(availableLiquidity) {
        return Panicked;
      }
      if amount > availableLiquidity {
        return Refused(InsufficientPoolLiquidity);
      }
      var userBorrow := if caller in borrows then borrows[caller] else UserBorrow(0, state.borrowIndex, 0);
      if !InI128(userBorrow.principal + amount) || !InI128(state.totalBorrow + amount) {
        return Panicked;
      }
      borrows := borrows[caller := userBorrow.(principal := userBorrow.principal + amount)];
      state := state.(totalBorrow := state.totalBorrow + amount);
      return Done(0);
    }

    method SettleDebt(borrower: Address, amount: int) returns (r: Reply)
      modifies this`state, this`borrows
      ensures Outcome(View(), r) == RepayBody(old(View()), borrower, amount)
    {
      if borrower !in borrows {
        return Refused(UserBorrowNotFound);
      }
      var userBorrow := borrows[borrower];
      var totalDebt := userBorrow.principal + userBorrow.accruedInterest;
      if !InI128(totalDebt) {
        return Panicked;
      }
      var repayAmount := if amount > totalDebt then totalDebt else amount;
      var principalPayment;
      if repayAmount >= userBorrow.principal {
        var remaining := repayAmount - userBorrow.principal;
        if !InI128(remaining) || !InI128(userBorrow.accruedInterest - remaining) {
          return Panicked;
        }
        principalPayment := userBorrow.principal;
        userBorrow := userBorrow.(accruedInterest := userBorrow.accruedInterest - remaining, principal := 0);
      } else {
        if !InI128(userBorrow.principal - repayAmount) {
          return Panicked;
        }
        userBorrow := userBorrow.(principal := userBorrow.principal - repayAmount);
        principalPayment := repayAmount;
      }
      if !InI128(state.totalBorrow - principalPayment) {
        return Panicked;
      }
      state := state.(totalBorrow := state.totalBorrow - principalPayment);
      borrows := borrows[borrower := userBorrow];
      return Done(repayAmount);
    }

    method RepayAsset(now: U64, caller: Address, asset: Address, amount: int) returns (r: Reply)
      modifies this`state, this`borrows
      ensures Outcome(View(), r) == Repay(old(View()), now, caller, asset, amount)
    {
      var before := state;
      r := Enter(now, asset);
      if r.Done? {
        r := SettleDebt(caller, amount);
        if !r.Done? {
          state := before;
        }
      }
    }

    method LiquidateRepay(now: U64, liquidator: Address, borrower: Address, asset: Address, amount: int)
      returns (r: Reply)
      modifies this`state, this`borrows
      ensures Outcome(View(), r) == Repay(old(View()), now, borrower, asset, amount)
    {
      var before := state;
      r := Enter(now, asset);
      if r.Done? {
        r := SettleDebt(borrower, amount);
        if !r.Done? {
          state := before;
        }
      }
    }
  }
}
