// What a pool in a reachable state answers: the exact reply to every call, with amounts of
// any size, the book it leaves, and what one call undoes of another.
module PoolReplies {
  import opened FixedPoint
  import opened Ledgers
  import opened LendingPool
  import opened PoolRuns
  import opened PoolTheorems
  import opened AccrualTheorems
  import CM = CollateralManager
  import ST = SToken

  // ---- Administration and the checks common to all operations

  // A pool is initialized once, into empty totals, unit indices and the clock of the call.
  lemma InitializeDecided(calls: seq<Call>, now: U64, config: PoolConfig)
    ensures var b := Run(NEW_BOOK, calls);
            Initialize(b, now, config) ==
            if b.config.Some? then Outcome(b, Refused(AlreadyInitialized))
            else Outcome(Book(Some(config), PoolState(0, 0, 0, ONE, ONE, now), map[], map[], None), Done(0))
  {
    RunBalances(calls);
    NoTokenBefore(calls);
  }

  lemma {:induction false} NoTokenBefore(calls: seq<Call>)
    ensures Run(NEW_BOOK, calls).config == None ==> Run(NEW_BOOK, calls).token == None
  {
    if calls != [] {
      NoTokenBefore(calls[..|calls| - 1]);
      if Run(NEW_BOOK, calls).config == None {
        UninitializedKeeps(Run(NEW_BOOK, calls[..|calls| - 1]), calls[|calls| - 1]);
      }
    }
  }

  lemma UninitializedKeeps(b: Book, c: Call)
    requires Apply(b, c).book.config == None
    ensures Apply(b, c).book == b
  {
  }

  // The administrator's signature is what attaching a token takes, and all it takes.
  lemma AttachDecided(b: Book, signers: set<Address>, token: ST.Shares)
    ensures b.config.Some? && b.config.value.admin in signers ==>
              AttachToken(b, signers, token) == Outcome(b.(token := Some(token)), Done(0))
    ensures b.config == None || b.config.value.admin !in signers ==>
              AttachToken(b, signers, token) == Outcome(b, Panicked)
  {
  }

  // What an operation is stopped by before it looks at its amount.
  function GateReply(b: Book, now: U64, asset: Address): Reply {
    match b.config
    case None => Panicked
    case Some(c) =>
      if !c.isActive then Refused(PoolNotActive)
      else if c.asset != asset then Refused(AssetMismatch)
      else if now < b.state.lastUpdate then Panicked
      else if now > b.state.lastUpdate && !WithinRange(c, b.state, now) then Panicked
      else Done(0)
  }

  lemma EntryDecided(calls: seq<Call>, now: U64, asset: Address)
    requires AllSensible(calls)
    ensures var b := Run(NEW_BOOK, calls); Entry(b, now, asset) == GateReply(b, now, asset)
  {
    RunHealthy(calls);
    var b := Run(NEW_BOOK, calls);
    if b.config.Some? {
      AccrualFitsIff(b.config.value, b.state, now);
    }
  }

  // In every reachable state every operation is stopped by exactly these checks, in this
  // order, and then leaves no trace.
  lemma StoppedAtGate(calls: seq<Call>, c: Call)
    requires AllSensible(calls) && Operates(c)
    ensures var b := Run(NEW_BOOK, calls);
            !GateReply(b, c.now, c.asset).Done? ==> Apply(b, c) == Outcome(b, GateReply(b, c.now, c.asset))
  {
    EntryDecided(calls, c.now, c.asset);
  }

  // ---- Supplies

  // The user's principal and the supply total changed by `amount`, the user's shares, and
  // the token's if one is attached, by `shares`.
  function SupplyChanged(e: Book, user: Address, amount: int, shares: int): Book {
    var u := SupplyOf(e, user);
    e.(state := e.state.(totalSupply := e.state.totalSupply + amount),
       supplies := e.supplies[user := UserSupply(u.shares + shares, u.principal + amount)],
       token := TokenChanged(e.token, user, shares))
  }

  function TokenChanged(token: Option<ST.Shares>, user: Address, shares: int): Option<ST.Shares> {
    match token
    case None => None
    case Some(t) => Some(t.(balances := t.balances[user := Get(t.balances, user) + shares], total := t.total + shares))
  }

  // The first supply to an empty pool is credited one to one, any other at the index.
  predicate Credits(e: Book, amount: int, shares: int) {
    if e.state.totalSupply == 0 then shares == amount else IsTruncated(shares, amount * e.state.supplyIndex, ONE)
  }

  // The token lets the pool move the user's shares, here up or down.
  predicate TokenAllows(token: Option<ST.Shares>, user: Address, shares: int) {
    token.Some? ==>
      && token.value.admin == Some(POOL_ADDRESS)
      && InI128(Get(token.value.balances, user) + shares)
      && InI128(token.value.total + shares)
  }

  predicate RecordInRange(e: Book, user: Address, amount: int, shares: int) {
    && InI128(SupplyOf(e, user).shares + shares)
    && InI128(SupplyOf(e, user).principal + amount)
    && InI128(e.state.totalSupply + amount)
  }

  lemma MintDecided(t: ST.Shares, user: Address, shares: int)
    ensures ST.Minted(t, {POOL_ADDRESS}, user, shares)
         == if TokenAllows(Some(t), user, shares) then TokenChanged(Some(t), user, shares) else None
  {
  }

  // From any book and for any amount, negative ones included.
  lemma SupplyBodyDecided(e: Book, caller: Address, amount: int, shares: int)
    requires Credits(e, amount, shares)
    ensures SupplyBody(e, caller, amount) ==
            if (e.state.totalSupply != 0 ==> InI128(amount * e.state.supplyIndex))
               && RecordInRange(e, caller, amount, shares) && TokenAllows(e.token, caller, shares)
            then Outcome(SupplyChanged(e, caller, amount, shares), Done(shares)) else Outcome(e, Panicked)
  {
    if e.state.totalSupply != 0 {
      MulDivMeaning(amount, e.state.supplyIndex, ONE);
      TruncatedUnique(shares, MulDiv(amount, e.state.supplyIndex, ONE), amount * e.state.supplyIndex, ONE);
    }
    if e.token.Some? {
      MintDecided(e.token.value, caller, shares);
    }
  }

  // What is left of these conditions where shares, totals and token are in order.
  predicate SupplyWithinRange(e: Book, user: Address, amount: int, shares: int) {
    && (e.state.totalSupply > 0 ==> amount * e.state.supplyIndex <= I128_MAX)
    && SupplyOf(e, user).shares + shares <= I128_MAX
    && e.state.totalSupply + amount <= I128_MAX
    && (e.token.Some? ==> e.token.value.total + shares <= I128_MAX)
  }

  lemma CreditedShares(e: Book, amount: int, shares: int)
    requires Sane(e) && amount >= 0 && Credits(e, amount, shares)
    ensures shares >= amount
    ensures InI128(amount * e.state.supplyIndex) <==> amount * e.state.supplyIndex <= I128_MAX
  {
    MulNonNegative(amount, e.state.supplyIndex);
    if e.state.totalSupply > 0 {
      MulDivMeaning(amount, e.state.supplyIndex, ONE);
      TruncatedUnique(shares, MulDiv(amount, e.state.supplyIndex, ONE), amount * e.state.supplyIndex, ONE);
      MulDivGrows(amount, e.state.supplyIndex, ONE);
    }
  }

  lemma SharesTotalled(e: Book, user: Address)
    requires Sane(e) && TokenMatches(e)
    ensures e.token.value.admin == Some(POOL_ADDRESS) && e.token.value.total >= 0
    ensures Get(e.token.value.balances, user) == SupplyOf(e, user).shares >= 0
  {
    SumNonNegative(ShareHoldings(e));
  }

  lemma RangeInOrder(e: Book, caller: Address, amount: int, shares: int)
    requires Sane(e) && (e.token.Some? ==> TokenMatches(e)) && amount >= 0 && shares >= amount
    ensures RecordInRange(e, caller, amount, shares) && TokenAllows(e.token, caller, shares) <==>
              && SupplyOf(e, caller).shares + shares <= I128_MAX
              && e.state.totalSupply + amount <= I128_MAX
              && (e.token.Some? ==> e.token.value.total + shares <= I128_MAX)
  {
    if e.token.Some? {
      SharesTotalled(e, caller);
    }
  }

  // In every reachable state of a pool without a token, or with one attached fresh, and
  // past the entry checks: a supply is never refused, it panics only where a product or a
  // total leaves the range, and otherwise credits exactly these shares.
  lemma SupplyDecided(calls: seq<Call>, now: U64, caller: Address, asset: Address, amount: int, shares: int)
    requires AllSensible(calls) && AttachedFresh(calls) && amount >= 0
    requires Entry(Run(NEW_BOOK, calls), now, asset).Done?
    requires Credits(Accrued(Run(NEW_BOOK, calls), now), amount, shares)
    ensures var b := Run(NEW_BOOK, calls);
            var e := Accrued(b, now);
            Supply(b, now, caller, asset, amount) ==
            if SupplyWithinRange(e, caller, amount, shares)
            then Outcome(SupplyChanged(e, caller, amount, shares), Done(shares)) else Outcome(b, Panicked)
  {
    EnteredSane(calls, now);
    EnteredMatches(calls, now);
    var e := Accrued(Run(NEW_BOOK, calls), now);
    CreditedShares(e, amount, shares);
    RangeInOrder(e, caller, amount, shares);
    SupplyBodyDecided(e, caller, amount, shares);
  }

  // ---- Withdrawals

  // The shares a withdrawal burns, without the rounding.
  lemma BurnsAtMost(amount: int, index: int, shares: int)
    requires amount >= 0 && index > 0
    ensures MulDiv(amount, ONE, index) <= shares <==> amount * ONE < (shares + 1) * index
  {
    FloorGreatest(amount, ONE, index, shares + 1);
  }

  // The reply to a withdrawal after the accrual: a matter of scale, of the user's shares,
  // of the supply total and of the collateral manager, in this order.
  function DecidedReply(e: Book, caller: Address, amount: int, health: Reply): Reply
    requires caller in e.supplies
  {
    var u := e.supplies[caller];
    if !InI128(amount * ONE) then Panicked
    else if amount * ONE >= (u.shares + 1) * e.state.supplyIndex then Refused(InsufficientShares)
    else if amount > e.state.totalSupply then Refused(InsufficientLiquidity)
    else if !health.Done? then health
    else if !InI128(u.principal - amount) then Panicked
    else Done(amount)
  }

  lemma ScaleFits(amount: int, index: int)
    requires amount >= 0 && index >= ONE
    ensures MulDivFits(amount, ONE, index) <==> InI128(amount * ONE)
  {
    MulDivShrinks(amount, ONE, index);
  }

  lemma DetachedDecided(e: Book, caller: Address, asset: Address, amount: int, manager: Option<CM.Vault>)
    requires Sane(e) && caller in e.supplies && amount >= 0 && e.token == None
    ensures WithdrawBody(e, caller, asset, amount, manager).reply
         == DecidedReply(e, caller, amount, HealthCheck(e, caller, asset, manager))
  {
    ScaleFits(amount, e.state.supplyIndex);
    BurnsAtMost(amount, e.state.supplyIndex, e.supplies[caller].shares);
    MulDivShrinks(amount, ONE, e.state.supplyIndex);
  }

  lemma BodyDecided(e: Book, caller: Address, asset: Address, amount: int, manager: Option<CM.Vault>)
    requires Sane(e) && caller in e.supplies && amount >= 0
    requires e.token.Some? ==> TokenMatches(e)
    ensures WithdrawBody(e, caller, asset, amount, manager).reply
         == DecidedReply(e, caller, amount, HealthCheck(e, caller, asset, manager))
  {
    if e.token.Some? {
      BodyBurnNeverPanics(e, caller, asset, amount, manager);
      DetachedDecided(e.(token := None), caller, asset, amount, manager);
    } else {
      DetachedDecided(e, caller, asset, amount, manager);
    }
  }

  lemma WithdrawalDecidedGiven(calls: seq<Call>, now: U64, caller: Address, asset: Address, amount: int,
                               manager: Option<CM.Vault>)
    requires AllSensible(calls) && amount >= 0
    requires var b := Run(NEW_BOOK, calls);
             caller in b.supplies && (b.token.Some? ==> TokenMatches(b)) && Entry(b, now, asset).Done?
    ensures var b := Run(NEW_BOOK, calls);
            Withdraw(b, now, caller, asset, amount, manager).reply
            == DecidedReply(Accrued(b, now), caller, amount, HealthCheck(Accrued(b, now), caller, asset, manager))
  {
    var b := Run(NEW_BOOK, calls);
    EnteredSane(calls, now);
    if b.token.Some? {
      TokenUntouched(b, Accrued(b, now));
    }
    BodyDecided(Accrued(b, now), caller, asset, amount, manager);
  }

  // In every reachable state of a pool with no token, or with one attached fresh before
  // anybody supplied: the reply to a supplier's withdrawal, of whatever amount, that
  // passes the entry checks.
  lemma WithdrawalDecided(calls: seq<Call>, now: U64, caller: Address, asset: Address, amount: int,
                          manager: Option<CM.Vault>)
    requires AllSensible(calls) && AttachedFresh(calls) && amount >= 0
    requires var b := Run(NEW_BOOK, calls);
             caller in b.supplies && Entry(b, now, asset).Done?
    ensures var b := Run(NEW_BOOK, calls);
            Withdraw(b, now, caller, asset, amount, manager).reply
            == DecidedReply(Accrued(b, now), caller, amount, HealthCheck(Accrued(b, now), caller, asset, manager))
  {
    TokenAlwaysMatches(calls);
    WithdrawalDecidedGiven(calls, now, caller, asset, amount, manager);
  }

  lemma BurnDecided(t: ST.Shares, user: Address, shares: int)
    ensures ST.Burned(t, {POOL_ADDRESS}, user, shares)
         == if TokenAllows(Some(t), user, -shares) && shares <= Get(t.balances, user)
            then TokenChanged(Some(t), user, -shares) else None
  {
  }

  // From any book with a positive index and for any amount, negative ones included.
  lemma WithdrawBodyDecided(e: Book, caller: Address, asset: Address, amount: int, manager: Option<CM.Vault>,
                            burned: int)
    requires e.state.supplyIndex > 0 && IsTruncated(burned, amount * ONE, e.state.supplyIndex)
    ensures var health := HealthCheck(e, caller, asset, manager);
            WithdrawBody(e, caller, asset, amount, manager) ==
            if caller !in e.supplies then Outcome(e, Refused(UserSupplyNotFound))
            else if !InI128(amount * ONE) then Outcome(e, Panicked)
            else if burned > SupplyOf(e, caller).shares then Outcome(e, Refused(InsufficientShares))
            else if amount > e.state.totalSupply then Outcome(e, Refused(InsufficientLiquidity))
            else if !health.Done? then Outcome(e, health)
            else if RecordInRange(e, caller, -amount, -burned) && TokenAllows(e.token, caller, -burned)
                    && (e.token.Some? ==> burned <= Get(e.token.value.balances, caller))
            then Outcome(SupplyChanged(e, caller, -amount, -burned), Done(amount))
            else Outcome(e, Panicked)
  {
    MulDivMeaning(amount, ONE, e.state.supplyIndex);
    TruncatedUnique(burned, MulDiv(amount, ONE, e.state.supplyIndex), amount * ONE, e.state.supplyIndex);
    if e.token.Some? {
      BurnDecided(e.token.value, caller, burned);
    }
  }

  lemma WithdrawalCommitted(b: Book, now: U64, caller: Address, asset: Address, amount: int, manager: Option<CM.Vault>)
    requires Withdraw(b, now, caller, asset, amount, manager).reply.Done?
    ensures b.config.Some? && now >= b.state.lastUpdate
    ensures Withdraw(b, now, caller, asset, amount, manager)
         == WithdrawBody(Accrued(b, now), caller, asset, amount, manager)
  {
  }

  // A withdrawal that goes through, of an amount of any sign, takes it off principal and
  // total, and its worth in shares, rounded towards zero, off pool and token.
  lemma WithdrawalTakesShares(calls: seq<Call>, now: U64, caller: Address, asset: Address, amount: int,
                              manager: Option<CM.Vault>, burned: int)
    requires AllSensible(calls) && Withdraw(Run(NEW_BOOK, calls), now, caller, asset, amount, manager).reply.Done?
    requires var b := Run(NEW_BOOK, calls);
             b.config.Some? && IsTruncated(burned, amount * ONE, Accrued(b, now).state.supplyIndex)
    ensures var b := Run(NEW_BOOK, calls);
            Withdraw(b, now, caller, asset, amount, manager)
            == Outcome(SupplyChanged(Accrued(b, now), caller, -amount, -burned), Done(amount))
  {
    WithdrawalCommitted(Run(NEW_BOOK, calls), now, caller, asset, amount, manager);
    EnteredSane(calls, now);
    WithdrawBodyDecided(Accrued(Run(NEW_BOOK, calls), now), caller, asset, amount, manager, burned);
  }

  lemma WithinShares(e: Book, caller: Address, amount: int)
    requires Sane(e) && caller in e.supplies && 0 <= amount <= e.supplies[caller].principal
    ensures MulDiv(amount, ONE, e.state.supplyIndex) <= e.supplies[caller].shares
    ensures amount * ONE < (e.supplies[caller].shares + 1) * e.state.supplyIndex
  {
    MulDivShrinks(amount, ONE, e.state.supplyIndex);
    BurnsAtMost(amount, e.state.supplyIndex, e.supplies[caller].shares);
  }

  // Up to one's principal shares do not come into it: the withdrawal goes through unless
  // the amount is too large to scale, exceeds the supply total, or the manager objects.
  lemma WithinPrincipalDecided(calls: seq<Call>, now: U64, caller: Address, asset: Address, amount: int,
                               manager: Option<CM.Vault>)
    requires AllSensible(calls) && AttachedFresh(calls)
    requires var b := Run(NEW_BOOK, calls);
             && caller in b.supplies
             && 0 <= amount <= b.supplies[caller].principal
             && Entry(b, now, asset).Done?
    ensures var b := Run(NEW_BOOK, calls);
            var e := Accrued(b, now);
            var health := HealthCheck(e, caller, asset, manager);
            Withdraw(b, now, caller, asset, amount, manager).reply ==
            if !InI128(amount * ONE) then Panicked
            else if amount > e.state.totalSupply then Refused(InsufficientLiquidity)
            else if !health.Done? then health
            else Done(amount)
  {
    EnteredSane(calls, now);
    WithinShares(Accrued(Run(NEW_BOOK, calls), now), caller, amount);
    WithdrawalDecided(calls, now, caller, asset, amount, manager);
  }

  // Whatever token is attached and whenever, a withdrawal of up to one's principal is
  // never refused for want of shares.
  lemma NeverShortOfShares(calls: seq<Call>, now: U64, caller: Address, asset: Address, amount: int,
                           manager: Option<CM.Vault>)
    requires AllSensible(calls)
    requires var b := Run(NEW_BOOK, calls);
             caller in b.supplies && 0 <= amount <= b.supplies[caller].principal
    ensures Withdraw(Run(NEW_BOOK, calls), now, caller, asset, amount, manager).reply != Refused(InsufficientShares)
  {
    var b := Run(NEW_BOOK, calls);
    if Entry(b, now, asset).Done? {
      EnteredSane(calls, now);
      WithinShares(Accrued(b, now), caller, amount);
    }
  }

  // A refusal for want of liquidity means that somebody has withdrawn more than they
  // ever supplied, out of the growth of the index.
  lemma LiquidityRefusalMeansOverdrawn(calls: seq<Call>, caller: Address, amount: int)
    requires AllSensible(calls)
    requires var b := Run(NEW_BOOK, calls);
             caller in b.supplies && b.state.totalSupply < amount <= b.supplies[caller].principal
    ensures exists u :: u in Run(NEW_BOOK, calls).supplies && Run(NEW_BOOK, calls).supplies[u].principal < 0
  {
    var b := Run(NEW_BOOK, calls);
    RunHealthy(calls);
    if forall u :: u in b.supplies ==> b.supplies[u].principal >= 0 {
      SumAtLeastEntry(SupplyPrincipals(b), caller);
      assert false;
    }
  }

  // ---- Loans and repayments

  lemma StepKeepsRange(b: Book, c: Call)
    requires InI128(b.state.totalBorrow)
    ensures InI128(Apply(b, c).book.state.totalBorrow)
  {
  }

  // For all calls whatsoever.
  lemma {:induction false} BorrowTotalInRange(calls: seq<Call>)
    ensures InI128(Run(NEW_BOOK, calls).state.totalBorrow)
  {
    if calls != [] {
      BorrowTotalInRange(calls[..|calls| - 1]);
      StepKeepsRange(Run(NEW_BOOK, calls[..|calls| - 1]), calls[|calls| - 1]);
    }
  }

  lemma AccruedTotal(b: Book, now: U64, asset: Address)
    requires Sane(b) && InI128(b.state.totalBorrow) && Entry(b, now, asset).Done?
    ensures b.state.totalBorrow <= Accrued(b, now).state.totalBorrow <= I128_MAX
  {
    if now != b.state.lastUpdate {
      AccrualNonNegative(b.config.value, b.state, now);
    }
  }

  // Nobody owes more than the pool has lent.
  lemma EnteredDebt(calls: seq<Call>, now: U64, asset: Address, user: Address)
    requires AllSensible(calls) && Entry(Run(NEW_BOOK, calls), now, asset).Done?
    ensures var e := Accrued(Run(NEW_BOOK, calls), now);
            && 0 <= BorrowOf(e, user).principal <= e.state.totalBorrow <= I128_MAX
            && BorrowOf(e, user).accruedInterest == 0
            && 0 <= e.state.totalSupply <= I128_MAX
  {
    var b := Run(NEW_BOOK, calls);
    RunHealthy(calls);
    BorrowTotalInRange(calls);
    SumAtLeastEntry(BorrowPrincipals(b), user);
    AccruedTotal(b, now, asset);
  }

  // The user's debt, if need be a new one, and the borrow total changed by `amount`.
  function DebtChanged(e: Book, user: Address, amount: int): Book {
    var u := BorrowOf(e, user);
    e.(state := e.state.(totalBorrow := e.state.totalBorrow + amount),
       borrows := e.borrows[user := u.(principal := u.principal + amount)])
  }

  // Of an amount of any sign.
  lemma BorrowBodyDecided(e: Book, caller: Address, amount: int)
    requires 0 <= e.state.totalBorrow <= I128_MAX && 0 <= e.state.totalSupply <= I128_MAX
    ensures BorrowBody(e, caller, amount) ==
            if e.state.totalBorrow + amount > e.state.totalSupply
            then Outcome(e, Refused(InsufficientPoolLiquidity))
            else if InI128(BorrowOf(e, caller).principal + amount) && InI128(e.state.totalBorrow + amount)
            then Outcome(DebtChanged(e, caller, amount), Done(0))
            else Outcome(e, Panicked)
  {
  }

  lemma NewDebt(e: Book, user: Address, amount: int)
    ensures DebtChanged(e, user, amount).borrows
         == e.borrows[user := if user in e.borrows
                              then e.borrows[user].(principal := e.borrows[user].principal + amount)
                              else UserBorrow(amount, e.state.borrowIndex, 0)]
  {
  }

  // In every reachable state a loan that passes the entry checks is refused if it exceeds
  // what suppliers have put in and others have not borrowed, and granted otherwise: it
  // never panics, and the borrow total never passes the supply total by lending.
  lemma BorrowDecided(calls: seq<Call>, now: U64, caller: Address, asset: Address, amount: int)
    requires AllSensible(calls) && amount >= 0 && Entry(Run(NEW_BOOK, calls), now, asset).Done?
    ensures var b := Run(NEW_BOOK, calls);
            var e := Accrued(b, now);
            Borrow(b, now, caller, asset, amount) ==
            if e.state.totalBorrow + amount > e.state.totalSupply
            then Outcome(b, Refused(InsufficientPoolLiquidity))
            else Outcome(DebtChanged(e, caller, amount), Done(0))
  {
    EnteredDebt(calls, now, asset, caller);
    BorrowBodyDecided(Accrued(Run(NEW_BOOK, calls), now), caller, amount);
  }

  // A first loan is recorded at the index of the moment, a further one adds to the record.
  lemma BorrowRecorded(calls: seq<Call>, now: U64, caller: Address, asset: Address, amount: int)
    requires AllSensible(calls) && amount >= 0
    requires Borrow(Run(NEW_BOOK, calls), now, caller, asset, amount).reply.Done?
    ensures var b := Run(NEW_BOOK, calls);
            && b.config.Some?
            && Borrow(b, now, caller, asset, amount).book.borrows == b.borrows[caller :=
                 if caller in b.borrows
                 then b.borrows[caller].(principal := b.borrows[caller].principal + amount)
                 else UserBorrow(amount, Accrued(b, now).state.borrowIndex, 0)]
  {
    LoanGranted(calls, now, caller, asset, amount);
    NewDebt(Accrued(Run(NEW_BOOK, calls), now), caller, amount);
  }

  // How a payment of any sign is split: the principal first, the rest to the interest
  // recorded, never more than both; the borrow total falls by the principal's part alone.
  lemma PaymentSplit(e: Book, borrower: Address, amount: int)
    requires borrower in e.borrows
    requires InI128(e.borrows[borrower].principal) && InI128(e.borrows[borrower].accruedInterest)
    ensures var u := e.borrows[borrower];
            var debt := u.principal + u.accruedInterest;
            var paid := if amount <= debt then amount else debt;
            var off := if paid <= u.principal then paid else u.principal;
            RepayBody(e, borrower, amount) ==
            if InI128(debt) && InI128(paid - off) && InI128(u.accruedInterest - (paid - off))
               && InI128(u.principal - off) && InI128(e.state.totalBorrow - off)
            then Outcome(e.(state := e.state.(totalBorrow := e.state.totalBorrow - off),
                            borrows := e.borrows[borrower := u.(principal := u.principal - off,
                                                                accruedInterest := u.accruedInterest - (paid - off))]),
                         Done(paid))
            else Outcome(e, Panicked)
  {
  }

  lemma RepayBodyPays(e: Book, borrower: Address, amount: int)
    requires amount >= 0 && borrower in e.borrows
    requires 0 <= e.borrows[borrower].principal <= e.state.totalBorrow <= I128_MAX
    requires e.borrows[borrower].accruedInterest == 0
    ensures var principal := e.borrows[borrower].principal;
            var paid := if amount <= principal then amount else principal;
            RepayBody(e, borrower, amount) == Outcome(DebtChanged(e, borrower, -paid), Done(paid))
  {
    PaymentSplit(e, borrower, amount);
  }

  lemma RepayCommitted(b: Book, now: U64, borrower: Address, asset: Address, amount: int)
    requires Entry(b, now, asset).Done?
    ensures Repay(b, now, borrower, asset, amount) == Commit(b, RepayBody(Accrued(b, now), borrower, amount))
    ensures Accrued(b, now).borrows == b.borrows && BorrowOf(Accrued(b, now), borrower).principal
                                                    == BorrowOf(b, borrower).principal
    ensures borrower !in b.borrows ==>
              RepayBody(Accrued(b, now), borrower, amount).reply == Refused(UserBorrowNotFound)
  {
  }

  // In every reachable state a repayment that passes the entry checks, by the borrower or
  // on their behalf, is never refused to a borrower and never panics: it pays the amount
  // or, if that is less, the principal, off the borrow total and the principal alike.
  lemma RepayDecided(calls: seq<Call>, now: U64, borrower: Address, asset: Address, amount: int)
    requires AllSensible(calls) && amount >= 0 && Entry(Run(NEW_BOOK, calls), now, asset).Done?
    ensures var b := Run(NEW_BOOK, calls);
            var e, principal := Accrued(b, now), BorrowOf(b, borrower).principal;
            var paid := if amount <= principal then amount else principal;
            Repay(b, now, borrower, asset, amount) ==
            if borrower !in b.borrows then Outcome(b, Refused(UserBorrowNotFound))
            else Outcome(DebtChanged(e, borrower, -paid), Done(paid))
  {
    var b := Run(NEW_BOOK, calls);
    EnteredDebt(calls, now, asset, borrower);
    RepayCommitted(b, now, borrower, asset, amount);
    if borrower in b.borrows {
      RepayBodyPays(Accrued(b, now), borrower, amount);
    }
  }

  // ---- What one call undoes

  lemma EntryAgain(b: Book, now: U64, asset: Address)
    requires b.config.Some? && b.config.value.isActive && b.config.value.asset == asset
    requires b.state.lastUpdate == now
    ensures Entry(b, now, asset).Done? && Accrued(b, now) == b
  {
  }

  lemma DebtComesBack(e: Book, user: Address, amount: int)
    ensures DebtChanged(DebtChanged(e, user, amount), user, -amount)
         == e.(borrows := e.borrows[user := BorrowOf(e, user)])
  {
    assert e.borrows[user := DebtChanged(e, user, amount).borrows[user]][user := BorrowOf(e, user)]
        == e.borrows[user := BorrowOf(e, user)];
  }

  lemma LoanRepaid(e: Book, user: Address, amount: int)
    requires amount >= 0 && 0 <= BorrowOf(e, user).principal <= e.state.totalBorrow
    requires e.state.totalBorrow + amount <= I128_MAX && BorrowOf(e, user).accruedInterest == 0
    ensures RepayBody(DebtChanged(e, user, amount), user, amount)
         == Outcome(e.(borrows := e.borrows[user := BorrowOf(e, user)]), Done(amount))
  {
    RepayBodyPays(DebtChanged(e, user, amount), user, amount);
    DebtComesBack(e, user, amount);
  }

  lemma LoanGranted(calls: seq<Call>, now: U64, caller: Address, asset: Address, amount: int)
    requires AllSensible(calls) && amount >= 0
    requires Borrow(Run(NEW_BOOK, calls), now, caller, asset, amount).reply.Done?
    ensures var b := Run(NEW_BOOK, calls);
            && Entry(b, now, asset).Done?
            && Borrow(b, now, caller, asset, amount).book == DebtChanged(Accrued(b, now), caller, amount)
            && Accrued(b, now).state.totalBorrow + amount <= Accrued(b, now).state.totalSupply
  {
    BorrowDecided(calls, now, caller, asset, amount);
  }

  lemma RepayAgain(lent: Book, now: U64, caller: Address, asset: Address, amount: int)
    requires lent.config.Some? && lent.config.value.isActive && lent.config.value.asset == asset
    requires lent.state.lastUpdate == now
    ensures Repay(lent, now, caller, asset, amount) == Commit(lent, RepayBody(lent, caller, amount))
  {
    EntryAgain(lent, now, asset);
  }

  // In every reachable state: borrowing and repaying the same amount at once succeeds and
  // leaves the pool as the accrual alone would, the borrower's record included.
  lemma BorrowThenRepay(calls: seq<Call>, now: U64, caller: Address, asset: Address, amount: int)
    requires AllSensible(calls) && amount >= 0
    requires Borrow(Run(NEW_BOOK, calls), now, caller, asset, amount).reply.Done?
    ensures var b := Run(NEW_BOOK, calls);
            var e := Accrued(b, now);
            Repay(Borrow(b, now, caller, asset, amount).book, now, caller, asset, amount)
            == Outcome(e.(borrows := e.borrows[caller := BorrowOf(e, caller)]), Done(amount))
  {
    var e := Accrued(Run(NEW_BOOK, calls), now);
    LoanGranted(calls, now, caller, asset, amount);
    EnteredDebt(calls, now, asset, caller);
    LoanRepaid(e, caller, amount);
    RepayAgain(DebtChanged(e, caller, amount), now, caller, asset, amount);
  }

  // Shares bought and sold for one amount differ as soon as the index has moved: they are
  // minted at the index and burned at its inverse.
  lemma MintBurnDiffer(amount: int, index: int)
    requires amount >= 0 && index >= ONE
    ensures MulDiv(amount, index, ONE) == MulDiv(amount, ONE, index) <==> amount == 0 || index == ONE
    ensures MulDiv(amount, ONE, index) == amount <==> amount == 0 || index == ONE
  {
    MulDivGrows(amount, index, ONE);
    MulDivFloor(amount, ONE, index);
    MulDivShrinks(amount, ONE, index);
    MulDivGrows(amount, ONE, ONE);
    MulDivShrinks(amount, ONE, ONE);
    if amount > 0 && index > ONE {
      FloorGreatest(amount, ONE, index, amount);
      assert amount * ONE < amount * index by {
        MulOrder(ONE, index, amount);
        assert ONE * amount == amount * ONE && index * amount == amount * index;
      }
    }
  }

  // Totals and principal come back, whatever happens to the shares.
  lemma SupplyUndone(b: Book, caller: Address, asset: Address, amount: int, manager: Option<CM.Vault>)
    requires SupplyBody(b, caller, amount).reply.Done?
    requires WithdrawBody(SupplyBody(b, caller, amount).book, caller, asset, amount, manager).reply.Done?
    ensures var after := WithdrawBody(SupplyBody(b, caller, amount).book, caller, asset, amount, manager).book;
            && after.state == b.state
            && SupplyOf(after, caller).principal == SupplyOf(b, caller).principal
            && SupplyOf(after, caller).shares == SupplyOf(b, caller).shares
                 + SupplyBody(b, caller, amount).reply.value - MulDiv(amount, ONE, b.state.supplyIndex)
  {
  }

  lemma SharesMinted(b: Book, caller: Address, amount: int)
    requires SupplyBody(b, caller, amount).reply.Done?
    ensures SupplyBody(b, caller, amount).reply.value
         == if b.state.totalSupply == 0 then amount else MulDiv(amount, b.state.supplyIndex, ONE)
  {
  }

  // Supplying and withdrawing the same amount at once restores totals and principal, and
  // leaves the shares as they were if and only if nothing was moved or no interest has
  // ever been charged.
  lemma SupplyThenWithdraw(b: Book, caller: Address, asset: Address, amount: int, manager: Option<CM.Vault>)
    requires Sane(b) && amount >= 0 && SupplyBody(b, caller, amount).reply.Done?
    requires WithdrawBody(SupplyBody(b, caller, amount).book, caller, asset, amount, manager).reply.Done?
    ensures var after := WithdrawBody(SupplyBody(b, caller, amount).book, caller, asset, amount, manager).book;
            && after.state == b.state
            && SupplyOf(after, caller).principal == SupplyOf(b, caller).principal
            && SupplyOf(after, caller).shares >= SupplyOf(b, caller).shares
            && (SupplyOf(after, caller).shares == SupplyOf(b, caller).shares <==>
                  amount == 0 || b.state.supplyIndex == ONE)
  {
    SupplyUndone(b, caller, asset, amount, manager);
    SharesMinted(b, caller, amount);
    MintBurnDiffer(amount, b.state.supplyIndex);
    MulDivGrows(amount, b.state.supplyIndex, ONE);
    MulDivShrinks(amount, ONE, b.state.supplyIndex);
  }
}
