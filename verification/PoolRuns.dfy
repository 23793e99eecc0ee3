// Runs of the lending pool: every sequence of calls, successful or not, from deployment.
module PoolRuns {
  import opened FixedPoint
  import opened Ledgers
  import opened LendingPool
  import CM = CollateralManager
  import ST = SToken

  // `Withdraw` carries the collateral manager's state at the time, whatever it is.
  datatype Call =
    | InitCall(now: U64, config: PoolConfig)
    | AttachCall(signers: set<Address>, token: ST.Shares)
    | SupplyCall(now: U64, caller: Address, asset: Address, amount: int)
    | WithdrawCall(now: U64, caller: Address, asset: Address, amount: int, manager: Option<CM.Vault>)
    | BorrowCall(now: U64, caller: Address, asset: Address, amount: int)
    | RepayCall(now: U64, caller: Address, asset: Address, amount: int)
    | LiquidateCall(now: U64, liquidator: Address, borrower: Address, asset: Address, amount: int)

  function Apply(b: Book, c: Call): Outcome {
    match c
    case InitCall(now, config) => Initialize(b, now, config)
    case AttachCall(signers, token) => AttachToken(b, signers, token)
    case SupplyCall(now, caller, asset, amount) => Supply(b, now, caller, asset, amount)
    case WithdrawCall(now, caller, asset, amount, manager) => Withdraw(b, now, caller, asset, amount, manager)
    case BorrowCall(now, caller, asset, amount) => Borrow(b, now, caller, asset, amount)
    case RepayCall(now, caller, asset, amount) => Repay(b, now, caller, asset, amount)
    case LiquidateCall(now, _, borrower, asset, amount) => Repay(b, now, borrower, asset, amount)
  }

  function Run(b: Book, calls: seq<Call>): Book {
    if calls == [] then b else Apply(Run(b, calls[..|calls| - 1]), calls[|calls| - 1]).book
  }

  lemma RunPush(b: Book, calls: seq<Call>, c: Call)
    ensures Run(b, calls + [c]) == Apply(Run(b, calls), c).book
  {
    assert (calls + [c])[..|calls|] == calls;
  }

  predicate Operates(c: Call) {
    !c.InitCall? && !c.AttachCall?
  }

  // The accrual a call makes for good: none if it fails or no time has passed.
  function AccrualsBy(b: Book, c: Call): seq<Accrual> {
    if Operates(c) && b.config.Some? && Apply(b, c).reply.Done? && c.now != b.state.lastUpdate
    then [AccrualOf(b.config.value, b.state, c.now)] else []
  }

  function Accruals(b: Book, calls: seq<Call>): seq<Accrual> {
    if calls == [] then [] else
      var earlier := calls[..|calls| - 1];
      Accruals(b, earlier) + AccrualsBy(Run(b, earlier), calls[|calls| - 1])
  }

  // ---- Totals over users and over accruals

  function SupplyPrincipals(b: Book): map<Address, int> {
    map u | u in b.supplies :: b.supplies[u].principal
  }

  function ShareHoldings(b: Book): map<Address, int> {
    map u | u in b.supplies :: b.supplies[u].shares
  }

  function BorrowPrincipals(b: Book): map<Address, int> {
    map u | u in b.borrows :: b.borrows[u].principal
  }

  function TotalInterest(a: seq<Accrual>): int {
    if a == [] then 0 else TotalInterest(a[..|a| - 1]) + a[|a| - 1].interest
  }

  function TotalReserve(a: seq<Accrual>): int {
    if a == [] then 0 else TotalReserve(a[..|a| - 1]) + a[|a| - 1].reserve
  }

  function TotalRate(a: seq<Accrual>): int {
    if a == [] then 0 else TotalRate(a[..|a| - 1]) + a[|a| - 1].rate
  }

  function Compound(a: seq<Accrual>): int {
    if a == [] then 1 else (ONE + a[|a| - 1].rate) * Compound(a[..|a| - 1])
  }

  lemma OneMoreAccrual(a: seq<Accrual>, x: Accrual)
    ensures TotalInterest(a + [x]) == TotalInterest(a) + x.interest
    ensures TotalReserve(a + [x]) == TotalReserve(a) + x.reserve
    ensures TotalRate(a + [x]) == TotalRate(a) + x.rate
    ensures Compound(a + [x]) == (ONE + x.rate) * Compound(a)
  {
  }

  // ---- Conservation: for all calls whatsoever

  ghost predicate Balanced(b: Book, interest: int, reserve: int) {
    && (b.config == None ==> b.supplies == map[] && b.borrows == map[] && interest == reserve == 0)
    && b.state.totalSupply == Sum(SupplyPrincipals(b))
    && b.state.totalBorrow == Sum(BorrowPrincipals(b)) + interest
    && b.state.totalReserves == reserve
    && b.state.supplyIndex == b.state.borrowIndex
    && forall u :: u in b.borrows ==> b.borrows[u].accruedInterest == 0
  }

  lemma PrincipalsAfterSupply(b: Book, b': Book, user: Address, u: UserSupply)
    requires b'.supplies == b.supplies[user := u]
    ensures Sum(SupplyPrincipals(b')) == Sum(SupplyPrincipals(b)) - SupplyOf(b, user).principal + u.principal
  {
    assert SupplyPrincipals(b') == SupplyPrincipals(b)[user := u.principal];
    SumUpdate(SupplyPrincipals(b), user, u.principal);
  }

  lemma PrincipalsAfterBorrow(b: Book, b': Book, user: Address, u: UserBorrow)
    requires b'.borrows == b.borrows[user := u]
    ensures Sum(BorrowPrincipals(b')) == Sum(BorrowPrincipals(b)) - BorrowOf(b, user).principal + u.principal
  {
    assert BorrowPrincipals(b') == BorrowPrincipals(b)[user := u.principal];
    SumUpdate(BorrowPrincipals(b), user, u.principal);
  }

  lemma SupplyBalances(b: Book, caller: Address, amount: int, interest: int, reserve: int)
    requires b.config.Some? && Balanced(b, interest, reserve) && SupplyBody(b, caller, amount).reply.Done?
    ensures Balanced(SupplyBody(b, caller, amount).book, interest, reserve)
  {
    var b' := SupplyBody(b, caller, amount).book;
    PrincipalsAfterSupply(b, b', caller, b'.supplies[caller]);
  }

  lemma WithdrawBalances(b: Book, caller: Address, asset: Address, amount: int, manager: Option<CM.Vault>,
                         interest: int, reserve: int)
    requires b.config.Some? && Balanced(b, interest, reserve)
    requires WithdrawBody(b, caller, asset, amount, manager).reply.Done?
    ensures Balanced(WithdrawBody(b, caller, asset, amount, manager).book, interest, reserve)
  {
    var b' := WithdrawBody(b, caller, asset, amount, manager).book;
    PrincipalsAfterSupply(b, b', caller, b'.supplies[caller]);
  }

  lemma BorrowBalances(b: Book, caller: Address, amount: int, interest: int, reserve: int)
    requires b.config.Some? && Balanced(b, interest, reserve) && BorrowBody(b, caller, amount).reply.Done?
    ensures Balanced(BorrowBody(b, caller, amount).book, interest, reserve)
  {
    var b' := BorrowBody(b, caller, amount).book;
    PrincipalsAfterBorrow(b, b', caller, b'.borrows[caller]);
  }

  lemma RepayBalances(b: Book, borrower: Address, amount: int, interest: int, reserve: int)
    requires b.config.Some? && Balanced(b, interest, reserve) && RepayBody(b, borrower, amount).reply.Done?
    ensures Balanced(RepayBody(b, borrower, amount).book, interest, reserve)
  {
    var b' := RepayBody(b, borrower, amount).book;
    PrincipalsAfterBorrow(b, b', borrower, b'.borrows[borrower]);
  }

  lemma AccrualBalances(b: Book, now: U64, interest: int, reserve: int)
    requires b.config.Some? && Balanced(b, interest, reserve) && now != b.state.lastUpdate
    ensures var a := AccrualOf(b.config.value, b.state, now);
            Balanced(Accrued(b, now), interest + a.interest, reserve + a.reserve)
  {
  }

  lemma EnteredBalances(b: Book, c: Call, a: seq<Accrual>)
    requires Balanced(b, TotalInterest(a), TotalReserve(a))
    requires Operates(c) && Apply(b, c).reply.Done? && b.config.Some?
    ensures var a' := a + AccrualsBy(b, c);
            Balanced(Accrued(b, c.now), TotalInterest(a'), TotalReserve(a'))
  {
    if c.now == b.state.lastUpdate {
      assert a + [] == a;
      assert Accrued(b, c.now) == b;
    } else {
      AccrualBalances(b, c.now, TotalInterest(a), TotalReserve(a));
      OneMoreAccrual(a, AccrualOf(b.config.value, b.state, c.now));
    }
  }

  lemma OperationBalances(b: Book, c: Call, interest: int, reserve: int)
    requires Operates(c) && b.config.Some? && Apply(b, c).reply.Done?
    requires Balanced(Accrued(b, c.now), interest, reserve)
    ensures Balanced(Apply(b, c).book, interest, reserve)
  {
    var e := Accrued(b, c.now);
    match c
    case SupplyCall(_, caller, _, amount) => SupplyBalances(e, caller, amount, interest, reserve);
    case WithdrawCall(_, caller, asset, amount, manager) =>
      WithdrawBalances(e, caller, asset, amount, manager, interest, reserve);
    case BorrowCall(_, caller, _, amount) => BorrowBalances(e, caller, amount, interest, reserve);
    case RepayCall(_, caller, _, amount) => RepayBalances(e, caller, amount, interest, reserve);
    case LiquidateCall(_, _, borrower, _, amount) => RepayBalances(e, borrower, amount, interest, reserve);
  }

  lemma SameBookBalances(b: Book, b': Book, interest: int, reserve: int)
    requires Balanced(b, interest, reserve) && b' == b.(token := b'.token)
    requires b.config.Some? || b' == b
    ensures Balanced(b', interest, reserve)
  {
    assert SupplyPrincipals(b') == SupplyPrincipals(b);
    assert BorrowPrincipals(b') == BorrowPrincipals(b);
  }

  lemma InitBalances(b: Book, now: U64, config: PoolConfig, interest: int, reserve: int)
    requires Balanced(b, interest, reserve) && b.config == None
    ensures Balanced(Initialize(b, now, config).book, interest, reserve)
  {
    var b' := Initialize(b, now, config).book;
    assert SupplyPrincipals(b') == map[] && BorrowPrincipals(b') == map[];
  }

  lemma FailureLeavesBook(b: Book, c: Call)
    requires !Apply(b, c).reply.Done?
    ensures Apply(b, c).book == b
  {
  }

  lemma OthersBalance(b: Book, c: Call, interest: int, reserve: int)
    requires Balanced(b, interest, reserve)
    requires !Operates(c) || !Apply(b, c).reply.Done?
    ensures Balanced(Apply(b, c).book, interest, reserve)
  {
    if !Apply(b, c).reply.Done? {
      FailureLeavesBook(b, c);
    } else if c.InitCall? {
      InitBalances(b, c.now, c.config, interest, reserve);
    } else {
      SameBookBalances(b, Apply(b, c).book, interest, reserve);
    }
  }

  lemma StepBalances(b: Book, c: Call, a: seq<Accrual>)
    requires Balanced(b, TotalInterest(a), TotalReserve(a))
    ensures var a' := a + AccrualsBy(b, c);
            Balanced(Apply(b, c).book, TotalInterest(a'), TotalReserve(a'))
  {
    var a' := a + AccrualsBy(b, c);
    if Operates(c) && Apply(b, c).reply.Done? {
      EnteredBalances(b, c, a);
      OperationBalances(b, c, TotalInterest(a'), TotalReserve(a'));
    } else {
      assert a' == a;
      OthersBalance(b, c, TotalInterest(a), TotalReserve(a));
    }
  }

  // In every reachable state: the supply total is the sum of the users' principals; the
  // borrow total is the sum of their principals plus all interest ever accrued, none of
  // which is ever booked to a user; reserves are the reserve parts; the indices agree.
  lemma {:induction false} RunBalances(calls: seq<Call>)
    ensures var a := Accruals(NEW_BOOK, calls);
            Balanced(Run(NEW_BOOK, calls), TotalInterest(a), TotalReserve(a))
  {
    if calls != [] {
      var earlier := calls[..|calls| - 1];
      RunBalances(earlier);
      StepBalances(Run(NEW_BOOK, earlier), calls[|calls| - 1], Accruals(NEW_BOOK, earlier));
    }
  }
}
