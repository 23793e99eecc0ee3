// What holds in every state a pool can reach with nonnegative amounts and a sensible
// configuration: share backing, index growth, reserves and the receipt token's ledger.
module PoolTheorems {
  import opened FixedPoint
  import opened Ledgers
  import opened InterestModel
  import opened LendingPool
  import opened PoolRuns
  import CM = CollateralManager
  import ST = SToken

  predicate ValidConfig(c: PoolConfig) {
    ValidRates(c.rates) && 0 <= c.reserveFactor <= ONE
  }

  predicate Sensible(c: Call) {
    match c
    case InitCall(_, config) => ValidConfig(config)
    case AttachCall(_, _) => true
    case _ => c.amount >= 0
  }

  predicate AllSensible(calls: seq<Call>) {
    forall c :: c in calls ==> Sensible(c)
  }

  ghost predicate Sane(b: Book) {
    && (b.config.Some? ==> ValidConfig(b.config.value))
    && b.state.supplyIndex == b.state.borrowIndex >= ONE
    && b.state.totalSupply >= 0
    && b.state.totalBorrow >= 0
    && InI128(b.state.totalSupply)
    && (forall u :: u in b.supplies ==>
          && b.supplies[u].shares >= b.supplies[u].principal
          && b.supplies[u].shares >= 0
          && InI128(b.supplies[u].shares)
          && InI128(b.supplies[u].principal))
    && (forall u :: u in b.borrows ==>
          && b.borrows[u].principal >= 0
          && b.borrows[u].accruedInterest == 0
          && ONE <= b.borrows[u].interestIndex <= b.state.borrowIndex)
  }

  // Compound growth over n accruals, short of it by at most one part in ONE for each.
  predicate GrownWithin(index: int, n: nat, compound: int) {
    && index * Pow(ONE, n) <= ONE * compound
    && ONE * compound <= index * Pow(ONE, n) + n * compound
    && Pow(ONE, n) <= compound
  }

  // The marks that the accruals so far have left.
  ghost predicate Grown(b: Book, a: seq<Accrual>) {
    && (b.config == None ==> a == [])
    && TotalInterest(a) >= 0
    && ONE + TotalRate(a) <= b.state.supplyIndex
    && GrownWithin(b.state.supplyIndex, |a|, Compound(a))
    && (b.config.Some? ==>
          var share := b.config.value.reserveFactor * TotalInterest(a);
          ONE * TotalReserve(a) <= share <= ONE * TotalReserve(a) + (ONE - 1) * |a|)
  }

  // ---- Accrual

  lemma AccrualNonNegative(c: PoolConfig, s: PoolState, now: U64)
    requires ValidConfig(c) && s.totalSupply >= 0 && s.totalBorrow >= 0 && now >= s.lastUpdate
    ensures var a := AccrualOf(c, s, now);
            && a.rate >= 0 && a.interest >= 0
            && a.interest * ONE <= s.totalBorrow * a.rate
            && a.reserve * ONE <= c.reserveFactor * a.interest < a.reserve * ONE + ONE
  {
    UtilizationMonotone(s.totalSupply, s.totalBorrow, s.totalBorrow);
    var u := Utilization(s.totalSupply, s.totalBorrow);
    BorrowRateMonotone(c.rates, u, u);
    var a := AccrualOf(c, s, now);
    MulDivFloor(BorrowRate(c.rates, u), now - s.lastUpdate, SECONDS_PER_YEAR);
    MulDivFloor(s.totalBorrow, a.rate, ONE);
    MulDivFloor(a.interest, c.reserveFactor, ONE);
  }

  // One step of both indices: compound growth, rounded down, and never less than simple.
  lemma IndexStep(c: PoolConfig, s: PoolState, now: U64)
    requires ValidConfig(c) && s.totalSupply >= 0 && s.totalBorrow >= 0
    requires s.supplyIndex >= ONE && s.borrowIndex >= ONE && now > s.lastUpdate
    ensures var rate, next := AccrualOf(c, s, now).rate, Accrue(c, s, now);
            && rate >= 0
            && IsFloor(next.supplyIndex, s.supplyIndex * (ONE + rate), ONE)
            && IsFloor(next.borrowIndex, s.borrowIndex * (ONE + rate), ONE)
            && next.supplyIndex >= s.supplyIndex + rate && next.borrowIndex >= s.borrowIndex + rate
  {
    AccrualNonNegative(c, s, now);
    var rate := AccrualOf(c, s, now).rate;
    FloorOfGrowth(s.supplyIndex, rate);
    FloorOfGrowth(s.borrowIndex, rate);
  }

  lemma FloorOfGrowth(index: int, rate: int)
    requires index >= ONE && rate >= 0
    ensures var next := MulDiv(index, ONE + rate, ONE);
            IsFloor(next, index * (ONE + rate), ONE) && next >= index + rate
  {
    MulDivFloor(index, ONE + rate, ONE);
    MulKeepsOrder(ONE, index, rate);
    assert index * (ONE + rate) == index * ONE + index * rate;
    assert (index + rate) * ONE <= index * (ONE + rate);
    FloorGreatest(index, ONE + rate, ONE, index + rate);
  }

  lemma ShortfallAlgebra(index: int, next: int, growth: int, n: int, compound: int, p: int)
    requires growth >= ONE && 0 < p <= compound
    requires index * growth < next * ONE + ONE && ONE * compound <= index * p + n * compound
    ensures ONE * (growth * compound) <= next * (ONE * p) + (n + 1) * (growth * compound)
    ensures ONE * p <= growth * compound
  {
    MulKeepsOrder(index * growth, next * ONE + ONE, p);
    MulKeepsOrder(ONE * compound, index * p + n * compound, growth);
    MulMonotone(ONE, p, growth, compound);
    assert (next * ONE + ONE) * p == next * (ONE * p) + ONE * p;
    assert (index * p + n * compound) * growth == (index * growth) * p + n * (growth * compound);
    assert (ONE * compound) * growth == ONE * (growth * compound);
  }

  lemma CompoundStep(index: int, next: int, rate: int, n: nat, compound: int)
    requires rate >= 0 && IsFloor(next, index * (ONE + rate), ONE) && GrownWithin(index, n, compound)
    ensures GrownWithin(next, n + 1, (ONE + rate) * compound)
  {
    PowPositive(ONE, n);
    ChainAtMost(ONE, index, next, Pow(ONE, n), ONE, compound, ONE + rate);
    ShortfallAlgebra(index, next, ONE + rate, n, compound, Pow(ONE, n));
  }

  lemma ReserveStep(factor: int, reserve: int, interest: int, n: nat, r: int, i: int)
    requires ONE * reserve <= factor * interest <= ONE * reserve + (ONE - 1) * n
    requires r * ONE <= factor * i < r * ONE + ONE
    ensures ONE * (reserve + r) <= factor * (interest + i) <= ONE * (reserve + r) + (ONE - 1) * (n + 1)
  {
  }

  lemma AccrualGrows(b: Book, a: seq<Accrual>, now: U64)
    requires b.config.Some? && Sane(b) && Grown(b, a) && now > b.state.lastUpdate
    ensures var x := AccrualOf(b.config.value, b.state, now);
            Sane(Accrued(b, now)) && Grown(Accrued(b, now), a + [x])
  {
    var c, s := b.config.value, b.state;
    var x := AccrualOf(c, s, now);
    AccrualNonNegative(c, s, now);
    IndexStep(c, s, now);
    OneMoreAccrual(a, x);
    CompoundStep(s.supplyIndex, Accrue(c, s, now).supplyIndex, x.rate, |a|, Compound(a));
    ReserveStep(c.reserveFactor, TotalReserve(a), TotalInterest(a), |a|, x.reserve, x.interest);
  }

  // ---- Bodies

  lemma SupplySane(b: Book, caller: Address, amount: int)
    requires Sane(b) && amount >= 0 && SupplyBody(b, caller, amount).reply.Done?
    ensures Sane(SupplyBody(b, caller, amount).book)
  {
    MulDivGrows(amount, b.state.supplyIndex, ONE);
  }

  lemma WithdrawSane(b: Book, caller: Address, asset: Address, amount: int, manager: Option<CM.Vault>)
    requires Sane(b) && amount >= 0 && WithdrawBody(b, caller, asset, amount, manager).reply.Done?
    ensures Sane(WithdrawBody(b, caller, asset, amount, manager).book)
  {
    MulDivShrinks(amount, ONE, b.state.supplyIndex);
  }

  lemma BorrowSane(b: Book, caller: Address, amount: int)
    requires Sane(b) && amount >= 0 && BorrowBody(b, caller, amount).reply.Done?
    ensures Sane(BorrowBody(b, caller, amount).book)
  {
  }

  // A debt is never more than what the pool has lent, so repaying cannot overshoot.
  lemma RepaySane(b: Book, borrower: Address, amount: int, interest: int, reserve: int)
    requires Sane(b) && amount >= 0 && RepayBody(b, borrower, amount).reply.Done?
    requires Balanced(b, interest, reserve) && interest >= 0
    ensures Sane(RepayBody(b, borrower, amount).book)
  {
    SumAtLeastEntry(BorrowPrincipals(b), borrower);
  }

  ghost predicate Healthy(b: Book, a: seq<Accrual>) {
    Sane(b) && Grown(b, a) && Balanced(b, TotalInterest(a), TotalReserve(a))
  }

  lemma EnteredHealthy(b: Book, c: Call, a: seq<Accrual>)
    requires Healthy(b, a) && Operates(c) && b.config.Some? && Apply(b, c).reply.Done?
    ensures Healthy(Accrued(b, c.now), a + AccrualsBy(b, c))
  {
    EnteredBalances(b, c, a);
    if c.now == b.state.lastUpdate {
      assert a + [] == a;
      assert Accrued(b, c.now) == b;
    } else {
      AccrualGrows(b, a, c.now);
    }
  }

  lemma OperationSane(b: Book, c: Call, a: seq<Accrual>)
    requires Operates(c) && Sensible(c) && b.config.Some? && Apply(b, c).reply.Done?
    requires Healthy(Accrued(b, c.now), a)
    ensures Sane(Apply(b, c).book)
  {
    var e := Accrued(b, c.now);
    match c
    case SupplyCall(_, caller, _, amount) => SupplySane(e, caller, amount);
    case WithdrawCall(_, caller, asset, amount, manager) => WithdrawSane(e, caller, asset, amount, manager);
    case BorrowCall(_, caller, _, amount) => BorrowSane(e, caller, amount);
    case RepayCall(_, caller, _, amount) => RepaySane(e, caller, amount, TotalInterest(a), TotalReserve(a));
    case LiquidateCall(_, _, borrower, _, amount) =>
      RepaySane(e, borrower, amount, TotalInterest(a), TotalReserve(a));
  }

  lemma OperationKeepsIndex(b: Book, c: Call)
    requires Operates(c) && b.config.Some? && Apply(b, c).reply.Done?
    ensures var b' := Apply(b, c).book;
            b'.config == b.config && b'.state.supplyIndex == Accrued(b, c.now).state.supplyIndex
  {
  }

  lemma OperationGrown(b: Book, c: Call, a: seq<Accrual>)
    requires Operates(c) && b.config.Some? && Apply(b, c).reply.Done?
    requires Grown(Accrued(b, c.now), a)
    ensures Grown(Apply(b, c).book, a)
  {
    OperationKeepsIndex(b, c);
  }

  lemma OthersHealthy(b: Book, c: Call, a: seq<Accrual>)
    requires Sane(b) && Grown(b, a) && Sensible(c)
    requires !Operates(c) || !Apply(b, c).reply.Done?
    requires b.config == None ==> b.borrows == map[]
    ensures Sane(Apply(b, c).book) && Grown(Apply(b, c).book, a)
  {
  }

  lemma StepHealthy(b: Book, c: Call, a: seq<Accrual>)
    requires Healthy(b, a) && Sensible(c)
    ensures Healthy(Apply(b, c).book, a + AccrualsBy(b, c))
  {
    var a' := a + AccrualsBy(b, c);
    StepBalances(b, c, a);
    if Operates(c) && Apply(b, c).reply.Done? {
      EnteredHealthy(b, c, a);
      OperationSane(b, c, a');
      OperationGrown(b, c, a');
    } else {
      assert a' == a;
      OthersHealthy(b, c, a);
    }
  }

  lemma {:induction false} RunHealthy(calls: seq<Call>)
    requires AllSensible(calls)
    ensures Healthy(Run(NEW_BOOK, calls), Accruals(NEW_BOOK, calls))
  {
    if calls == [] {
      assert SupplyPrincipals(NEW_BOOK) == map[] && BorrowPrincipals(NEW_BOOK) == map[];
    } else {
      var earlier := calls[..|calls| - 1];
      RunHealthy(earlier);
      StepHealthy(Run(NEW_BOOK, earlier), calls[|calls| - 1], Accruals(NEW_BOOK, earlier));
    }
  }

  // ---- Main results, for every reachable state

  // Both indices are the compound growth at the rates charged so far, short of it by at
  // most one part in ONE per accrual, and never less than simple growth.
  lemma IndexBetween(calls: seq<Call>)
    requires AllSensible(calls)
    ensures var s := Run(NEW_BOOK, calls).state;
            var a := Accruals(NEW_BOOK, calls);
            && s.supplyIndex == s.borrowIndex
            && ONE + TotalRate(a) <= s.supplyIndex
            && GrownWithin(s.supplyIndex, |a|, Compound(a))
  {
    RunHealthy(calls);
  }

  // Debt: what users owe plus all interest ever accrued; reserves: the configured share
  // of that interest, short by less than one unit per accrual.
  lemma DebtAndReserves(calls: seq<Call>)
    requires AllSensible(calls)
    ensures var b := Run(NEW_BOOK, calls);
            var a := Accruals(NEW_BOOK, calls);
            && b.state.totalBorrow == Sum(BorrowPrincipals(b)) + TotalInterest(a)
            && 0 <= TotalInterest(a) <= b.state.totalBorrow
            && (b.config.Some? ==>
                  var share := b.config.value.reserveFactor * TotalInterest(a);
                  && ONE * b.state.totalReserves <= share
                  && share <= ONE * b.state.totalReserves + (ONE - 1) * |a|)
  {
    RunHealthy(calls);
    SumNonNegative(BorrowPrincipals(Run(NEW_BOOK, calls)));
  }

  // Every user's shares cover their principal; principals add up to the supply total.
  lemma SharesBackPrincipals(calls: seq<Call>, user: Address)
    requires AllSensible(calls)
    ensures var b := Run(NEW_BOOK, calls);
            && SupplyOf(b, user).shares >= SupplyOf(b, user).principal
            && SupplyOf(b, user).shares >= 0
            && b.state.totalSupply == Sum(SupplyPrincipals(b)) >= 0
  {
    RunHealthy(calls);
  }

  // A call that goes through found the pool active, the asset its own and the clock not
  // behind, and leaves the pool accrued up to its time; any other changes nothing.
  lemma OperationGate(b: Book, c: Call)
    requires Operates(c)
    ensures Apply(b, c).reply.Done? ==>
              && b.config.Some? && b.config.value.isActive && b.config.value.asset == c.asset
              && b.state.lastUpdate <= c.now == Apply(b, c).book.state.lastUpdate
              && Apply(b, c).book.config == b.config
    ensures !Apply(b, c).reply.Done? ==> Apply(b, c).book == b
  {
  }

  // The first configuration is for good, and the pool's clock never goes back.
  lemma {:induction false} ConfigForGood(b: Book, calls: seq<Call>)
    requires b.config.Some?
    ensures Run(b, calls).config == b.config
    ensures Run(b, calls).state.lastUpdate >= b.state.lastUpdate
  {
    if calls != [] {
      var earlier, c := calls[..|calls| - 1], calls[|calls| - 1];
      ConfigForGood(b, earlier);
      if Operates(c) {
        OperationGate(Run(b, earlier), c);
      }
    }
  }

  // ---- The receipt token's ledger and the pool's own

  // A token for whatever asset, without shares, whose administrator is the pool.
  predicate Fresh(t: ST.Shares) {
    t == ST.NO_SHARES.(admin := Some(POOL_ADDRESS), asset := t.asset)
  }

  ghost predicate TokenMatches(b: Book) {
    && b.token.Some?
    && b.token.value.admin == Some(POOL_ADDRESS)
    && InI128(b.token.value.total)
    && b.token.value.total == Sum(ShareHoldings(b))
    && b.token.value.total == Sum(b.token.value.balances)
    && forall u :: Get(b.token.value.balances, u) == SupplyOf(b, u).shares
  }

  lemma SharesAfter(b: Book, b': Book, user: Address, u: UserSupply)
    requires b'.supplies == b.supplies[user := u]
    ensures Sum(ShareHoldings(b')) == Sum(ShareHoldings(b)) - SupplyOf(b, user).shares + u.shares
  {
    assert ShareHoldings(b') == ShareHoldings(b)[user := u.shares];
    SumUpdate(ShareHoldings(b), user, u.shares);
  }

  lemma BothLedgersMove(b: Book, b': Book, user: Address, u: UserSupply)
    requires TokenMatches(b) && b'.token.Some?
    requires b'.supplies == b.supplies[user := u]
    requires b'.token.value.admin == b.token.value.admin
    requires b'.token.value.balances == b.token.value.balances[user := u.shares]
    requires b'.token.value.total == b.token.value.total - SupplyOf(b, user).shares + u.shares
    requires InI128(b'.token.value.total)
    ensures TokenMatches(b')
  {
    SharesAfter(b, b', user, u);
    SumUpdate(b.token.value.balances, user, u.shares);
    forall v ensures Get(b'.token.value.balances, v) == SupplyOf(b', v).shares {
      assert Get(b.token.value.balances, v) == SupplyOf(b, v).shares;
    }
  }

  lemma SupplyMatches(b: Book, caller: Address, amount: int)
    requires TokenMatches(b) && SupplyBody(b, caller, amount).reply.Done?
    ensures TokenMatches(SupplyBody(b, caller, amount).book)
  {
    var b' := SupplyBody(b, caller, amount).book;
    assert Get(b.token.value.balances, caller) == SupplyOf(b, caller).shares;
    BothLedgersMove(b, b', caller, b'.supplies[caller]);
  }

  lemma WithdrawMatches(b: Book, caller: Address, asset: Address, amount: int, manager: Option<CM.Vault>)
    requires TokenMatches(b) && WithdrawBody(b, caller, asset, amount, manager).reply.Done?
    ensures TokenMatches(WithdrawBody(b, caller, asset, amount, manager).book)
  {
    var b' := WithdrawBody(b, caller, asset, amount, manager).book;
    assert Get(b.token.value.balances, caller) == SupplyOf(b, caller).shares;
    BothLedgersMove(b, b', caller, b'.supplies[caller]);
  }

  lemma TokenUntouched(b: Book, b': Book)
    requires TokenMatches(b) && b'.token == b.token && b'.supplies == b.supplies
    ensures TokenMatches(b')
  {
  }

  lemma StepMatches(b: Book, c: Call)
    requires TokenMatches(b) && !c.AttachCall?
    ensures TokenMatches(Apply(b, c).book)
  {
    if c.SupplyCall? && Apply(b, c).reply.Done? {
      TokenUntouched(b, Accrued(b, c.now));
      SupplyMatches(Accrued(b, c.now), c.caller, c.amount);
    } else if c.WithdrawCall? && Apply(b, c).reply.Done? {
      TokenUntouched(b, Accrued(b, c.now));
      WithdrawMatches(Accrued(b, c.now), c.caller, c.asset, c.amount, c.manager);
    } else {
      TokenUntouched(b, Apply(b, c).book);
    }
  }

  // With a fresh token attached before anybody supplied, and whatever amounts are moved
  // after, every token balance is the holder's pool shares and the totals agree.
  lemma {:induction false} LedgersAgree(b: Book, calls: seq<Call>)
    requires b.token.Some? && Fresh(b.token.value) && b.supplies == map[]
    requires forall c :: c in calls ==> !c.AttachCall?
    ensures TokenMatches(Run(b, calls))
  {
    if calls == [] {
      assert ShareHoldings(b) == map[];
    } else {
      var earlier := calls[..|calls| - 1];
      LedgersAgree(b, earlier);
      StepMatches(Run(b, earlier), calls[|calls| - 1]);
    }
  }

  // The token has a say in a withdrawal only once the pool's own checks have passed.
  lemma WithdrawThroughToken(b: Book, caller: Address, asset: Address, amount: int, manager: Option<CM.Vault>)
    requires b.token.Some?
    ensures var reply := WithdrawBody(b.(token := None), caller, asset, amount, manager).reply;
            var shares := MulDiv(amount, ONE, b.state.supplyIndex);
            && (reply.Done? ==> caller in b.supplies && shares <= b.supplies[caller].shares)
            && WithdrawBody(b, caller, asset, amount, manager).reply ==
               if reply.Done? && ST.Burned(b.token.value, {POOL_ADDRESS}, caller, shares) == None then Panicked
               else reply
  {
    assert HealthCheck(b.(token := None), caller, asset, manager) == HealthCheck(b, caller, asset, manager);
  }

  lemma BurnSucceeds(b: Book, caller: Address, shares: int)
    requires Sane(b) && TokenMatches(b) && 0 <= shares <= SupplyOf(b, caller).shares
    ensures ST.Burned(b.token.value, {POOL_ADDRESS}, caller, shares).Some?
  {
    assert Get(b.token.value.balances, caller) == SupplyOf(b, caller).shares;
    SumAtLeastEntry(ShareHoldings(b), caller);
  }

  // A matching token has the shares that a withdrawal past the pool's checks burns.
  lemma BodyBurnNeverPanics(b: Book, caller: Address, asset: Address, amount: int, manager: Option<CM.Vault>)
    requires Sane(b) && TokenMatches(b) && amount >= 0
    ensures WithdrawBody(b, caller, asset, amount, manager).reply
         == WithdrawBody(b.(token := None), caller, asset, amount, manager).reply
  {
    WithdrawThroughToken(b, caller, asset, amount, manager);
    if WithdrawBody(b.(token := None), caller, asset, amount, manager).reply.Done? {
      MulDivShrinks(amount, ONE, b.state.supplyIndex);
      BurnSucceeds(b, caller, MulDiv(amount, ONE, b.state.supplyIndex));
    }
  }

  // ---- Which runs have a token that matches

  // `calls[k]` attaches a fresh token before anybody has supplied, for good.
  ghost predicate FreshAt(calls: seq<Call>, k: nat)
    requires k < |calls|
  {
    && calls[k].AttachCall? && Fresh(calls[k].token) && Apply(Run(NEW_BOOK, calls[..k]), calls[k]).reply.Done?
    && Run(NEW_BOOK, calls[..k]).supplies == map[]
    && forall c :: c in calls[k + 1..] ==> !c.AttachCall?
  }

  ghost predicate AttachedFresh(calls: seq<Call>) {
    || (forall c :: c in calls ==> !c.AttachCall?)
    || (exists k: nat :: k < |calls| && FreshAt(calls, k))
  }

  lemma {:induction false} RunAppend(b: Book, first: seq<Call>, rest: seq<Call>)
    ensures Run(b, first + rest) == Run(Run(b, first), rest)
  {
    if rest == [] {
      assert first + rest == first;
    } else {
      RunAppend(b, first, rest[..|rest| - 1]);
      assert (first + rest)[..|first + rest| - 1] == first + rest[..|rest| - 1];
    }
  }

  lemma CallAttachesNothing(b: Book, c: Call)
    requires b.token == None && !c.AttachCall?
    ensures Apply(b, c).book.token == None
  {
  }

  lemma {:induction false} NoneAttached(b: Book, calls: seq<Call>)
    requires b.token == None && forall c :: c in calls ==> !c.AttachCall?
    ensures Run(b, calls).token == None
  {
    if calls != [] {
      NoneAttached(b, calls[..|calls| - 1]);
      CallAttachesNothing(Run(b, calls[..|calls| - 1]), calls[|calls| - 1]);
    }
  }

  // A run is the call at `k` after the calls before it, and then the others.
  lemma RunFrom(calls: seq<Call>, k: nat)
    requires k < |calls|
    ensures Run(NEW_BOOK, calls) == Run(Apply(Run(NEW_BOOK, calls[..k]), calls[k]).book, calls[k + 1..])
  {
    assert calls[..k] + [calls[k]] == calls[..k + 1];
    assert calls[..k + 1] + calls[k + 1..] == calls;
    RunPush(NEW_BOOK, calls[..k], calls[k]);
    RunAppend(NEW_BOOK, calls[..k + 1], calls[k + 1..]);
  }

  lemma AttachingSets(b: Book, c: Call)
    requires c.AttachCall? && Apply(b, c).reply.Done?
    ensures Apply(b, c).book == b.(token := Some(c.token))
  {
  }

  // On such runs the token, once there, matches the pool's own shares in every state.
  lemma TokenAlwaysMatches(calls: seq<Call>)
    requires AttachedFresh(calls)
    ensures Run(NEW_BOOK, calls).token.Some? ==> TokenMatches(Run(NEW_BOOK, calls))
  {
    if forall c :: c in calls ==> !c.AttachCall? {
      NoneAttached(NEW_BOOK, calls);
    } else {
      var k: nat :| k < |calls| && FreshAt(calls, k);
      var before := Run(NEW_BOOK, calls[..k]);
      AttachingSets(before, calls[k]);
      RunFrom(calls, k);
      LedgersAgree(Apply(before, calls[k]).book, calls[k + 1..]);
    }
  }

  lemma EntryIgnoresToken(b: Book, now: U64, asset: Address)
    requires Entry(b, now, asset).Done?
    ensures Entry(b.(token := None), now, asset).Done?
    ensures Accrued(b.(token := None), now) == Accrued(b, now).(token := None)
  {
  }

  lemma EnteredSane(calls: seq<Call>, now: U64)
    requires AllSensible(calls)
    requires var b := Run(NEW_BOOK, calls); b.config.Some? && now >= b.state.lastUpdate
    ensures Sane(Accrued(Run(NEW_BOOK, calls), now))
  {
    var b := Run(NEW_BOOK, calls);
    RunHealthy(calls);
    if now != b.state.lastUpdate {
      AccrualGrows(b, Accruals(NEW_BOOK, calls), now);
    }
  }

  lemma EnteredMatches(calls: seq<Call>, now: U64)
    requires AttachedFresh(calls) && Run(NEW_BOOK, calls).config.Some?
    ensures var e := Accrued(Run(NEW_BOOK, calls), now);
            e.token.Some? ==> TokenMatches(e)
  {
    var b := Run(NEW_BOOK, calls);
    TokenAlwaysMatches(calls);
    if b.token.Some? {
      TokenUntouched(b, Accrued(b, now));
    }
  }

  // So a burn never fails a withdrawal, of whatever amount, that the pool lets through.
  lemma BurnNeverPanics(calls: seq<Call>, now: U64, caller: Address, asset: Address, amount: int,
                        manager: Option<CM.Vault>)
    requires AllSensible(calls) && AttachedFresh(calls) && amount >= 0
    ensures var b := Run(NEW_BOOK, calls);
            Withdraw(b, now, caller, asset, amount, manager).reply
            == Withdraw(b.(token := None), now, caller, asset, amount, manager).reply
  {
    var b := Run(NEW_BOOK, calls);
    if b.token == None {
      assert b.(token := None) == b;
    } else if Entry(b, now, asset).Done? {
      EnteredMatches(calls, now);
      EnteredSane(calls, now);
      EntryIgnoresToken(b, now, asset);
      BodyBurnNeverPanics(Accrued(b, now), caller, asset, amount, manager);
    }
  }
}
