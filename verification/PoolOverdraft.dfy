// When, and how far, a supplier's withdrawals can exceed what they supplied: shares are
// minted at the index and burned at its inverse, so principals may turn negative.
module PoolOverdraft {
  import opened FixedPoint
  import opened Ledgers
  import opened LendingPool
  import opened PoolRuns
  import opened PoolTheorems
  import opened PoolReplies
  import CM = CollateralManager

  // ---- When a withdrawal can overdraw

  // The user ends up having withdrawn more than they ever supplied.
  predicate Overdraws(o: Outcome, user: Address) {
    o.reply.Done? && SupplyOf(o.book, user).principal < 0
  }

  // The least amount that does.
  function LeastOverdraft(u: UserSupply): nat {
    if u.principal < 0 then 0 else u.principal + 1
  }

  // The pool still has it, and the user's shares pay for it.
  predicate CanOverdraw(e: Book, user: Address) {
    && user in e.supplies
    && var u := e.supplies[user];
    && InI128(LeastOverdraft(u) * ONE)
    && LeastOverdraft(u) * ONE < (u.shares + 1) * e.state.supplyIndex
    && LeastOverdraft(u) <= e.state.totalSupply
  }

  lemma WithdrawalTakes(e: Book, caller: Address, asset: Address, amount: int, manager: Option<CM.Vault>)
    requires WithdrawBody(e, caller, asset, amount, manager).reply.Done?
    ensures caller in e.supplies
    ensures SupplyOf(WithdrawBody(e, caller, asset, amount, manager).book, caller).principal
         == e.supplies[caller].principal - amount
  {
  }

  // Any overdraft is at least the least one, and whatever lets it through lets that one.
  lemma OverdraftPasses(e: Book, caller: Address, asset: Address, amount: int, manager: Option<CM.Vault>)
    requires Sane(e) && (e.token.Some? ==> TokenMatches(e)) && amount >= 0
    requires Overdraws(WithdrawBody(e, caller, asset, amount, manager), caller)
    ensures CanOverdraw(e, caller) && HealthCheck(e, caller, asset, manager).Done?
  {
    WithdrawalTakes(e, caller, asset, amount, manager);
    BodyDecided(e, caller, asset, amount, manager);
    MulKeepsOrder(LeastOverdraft(e.supplies[caller]), amount, ONE);
  }

  lemma LeastOverdraftPasses(e: Book, caller: Address, asset: Address, manager: Option<CM.Vault>)
    requires Sane(e) && (e.token.Some? ==> TokenMatches(e))
    requires CanOverdraw(e, caller) && HealthCheck(e, caller, asset, manager).Done?
    ensures Overdraws(WithdrawBody(e, caller, asset, LeastOverdraft(e.supplies[caller]), manager), caller)
  {
    BodyDecided(e, caller, asset, LeastOverdraft(e.supplies[caller]), manager);
    WithdrawalTakes(e, caller, asset, LeastOverdraft(e.supplies[caller]), manager);
  }

  lemma EntryCommits(b: Book, now: U64, caller: Address, asset: Address, amount: int, manager: Option<CM.Vault>)
    requires Entry(b, now, asset).Done?
    ensures Withdraw(b, now, caller, asset, amount, manager)
         == Commit(b, WithdrawBody(Accrued(b, now), caller, asset, amount, manager))
  {
  }

  // In every reachable state of a pool without a token, or with one attached fresh, and
  // past the entry checks: some withdrawal leaves the user's principal negative if and
  // only if the least such amount is within scale, share worth and supply total, and the
  // collateral manager does not object.
  lemma OverdraftIff(calls: seq<Call>, now: U64, caller: Address, asset: Address, manager: Option<CM.Vault>)
    requires AllSensible(calls) && AttachedFresh(calls) && Entry(Run(NEW_BOOK, calls), now, asset).Done?
    ensures var b := Run(NEW_BOOK, calls);
            (exists amount: nat :: Overdraws(Withdraw(b, now, caller, asset, amount, manager), caller))
            <==> CanOverdraw(Accrued(b, now), caller) && HealthCheck(Accrued(b, now), caller, asset, manager).Done?
  {
    var b := Run(NEW_BOOK, calls);
    var e := Accrued(b, now);
    EnteredSane(calls, now);
    EnteredMatches(calls, now);
    if amount: nat :| Overdraws(Withdraw(b, now, caller, asset, amount, manager), caller) {
      EntryCommits(b, now, caller, asset, amount, manager);
      OverdraftPasses(e, caller, asset, amount, manager);
    }
    if CanOverdraw(e, caller) && HealthCheck(e, caller, asset, manager).Done? {
      var least := LeastOverdraft(e.supplies[caller]);
      LeastOverdraftPasses(e, caller, asset, manager);
      EntryCommits(b, now, caller, asset, least, manager);
      assert Overdraws(Withdraw(b, now, caller, asset, least, manager), caller);
    }
  }

  // ---- How far withdrawals can go

  // What one user has supplied and withdrawn in all, and in how many withdrawals.
  datatype Flow = Flow(supplied: int, withdrawn: int, exits: nat)

  const NO_FLOW := Flow(0, 0, 0)

  function FlowAfter(f: Flow, b: Book, c: Call, user: Address): Flow {
    if !Apply(b, c).reply.Done? then f
    else if c.SupplyCall? && c.caller == user then f.(supplied := f.supplied + c.amount)
    else if c.WithdrawCall? && c.caller == user then
      f.(withdrawn := f.withdrawn + c.amount, exits := f.exits + 1)
    else f
  }

  function FlowOf(b: Book, calls: seq<Call>, user: Address): Flow {
    if calls == [] then NO_FLOW else
      var earlier := calls[..|calls| - 1];
      FlowAfter(FlowOf(b, earlier, user), Run(b, earlier), calls[|calls| - 1], user)
  }

  // An upper bound on what the user's shares can have bought so far, at today's index:
  // everything ever minted, less what is still held, plus one unit for each burn that was
  // rounded down.
  function Spent(f: Flow, shares: int, index: int): int {
    f.supplied * index + (f.exits - shares) * ONE
  }

  ghost predicate WithinGrowth(f: Flow, u: UserSupply, index: int) {
    && f.supplied >= 0
    && f.withdrawn >= 0
    && u.principal == f.supplied - f.withdrawn
    && f.withdrawn * ONE * ONE <= Spent(f, u.shares, index) * index
  }

  // A growing index only widens the bound.
  lemma GrowthKeeps(f: Flow, u: UserSupply, index: int, index': int)
    requires 0 < index <= index' && WithinGrowth(f, u, index)
    ensures WithinGrowth(f, u, index')
  {
    var spent, spent' := Spent(f, u.shares, index), Spent(f, u.shares, index');
    MulKeepsOrder(index, index', f.supplied);
    MulOrder(-1, spent, index);
    MulMonotone(spent, index, spent', index');
  }

  lemma MintKeeps(f: Flow, u: UserSupply, index: int, amount: int, minted: int)
    requires index > 0 && amount >= 0 && minted * ONE <= amount * index && WithinGrowth(f, u, index)
    ensures WithinGrowth(f.(supplied := f.supplied + amount),
                         UserSupply(u.shares + minted, u.principal + amount), index)
  {
    var spent := Spent(f, u.shares, index);
    var spent' := Spent(f.(supplied := f.supplied + amount), u.shares + minted, index);
    assert (f.supplied + amount) * index == f.supplied * index + amount * index;
    MulKeepsOrder(spent, spent', index);
  }

  lemma BurnKeeps(f: Flow, u: UserSupply, index: int, amount: int, burned: int)
    requires index > 0 && amount >= 0 && amount * ONE <= (burned + 1) * index && WithinGrowth(f, u, index)
    ensures WithinGrowth(f.(withdrawn := f.withdrawn + amount, exits := f.exits + 1),
                         UserSupply(u.shares - burned, u.principal - amount), index)
  {
    var spent := Spent(f, u.shares, index);
    assert (spent + (burned + 1) * ONE) * index == spent * index + ((burned + 1) * index) * ONE;
    MulKeepsOrder(amount * ONE, (burned + 1) * index, ONE);
  }

  lemma SupplyKeeps(b: Book, caller: Address, amount: int, user: Address, f: Flow)
    requires Sane(b) && amount >= 0 && SupplyBody(b, caller, amount).reply.Done?
    requires WithinGrowth(f, SupplyOf(b, user), b.state.supplyIndex)
    ensures var b' := SupplyBody(b, caller, amount).book;
            WithinGrowth(if caller == user then f.(supplied := f.supplied + amount) else f,
                         SupplyOf(b', user), b'.state.supplyIndex)
  {
    if caller == user {
      var index := b.state.supplyIndex;
      var minted := SupplyBody(b, caller, amount).reply.value;
      MulDivFloor(amount, index, ONE);
      MulKeepsOrder(ONE, index, amount);
      MintKeeps(f, SupplyOf(b, user), index, amount, minted);
    }
  }

  lemma WithdrawKeeps(b: Book, caller: Address, asset: Address, amount: int, manager: Option<CM.Vault>,
                      user: Address, f: Flow)
    requires Sane(b) && amount >= 0 && WithdrawBody(b, caller, asset, amount, manager).reply.Done?
    requires WithinGrowth(f, SupplyOf(b, user), b.state.supplyIndex)
    ensures var b' := WithdrawBody(b, caller, asset, amount, manager).book;
            WithinGrowth(if caller == user then f.(withdrawn := f.withdrawn + amount, exits := f.exits + 1) else f,
                         SupplyOf(b', user), b'.state.supplyIndex)
  {
    if caller == user {
      var burned := MulDiv(amount, ONE, b.state.supplyIndex);
      MulDivFloor(amount, ONE, b.state.supplyIndex);
      BurnKeeps(f, SupplyOf(b, user), b.state.supplyIndex, amount, burned);
    }
  }

  lemma OtherCallsKeep(b: Book, c: Call)
    requires !c.SupplyCall? && !c.WithdrawCall? && !c.InitCall?
    ensures Apply(b, c).book.supplies == b.supplies
    ensures Apply(b, c).book.state.supplyIndex ==
            if Operates(c) && Apply(b, c).reply.Done? then Accrued(b, c.now).state.supplyIndex else b.state.supplyIndex
  {
  }

  lemma AccruedIndexGrows(c: PoolConfig, s: PoolState, now: U64)
    requires ValidConfig(c) && s.totalSupply >= 0 && s.totalBorrow >= 0
    requires s.supplyIndex == s.borrowIndex >= ONE && now >= s.lastUpdate
    ensures s.supplyIndex <= Accrue(c, s, now).supplyIndex
  {
    if now != s.lastUpdate {
      IndexStep(c, s, now);
    }
  }

  lemma IndexNeverFalls(b: Book, c: Call, a: seq<Accrual>)
    requires Healthy(b, a) && Operates(c) && b.config.Some? && Apply(b, c).reply.Done?
    ensures Sane(Accrued(b, c.now)) && Accrued(b, c.now).supplies == b.supplies
    ensures ONE <= b.state.supplyIndex <= Accrued(b, c.now).state.supplyIndex
  {
    EnteredHealthy(b, c, a);
    OperationGate(b, c);
    AccruedIndexGrows(b.config.value, b.state, c.now);
  }

  lemma EnteredKeeps(b: Book, c: Call, a: seq<Accrual>, user: Address, f: Flow)
    requires Healthy(b, a) && WithinGrowth(f, SupplyOf(b, user), b.state.supplyIndex)
    requires Operates(c) && b.config.Some? && Apply(b, c).reply.Done?
    ensures var e := Accrued(b, c.now);
            Sane(e) && WithinGrowth(f, SupplyOf(e, user), e.state.supplyIndex)
  {
    IndexNeverFalls(b, c, a);
    GrowthKeeps(f, SupplyOf(b, user), b.state.supplyIndex, Accrued(b, c.now).state.supplyIndex);
  }

  lemma SupplyStep(b: Book, c: Call, user: Address, f: Flow)
    requires c.SupplyCall? && c.amount >= 0 && b.config.Some? && Apply(b, c).reply.Done?
    requires var e := Accrued(b, c.now); Sane(e) && WithinGrowth(f, SupplyOf(e, user), e.state.supplyIndex)
    ensures var b' := Apply(b, c).book;
            WithinGrowth(FlowAfter(f, b, c, user), SupplyOf(b', user), b'.state.supplyIndex)
  {
    SupplyKeeps(Accrued(b, c.now), c.caller, c.amount, user, f);
  }

  lemma WithdrawStep(b: Book, c: Call, user: Address, f: Flow)
    requires c.WithdrawCall? && c.amount >= 0 && b.config.Some? && Apply(b, c).reply.Done?
    requires var e := Accrued(b, c.now); Sane(e) && WithinGrowth(f, SupplyOf(e, user), e.state.supplyIndex)
    ensures var b' := Apply(b, c).book;
            WithinGrowth(FlowAfter(f, b, c, user), SupplyOf(b', user), b'.state.supplyIndex)
  {
    WithdrawKeeps(Accrued(b, c.now), c.caller, c.asset, c.amount, c.manager, user, f);
  }

  lemma OtherStep(b: Book, c: Call, user: Address, f: Flow)
    requires Operates(c) && !c.SupplyCall? && !c.WithdrawCall? && b.config.Some? && Apply(b, c).reply.Done?
    requires var e := Accrued(b, c.now); WithinGrowth(f, SupplyOf(e, user), e.state.supplyIndex)
    ensures var b' := Apply(b, c).book;
            WithinGrowth(FlowAfter(f, b, c, user), SupplyOf(b', user), b'.state.supplyIndex)
  {
    OtherCallsKeep(b, c);
  }

  // A call that fails, initializes or attaches moves nothing.
  lemma IdleCall(b: Book, c: Call, user: Address, f: Flow)
    requires !Operates(c) || !Apply(b, c).reply.Done?
    ensures FlowAfter(f, b, c, user) == f
    ensures Apply(b, c).book.supplies == b.supplies
    ensures b.config.Some? ==> Apply(b, c).book.state == b.state
  {
  }

  lemma NothingWithinGrowth(index: int)
    ensures WithinGrowth(NO_FLOW, UserSupply(0, 0), index)
  {
    assert Spent(NO_FLOW, 0, index) == 0;
  }

  lemma IdleStep(b: Book, c: Call, user: Address, f: Flow)
    requires !Operates(c) || !Apply(b, c).reply.Done?
    requires WithinGrowth(f, SupplyOf(b, user), b.state.supplyIndex)
    requires b.config == None ==> f == NO_FLOW && b.supplies == map[]
    ensures var b' := Apply(b, c).book;
            WithinGrowth(FlowAfter(f, b, c, user), SupplyOf(b', user), b'.state.supplyIndex)
  {
    IdleCall(b, c, user, f);
    if b.config == None {
      NothingWithinGrowth(Apply(b, c).book.state.supplyIndex);
    }
  }

  lemma StepKeeps(b: Book, c: Call, a: seq<Accrual>, user: Address, f: Flow)
    requires Healthy(b, a) && Sensible(c) && WithinGrowth(f, SupplyOf(b, user), b.state.supplyIndex)
    requires b.config == None ==> f == NO_FLOW
    ensures var b' := Apply(b, c).book;
            WithinGrowth(FlowAfter(f, b, c, user), SupplyOf(b', user), b'.state.supplyIndex)
  {
    if !Operates(c) || !Apply(b, c).reply.Done? {
      IdleStep(b, c, user, f);
    } else {
      OperationGate(b, c);
      EnteredKeeps(b, c, a, user, f);
      if c.SupplyCall? {
        SupplyStep(b, c, user, f);
      } else if c.WithdrawCall? {
        WithdrawStep(b, c, user, f);
      } else {
        OtherStep(b, c, user, f);
      }
    }
  }

  // Nothing moves before the pool is initialized.
  lemma NoFlowBefore(b: Book, c: Call, user: Address, f: Flow)
    requires b.config == None ==> f == NO_FLOW
    ensures Apply(b, c).book.config == None ==> FlowAfter(f, b, c, user) == NO_FLOW
  {
  }

  lemma {:induction false} RunKeeps(calls: seq<Call>, user: Address)
    requires AllSensible(calls)
    ensures var b, f := Run(NEW_BOOK, calls), FlowOf(NEW_BOOK, calls, user);
            && WithinGrowth(f, SupplyOf(b, user), b.state.supplyIndex)
            && (b.config == None ==> f == NO_FLOW)
  {
    if calls != [] {
      var earlier := calls[..|calls| - 1];
      RunHealthy(earlier);
      RunKeeps(earlier, user);
      StepKeeps(Run(NEW_BOOK, earlier), calls[|calls| - 1], Accruals(NEW_BOOK, earlier), user,
                FlowOf(NEW_BOOK, earlier, user));
      NoFlowBefore(Run(NEW_BOOK, earlier), calls[|calls| - 1], user, FlowOf(NEW_BOOK, earlier, user));
    }
  }

  lemma FloorOfPrincipal(f: Flow, u: UserSupply, index: int)
    requires WithinGrowth(f, u, index) && u.shares >= 0 && index > 0
    ensures u.principal * ONE * ONE >= f.supplied * ONE * ONE - (f.supplied * index + f.exits * ONE) * index
  {
    MulKeepsOrder(Spent(f, u.shares, index), f.supplied * index + f.exits * ONE, index);
  }

  // In every reachable state: what a user has withdrawn in all is at most what they
  // supplied, grown by the index twice - once in minting, once in burning - less the
  // shares they still hold, plus one share's worth for each withdrawal.
  lemma WithdrawalsBounded(calls: seq<Call>, user: Address)
    requires AllSensible(calls)
    ensures var b, f := Run(NEW_BOOK, calls), FlowOf(NEW_BOOK, calls, user);
            && SupplyOf(b, user).principal == f.supplied - f.withdrawn
            && f.withdrawn * ONE * ONE
               <= Spent(f, SupplyOf(b, user).shares, b.state.supplyIndex) * b.state.supplyIndex
  {
    RunKeeps(calls, user);
  }

  // So a principal may turn negative, but no further than this.
  lemma PrincipalBoundedBelow(calls: seq<Call>, user: Address)
    requires AllSensible(calls)
    ensures var b, f := Run(NEW_BOOK, calls), FlowOf(NEW_BOOK, calls, user);
            var index := b.state.supplyIndex;
            SupplyOf(b, user).principal * ONE * ONE
            >= f.supplied * ONE * ONE - (f.supplied * index + f.exits * ONE) * index
  {
    var b := Run(NEW_BOOK, calls);
    RunKeeps(calls, user);
    SharesBackPrincipals(calls, user);
    IndexAtLeastOne(calls);
    FloorOfPrincipal(FlowOf(NEW_BOOK, calls, user), SupplyOf(b, user), b.state.supplyIndex);
  }

  lemma IndexAtLeastOne(calls: seq<Call>)
    requires AllSensible(calls)
    ensures Run(NEW_BOOK, calls).state.supplyIndex >= ONE
  {
    RunHealthy(calls);
  }
}
