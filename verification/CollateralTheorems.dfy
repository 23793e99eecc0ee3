// What the collateral manager's valuations and transfers guarantee.
module CollateralTheorems {
  import opened FixedPoint
  import opened Ledgers
  import opened CollateralManager
  import PO = PriceOracle

  // ---- Valuation loops against exact sums

  // Amounts and prices are nonnegative, thresholds are fractions.
  ghost predicate Sound(v: Vault, holdings: map<Address, int>) {
    forall asset :: asset in holdings ==>
      holdings[asset] >= 0 && PriceOf(v, asset) >= 0 && 0 <= Get(v.thresholds, asset) <= ONE
  }

  function AssetValue(v: Vault, asset: Address, amount: int): int {
    MulDiv(amount, PriceOf(v, asset), ONE)
  }

  function AssetCapacity(v: Vault, asset: Address, amount: int): int {
    MulDiv(AssetValue(v, asset, amount), Get(v.thresholds, asset), ONE)
  }

  function Values(v: Vault, holdings: map<Address, int>): map<Address, int> {
    map asset | asset in holdings :: AssetValue(v, asset, holdings[asset])
  }

  function Capacities(v: Vault, holdings: map<Address, int>): map<Address, int> {
    map asset | asset in holdings :: AssetCapacity(v, asset, holdings[asset])
  }

  // The same sums before any rounding, scaled by ONE and by ONE * ONE.
  function ExactValues(v: Vault, holdings: map<Address, int>): map<Address, int> {
    map asset | asset in holdings :: holdings[asset] * PriceOf(v, asset)
  }

  function ExactCapacities(v: Vault, holdings: map<Address, int>): map<Address, int> {
    map asset | asset in holdings :: holdings[asset] * PriceOf(v, asset) * Get(v.thresholds, asset)
  }

  lemma {:induction false} FoldIsSum(terms: map<Address, Option<int>>, amounts: map<Address, int>, ks: seq<Address>)
    requires Fold(terms, ks).Some?
    requires forall k :: k in terms && terms[k].Some? ==> Get(amounts, k) == terms[k].value
    ensures Fold(terms, ks).value == SumAlong(amounts, ks)
  {
    if ks != [] {
      FoldIsSum(terms, amounts, ks[..|ks| - 1]);
    }
  }

  // A valuation that returns, returns the plain sum of its floors.
  lemma ValuationsAreSums(v: Vault, user: Address)
    ensures CollateralValue(v, user).Some? ==>
              CollateralValue(v, user).value == Sum(Values(v, Holdings(v, user)))
    ensures AvailableBorrow(v, user).Some? ==>
              AvailableBorrow(v, user).value == Sum(Capacities(v, Holdings(v, user)))
  {
    var h := Holdings(v, user);
    assert Values(v, h).Keys == Capacities(v, h).Keys == h.Keys;
    if CollateralValue(v, user).Some? {
      FoldIsSum(ValueTerms(v, h), Values(v, h), SortedKeys(h.Keys));
    }
    if AvailableBorrow(v, user).Some? {
      FoldIsSum(CapacityTerms(v, h), Capacities(v, h), SortedKeys(h.Keys));
    }
  }

  // What the user's holdings allow to borrow, asset by asset rounded down.
  function Capacity(v: Vault, user: Address): int {
    Sum(Capacities(v, Holdings(v, user)))
  }

  lemma {:induction false} FoldDefined(terms: map<Address, Option<int>>, amounts: map<Address, int>, ks: seq<Address>)
    requires forall k :: k in ks ==> k in terms && terms[k].Some? && Get(amounts, k) == terms[k].value >= 0
    requires SumAlong(amounts, ks) <= I128_MAX
    ensures Fold(terms, ks) == Some(SumAlong(amounts, ks)) && SumAlong(amounts, ks) >= 0
  {
    if ks != [] {
      var earlier, k := ks[..|ks| - 1], ks[|ks| - 1];
      assert k in ks && forall j :: j in earlier ==> j in ks;
      FoldDefined(terms, amounts, earlier);
    }
  }

  lemma {:induction false} FoldNeedsAll(terms: map<Address, Option<int>>, ks: seq<Address>, k: Address)
    requires k in ks && Fold(terms, ks).Some?
    ensures k in terms && terms[k].Some? && InI128(Fold(terms, ks).value)
  {
    var earlier := ks[..|ks| - 1];
    if k != ks[|ks| - 1] {
      FoldNeedsAll(terms, earlier, k);
    }
  }

  // A checked sum over all keys returns if and only if every term does and the total is
  // in range.
  lemma FoldReturnsIff(terms: map<Address, Option<int>>, amounts: map<Address, int>)
    requires amounts.Keys == terms.Keys
    requires forall k :: k in terms ==> amounts[k] >= 0 && (terms[k].Some? ==> terms[k].value == amounts[k])
    ensures Fold(terms, SortedKeys(terms.Keys)).Some?
            <==> (forall k :: k in terms ==> terms[k].Some?) && Sum(amounts) <= I128_MAX
  {
    var ks := SortedKeys(terms.Keys);
    SortedKeysListed(terms.Keys);
    if Fold(terms, ks).Some? {
      FoldIsSum(terms, amounts, ks);
      forall k | k in terms ensures terms[k].Some? && Sum(amounts) <= I128_MAX {
        FoldNeedsAll(terms, ks, k);
      }
      if terms.Keys == {} {
        assert ks == [];
      } else {
        var k :| k in terms.Keys;
      }
    } else if (forall k :: k in terms ==> terms[k].Some?) && Sum(amounts) <= I128_MAX {
      FoldDefined(terms, amounts, ks);
      assert false;
    }
  }

  // The products a valuation forms are in range.
  ghost predicate ValuesFit(v: Vault, h: map<Address, int>) {
    forall asset :: asset in h ==> h[asset] * PriceOf(v, asset) <= I128_MAX
  }

  ghost predicate WeightsFit(v: Vault, h: map<Address, int>) {
    forall asset :: asset in h ==> AssetValue(v, asset, h[asset]) * Get(v.thresholds, asset) <= I128_MAX
  }

  lemma TermsFitIff(v: Vault, asset: Address, amount: int)
    requires amount >= 0 && PriceOf(v, asset) >= 0 && Get(v.thresholds, asset) >= 0
    ensures AssetValue(v, asset, amount) >= 0 && AssetCapacity(v, asset, amount) >= 0
    ensures ValueTerm(v, asset, amount).Some? <==> amount * PriceOf(v, asset) <= I128_MAX
    ensures CapacityTerm(v, asset, amount).Some? <==>
              && amount * PriceOf(v, asset) <= I128_MAX
              && AssetValue(v, asset, amount) * Get(v.thresholds, asset) <= I128_MAX
  {
    ProductFitsIff(amount, PriceOf(v, asset), ONE);
    ProductFitsIff(AssetValue(v, asset, amount), Get(v.thresholds, asset), ONE);
  }

  // A valuation of a sound position panics only where a product or the total is out of
  // range.
  lemma ValueReturnsIff(v: Vault, user: Address)
    requires Sound(v, Holdings(v, user))
    ensures var h := Holdings(v, user);
            CollateralValue(v, user).Some? <==> ValuesFit(v, h) && Sum(Values(v, h)) <= I128_MAX
  {
    var h := Holdings(v, user);
    forall asset | asset in h
      ensures AssetValue(v, asset, h[asset]) >= 0
      ensures ValueTerm(v, asset, h[asset]).Some? <==> h[asset] * PriceOf(v, asset) <= I128_MAX
    {
      TermsFitIff(v, asset, h[asset]);
    }
    assert ValueTerms(v, h).Keys == h.Keys;
    FoldReturnsIff(ValueTerms(v, h), Values(v, h));
  }

  lemma CapacityReturnsIff(v: Vault, user: Address)
    requires Sound(v, Holdings(v, user))
    ensures var h := Holdings(v, user);
            AvailableBorrow(v, user).Some? <==>
              ValuesFit(v, h) && WeightsFit(v, h) && Capacity(v, user) <= I128_MAX
  {
    var h := Holdings(v, user);
    forall asset | asset in h
      ensures AssetCapacity(v, asset, h[asset]) >= 0
      ensures CapacityTerm(v, asset, h[asset]).Some? <==>
                && h[asset] * PriceOf(v, asset) <= I128_MAX
                && AssetValue(v, asset, h[asset]) * Get(v.thresholds, asset) <= I128_MAX
    {
      TermsFitIff(v, asset, h[asset]);
    }
    assert CapacityTerms(v, h).Keys == h.Keys;
    FoldReturnsIff(CapacityTerms(v, h), Capacities(v, h));
  }

  // The health factor of a sound position: a hundred without debt, else the capacity over
  // the debt, rounded down, unless the valuation or its scaling is out of range.
  lemma HealthFactorDecided(v: Vault, user: Address, debt: int)
    requires debt >= 0 && Sound(v, Holdings(v, user))
    ensures debt == 0 ==> HealthFactor(v, user, debt) == Some(100 * ONE)
    ensures debt > 0 ==>
              (HealthFactor(v, user, debt).Some? <==>
                 && ValuesFit(v, Holdings(v, user)) && WeightsFit(v, Holdings(v, user))
                 && Capacity(v, user) * ONE <= I128_MAX)
    ensures debt > 0 && HealthFactor(v, user, debt).Some? ==>
              IsFloor(HealthFactor(v, user, debt).value, Capacity(v, user) * ONE, debt)
  {
    if debt > 0 {
      CapacityReturnsIff(v, user);
      ValuationsAreSums(v, user);
      CapacityNonNegative(v, Holdings(v, user));
      ProductFitsIff(Capacity(v, user), ONE, debt);
      MulDivFloor(Capacity(v, user), ONE, debt);
    }
  }

  lemma TermBounds(amount: int, price: int, threshold: int)
    requires amount >= 0 && price >= 0 && 0 <= threshold <= ONE
    ensures var value := MulDiv(amount, price, ONE);
            var capacity := MulDiv(value, threshold, ONE);
            && 0 <= capacity <= value
            && value * ONE <= amount * price <= value * ONE + (ONE - 1)
            && capacity * ONE * ONE <= amount * price * threshold <= (capacity + 2) * ONE * ONE - 1
  {
  }

  lemma {:induction false} SumsAlongBounded(v: Vault, h: map<Address, int>, ks: seq<Address>)
    requires Sound(v, h) && forall k :: k in ks ==> k in h
    ensures var value := SumAlong(Values(v, h), ks);
            var capacity := SumAlong(Capacities(v, h), ks);
            && 0 <= capacity <= value
            && value * ONE <= SumAlong(ExactValues(v, h), ks) <= value * ONE + |ks| * (ONE - 1)
            && capacity * ONE * ONE <= SumAlong(ExactCapacities(v, h), ks)
            && SumAlong(ExactCapacities(v, h), ks) <= (capacity + 2 * |ks|) * ONE * ONE - |ks|
  {
    if ks != [] {
      var k := ks[|ks| - 1];
      SumsAlongBounded(v, h, ks[..|ks| - 1]);
      TermBounds(h[k], PriceOf(v, k), Get(v.thresholds, k));
    }
  }

  // Over n assets: capacity never exceeds value; both are at most their exact sums, the
  // value short of it by less than n units and the capacity by less than 2n.
  lemma ValuationBounds(v: Vault, user: Address, value: int, capacity: int)
    requires Sound(v, Holdings(v, user))
    requires CollateralValue(v, user) == Some(value) && AvailableBorrow(v, user) == Some(capacity)
    ensures var h := Holdings(v, user);
            && 0 <= capacity <= value
            && value * ONE <= Sum(ExactValues(v, h)) <= value * ONE + |h| * (ONE - 1)
            && capacity * ONE * ONE <= Sum(ExactCapacities(v, h)) <= (capacity + 2 * |h|) * ONE * ONE - |h|
  {
    var h := Holdings(v, user);
    assert Values(v, h).Keys == Capacities(v, h).Keys == h.Keys;
    assert ExactValues(v, h).Keys == ExactCapacities(v, h).Keys == h.Keys;
    ValuationsAreSums(v, user);
    SortedKeysListed(h.Keys);
    SumsAlongBounded(v, h, SortedKeys(h.Keys));
  }

  // ---- Deposits

  lemma ValueOfOneMore(v: Vault, h: map<Address, int>, asset: Address, amount: int)
    ensures Sum(Values(v, h[asset := amount])) ==
            Sum(Values(v, h)) - AssetValue(v, asset, Get(h, asset)) + AssetValue(v, asset, amount)
  {
    assert Values(v, h[asset := amount]) == Values(v, h)[asset := AssetValue(v, asset, amount)];
    SumUpdate(Values(v, h), asset, AssetValue(v, asset, amount));
    assert AssetValue(v, asset, 0) == 0;
  }

  lemma CapacityOfOneMore(v: Vault, h: map<Address, int>, asset: Address, amount: int)
    ensures Sum(Capacities(v, h[asset := amount])) ==
            Sum(Capacities(v, h)) - AssetCapacity(v, asset, Get(h, asset)) + AssetCapacity(v, asset, amount)
  {
    assert Capacities(v, h[asset := amount]) == Capacities(v, h)[asset := AssetCapacity(v, asset, amount)];
    SumUpdate(Capacities(v, h), asset, AssetCapacity(v, asset, amount));
    assert AssetCapacity(v, asset, 0) == 0;
  }

  lemma PricedAlike(v: Vault, v': Vault, h: map<Address, int>)
    requires v'.prices == v.prices && v'.thresholds == v.thresholds && v'.oracle == v.oracle
    ensures Values(v', h) == Values(v, h) && Capacities(v', h) == Capacities(v, h)
  {
  }

  // The sums a deposit leads to are those of the old position with one amount grown.
  lemma SumsGrow(v: Vault, h: map<Address, int>, asset: Address, amount: int)
    requires amount >= 0 && Get(h, asset) >= 0 && PriceOf(v, asset) >= 0 && 0 <= Get(v.thresholds, asset)
    ensures Sum(Values(v, h)) <= Sum(Values(v, h[asset := Get(h, asset) + amount]))
    ensures Sum(Capacities(v, h)) <= Sum(Capacities(v, h[asset := Get(h, asset) + amount]))
  {
    var x, price, threshold := Get(h, asset), PriceOf(v, asset), Get(v.thresholds, asset);
    ValueOfOneMore(v, h, asset, x + amount);
    CapacityOfOneMore(v, h, asset, x + amount);
    MulDivMonotone(x, price, x + amount, price, ONE);
    MulDivMonotone(AssetValue(v, asset, x), threshold, AssetValue(v, asset, x + amount), threshold, ONE);
  }

  lemma DepositGrowsSums(v: Vault, user: Address, asset: Address, amount: int)
    requires amount >= 0 && Deposited(v, user, asset, amount).Some?
    requires Held(v, user, asset) >= 0
    requires PriceOf(v, asset) >= 0 && 0 <= Get(v.thresholds, asset)
    ensures var v' := Deposited(v, user, asset, amount).value;
            && Sum(Values(v, Holdings(v, user))) <= Sum(Values(v', Holdings(v', user)))
            && Sum(Capacities(v, Holdings(v, user))) <= Sum(Capacities(v', Holdings(v', user)))
  {
    var v' := Deposited(v, user, asset, amount).value;
    var h := Holdings(v, user);
    assert Holdings(v', user) == h[asset := Get(h, asset) + amount];
    PricedAlike(v, v', Holdings(v', user));
    SumsGrow(v, h, asset, amount);
  }

  // A deposit, of an asset held before or not, never lowers the value or the capacity of
  // a position.
  lemma DepositNeverLowers(v: Vault, user: Address, asset: Address, amount: int)
    requires amount >= 0 && Deposited(v, user, asset, amount).Some?
    requires Held(v, user, asset) >= 0
    requires PriceOf(v, asset) >= 0 && 0 <= Get(v.thresholds, asset)
    ensures var v' := Deposited(v, user, asset, amount).value;
            && (CollateralValue(v, user).Some? && CollateralValue(v', user).Some? ==>
                  CollateralValue(v, user).value <= CollateralValue(v', user).value)
            && (AvailableBorrow(v, user).Some? && AvailableBorrow(v', user).Some? ==>
                  AvailableBorrow(v, user).value <= AvailableBorrow(v', user).value)
  {
    ValuationsAreSums(v, user);
    ValuationsAreSums(Deposited(v, user, asset, amount).value, user);
    DepositGrowsSums(v, user, asset, amount);
  }

  // Nor does it lower the health factor, for whatever debt.
  lemma DepositNeverLowersHealth(v: Vault, user: Address, asset: Address, amount: int, debt: int)
    requires amount >= 0 && debt >= 0 && Deposited(v, user, asset, amount).Some?
    requires Sound(v, Holdings(v, user))
    requires PriceOf(v, asset) >= 0 && 0 <= Get(v.thresholds, asset)
    ensures var v' := Deposited(v, user, asset, amount).value;
            HealthFactor(v, user, debt).Some? && HealthFactor(v', user, debt).Some? ==>
              HealthFactor(v, user, debt).value <= HealthFactor(v', user, debt).value
  {
    var v' := Deposited(v, user, asset, amount).value;
    if debt > 0 && AvailableBorrow(v, user).Some? && AvailableBorrow(v', user).Some? {
      var before, after := AvailableBorrow(v, user).value, AvailableBorrow(v', user).value;
      DepositNeverLowers(v, user, asset, amount);
      ValuationsAreSums(v, user);
      CapacityNonNegative(v, Holdings(v, user));
      MulDivMonotone(before, ONE, after, ONE, debt);
    }
  }

  lemma CapacityNonNegative(v: Vault, h: map<Address, int>)
    requires Sound(v, h)
    ensures Sum(Capacities(v, h)) >= 0
  {
    assert Capacities(v, h).Keys == h.Keys;
    SortedKeysListed(h.Keys);
    SumsAlongBounded(v, h, SortedKeys(h.Keys));
  }

  // ---- Conservation

  function HoldingsOf(v: Vault, asset: Address): map<Address, int> {
    map user | user in v.collateral :: Get(v.collateral[user], asset)
  }

  // Everything held of one asset, over all users.
  function AssetTotal(v: Vault, asset: Address): int {
    Sum(HoldingsOf(v, asset))
  }

  lemma TotalAfterWrite(v: Vault, user: Address, written: Address, amount: int, asset: Address)
    ensures AssetTotal(WithHolding(v, user, written, amount), asset) ==
            if asset == written then AssetTotal(v, asset) - Held(v, user, asset) + amount else AssetTotal(v, asset)
  {
    var v' := WithHolding(v, user, written, amount);
    var kept := if asset == written then amount else Held(v, user, asset);
    assert HoldingsOf(v', asset) == HoldingsOf(v, asset)[user := kept];
    SumUpdate(HoldingsOf(v, asset), user, kept);
    assert Get(HoldingsOf(v, asset), user) == Held(v, user, asset);
  }

  lemma HeldAfterWrite(v: Vault, user: Address, written: Address, amount: int, other: Address, asset: Address)
    ensures Held(WithHolding(v, user, written, amount), other, asset) ==
            if other == user && asset == written then amount else Held(v, other, asset)
  {
  }

  // A seizure moves collateral, it neither makes nor destroys any: also when the
  // liquidator seizes from itself.
  lemma SeizureConserves(v: Vault, caller: Address, borrower: Address, seized: Address, amount: int, asset: Address)
    requires Seized(v, caller, borrower, seized, amount).Some?
    ensures AssetTotal(Seized(v, caller, borrower, seized, amount).value, asset) == AssetTotal(v, asset)
  {
    var remaining := Held(v, borrower, seized) - amount;
    var taken := WithHolding(v, borrower, seized, remaining);
    TotalAfterWrite(v, borrower, seized, remaining, asset);
    TotalAfterWrite(taken, caller, seized, Held(taken, caller, seized) + amount, asset);
  }

  // Who holds what after a seizure.
  lemma SeizureMoves(v: Vault, caller: Address, borrower: Address, seized: Address, amount: int,
                     user: Address, asset: Address)
    requires Seized(v, caller, borrower, seized, amount).Some?
    ensures var v' := Seized(v, caller, borrower, seized, amount).value;
            Held(v', user, asset) == Held(v, user, asset)
              + (if user == caller && asset == seized then amount else 0)
              - (if user == borrower && asset == seized then amount else 0)
  {
    var remaining := Held(v, borrower, seized) - amount;
    var taken := WithHolding(v, borrower, seized, remaining);
    HeldAfterWrite(v, borrower, seized, remaining, user, asset);
    HeldAfterWrite(v, borrower, seized, remaining, caller, seized);
    HeldAfterWrite(taken, caller, seized, Held(taken, caller, seized) + amount, user, asset);
  }

  datatype Call =
    | Deposit(user: Address, asset: Address, amount: int)
    | Withdraw(user: Address, asset: Address, amount: int)
    | Seize(caller: Address, borrower: Address, asset: Address, amount: int)
    | Reprice(thresholds: map<Address, int>, prices: map<Address, int>, oracle: Option<map<Address, int>>)

  function Attempt(v: Vault, c: Call): Option<Vault> {
    match c
    case Deposit(user, asset, amount) => Deposited(v, user, asset, amount)
    case Withdraw(user, asset, amount) => Withdrawn(v, user, asset, amount)
    case Seize(caller, borrower, asset, amount) => Seized(v, caller, borrower, asset, amount)
    case Reprice(thresholds, prices, oracle) => Some(v.(thresholds := thresholds, prices := prices, oracle := oracle))
  }

  // When a call returns: every amount it writes is in range, and a seizure takes no more
  // than is there.
  predicate Returns(v: Vault, c: Call) {
    match c
    case Deposit(user, asset, amount) => InI128(Held(v, user, asset) + amount)
    case Withdraw(user, asset, amount) => InI128(Held(v, user, asset) - amount)
    case Seize(caller, borrower, asset, amount) =>
      var left := Held(v, borrower, asset) - amount;
      var own := if caller == borrower then left else Held(v, caller, asset);
      0 <= left && InI128(left) && InI128(own + amount)
    case Reprice(_, _, _) => true
  }

  // What a call brings one user of one asset.
  function Gain(c: Call, user: Address, asset: Address): int {
    match c
    case Deposit(who, what, amount) => if who == user && what == asset then amount else 0
    case Withdraw(who, what, amount) => if who == user && what == asset then -amount else 0
    case Seize(caller, borrower, what, amount) =>
      if what != asset || caller == borrower then 0
      else if caller == user then amount else if borrower == user then -amount else 0
    case Reprice(_, _, _) => 0
  }

  lemma CallDecided(v: Vault, c: Call)
    ensures Attempt(v, c).Some? <==> Returns(v, c)
  {
    if c.Seize? {
      var left := Held(v, c.borrower, c.asset) - c.amount;
      HeldAfterWrite(v, c.borrower, c.asset, left, c.caller, c.asset);
    }
  }

  lemma HeldAfterCall(v: Vault, c: Call, user: Address, asset: Address)
    requires Attempt(v, c).Some?
    ensures Held(Attempt(v, c).value, user, asset) == Held(v, user, asset) + Gain(c, user, asset)
  {
    match c
    case Deposit(who, what, amount) => HeldAfterWrite(v, who, what, Held(v, who, what) + amount, user, asset);
    case Withdraw(who, what, amount) => HeldAfterWrite(v, who, what, Held(v, who, what) - amount, user, asset);
    case Seize(caller, borrower, what, amount) => SeizureMoves(v, caller, borrower, what, amount, user, asset);
    case Reprice(_, _, _) =>
  }

  function Run(v: Vault, calls: seq<Call>): Vault {
    if calls == [] then v else
      var before := Run(v, calls[..|calls| - 1]);
      match Attempt(before, calls[|calls| - 1])
      case Some(after) => after
      case None => before
  }

  function Flow(v: Vault, c: Call, asset: Address): int {
    if Attempt(v, c) == None then 0
    else if c.Deposit? && c.asset == asset then c.amount
    else if c.Withdraw? && c.asset == asset then -c.amount
    else 0
  }

  lemma DepositConserves(v: Vault, user: Address, deposited: Address, amount: int, asset: Address)
    requires Deposited(v, user, deposited, amount).Some?
    ensures AssetTotal(Deposited(v, user, deposited, amount).value, asset)
         == AssetTotal(v, asset) + if deposited == asset then amount else 0
  {
    TotalAfterWrite(v, user, deposited, Held(v, user, deposited) + amount, asset);
  }

  lemma WithdrawalConserves(v: Vault, user: Address, withdrawn: Address, amount: int, asset: Address)
    requires Withdrawn(v, user, withdrawn, amount).Some?
    ensures AssetTotal(Withdrawn(v, user, withdrawn, amount).value, asset)
         == AssetTotal(v, asset) - if withdrawn == asset then amount else 0
  {
    TotalAfterWrite(v, user, withdrawn, Held(v, user, withdrawn) - amount, asset);
  }

  lemma StepConserves(v: Vault, c: Call, asset: Address)
    requires Attempt(v, c).Some?
    ensures AssetTotal(Attempt(v, c).value, asset) == AssetTotal(v, asset) + Flow(v, c, asset)
  {
    match c
    case Deposit(user, deposited, amount) => DepositConserves(v, user, deposited, amount, asset);
    case Withdraw(user, withdrawn, amount) => WithdrawalConserves(v, user, withdrawn, amount, asset);
    case Seize(caller, borrower, seized, amount) => SeizureConserves(v, caller, borrower, seized, amount, asset);
    case Reprice(_, _, _) => assert HoldingsOf(Attempt(v, c).value, asset) == HoldingsOf(v, asset);
  }

  // Deposits less withdrawals of one asset, of the calls that went through.
  function NetDeposits(v: Vault, calls: seq<Call>, asset: Address): int {
    if calls == [] then 0 else
      var earlier := calls[..|calls| - 1];
      NetDeposits(v, earlier, asset) + Flow(Run(v, earlier), calls[|calls| - 1], asset)
  }

  // On every run each asset's total is exactly what was deposited less what was
  // withdrawn, whatever was seized or repriced on the way.
  lemma {:induction false} CollateralConserved(v: Vault, calls: seq<Call>, asset: Address)
    ensures AssetTotal(Run(v, calls), asset) == AssetTotal(v, asset) + NetDeposits(v, calls, asset)
  {
    if calls != [] {
      var earlier := calls[..|calls| - 1];
      CollateralConserved(v, earlier, asset);
      var c := calls[|calls| - 1];
      if Attempt(Run(v, earlier), c).Some? {
        StepConserves(Run(v, earlier), c, asset);
      }
    }
  }

  // What the calls that return have brought the user.
  function NetGain(v: Vault, calls: seq<Call>, user: Address, asset: Address): int {
    if calls == [] then 0 else
      var earlier, c := calls[..|calls| - 1], calls[|calls| - 1];
      NetGain(v, earlier, user, asset) + if Returns(Run(v, earlier), c) then Gain(c, user, asset) else 0
  }

  // On every run each user holds of each asset what the calls that returned have brought
  // them, and a call returns if and only if the amounts it writes are in range.
  lemma {:induction false} HoldingsDecided(v: Vault, calls: seq<Call>, user: Address, asset: Address)
    ensures Held(Run(v, calls), user, asset) == Held(v, user, asset) + NetGain(v, calls, user, asset)
  {
    if calls != [] {
      var earlier, c := calls[..|calls| - 1], calls[|calls| - 1];
      HoldingsDecided(v, earlier, user, asset);
      CallDecided(Run(v, earlier), c);
      if Returns(Run(v, earlier), c) {
        HeldAfterCall(Run(v, earlier), c, user, asset);
      }
    }
  }

  // With an oracle attached, assets are priced at the last price it accepted, whatever
  // the fallback says; an asset never posted is worth nothing.
  lemma PricedByOracle(v: Vault, postings: seq<PO.Call>, asset: Address)
    requires PO.Clocked(postings) && v.oracle == Some(PO.Run(PO.NEW_FEED, postings).prices)
    ensures var h := PO.History(PO.NEW_FEED, postings, asset);
            PriceOf(v, asset) == if h == [] then 0 else h[|h| - 1].price
  {
    PO.RunTracks(postings, asset);
  }
}
