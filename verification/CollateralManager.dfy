// The collateral manager: per-user, per-asset balances, valued at oracle (or fallback)
// prices and weighted by per-asset liquidation thresholds.
module CollateralManager {
  import opened FixedPoint
  import opened Ledgers
  import PriceOracle

  // ---- Specification

  // `oracle` is the price table of the attached oracle, if one is attached.
  datatype Vault = Vault(
    admin: Option<Address>,
    collateral: map<Address, map<Address, int>>,
    thresholds: map<Address, int>,
    prices: map<Address, int>,
    oracle: Option<map<Address, int>>)

  function Holdings(v: Vault, user: Address): map<Address, int> {
    if user in v.collateral then v.collateral[user] else map[]
  }

  function Held(v: Vault, user: Address, asset: Address): int {
    Get(Holdings(v, user), asset)
  }

  function WithHolding(v: Vault, user: Address, asset: Address, amount: int): Vault {
    v.(collateral := v.collateral[user := Holdings(v, user)[asset := amount]])
  }

  function Deposited(v: Vault, user: Address, asset: Address, amount: int): Option<Vault> {
    var newAmount := Held(v, user, asset) + amount;
    if InI128(newAmount) then Some(WithHolding(v, user, asset, newAmount)) else None
  }

  function Withdrawn(v: Vault, user: Address, asset: Address, amount: int): Option<Vault> {
    var newAmount := Held(v, user, asset) - amount;
    if InI128(newAmount) then Some(WithHolding(v, user, asset, newAmount)) else None
  }

  // The caller's balance is read after the borrower's was written: they may be one user.
  function Seized(v: Vault, caller: Address, borrower: Address, asset: Address, amount: int): Option<Vault> {
    var remaining := Held(v, borrower, asset) - amount;
    if remaining < 0 || !InI128(remaining) then None else
      var taken := WithHolding(v, borrower, asset, remaining);
      var received := Held(taken, caller, asset) + amount;
      if InI128(received) then Some(WithHolding(taken, caller, asset, received)) else None
  }

  function PriceOf(v: Vault, asset: Address): int {
    match v.oracle
    case Some(table) => Get(table, asset)
    case None => Get(v.prices, asset)
  }

  function ValueTerm(v: Vault, asset: Address, amount: int): Option<int> {
    if MulDivFits(amount, PriceOf(v, asset), ONE) then Some(MulDiv(amount, PriceOf(v, asset), ONE)) else None
  }

  function CapacityTerm(v: Vault, asset: Address, amount: int): Option<int> {
    match ValueTerm(v, asset, amount)
    case None => None
    case Some(value) =>
      if MulDivFits(value, Get(v.thresholds, asset), ONE) then Some(MulDiv(value, Get(v.thresholds, asset), ONE))
      else None
  }

  function ValueTerms(v: Vault, holdings: map<Address, int>): map<Address, Option<int>> {
    map asset | asset in holdings :: ValueTerm(v, asset, holdings[asset])
  }

  function CapacityTerms(v: Vault, holdings: map<Address, int>): map<Address, Option<int>> {
    map asset | asset in holdings :: CapacityTerm(v, asset, holdings[asset])
  }

  // A checked sum in the given order; any panic on the way is a panic of the whole.
  function Fold(terms: map<Address, Option<int>>, ks: seq<Address>): Option<int> {
    if ks == [] then Some(0) else
      var k := ks[|ks| - 1];
      match Fold(terms, ks[..|ks| - 1])
      case None => None
      case Some(sum) =>
        if k in terms && terms[k].Some? && InI128(sum + terms[k].value) then Some(sum + terms[k].value) else None
  }

  function CollateralValue(v: Vault, user: Address): Option<int> {
    var holdings := Holdings(v, user);
    Fold(ValueTerms(v, holdings), SortedKeys(holdings.Keys))
  }

  function AvailableBorrow(v: Vault, user: Address): Option<int> {
    var holdings := Holdings(v, user);
    Fold(CapacityTerms(v, holdings), SortedKeys(holdings.Keys))
  }

  function HealthFactor(v: Vault, user: Address, totalBorrowUsd: int): Option<int> {
    if totalBorrowUsd == 0 then Some(ONE * 100) else
      match AvailableBorrow(v, user)
      case None => None
      case Some(available) =>
        if MulDivFits(available, ONE, totalBorrowUsd) then Some(MulDiv(available, ONE, totalBorrowUsd)) else None
  }

  // ---- The contract

  class Manager {
    var admin: Option<Address>
    var collateral: map<Address, map<Address, int>>
    var thresholds: map<Address, int>
    var prices: map<Address, int>
    var oracle: PriceOracle.Oracle?

    ghost function View(): Vault
      reads this, oracle
    {
      Vault(admin, collateral, thresholds, prices, if oracle == null then None else Some(oracle.prices))
    }

    constructor ()
      ensures View() == Vault(None, map[], map[], map[], None)
    {
      admin, collateral, thresholds, prices, oracle := None, map[], map[], map[], null;
    }

    method Initialize(admin: Address) returns (ok: bool)
      modifies this`admin
      ensures ok <==> old(this.admin) == None
      ensures View() == if ok then old(View()).(admin := Some(admin)) else old(View())
    {
      if this.admin.Some? {
        return false;
      }
      this.admin := Some(admin);
      return true;
    }

    method SetOracle(signers: set<Address>, admin: Address, oracle: PriceOracle.Oracle) returns (ok: bool)
      modifies this`oracle
      ensures ok <==> admin in signers && this.admin == Some(admin)
      ensures this.oracle == if ok then oracle else old(this.oracle)
    {
      if admin !in signers {
        return false;
      }
      if this.admin != Some(admin) {
        return false;
      }
      this.oracle := oracle;
      return true;
    }

    method WriteCollateral(user: Address, asset: Address, amount: int)
      modifies this`collateral
      ensures View() == WithHolding(old(View()), user, asset, amount)
    {
      var holdings := if user in collateral then collateral[user] else map[];
      collateral := collateral[user := holdings[asset := amount]];
    }

    function ReadCollateral(user: Address): (holdings: map<Address, int>)
      reads this, oracle
      ensures holdings == Holdings(View(), user)
    {
      if user in collateral then collateral[user] else map[]
    }

    method DepositCollateral(user: Address, asset: Address, amount: int) returns (ok: bool)
      modifies this`collateral
      ensures ok <==> Deposited(old(View()), user, asset, amount).Some?
      ensures View() == if ok then Deposited(old(View()), user, asset, amount).value else old(View())
    {
      var newAmount := Get(ReadCollateral(user), asset) + amount;
      if !InI128(newAmount) {
        return false;
      }
      WriteCollateral(user, asset, newAmount);
      return true;
    }

    method WithdrawCollateral(user: Address, asset: Address, amount: int) returns (ok: bool)
      modifies this`collateral
      ensures ok <==> Withdrawn(old(View()), user, asset, amount).Some?
      ensures View() == if ok then Withdrawn(old(View()), user, asset, amount).value else old(View())
    {
      var newAmount := Get(ReadCollateral(user), asset) - amount;
      if !InI128(newAmount) {
        return false;
      }
      WriteCollateral(user, asset, newAmount);
      return true;
    }

    method SeizeCollateral(caller: Address, borrower: Address, asset: Address, amount: int) returns (ok: bool)
      modifies this`collateral
      ensures ok <==> Seized(old(View()), caller, borrower, asset, amount).Some?
      ensures View() == if ok then Seized(old(View()), caller, borrower, asset, amount).value else old(View())
    {
      var before := collateral;
      var currentAmount := Get(ReadCollateral(borrower), asset);
      if amount > currentAmount {
        return false;
      }
      var newBorrowerAmount := currentAmount - amount;
      if !InI128(newBorrowerAmount) {
        return false;
      }
      WriteCollateral(borrower, asset, newBorrowerAmount);

      var newCallerAmount := Get(ReadCollateral(caller), asset) + amount;
      if !InI128(newCallerAmount) {
        collateral := before;  // the host discards the writes of a call that panics
        return false;
      }
      WriteCollateral(caller, asset, newCallerAmount);
      return true;
    }

    function GetPrice(asset: Address): (price: int)
      reads this, oracle
      ensures price == PriceOf(View(), asset)
    {
      if oracle != null then Get(oracle.prices, asset) else Get(prices, asset)
    }

    method ValueUsd(asset: Address, amount: int) returns (value: Option<int>)
      ensures value == ValueTerm(View(), asset, amount)
    {
      var price := GetPrice(asset);
      if !MulDivFits(amount, price, ONE) {
        return None;
      }
      return Some(MulDiv(amount, price, ONE));
    }

    method WeightedUsd(asset: Address, amount: int) returns (weighted: Option<int>)
      ensures weighted == CapacityTerm(View(), asset, amount)
    {
      var value := ValueUsd(asset, amount);
      var threshold := Get(thresholds, asset);
      if value == None || !MulDivFits(value.value, threshold, ONE) {
        return None;
      }
      return Some(MulDiv(value.value, threshold, ONE));
    }

    method GetCollateralValueUsd(user: Address) returns (r: Option<int>)
      ensures r == CollateralValue(View(), user)
    {
      var holdings := ReadCollateral(user);
      var assets := SortedKeys(holdings.Keys);
      var totalValue := 0;
      for i := 0 to |assets|
        invariant Fold(ValueTerms(View(), holdings), assets[..i]) == Some(totalValue)
      {
        var asset := assets[i];
        SortedKeyKnown(holdings.Keys, i);
        FoldNext(ValueTerms(View(), holdings), assets, i);
        var value := ValueUsd(asset, holdings[asset]);
        if value == None || !InI128(totalValue + value.value) {
          FoldStops(ValueTerms(View(), holdings), assets, i + 1);
          return None;
        }
        totalValue := totalValue + value.value;
      }
      assert assets[..|assets|] == assets;
      return Some(totalValue);
    }

    method GetAvailableBorrowUsd(user: Address) returns (r: Option<int>)
      ensures r == AvailableBorrow(View(), user)
    {
      var holdings := ReadCollateral(user);
      var assets := SortedKeys(holdings.Keys);
      var availableBorrow := 0;
      for i := 0 to |assets|
        invariant Fold(CapacityTerms(View(), holdings), assets[..i]) == Some(availableBorrow)
      {
        var asset := assets[i];
        SortedKeyKnown(holdings.Keys, i);
        FoldNext(CapacityTerms(View(), holdings), assets, i);
        var weighted := WeightedUsd(asset, holdings[asset]);
        if weighted == None || !InI128(availableBorrow + weighted.value) {
          FoldStops(CapacityTerms(View(), holdings), assets, i + 1);
          return None;
        }
        availableBorrow := availableBorrow + weighted.value;
      }
      assert assets[..|assets|] == assets;
      return Some(availableBorrow);
    }

    method GetHealthFactor(user: Address, totalBorrowUsd: int) returns (r: Option<int>)
      ensures r == HealthFactor(View(), user, totalBorrowUsd)
    {
      if totalBorrowUsd == 0 {
        return Some(ONE * 100);
      }
      var available := GetAvailableBorrowUsd(user);
      if available.None? || !MulDivFits(available.value, ONE, totalBorrowUsd) {
        return None;
      }
      return Some(MulDiv(available.value, ONE, totalBorrowUsd));
    }

    method SetPrice(asset: Address, price: int)
      modifies this`prices
      ensures View() == old(View()).(prices := old(prices)[asset := price])
    {
      prices := prices[asset := price];
    }

    method SetLiquidationThreshold(asset: Address, threshold: int)
      modifies this`thresholds
      ensures View() == old(View()).(thresholds := old(thresholds)[asset := threshold])
    {
      thresholds := thresholds[asset := threshold];
    }
  }

  lemma SortedKeyKnown(s: set<Address>, i: nat)
    requires i < |SortedKeys(s)|
    ensures SortedKeys(s)[i] in s
  {
  }

  lemma FoldNext(terms: map<Address, Option<int>>, ks: seq<Address>, i: nat)
    requires i < |ks| && Fold(terms, ks[..i]).Some? && ks[i] in terms
    ensures var sum, term := Fold(terms, ks[..i]).value, terms[ks[i]];
            Fold(terms, ks[..i + 1])
            == if term.Some? && InI128(sum + term.value) then Some(sum + term.value) else None
  {
    assert ks[..i + 1][..i] == ks[..i];
  }

  lemma {:induction false} FoldStops(terms: map<Address, Option<int>>, ks: seq<Address>, i: nat)
    requires i <= |ks| && Fold(terms, ks[..i]) == None
    ensures Fold(terms, ks) == None
    decreases |ks|
  {
    if i == |ks| {
      assert ks[..i] == ks;
    } else {
      assert ks[..|ks| - 1][..i] == ks[..i];
      FoldStops(terms, ks[..|ks| - 1], i);
    }
  }
}
