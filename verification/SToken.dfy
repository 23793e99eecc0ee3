// The receipt token: share balances that only the pool mints and burns, and the
// conversions between shares and assets (EIP-4626, `convertToShares` and
// `convertToAssets`, both rounding down).
module SToken {
  import opened FixedPoint
  import opened Ledgers

  // ---- Specification

  datatype Shares = Shares(
    admin: Option<Address>,
    asset: Option<Address>,
    balances: map<Address, int>,
    total: int)

  const NO_SHARES := Shares(None, None, map[], 0)

  // The administrator is stored and among those who have authorized the call: whoever
  // signed it, and the contract that makes it.
  predicate Authorized(t: Shares, signers: set<Address>) {
    t.admin.Some? && t.admin.value in signers
  }

  function Initialized(t: Shares, admin: Address, asset: Address): Option<Shares> {
    if t.admin.Some? then None else Some(t.(admin := Some(admin), asset := Some(asset)))
  }

  function Minted(t: Shares, signers: set<Address>, to: Address, amount: int): Option<Shares> {
    var balance := Get(t.balances, to) + amount;
    if !Authorized(t, signers) || !InI128(balance) || !InI128(t.total + amount) then None
    else Some(t.(balances := t.balances[to := balance], total := t.total + amount))
  }

  function Burned(t: Shares, signers: set<Address>, from: Address, amount: int): Option<Shares> {
    var balance := Get(t.balances, from) - amount;
    if !Authorized(t, signers) || balance < 0 || !InI128(balance) || !InI128(t.total - amount) then None
    else Some(t.(balances := t.balances[from := balance], total := t.total - amount))
  }

  function ToShares(total: int, assets: int, totalAssets: int): int {
    if total == 0 || totalAssets == 0 then assets else MulDiv(assets, total, totalAssets)
  }

  predicate ToSharesFits(total: int, assets: int, totalAssets: int) {
    total == 0 || totalAssets == 0 || MulDivFits(assets, total, totalAssets)
  }

  function ToAssets(total: int, shares: int, totalAssets: int): int {
    if total == 0 then shares else MulDiv(shares, totalAssets, total)
  }

  predicate ToAssetsFits(total: int, shares: int, totalAssets: int) {
    total == 0 || MulDivFits(shares, totalAssets, total)
  }

  // ---- The contract

  class Token {
    var admin: Option<Address>
    var asset: Option<Address>
    var balances: map<Address, int>
    var totalShares: int

    ghost function View(): Shares
      reads this
    {
      Shares(admin, asset, balances, totalShares)
    }

    constructor ()
      ensures View() == NO_SHARES
    {
      admin, asset, balances, totalShares := None, None, map[], 0;
    }

    method Initialize(admin: Address, asset: Address) returns (ok: bool)
      modifies this
      ensures ok <==> Initialized(old(View()), admin, asset).Some?
      ensures View() == if ok then Initialized(old(View()), admin, asset).value else old(View())
    {
      if this.admin.Some? {
        return false;
      }
      this.admin := Some(admin);
      this.asset := Some(asset);
      return true;
    }

    method Mint(signers: set<Address>, to: Address, amount: int) returns (ok: bool)
      modifies this
      ensures ok <==> Minted(old(View()), signers, to, amount).Some?
      ensures View() == if ok then Minted(old(View()), signers, to, amount).value else old(View())
    {
      if admin == None || admin.value !in signers {
        return false;
      }
      var balance := Get(balances, to);
      if !InI128(balance + amount) || !InI128(totalShares + amount) {
        return false;
      }
      balances := balances[to := balance + amount];
      totalShares := totalShares + amount;
      return true;
    }

    method Burn(signers: set<Address>, from: Address, amount: int) returns (ok: bool)
      modifies this
      ensures ok <==> Burned(old(View()), signers, from, amount).Some?
      ensures View() == if ok then Burned(old(View()), signers, from, amount).value else old(View())
    {
      if admin == None || admin.value !in signers {
        return false;
      }
      var balance := Get(balances, from);
      if balance < amount {
        return false;
      }
      if !InI128(balance - amount) || !InI128(totalShares - amount) {
        return false;
      }
      balances := balances[from := balance - amount];
      totalShares := totalShares - amount;
      return true;
    }

    // A panic is `None`.
    method ConvertToShares(assets: int, totalAssets: int) returns (shares: Option<int>)
      ensures shares == if ToSharesFits(totalShares, assets, totalAssets)
                        then Some(ToShares(totalShares, assets, totalAssets)) else None
    {
      if totalShares == 0 || totalAssets == 0 {
        return Some(assets);
      }
      if !MulDivFits(assets, totalShares, totalAssets) {
        return None;
      }
      return Some(MulDiv(assets, totalShares, totalAssets));
    }

    method ConvertToAssets(shares: int, totalAssets: int) returns (assets: Option<int>)
      ensures assets == if ToAssetsFits(totalShares, shares, totalAssets)
                        then Some(ToAssets(totalShares, shares, totalAssets)) else None
    {
      if totalShares == 0 {
        return Some(shares);
      }
      if !MulDivFits(shares, totalAssets, totalShares) {
        return None;
      }
      return Some(MulDiv(shares, totalAssets, totalShares));
    }
  }

  // ---- Only the administrator moves shares

  datatype Call =
    | InitCall(admin: Address, asset: Address)
    | MintCall(signers: set<Address>, to: Address, amount: int)
    | BurnCall(signers: set<Address>, from: Address, amount: int)

  function Apply(t: Shares, c: Call): Shares {
    var attempt :=
      match c
      case InitCall(admin, asset) => Initialized(t, admin, asset)
      case MintCall(signers, to, amount) => Minted(t, signers, to, amount)
      case BurnCall(signers, from, amount) => Burned(t, signers, from, amount);
    if attempt.Some? then attempt.value else t
  }

  function Run(t: Shares, calls: seq<Call>): Shares {
    if calls == [] then t else Apply(Run(t, calls[..|calls| - 1]), calls[|calls| - 1])
  }

  // Once there is an administrator, no calls but those it authorizes change anything.
  lemma {:induction false} OthersMoveNothing(t: Shares, calls: seq<Call>)
    requires t.admin.Some?
    requires forall c :: c in calls && !c.InitCall? ==> t.admin.value !in c.signers
    ensures Run(t, calls) == t
  {
    if calls != [] {
      OthersMoveNothing(t, calls[..|calls| - 1]);
      assert calls[|calls| - 1] in calls;
    }
  }

  // When a call returns: an initialization once, a mint or burn signed by the
  // administrator, of no more than is there, that leaves balance and total in range.
  predicate Returns(t: Shares, c: Call) {
    match c
    case InitCall(_, _) => t.admin == None
    case MintCall(signers, to, amount) =>
      && t.admin.Some? && t.admin.value in signers
      && InI128(Get(t.balances, to) + amount) && InI128(t.total + amount)
    case BurnCall(signers, from, amount) =>
      && t.admin.Some? && t.admin.value in signers
      && amount <= Get(t.balances, from)
      && InI128(Get(t.balances, from) - amount) && InI128(t.total - amount)
  }

  function Gain(c: Call, holder: Address): int {
    match c
    case InitCall(_, _) => 0
    case MintCall(_, to, amount) => if to == holder then amount else 0
    case BurnCall(_, from, amount) => if from == holder then -amount else 0
  }

  function NetGain(t: Shares, calls: seq<Call>, holder: Address): int {
    if calls == [] then 0 else
      var earlier, c := calls[..|calls| - 1], calls[|calls| - 1];
      NetGain(t, earlier, holder) + if Returns(Run(t, earlier), c) then Gain(c, holder) else 0
  }

  // Balance and total after a call, given whether it returns.
  ghost predicate Moved(t: Shares, t': Shares, holder: Address, gain: int) {
    t'.total == Sum(t'.balances) && Get(t'.balances, holder) == Get(t.balances, holder) + gain
  }

  lemma MintMoves(t: Shares, signers: set<Address>, to: Address, amount: int, holder: Address)
    requires t.total == Sum(t.balances)
    ensures var c := MintCall(signers, to, amount);
            Moved(t, Apply(t, c), holder, if Returns(t, c) then Gain(c, holder) else 0)
  {
    SumUpdate(t.balances, to, Get(t.balances, to) + amount);
  }

  lemma BurnMoves(t: Shares, signers: set<Address>, from: Address, amount: int, holder: Address)
    requires t.total == Sum(t.balances)
    ensures var c := BurnCall(signers, from, amount);
            Moved(t, Apply(t, c), holder, if Returns(t, c) then Gain(c, holder) else 0)
  {
    SumUpdate(t.balances, from, Get(t.balances, from) - amount);
  }

  lemma CallMoves(t: Shares, c: Call, holder: Address)
    requires t.total == Sum(t.balances)
    ensures Moved(t, Apply(t, c), holder, if Returns(t, c) then Gain(c, holder) else 0)
  {
    match c
    case InitCall(_, _) =>
    case MintCall(signers, to, amount) => MintMoves(t, signers, to, amount, holder);
    case BurnCall(signers, from, amount) => BurnMoves(t, signers, from, amount, holder);
  }

  // Administrator and asset are those of the first initialization, for good.
  function FirstInit(calls: seq<Call>): Option<Call> {
    if calls == [] then None else
      var earlier, c := FirstInit(calls[..|calls| - 1]), calls[|calls| - 1];
      if earlier == None && c.InitCall? then Some(c) else earlier
  }

  lemma {:induction false} AdministratorDecided(calls: seq<Call>)
    ensures var t := Run(NO_SHARES, calls);
            match FirstInit(calls)
            case Some(InitCall(admin, asset)) => t.admin == Some(admin) && t.asset == Some(asset)
            case Some(_) => false
            case None => t.admin == None && t.asset == None
  {
    if calls != [] {
      AdministratorDecided(calls[..|calls| - 1]);
    }
  }

  // On every run each balance is what the calls that returned have minted to the holder
  // less what they have burned, the total is the sum of the balances, and a call returns
  // if and only if its conditions are met.
  lemma {:induction false} BalancesDecided(calls: seq<Call>, holder: Address)
    ensures var t := Run(NO_SHARES, calls);
            && t.total == Sum(t.balances)
            && Get(t.balances, holder) == NetGain(NO_SHARES, calls, holder)
  {
    if calls != [] {
      var earlier, c := calls[..|calls| - 1], calls[|calls| - 1];
      BalancesDecided(earlier, holder);
      CallMoves(Run(NO_SHARES, earlier), c, holder);
    }
  }

  // ---- Conversions are never profitable

  // From a floor one way and a floor back, nothing is gained, and less is lost than one
  // unit of either kind.
  lemma ThereAndBack(a: int, t: int, s: int)
    requires a >= 0 && t > 0 && s > 0
    ensures var back := MulDiv(MulDiv(a, t, s), s, t);
            0 <= back <= a && a * t < back * t + s + t
  {
  }

  // Both conversions are the exact proportion rounded down, one to one where there is no
  // proportion, and worthless in assets where there are none; they panic if and only if
  // the product is out of range.
  lemma RoundsDown(total: int, totalAssets: int, amount: int)
    requires total >= 0 && totalAssets >= 0 && amount >= 0
    ensures var shares := ToShares(total, amount, totalAssets);
            if total > 0 && totalAssets > 0 then IsFloor(shares, amount * total, totalAssets) else shares == amount
    ensures var assets := ToAssets(total, amount, totalAssets);
            if total > 0 then IsFloor(assets, amount * totalAssets, total) else assets == amount
    ensures ToSharesFits(total, amount, totalAssets) <==>
              total == 0 || totalAssets == 0 || amount * total <= I128_MAX
    ensures ToAssetsFits(total, amount, totalAssets) <==> total == 0 || amount * totalAssets <= I128_MAX
  {
    if total > 0 && totalAssets > 0 {
      MulDivFloor(amount, total, totalAssets);
      ProductFitsIff(amount, total, totalAssets);
    }
    if total > 0 {
      MulDivFloor(amount, totalAssets, total);
      ProductFitsIff(amount, totalAssets, total);
    }
  }

  // And for operands of any sign they are the proportion rounded towards zero.
  lemma ConversionsTruncate(total: int, totalAssets: int, amount: int)
    ensures var shares := ToShares(total, amount, totalAssets);
            if total == 0 || totalAssets == 0 then shares == amount
            else IsTruncated(shares, amount * total, totalAssets)
    ensures var assets := ToAssets(total, amount, totalAssets);
            if total == 0 then assets == amount else IsTruncated(assets, amount * totalAssets, total)
  {
    MulDivMeaning(amount, total, totalAssets);
    MulDivMeaning(amount, totalAssets, total);
  }

  lemma AssetsRoundTrip(total: int, totalAssets: int, assets: int)
    requires total >= 0 && totalAssets >= 0 && assets >= 0
    ensures var back := ToAssets(total, ToShares(total, assets, totalAssets), totalAssets);
            && 0 <= back <= assets
            && (total > 0 && totalAssets > 0 ==> assets * total < back * total + totalAssets + total)
  {
    if total > 0 && totalAssets > 0 {
      ThereAndBack(assets, total, totalAssets);
    }
  }

  lemma SharesRoundTrip(total: int, totalAssets: int, shares: int)
    requires total >= 0 && totalAssets >= 0 && shares >= 0
    ensures var back := ToShares(total, ToAssets(total, shares, totalAssets), totalAssets);
            && 0 <= back <= shares
            && (total > 0 && totalAssets > 0 ==> shares * totalAssets < back * totalAssets + total + totalAssets)
  {
    if total > 0 && totalAssets > 0 {
      ThereAndBack(shares, totalAssets, total);
    }
  }

  // ---- Conversions never dilute

  // A holder entering or leaving at the converted rate, or assets arriving as yield.
  datatype Move = Deposit(assets: int) | Redeem(shares: int) | Yield(assets: int)

  datatype Backing = Backing(assets: int, shares: int)

  function After(b: Backing, m: Move): Backing {
    match m
    case Deposit(a) => Backing(b.assets + a, b.shares + ToShares(b.shares, a, b.assets))
    case Redeem(s) => Backing(b.assets - ToAssets(b.shares, s, b.assets), b.shares - s)
    case Yield(a) => Backing(b.assets + a, b.shares)
  }

  function AfterAll(b: Backing, moves: seq<Move>): Backing {
    if moves == [] then b else After(AfterAll(b, moves[..|moves| - 1]), moves[|moves| - 1])
  }

  // Amounts are nonnegative and some shares always remain outstanding.
  predicate Live(b: Backing, moves: seq<Move>) {
    && b.shares > 0
    && (moves != [] ==>
          var earlier := AfterAll(b, moves[..|moves| - 1]);
          && Live(b, moves[..|moves| - 1])
          && AfterAll(b, moves).shares > 0
          && match moves[|moves| - 1]
             case Deposit(a) => a >= 0
             case Redeem(s) => s >= 0
             case Yield(a) => a >= 0)
  }

  // Assets per share, compared by cross-multiplication.
  predicate NoLess(b: Backing, after: Backing) {
    b.assets * after.shares <= after.assets * b.shares
  }

  lemma DepositKeeps(assets: int, shares: int, a: int)
    requires assets >= 0 && shares > 0 && a >= 0
    ensures assets * (shares + ToShares(shares, a, assets)) <= (assets + a) * shares
  {
  }

  lemma RedeemKeeps(assets: int, shares: int, s: int)
    requires assets >= 0 && shares > 0 && 0 <= s <= shares
    ensures 0 <= ToAssets(shares, s, assets) <= assets
    ensures assets * (shares - s) <= (assets - ToAssets(shares, s, assets)) * shares
  {
    var q := MulDiv(s, assets, shares);
    MulDivFloor(s, assets, shares);
    RedeemAlgebra(assets, shares, s, q);
  }

  lemma RedeemAlgebra(assets: int, shares: int, s: int, q: int)
    requires assets >= 0 && shares > 0 && 0 <= s <= shares && q * shares <= s * assets
    ensures q <= assets
    ensures assets * (shares - s) <= (assets - q) * shares
  {
    MulKeepsOrder(s, shares, assets);
    assert shares * assets == assets * shares;
    MulOrder(q, assets, shares);
    assert (assets - q) * shares == assets * shares - q * shares;
    assert assets * (shares - s) == assets * shares - s * assets;
  }

  lemma OneMove(b: Backing, m: Move)
    requires b.assets >= 0 && b.shares > 0
    requires match m case Deposit(a) => a >= 0 case Redeem(s) => 0 <= s <= b.shares case Yield(a) => a >= 0
    ensures After(b, m).assets >= 0
    ensures NoLess(b, After(b, m))
  {
    match m
    case Deposit(a) => DepositKeeps(b.assets, b.shares, a);
    case Redeem(s) => RedeemKeeps(b.assets, b.shares, s);
    case Yield(a) => MulKeepsOrder(b.assets, b.assets + a, b.shares);
  }

  lemma NoLessTransitive(a: Backing, b: Backing, c: Backing)
    requires a.assets >= 0 && a.shares > 0 && b.shares > 0 && c.shares > 0
    requires NoLess(a, b) && NoLess(b, c)
    ensures NoLess(a, c)
  {
  }

  // Over any sequence of entries, exits and yield, the assets behind each remaining share
  // never fall: nobody's conversion dilutes anybody else.
  lemma {:induction false} NeverDiluted(b: Backing, moves: seq<Move>)
    requires b.assets >= 0 && Live(b, moves)
    ensures AfterAll(b, moves).assets >= 0
    ensures NoLess(b, AfterAll(b, moves))
  {
    if moves != [] {
      var earlier := moves[..|moves| - 1];
      NeverDiluted(b, earlier);
      var now := AfterAll(b, earlier);
      assert Live(b, earlier) && now.shares > 0;
      OneMove(now, moves[|moves| - 1]);
      NoLessTransitive(b, now, AfterAll(b, moves));
    }
  }
}
