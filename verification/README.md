# SoroLend: a verified model of the lending protocol

A Dafny 4.11 model of the on-chain lending protocol (`contracts/`) as interacting state
machines, and of the two backend services that keep state of their own: governance and the
event indexer. `dafny verify dfyconfig.toml` checks the whole project.

Amounts, rates and prices are integers with 18 decimals in an `i128`. The model computes on
unbounded integers and checks the range of every intermediate result: a result out of range
is a panic. A panic and an error reply both abort a call without a trace, the interest
accrued at its start included, as the contract host does. A failed call on another contract
takes the caller down with it.

Each contract appears twice. A *value* (`Book`, `Vault`, `Feed`, `Shares`, `Registry`,
`Index`) with total functions on it says what every call does to the stored state. A *class*
(`Pool`, `Manager`, `Oracle`, `Token`, `Liquidator`, `Service`, `EventProcessor`) does it step
by step, on fields, with loops and with calls between contracts, and every method's `ensures`
equates the new state and the reply with those functions. The theorems are about the values,
mostly about *all* sequences of calls from deployment, failed calls included.

| file | content |
|---|---|
| `FixedPoint.dfy` | truncating division, `mul_div`, what its floors mean |
| `Ledgers.dfy` | addresses, maps read with a default, totals over all accounts |
| `InterestModel.dfy` | the two-slope rate model: shape, accuracy, cover |
| `LendingPool.dfy` | the pool: specification and contract |
| `PoolRuns.dfy` | runs of the pool: conservation |
| `PoolTheorems.dfy` | reachable states: index growth, share backing, receipt token |
| `PoolReplies.dfy` | reachable states: exact replies, what one call undoes |
| `HealthTheorems.dfy` | the health check and the withdrawal reply, in amounts |
| `PoolOverdraft.dfy` | when, and how far, withdrawals can exceed supplies |
| `PoolWitnesses.dfy` | runs on which expected properties fail |
| `AccrualTheorems.dfy` | one accrual in amounts, accrual schedules, accuracy and arithmetic range |
| `SToken.dfy` | the receipt token and its conversions |
| `CollateralManager.dfy`, `CollateralTheorems.dfy` | the manager; valuation bounds and conservation |
| `Liquidation.dfy` | liquidation: specification and contract |
| `LiquidationTheorems.dfy` | the two health tests, and one liquidation end to end |
| `LiquidationWitnesses.dfy` | positions in which expected properties fail |
| `Protocol.dfy` | pool, manager and liquidation as one system |
| `CheckedPositions.dfy` | safety after a withdrawal that passed the health check |
| `PriceOracle.dfy` | the oracle: accumulators, average, drift |
| `Governance.dfy` | proposals, votes, tallies |
| `Indexer.dfy` | the fold of events into positions |

## Results

- **Conservation, for all calls with any amounts and any configuration**: the supply total is
  the sum of the users' principals; the borrow total is the sum of theirs plus all interest
  ever accrued, none of which is booked to a user (`RunBalances`). Collateral totals are
  deposits less withdrawals whatever was seized (`CollateralConserved`). Both hold of the
  contracts as one system, liquidations included (`SystemConserves`).
- **Accrual** ends in the one state whose interest, reserve and indices are the exact products
  at the rate charged, rounded down (`AccrualDecided`); that rate follows the documented formula
  at the exact ratio of the totals (`RateCharged`); exactly when it panics (`AccrualFitsIff`).
- **Index growth** is compound, short by at most one part in 10^18 per accrual, and never below
  simple growth (`IndexBetween`); reserves are the configured share of the interest, short by
  less than a unit per accrual (`DebtAndReserves`).
- **Accrual schedules**: cutting an interval into n pieces never leaves less debt than one
  accrual would, up to n units and n - 1 parts in 10^18 (`ScheduleBound`).
- **Replies**: the reply to a supply, a withdrawal, a loan and a repayment of whatever amount is
  given exactly (`StoppedAtGate`, `SupplyDecided`, `WithdrawalDecided`, `BorrowDecided`,
  `RepayDecided`), the health check in amounts (`HealthDecided`, `WithdrawalByCover`). Up to one's principal a
  withdrawal is never refused for want of shares (`NeverShortOfShares`); past the entry checks
  loans and repayments never panic; borrowing and repaying at once leaves nothing behind
  (`BorrowThenRepay`).
- **Withdrawals against supplies**: "withdraw undoes supply" is false of the code, which mints
  at the index and burns at its inverse (`SupplyThenWithdrawDiffers` is a run that shows it); it
  holds if and only if the amount is zero or the index has never moved (`SupplyThenWithdraw`).
  A supplier can therefore withdraw more than they supplied: exactly when the least such amount
  is within scale, the worth of the shares and the supply total, and the manager does not
  object (`OverdraftIff`), and within the bound of `WithdrawalsBounded`. Another's principal can
  then exceed what is left (`LiquidityRefusalReachable`).
- **Two share ledgers** stay equal, and a burn never fails a withdrawal the pool lets through
  (`TokenAlwaysMatches`, `BurnNeverPanics`); nobody but the pool can move the token's shares
  (`OthersMoveNothing`).
- **Liquidation** against the manager: equal factors for one asset; for a shared threshold
  whoever is accepted (`AcceptsIff`) is unhealthy for the manager too. The converse is false of the code
  (`GapIsReal`): it fails if and only if the debt is above the manager's capacity and still
  covered by the weighted collateral, so by less than one unit per asset
  (`AcceptedIsUnhealthy`); the tests agree on every debt if and only if weighted collateral
  and capacity are equal (`TestsAgreeIff`). From reachable pools it is given exactly when a
  liquidation settles (`SettledIff`) and what it settles (`DebtSettled`, `CollateralMoves`).
- **Seizure** is fair to the debt named (`SeizedIsFair`), but "what is seized is worth at most
  what is covered, plus the penalty" is false of the code, which covers no more than the
  principal and seizes for all that is named (`SeizedExceedsCovered`: 400 seized for 100, from a
  borrower in good health). It holds whenever the debt named is within the principal, and, beyond
  what rounding can hide, only then (`SeizedForCovered`).
- **The health check holds**: a user whose withdrawal passed it cannot be liquidated on the
  manager's figures and the recorded debt, then (`CheckedIsNotLiquidated`) or after any run of
  the system that neither reprices, nor takes their collateral, nor lends to them
  (`NotLiquidatedLater`).
- **Oracle**: which postings are accepted (`PostingDecided`); the accumulators and the average
  are exact (`RunTracks`, `TwapExact`), the average lies between the extreme prices, and the
  drift over any window is bounded by its number of updates and by its length.
- **Governance**: each proposal stands where its own calls brought it (`ProposalDecided`); an
  executed one has a majority of recorded votes and the quorum asked for, for good.
- **Indexer**: the saturating fold in closed form; what events create, and what is returned.

Assumptions, where a theorem names them: amounts are not negative (`Sensible`; neither pool nor
manager checks signs), the rate parameters are nonnegative with the kink strictly between zero
and one and the reserve factor is a fraction (`ValidConfig`; `initialize` does not check), the
ledger clock is not at zero (`Clocked`; zero means "never set" to the oracle). Where the code
and the repository's documentation differ, the code is followed: interest is added to the
pool's total only, never to a user's debt.

## Model

| member | source | states |
|---|---|---|
| `FixedPoint.TruncDivMeaning` | contracts/lending-pool/src/math.rs:8-13 | integer division truncates towards zero for all signs |
| `FixedPoint.MulDivMeaning` | contracts/lending-pool/src/math.rs:8-13 | for all signs `mul_div` truncates the exact quotient, and panics if and only if a nonzero product is out of range, is divided by zero or is negated out of range |
| `FixedPoint.MulDivFloor` | contracts/lending-pool/src/math.rs:8-13 | on nonnegative operands `mul_div` is the floor of the exact quotient, zero short-circuit included |
| `FixedPoint.FloorGreatest` | contracts/lending-pool/src/math.rs:8-13 | the result is the greatest integer not above the exact quotient, both directions |
| `FixedPoint.FloorsOfSum` | contracts/lending-pool/src/math.rs:15-17 | splitting an amount before scaling loses at most one unit and never gains |
| `InterestModel.UtilizationMonotone` | contracts/lending-pool/src/interest.rs:48-53 | utilization does not fall as the borrow total grows, zero supply included |
| `InterestModel.UtilizationExact` | contracts/lending-pool/src/interest.rs:48-53 | utilization is the exact ratio of the totals in units of ONE, rounded down; zero without supply |
| `InterestModel.BorrowRateMonotone` | contracts/lending-pool/src/interest.rs:29-39 | the borrow rate never falls with utilization, on either side of the kink, across it and above full utilization |
| `InterestModel.SupplyRateMonotone` | contracts/lending-pool/src/interest.rs:41-46 | nor does the supply rate, after the reserve cut |
| `InterestModel.AfterReserveMonotone` | contracts/lending-pool/src/interest.rs:43-44 | a larger rate never leaves less after the reserve cut |
| `InterestModel.BorrowRateAccurate` | contracts/lending-pool/src/interest.rs:29-39 | the rate is at most the documented formula and below it by less than one unit plus the slope, so by less than two for slopes up to ONE |
| `InterestModel.RateAtTotals` | contracts/lending-pool/src/interest.rs:29-53 | the rate at given totals is at most the documented formula at their exact ratio, and below it by less than a unit, the slope, and the slope over the width of its branch |
| `InterestModel.InterestCovered` | contracts/lending-pool/src/interest.rs:41-53 | suppliers' and reserve's parts together never exceed what borrowers pay, through three floors |
| `InterestModel.InterestShared` | contracts/lending-pool/src/interest.rs:41-46 | and fall short of it by less than one unit, and what is left of the rate in units of ONE, per unit supplied; the reserve takes exactly its share, rounded down |
| `LendingPool.Pool.InitializePool` | contracts/lending-pool/src/lib.rs:46-64 | a second initialization is refused; the first starts from empty totals and unit indices |
| `LendingPool.Pool.SetStoken` | contracts/lending-pool/src/lib.rs:66-71 | attaches a receipt token if the stored administrator has authorized the call, panics otherwise |
| `LendingPool.Pool.SetCollateralManager` | contracts/lending-pool/src/lib.rs:73-78 | attaches a collateral manager if the stored administrator has authorized the call, panics otherwise |
| `LendingPool.Pool.AccrueInterest` | contracts/lending-pool/src/lib.rs:337-382 | the state after accrual equals the specification, or nothing changes because some step is out of range |
| `LendingPool.Pool.SupplyAsset` | contracts/lending-pool/src/lib.rs:80-124 | state and reply equal the specification; a failed mint undoes everything |
| `LendingPool.Pool.WithdrawAsset` | contracts/lending-pool/src/lib.rs:126-188 | the same, with the health check against the attached manager and the burn |
| `LendingPool.Pool.CheckHealth` | contracts/lending-pool/src/lib.rs:152-168 | the manager is asked only for a user with positive debt; its refusal or panic is passed on |
| `LendingPool.Pool.BorrowAsset` | contracts/lending-pool/src/lib.rs:190-224 | state and reply equal the specification |
| `LendingPool.Pool.RepayAsset` | contracts/lending-pool/src/lib.rs:226-263 | state and reply equal the specification |
| `LendingPool.Pool.LiquidateRepay` | contracts/lending-pool/src/lib.rs:265-311 | the same settlement, for a borrower other than the caller |
| `LendingPool.Pool.SettleDebt` | contracts/lending-pool/src/lib.rs:242-259 | principal first, the rest against interest, the total by the principal part |
| `PoolReplies.InitializeDecided` | contracts/lending-pool/src/lib.rs:46-64 | on every run: the first initialization leaves exactly the empty pool at unit indices and the clock of the call, any other is refused |
| `PoolReplies.AttachDecided` | contracts/lending-pool/src/lib.rs:66-71 | a token is attached if and only if the stored administrator signed |
| `PoolReplies.EntryDecided` | contracts/lending-pool/src/lib.rs:88-92 | the checks common to all operations: active, own asset, clock and range of the accrual, in this order |
| `PoolReplies.StoppedAtGate` | contracts/lending-pool/src/lib.rs:80-311 | in every reachable state every operation replies with the first of them that fails, and leaves no trace |
| `PoolReplies.SupplyDecided` | contracts/lending-pool/src/lib.rs:95-124 | in every reachable state without a token or with one attached fresh, past these checks: the exact reply and new state of a supply of whatever amount, credited one to one to an empty pool and at the index otherwise; it panics only where a product or total is out of range |
| `PoolReplies.SupplyBodyDecided` | contracts/lending-pool/src/lib.rs:95-124 | the same from any book and for amounts of any sign |
| `PoolRuns.RunBalances` | contracts/lending-pool/src/lib.rs:80-311 | in every reachable state, for any amounts: supply total = sum of principals, borrow total = sum of principals + all interest accrued, no interest booked to users, reserves = sum of reserve parts, indices equal |
| `PoolRuns.StepBalances` | contracts/lending-pool/src/lib.rs:80-311 | every call keeps that balance, from any balanced state |
| `PoolTheorems.RunHealthy` | contracts/lending-pool/src/lib.rs:80-382 | the combined invariant of reachable states: totals and principals in order, shares cover principals, recorded interest indices between ONE and the current one |
| `PoolTheorems.IndexBetween` | contracts/lending-pool/src/lib.rs:351-368 | on every run both indices are the compound growth at the rates charged, short of it by at most one part in ONE per accrual, and never below simple growth |
| `PoolTheorems.IndexStep` | contracts/lending-pool/src/lib.rs:359-368 | one accrual multiplies both indices by ONE plus the rate, rounded down |
| `PoolTheorems.DebtAndReserves` | contracts/lending-pool/src/lib.rs:354-358 | borrow total = principals + interest; reserves are the factor's share of the interest, short by less than one unit per accrual |
| `PoolTheorems.SharesBackPrincipals` | contracts/lending-pool/src/lib.rs:95-112 | in every reachable state every user's shares cover the principal, and the supply total is their nonnegative sum |
| `PoolTheorems.ConfigForGood` | contracts/lending-pool/src/lib.rs:47-49 | over any run the configuration stays and the clock never goes back |
| `PoolTheorems.LedgersAgree` | contracts/lending-pool/src/lib.rs:114-119 | with a fresh token, administered by the pool, attached before the first supply, every balance equals the pool's shares and the totals agree, on every run |
| `PoolTheorems.TokenAlwaysMatches` | contracts/lending-pool/src/lib.rs:66-71 | so on every run from deployment whose last attachment is such a token |
| `PoolTheorems.BurnNeverPanics` | contracts/lending-pool/src/lib.rs:178-183 | on those runs, with nonnegative amounts, the token never changes the reply to a withdrawal, of whatever amount |
| `PoolReplies.WithdrawalDecided` | contracts/lending-pool/src/lib.rs:139-176 | the exact reply to a supplier's withdrawal of whatever amount past the entry checks, in every reachable state without a token or with one attached fresh before the first supply |
| `PoolReplies.WithdrawalDecidedGiven` | contracts/lending-pool/src/lib.rs:139-176 | the same for any token whose ledger matches the pool's in that state |
| `PoolReplies.WithdrawBodyDecided` | contracts/lending-pool/src/lib.rs:139-188 | reply and new state of a withdrawal from any book with a positive index, for amounts of any sign |
| `PoolReplies.WithdrawalTakesShares` | contracts/lending-pool/src/lib.rs:142-188 | in every reachable state a withdrawal that goes through, of an amount of any sign, takes exactly the amount off principal and total and its worth in shares, rounded towards zero, off pool and token |
| `HealthTheorems.HealthDecided` | contracts/lending-pool/src/lib.rs:152-168 | the health check in amounts: it passes if and only if no manager is attached, nothing is owed, what is owed is worth nothing, or the capacity covers that worth; else it refuses, or panics where an amount cannot be scaled |
| `HealthTheorems.WithdrawalByCover` | contracts/lending-pool/src/lib.rs:139-176 | the reply to a withdrawal with the check so decided |
| `PoolReplies.WithinPrincipalDecided` | contracts/lending-pool/src/lib.rs:139-176 | up to one's principal the reply depends on scale, supply total and manager alone |
| `PoolReplies.NeverShortOfShares` | contracts/lending-pool/src/lib.rs:142-146 | in every reachable state, whatever token is attached, a withdrawal of up to one's principal is never refused with InsufficientShares |
| `PoolReplies.LiquidityRefusalMeansOverdrawn` | contracts/lending-pool/src/lib.rs:148-150 | a withdrawal within one's principal can exceed the supply total only if some principal is negative |
| `PoolWitnesses.LiquidityRefusalReachable` | contracts/lending-pool/src/lib.rs:148-150 | a run from deployment that ends in such a refusal |
| `PoolReplies.SupplyThenWithdraw` | contracts/lending-pool/src/lib.rs:95-173 | withdrawing a supply at once restores totals and principal, never costs shares, and restores the shares if and only if the amount is zero or the index is ONE |
| `PoolWitnesses.SupplyThenWithdrawDiffers` | contracts/lending-pool/src/lib.rs:95-173 | a run from deployment in which the shares are not restored |
| `PoolReplies.MintBurnDiffer` | contracts/lending-pool/src/lib.rs:95-142 | minted and burned shares for one amount are equal if and only if the amount is zero or the index is ONE |
| `PoolReplies.BurnsAtMost` | contracts/lending-pool/src/lib.rs:142 | the shares burned for an amount stay within a bound exactly when the amount is below one more share's worth |
| `PoolReplies.BorrowDecided` | contracts/lending-pool/src/lib.rs:197-222 | in every reachable state, past the entry checks: a loan is refused if and only if it exceeds what is supplied and not lent; otherwise it adds exactly the amount to the borrow total and the user's principal; it never panics |
| `PoolReplies.BorrowBodyDecided` | contracts/lending-pool/src/lib.rs:200-222 | reply and new state of a loan of any sign, with totals in range |
| `PoolReplies.BorrowRecorded` | contracts/lending-pool/src/lib.rs:205-214 | a first loan is recorded at the index of the moment without accrued interest, a further one adds to the record |
| `PoolReplies.RepayDecided` | contracts/lending-pool/src/lib.rs:233-262 | in every reachable state, past the entry checks: a borrower's repayment pays exactly the lesser of amount and principal off both, and never fails |
| `PoolReplies.PaymentSplit` | contracts/lending-pool/src/lib.rs:242-259 | how a payment of any sign is split on any record: never more than principal and interest, the principal first, the total by the principal's part alone |
| `PoolReplies.BorrowTotalInRange` | contracts/lending-pool/src/lib.rs:190-311 | the stored borrow total is within the i128 range on every run of any calls |
| `PoolReplies.BorrowThenRepay` | contracts/lending-pool/src/lib.rs:190-263 | in every reachable state a loan repaid at once leaves the pool as its accrual alone would |
| `PoolOverdraft.OverdraftIff` | contracts/lending-pool/src/lib.rs:139-176 | in every reachable state some withdrawal leaves the principal negative if and only if the least such amount is within scale, share worth and supply total, and the manager does not object |
| `PoolOverdraft.WithdrawalsBounded` | contracts/lending-pool/src/lib.rs:95-173 | in every reachable state a user's gross withdrawals are at most their gross supplies grown by the index in minting and again in burning, less the shares still held, plus one share's worth per withdrawal |
| `PoolOverdraft.PrincipalBoundedBelow` | contracts/lending-pool/src/lib.rs:106-107 | so a principal may turn negative, but no further than stated |
| `PoolOverdraft.RunKeeps` | contracts/lending-pool/src/lib.rs:95-173 | the invariant behind it, with the principal as gross supplies less gross withdrawals |
| `AccrualTheorems.ScheduleBound` | contracts/lending-pool/src/lib.rs:337-369 | n accruals over an interval leave the borrow total no less than one, up to n units and n - 1 parts in ONE |
| `AccrualTheorems.ReachableScheduleBound` | contracts/lending-pool/src/lib.rs:337-369 | the same from every reachable state |
| `AccrualTheorems.FlatRateLoses` | contracts/lending-pool/src/lib.rs:351-352 | cutting an interval into n pieces loses at most n - 1 units of the rate |
| `AccrualTheorems.InterestAccurate` | contracts/lending-pool/src/lib.rs:348-357 | interest is at most total x rate x time, and below it by at most one unit plus the total in units of ONE |
| `AccrualTheorems.AccrualDecided` | contracts/lending-pool/src/lib.rs:337-369 | an accrual ends in the one state in which interest, reserve and both indices are the exact products at the rate charged, rounded down; the rate charged is the annual rate for the part of a year that passed, rounded down |
| `AccrualTheorems.ReachableAccrual` | contracts/lending-pool/src/lib.rs:337-369 | so in every reachable state |
| `AccrualTheorems.RateCharged` | contracts/lending-pool/src/lib.rs:348-352 | in every reachable state the rate charged follows the documented formula at the exact ratio of the pool's totals, within the stated error |
| `AccrualTheorems.AccrualFitsIff` | contracts/lending-pool/src/lib.rs:337-378 | an accrual panics if and only if the clock is behind or one of the listed products and sums is out of range |
| `AccrualTheorems.AccrualInRange` | contracts/lending-pool/src/lib.rs:348-378 | within the stated bounds no intermediate result of an accrual leaves the i128 range |
| `SToken.Token.Initialize` | contracts/stoken/src/lib.rs:15-21 | only once; stores the administrator and the asset |
| `SToken.Token.Mint` | contracts/stoken/src/lib.rs:23-32 | authorized by the stored administrator, balance and total grow by the amount; otherwise the call panics |
| `SToken.Token.Burn` | contracts/stoken/src/lib.rs:34-47 | authorized by the stored administrator, balance and total fall by the amount; otherwise, and above the balance, the call panics |
| `SToken.OthersMoveNothing` | contracts/stoken/src/lib.rs:24-36 | no sequence of calls that the administrator does not authorize changes an initialized token |
| `SToken.CallMoves` | contracts/stoken/src/lib.rs:15-47 | what each call does to a balance and to the total, and exactly when it returns |
| `SToken.BalancesDecided` | contracts/stoken/src/lib.rs:23-47 | on every run each balance is what the calls that returned minted less what they burned, and the total is the sum of the balances |
| `SToken.AdministratorDecided` | contracts/stoken/src/lib.rs:15-21 | on every run administrator and asset are those of the first initialization |
| `SToken.Token.ConvertToShares` | contracts/stoken/src/lib.rs:57-63 | the specified conversion, or a panic on overflow |
| `SToken.Token.ConvertToAssets` | contracts/stoken/src/lib.rs:65-71 | the specified conversion, or a panic on overflow |
| `SToken.RoundsDown` | contracts/stoken/src/lib.rs:57-71 | both conversions are the exact proportion rounded down, as EIP-4626 asks of `convertToShares` and `convertToAssets`, one to one on an empty side; they panic if and only if the product is out of range |
| `SToken.ConversionsTruncate` | contracts/stoken/src/lib.rs:57-71 | for operands of any sign the proportion is rounded towards zero |
| `SToken.AssetsRoundTrip` | contracts/stoken/src/lib.rs:57-71 | assets to shares and back never gains, and loses less than one share's worth and one unit |
| `SToken.SharesRoundTrip` | contracts/stoken/src/lib.rs:57-71 | shares to assets and back likewise |
| `SToken.NeverDiluted` | contracts/stoken/src/lib.rs:57-71 | over any sequence of entries, exits and yield, assets per remaining share never fall |
| `CollateralManager.Manager.Initialize` | contracts/collateral-manager/src/lib.rs:22-27 | only once |
| `CollateralManager.Manager.SetOracle` | contracts/collateral-manager/src/lib.rs:29-36 | attaches an oracle if the call is signed by the account it names and that is the stored administrator |
| `CollateralManager.Manager.DepositCollateral` | contracts/collateral-manager/src/lib.rs:38-44 | state equals the specification |
| `CollateralManager.Manager.WithdrawCollateral` | contracts/collateral-manager/src/lib.rs:46-52 | state equals the specification, without a balance check |
| `CollateralManager.Manager.SeizeCollateral` | contracts/collateral-manager/src/lib.rs:54-68 | state equals the specification, also for one and the same user |
| `CollateralManager.Manager.GetCollateralValueUsd` | contracts/collateral-manager/src/lib.rs:80-88 | the loop computes the checked sum in key order, or panics with it |
| `CollateralManager.Manager.GetAvailableBorrowUsd` | contracts/collateral-manager/src/lib.rs:90-100 | likewise for the weighted sum |
| `CollateralManager.Manager.GetHealthFactor` | contracts/collateral-manager/src/lib.rs:102-108 | the factor, a hundred for no debt |
| `CollateralManager.Manager.GetPrice` | contracts/collateral-manager/src/lib.rs:70-78 | the oracle's price if one is attached, the fallback otherwise |
| `CollateralManager.Manager.SetPrice` | contracts/collateral-manager/src/lib.rs:114-117 | sets one fallback price |
| `CollateralManager.Manager.SetLiquidationThreshold` | contracts/collateral-manager/src/lib.rs:119-121 | sets one threshold |
| `Ledgers.SortedKeysAscend` | contracts/collateral-manager/src/lib.rs:83-93 | the order of the loops: a contract map yields its keys in ascending order |
| `CollateralTheorems.ValuationsAreSums` | contracts/collateral-manager/src/lib.rs:80-100 | a valuation that returns is the plain sum of per-asset floors, whatever the order |
| `CollateralTheorems.ValuationBounds` | contracts/collateral-manager/src/lib.rs:80-100 | capacity at most value; each at most its exact sum and short of it by less than n and 2n |
| `CollateralTheorems.ValueReturnsIff` | contracts/collateral-manager/src/lib.rs:80-88 | the valuation of a sound position panics only where a product or the total is out of range |
| `CollateralTheorems.CapacityReturnsIff` | contracts/collateral-manager/src/lib.rs:90-100 | likewise the capacity |
| `CollateralTheorems.HealthFactorDecided` | contracts/collateral-manager/src/lib.rs:102-108 | the factor is the capacity over the debt, rounded down, a hundred without debt, and panics only where the capacity cannot be valued or scaled |
| `CollateralTheorems.PricedByOracle` | contracts/collateral-manager/src/lib.rs:70-78 | with an oracle attached an asset is priced at the last price the oracle accepted, whatever the fallback |
| `CollateralTheorems.DepositNeverLowers` | contracts/collateral-manager/src/lib.rs:38-44 | a deposit lowers neither value nor capacity |
| `CollateralTheorems.DepositNeverLowersHealth` | contracts/collateral-manager/src/lib.rs:102-108 | nor the health factor, for any debt |
| `CollateralTheorems.SeizureConserves` | contracts/collateral-manager/src/lib.rs:54-66 | a seizure keeps every asset's total over all users, also from oneself |
| `CollateralTheorems.SeizureMoves` | contracts/collateral-manager/src/lib.rs:54-66 | who holds what after a seizure |
| `CollateralTheorems.CollateralConserved` | contracts/collateral-manager/src/lib.rs:38-68 | on every run each asset's total is deposits less withdrawals |
| `CollateralTheorems.CallDecided` | contracts/collateral-manager/src/lib.rs:38-68 | when a deposit, withdrawal or seizure returns |
| `CollateralTheorems.HoldingsDecided` | contracts/collateral-manager/src/lib.rs:38-68 | on every run each user holds of each asset exactly what the calls that returned brought them |
| `Liquidation.Liquidator.Liquidate` | contracts/liquidation/src/lib.rs:51-99 | both contracts end as specified, or both as they were |
| `Liquidation.Liquidator.Settle` | contracts/liquidation/src/lib.rs:82-86 | repayment and seizure happen together or not at all |
| `Liquidation.Liquidator.Health` | contracts/liquidation/src/lib.rs:63-70 | the factor on the caller's figures |
| `LiquidationTheorems.HealthyIffCovered` | contracts/liquidation/src/lib.rs:66-74 | the rounded factor is at least ONE exactly when weighted collateral is at least the debt |
| `LiquidationTheorems.FactorDecided` | contracts/liquidation/src/lib.rs:63-70 | the factor on the caller's figures, and when it panics, in amounts |
| `LiquidationTheorems.AcceptsIff` | contracts/liquidation/src/lib.rs:56-80 | accepted is exactly who is short, on figures of any sign: positive amount and prices, the worth of the debt named positive and above the weighted collateral, no product out of range |
| `LiquidationTheorems.SeizureDecided` | contracts/liquidation/src/lib.rs:76-80 | the amount seized, and when it is in range: the debt named in collateral and the penalty on it, of any sign, each rounded towards zero |
| `LiquidationTheorems.SameForOneAsset` | contracts/liquidation/src/lib.rs:63-70 | for one asset both contracts compute the same factor |
| `LiquidationTheorems.WeightedAgainstCapacity` | contracts/liquidation/src/lib.rs:64 | for a shared threshold the weighted collateral is at least the manager's capacity, by less than one unit per asset |
| `LiquidationTheorems.AcceptedIsUnhealthy` | contracts/liquidation/src/lib.rs:63-74 | whoever is accepted is below ONE for the manager; the converse fails if and only if the debt is above the manager's capacity and at most the weighted collateral, hence only by less than one unit per asset |
| `LiquidationTheorems.TestsAgreeIff` | contracts/liquidation/src/lib.rs:63-74 | the two tests agree on every positive debt if and only if weighted collateral and capacity are equal |
| `LiquidationWitnesses.GapIsReal` | contracts/liquidation/src/lib.rs:63-74 | a position and a debt for which the converse fails |
| `LiquidationTheorems.CheckedIsCovered` | contracts/lending-pool/src/lib.rs:152-168 | a user whose withdrawal passed the check has capacity for the whole debt |
| `LiquidationTheorems.CheckedIsNotLiquidated` | contracts/liquidation/src/lib.rs:63-74 | and cannot be liquidated for any part of it on the same figures |
| `LiquidationTheorems.SettledIff` | contracts/liquidation/src/lib.rs:51-99 | from every reachable pool a liquidation settles if and only if it is accepted, the pool is open for the asset, the borrower has a record and the collateral can be seized; the repayment never fails |
| `LiquidationTheorems.DebtSettled` | contracts/liquidation/src/lib.rs:82-98 | from every reachable pool: after the accrual, principal and borrow total fall by exactly the amount covered, and nothing else at the pool changes |
| `LiquidationTheorems.CollateralMoves` | contracts/liquidation/src/lib.rs:85-86 | collateral totals stay, the amount seized changes hands |
| `Protocol.RunProjects` | contracts/liquidation/src/lib.rs:82-86 | every run of pool, manager and liquidation together, the manager attached to the pool or not yet, is one of the pool and one of the manager, liquidations adding a call to both or neither |
| `Protocol.SystemConserves` | contracts/liquidation/src/lib.rs:82-86 | so the conservation of pool totals and of collateral holds in every state of the system, for any amounts |
| `Protocol.SystemHealthy` | contracts/liquidation/src/lib.rs:82-86 | and, with nonnegative amounts, the whole invariant of the pool |
| `CheckedPositions.NotLiquidatedLater` | contracts/liquidation/src/lib.rs:63-74 | after a withdrawal that passed the check, from every reachable state of the system: no liquidation of that user on the manager's figures and the recorded debt is accepted, along any run that neither reprices nor takes their collateral nor lends to them |
| `CheckedPositions.CallKeepsCovered` | contracts/collateral-manager/src/lib.rs:38-68 | every such call keeps the user's capacity above the worth of the debt |
| `LiquidationWitnesses.CheckReachable` | contracts/lending-pool/src/lib.rs:152-168 | a run of the system to such a withdrawal, by a user with a debt |
| `LiquidationTheorems.SeizedIsFair` | contracts/liquidation/src/lib.rs:76-80 | the seized amount is at most the worth of the debt named plus penalty and within three units of it |
| `LiquidationTheorems.SeizedForCovered` | contracts/liquidation/src/lib.rs:76-86 | against the debt covered the bound holds whenever the debt named is within the principal, and fails whenever it is beyond by more than rounding can hide |
| `LiquidationWitnesses.SeizedExceedsCovered` | contracts/liquidation/src/lib.rs:76-86 | a liquidation from deployment that covers 100 and seizes 400 at the same price without penalty |
| `PriceOracle.Oracle.Initialize` | contracts/price-oracle/src/lib.rs:20-33 | only once; the administrator becomes a keeper |
| `PriceOracle.Oracle.SetKeeper` | contracts/price-oracle/src/lib.rs:35-43 | only signed by the account it names, and only if that is the stored administrator |
| `PriceOracle.Oracle.SetPrice` | contracts/price-oracle/src/lib.rs:45-88 | state equals the specification, or the call panics and changes nothing |
| `PriceOracle.Oracle.GetTwap` | contracts/price-oracle/src/lib.rs:94-103 | the specified average |
| `PriceOracle.RunTracks` | contracts/price-oracle/src/lib.rs:54-85 | on every run price, clock and accumulators are exactly those of the accepted postings; the 64-bit cast loses nothing |
| `PriceOracle.StepTracks` | contracts/price-oracle/src/lib.rs:54-85 | every call keeps this, for every asset |
| `PriceOracle.OnlyKeepersPost` | contracts/price-oracle/src/lib.rs:47-49 | an account never enabled has no price accepted |
| `PriceOracle.SetupDecided` | contracts/price-oracle/src/lib.rs:20-43 | on every run administrator, threshold and interval are those of the first initialization, and an account is a keeper if and only if the last word on it says so |
| `PriceOracle.PostingDecided` | contracts/price-oracle/src/lib.rs:45-80 | on every run a posting is accepted if and only if its keeper is enabled and the history of the asset allows it: clock, interval, deviation and range, in amounts |
| `PriceOracle.TwapBetween` | contracts/price-oracle/src/lib.rs:94-103 | the average lies between any bounds on the prices accepted for the asset |
| `PriceOracle.TwapExact` | contracts/price-oracle/src/lib.rs:94-103 | on every run the average is every accepted price weighted by its holding time, over the time from first to last posting, rounded down; the last price without such a time |
| `PriceOracle.RunDrift` | contracts/price-oracle/src/lib.rs:57-71 | between any two accepted postings of any run the price moves by at most the compound threshold, both ways, and n updates take n minimum intervals |
| `PriceOracle.DriftOverTime` | contracts/price-oracle/src/lib.rs:58-62 | with a positive minimum interval the movement over a window, both ways, is bounded by its length alone |
| `Governance.Service.CreateProposal` | backend/src/modules/governance/governance.service.ts:22-60 | registry and answer equal the specification |
| `Governance.Service.CastVote` | backend/src/modules/governance/governance.service.ts:82-125 | registry and answer equal the specification |
| `Governance.Service.ActivateProposal` | backend/src/modules/governance/governance.service.ts:139-151 | registry and answer equal the specification |
| `Governance.Service.ExecuteProposal` | backend/src/modules/governance/governance.service.ts:153-168 | registry and answer equal the specification |
| `Governance.Service.FinalizeProposal` | backend/src/modules/governance/governance.service.ts:170-198 | registry and answer equal the specification, on a fresh tally |
| `Governance.Service.UpdateTally` | backend/src/modules/governance/governance.service.ts:200-220 | the loop stores the sums over the recorded votes |
| `Governance.RunConsistent` | backend/src/modules/governance/governance.service.ts:82-225 | on every run tallies are sums over recorded votes, one vote per voter and proposal, decided statuses are what the votes call for |
| `Governance.ProposalDecided` | backend/src/modules/governance/governance.service.ts:22-220 | on every run each proposal stands where its own calls brought it: status, votes, tallies and quorum |
| `Governance.AnswerDecided` | backend/src/modules/governance/governance.service.ts:82-198 | a call is accepted if and only if it changes the life of the proposal named; otherwise it is not found or refused |
| `Governance.QuorumKept` | backend/src/modules/governance/governance.service.ts:46-50 | a proposal exists once asked for, with the quorum asked for, for good |
| `Governance.CreatedPending` | backend/src/modules/governance/governance.service.ts:38-60 | a new proposal is pending, without votes, with that quorum |
| `Governance.FinalizeDecided` | backend/src/modules/governance/governance.service.ts:170-198 | finalizing an active proposal carries it if and only if the recorded votes for it exceed those against and both reach the quorum asked for |
| `Governance.FinalizeRecounts` | backend/src/modules/governance/governance.service.ts:179-197 | from any registry finalizing recounts the recorded votes and decides by the recount |
| `Governance.CastCounts` | backend/src/modules/governance/governance.service.ts:109-122 | an accepted vote adds its power to its own side only, and cannot be repeated |
| `Governance.CallAdvances` | backend/src/modules/governance/governance.service.ts:139-198 | one call moves a status along at most one edge |
| `Governance.RunAdvances` | backend/src/modules/governance/governance.service.ts:82-198 | over any run statuses only advance, and votes and tallies are frozen once voting has closed |
| `Governance.ExecutedWasCarried` | backend/src/modules/governance/governance.service.ts:153-198 | an executed proposal has a majority of recorded votes and the quorum asked for when it was created, and keeps them |
| `Governance.NumbersDistinct` | backend/src/modules/governance/governance.service.ts:34-39 | no two proposals ever share a number |
| `Governance.NumbersConsecutive` | backend/src/modules/governance/governance.service.ts:34-39 | proposals are numbered from one, in the order of creation, without gaps |
| `Indexer.EventProcessor.ProcessEvents` | backend/src/modules/indexer/event-processor.service.ts:41-56 | the loop is the fold of all events, and returns exactly the handled ones in order |
| `Indexer.EventProcessor.ProcessEvent` | backend/src/modules/indexer/event-processor.service.ts:58-74 | dispatch by kind |
| `Indexer.EventProcessor.HandleSupplyEvent` | backend/src/modules/indexer/event-processor.service.ts:93-116 | raises the amount of a position, or creates one with equal shares at unit index; an unknown asset throws |
| `Indexer.EventProcessor.HandleWithdrawEvent` | backend/src/modules/indexer/event-processor.service.ts:118-134 | lowers a position to zero at worst |
| `Indexer.EventProcessor.HandleBorrowEvent` | backend/src/modules/indexer/event-processor.service.ts:136-158 | raises the amount of a position, or creates one at unit index without accrued interest; an unknown asset throws |
| `Indexer.EventProcessor.HandleRepayEvent` | backend/src/modules/indexer/event-processor.service.ts:160-176 | as for withdrawal |
| `Indexer.SupplyClosedForm` | backend/src/modules/indexer/event-processor.service.ts:93-134 | for any events a supply position is start plus net sum, lifted by how far the running sum dipped below zero |
| `Indexer.BorrowClosedForm` | backend/src/modules/indexer/event-processor.service.ts:136-176 | likewise for a borrow position |
| `Indexer.SupplyPlainIff` | backend/src/modules/indexer/event-processor.service.ts:93-134 | an indexed supply is never negative, and is the plain net sum of its events if and only if no prefix of them takes out more than was there |
| `Indexer.BorrowPlainIff` | backend/src/modules/indexer/event-processor.service.ts:136-176 | likewise an indexed debt |
| `Indexer.RecordsKept` | backend/src/modules/indexer/event-processor.service.ts:101-129 | events change nothing but the amount of an existing position, and forget no user |
| `Indexer.SupplyOpened` | backend/src/modules/indexer/event-processor.service.ts:93-116 | a supply position exists once an event supplies to it, and keeps the first amount as shares and the unit index |
| `Indexer.BorrowOpened` | backend/src/modules/indexer/event-processor.service.ts:136-158 | likewise a debt, at unit index without accrued interest |
| `Indexer.UsersSeen` | backend/src/modules/indexer/event-processor.service.ts:76-83 | a user is known if and only if known before or named by an event that moves an amount, of an unknown asset too |
| `Indexer.RecordedAlone` | backend/src/modules/indexer/event-processor.service.ts:41-74 | which events are returned |
| `Indexer.RecordedInOrder` | backend/src/modules/indexer/event-processor.service.ts:41-56 | in the order of the events |

## Left out

- The contract host: storage lifetimes, event emission and encodings; and the authorization of a user's or keeper's own calls (`require_auth` on the caller), which the model takes for granted. The administrators' authorization is modelled at pool, token, manager and oracle.
- LendingPool.Pool.SupplyAsset: the mint is authorized by the pool's own address alone; a receipt token administered by another account that signed the nested call as well is not modelled.
- LendingPool.Pool.WithdrawAsset: the same for the burn.
- Configuration fields no pool operation reads: loan-to-value ratio, liquidation threshold and penalty, decimals.
- Read-only getters of the pool (`get_supply_apy`, `get_borrow_apy`, `get_pool_state` and the like): compositions of functions treated here.
- `to_fixed_point` and `from_fixed_point`: no contract operation calls them.
- The flash loan contract: it moves no balances and only computes a fee.
- The other backend services: they mix floating point with database calls and repeat the contracts' logic inexactly.
- Decimal strings in the backend: amounts, powers and quorums are integers, and the quorum comparison is exact.
- Accounts in governance, executed-at times, reasons and call data: no decision depends on them; voting power is an arbitrary natural number given with the vote.
- Stubs and network clients (event fetching, price feeds, notifications), authentication, configuration, the frontend and the infrastructure.
