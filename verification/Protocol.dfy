// The pool, the collateral manager and the liquidation contract as one system: calls to
// each of them in any order, withdrawals checked against the manager as it stands.
module Protocol {
  import opened FixedPoint
  import opened Ledgers
  import opened Liquidation
  import LT = LiquidationTheorems
  import Pool = LendingPool
  import Runs = PoolRuns
  import PT = PoolTheorems
  import CM = CollateralManager
  import CT = CollateralTheorems

  // `managed` once the pool has the collateral manager attached.
  datatype System = System(desk: Desk, managed: bool)

  datatype Call =
    | OnPool(pool: Runs.Call)
    | SetManager(signers: set<Address>)
    | OnManager(manager: CT.Call)
    | OnLiquidation(now: U64, params: Params)

  // The pool as deployed, beside a manager in whatever state.
  function Start(v: CM.Vault): System {
    System(Desk(Pool.NEW_BOOK, v), false)
  }

  // A withdrawal asks the manager attached to the pool, if one is, whatever the call says.
  function Checked(s: System, c: Runs.Call): Runs.Call {
    if c.WithdrawCall? then c.(manager := if s.managed then Some(s.desk.vault) else None) else c
  }

  function Apply(s: System, c: Call): System {
    match c
    case OnPool(pool) => s.(desk := s.desk.(book := Runs.Apply(s.desk.book, Checked(s, pool)).book))
    case SetManager(signers) => if Pool.Administers(s.desk.book.config, signers) then s.(managed := true) else s
    case OnManager(manager) => s.(desk := s.desk.(vault := CT.Run(s.desk.vault, [manager])))
    case OnLiquidation(now, params) =>
      var l := Liquidated(s.desk, now, params);
      if l.Settled? then s.(desk := l.desk) else s
  }

  function Run(s: System, calls: seq<Call>): System {
    if calls == [] then s else Apply(Run(s, calls[..|calls| - 1]), calls[|calls| - 1])
  }

  // What a call of the system amounts to at each of the two contracts that keep state.
  function PoolPart(s: System, c: Call): seq<Runs.Call> {
    match c
    case OnPool(pool) => [Checked(s, pool)]
    case OnLiquidation(now, p) => if Liquidated(s.desk, now, p).Settled? then [LT.RepayPart(now, p)] else []
    case _ => []
  }

  function ManagerPart(s: System, c: Call): seq<CT.Call> {
    match c
    case OnManager(manager) => [manager]
    case OnLiquidation(now, p) => if Liquidated(s.desk, now, p).Settled? then [LT.SeizePart(p)] else []
    case _ => []
  }

  function PoolCalls(s: System, calls: seq<Call>): seq<Runs.Call> {
    if calls == [] then [] else
      var earlier := calls[..|calls| - 1];
      PoolCalls(s, earlier) + PoolPart(Run(s, earlier), calls[|calls| - 1])
  }

  function ManagerCalls(s: System, calls: seq<Call>): seq<CT.Call> {
    if calls == [] then [] else
      var earlier := calls[..|calls| - 1];
      ManagerCalls(s, earlier) + ManagerPart(Run(s, earlier), calls[|calls| - 1])
  }

  lemma OneMoreAtManager(v: CM.Vault, calls: seq<CT.Call>, c: CT.Call)
    ensures CT.Run(v, calls + [c]) == CT.Run(CT.Run(v, calls), [c])
  {
    assert (calls + [c])[..|calls|] == calls && [c][..0] == [];
  }

  lemma StepProjects(s: System, c: Call, b: Pool.Book, v: CM.Vault, pool: seq<Runs.Call>, manager: seq<CT.Call>)
    requires s.desk == Desk(Runs.Run(b, pool), CT.Run(v, manager))
    ensures Apply(s, c).desk == Desk(Runs.Run(b, pool + PoolPart(s, c)), CT.Run(v, manager + ManagerPart(s, c)))
  {
    assert pool + [] == pool && manager + [] == manager;
    match c
    case OnPool(call) => Runs.RunPush(b, pool, Checked(s, call));
    case SetManager(_) =>
    case OnManager(call) => OneMoreAtManager(v, manager, call);
    case OnLiquidation(now, p) =>
      if Liquidated(s.desk, now, p).Settled? {
        LT.LiquidationIsTwoCalls(s.desk, now, p);
        Runs.RunPush(b, pool, LT.RepayPart(now, p));
        OneMoreAtManager(v, manager, LT.SeizePart(p));
        assert [LT.SeizePart(p)][..0] == [];
      }
  }

  // Every run of the system is a run of the pool and a run of the manager: a liquidation
  // adds one call to both or to neither, so whatever holds of all their runs holds here.
  lemma {:induction false} RunProjects(s: System, calls: seq<Call>)
    ensures Run(s, calls).desk
         == Desk(Runs.Run(s.desk.book, PoolCalls(s, calls)), CT.Run(s.desk.vault, ManagerCalls(s, calls)))
  {
    if calls != [] {
      var earlier := calls[..|calls| - 1];
      RunProjects(s, earlier);
      StepProjects(Run(s, earlier), calls[|calls| - 1], s.desk.book, s.desk.vault,
                   PoolCalls(s, earlier), ManagerCalls(s, earlier));
    }
  }

  // In every state the system can reach, with any amounts and through any liquidations:
  // the pool's totals are its users' principals plus all interest accrued, and each
  // asset's collateral is deposits less withdrawals.
  lemma SystemConserves(v: CM.Vault, calls: seq<Call>, asset: Address)
    ensures var start := Start(v);
            var d := Run(start, calls).desk;
            var a := Runs.Accruals(Pool.NEW_BOOK, PoolCalls(start, calls));
            && d.book.state.totalSupply == Sum(Runs.SupplyPrincipals(d.book))
            && d.book.state.totalBorrow == Sum(Runs.BorrowPrincipals(d.book)) + Runs.TotalInterest(a)
            && CT.AssetTotal(d.vault, asset)
               == CT.AssetTotal(v, asset) + CT.NetDeposits(v, ManagerCalls(start, calls), asset)
  {
    var start := Start(v);
    RunProjects(start, calls);
    Runs.RunBalances(PoolCalls(start, calls));
    CT.CollateralConserved(v, ManagerCalls(start, calls), asset);
  }

  predicate Sensible(c: Call) {
    c.OnPool? ==> PT.Sensible(c.pool)
  }

  lemma {:induction false} PoolCallsSensible(s: System, calls: seq<Call>)
    requires forall c :: c in calls ==> Sensible(c)
    ensures PT.AllSensible(PoolCalls(s, calls))
  {
    if calls != [] {
      PoolCallsSensible(s, calls[..|calls| - 1]);
      assert Sensible(calls[|calls| - 1]);
    }
  }

  // And with nonnegative amounts shares back principals, and no debt is below zero or
  // above what the pool has lent, whoever was liquidated for whatever amount.
  lemma SystemHealthy(v: CM.Vault, calls: seq<Call>)
    requires forall c :: c in calls ==> Sensible(c)
    ensures var start := Start(v);
            PT.Healthy(Run(start, calls).desk.book, Runs.Accruals(Pool.NEW_BOOK, PoolCalls(start, calls)))
  {
    var start := Start(v);
    RunProjects(start, calls);
    PoolCallsSensible(start, calls);
    PT.RunHealthy(PoolCalls(start, calls));
  }
}
