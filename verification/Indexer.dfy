// The event processor: a saturating fold of contract events into per-user positions.
module Indexer {
  import opened Ledgers

  datatype Kind = Supply | Withdraw | Borrow | Repay | Liquidation | Unknown

  datatype Event = Event(kind: Kind, user: Address, asset: Address, amount: int)

  // A position is kept per user and asset.
  datatype Key = Key(user: Address, asset: Address)

  // A new position starts at unit index; only the amount is touched after that.
  const INITIAL_INDEX: int := 1_000_000_000_000_000_000

  datatype SupplyPosition = SupplyPosition(amount: int, shares: int, supplyIndex: int)

  datatype BorrowPosition = BorrowPosition(amount: int, interestIndex: int, accruedInterest: int)

  // ---- Specification

  datatype Index = Index(
    users: set<Address>,
    supplies: map<Key, SupplyPosition>,
    borrows: map<Key, BorrowPosition>)

  const EMPTY_INDEX := Index({}, map[], map[])

  function Supplied(ix: Index, k: Key): int {
    if k in ix.supplies then ix.supplies[k].amount else 0
  }

  function Borrowed(ix: Index, k: Key): int {
    if k in ix.borrows then ix.borrows[k].amount else 0
  }

  // Zero at worst.
  function Reduced(current: int, amount: int): int {
    if current >= amount then current - amount else 0
  }

  function SupplyAdded(ix: Index, k: Key, amount: int): Index {
    ix.(supplies := ix.supplies[k :=
          if k in ix.supplies then ix.supplies[k].(amount := ix.supplies[k].amount + amount)
          else SupplyPosition(amount, amount, INITIAL_INDEX)])
  }

  // A position that does not exist stays so.
  function SupplyTaken(ix: Index, k: Key, amount: int): Index {
    if k !in ix.supplies then ix
    else ix.(supplies := ix.supplies[k := ix.supplies[k].(amount := Reduced(ix.supplies[k].amount, amount))])
  }

  function BorrowAdded(ix: Index, k: Key, amount: int): Index {
    ix.(borrows := ix.borrows[k :=
          if k in ix.borrows then ix.borrows[k].(amount := ix.borrows[k].amount + amount)
          else BorrowPosition(amount, INITIAL_INDEX, 0)])
  }

  function BorrowTaken(ix: Index, k: Key, amount: int): Index {
    if k !in ix.borrows then ix
    else ix.(borrows := ix.borrows[k := ix.borrows[k].(amount := Reduced(ix.borrows[k].amount, amount))])
  }

  // The events that leave a record. An unknown asset is an error, caught and skipped.
  predicate Handles(assets: set<Address>, e: Event) {
    e.kind == Liquidation || (e.kind != Unknown && e.asset in assets)
  }

  function Applied(ix: Index, assets: set<Address>, e: Event): Index {
    var k := Key(e.user, e.asset);
    if e.kind == Liquidation || e.kind == Unknown then ix else
      var seen := ix.(users := ix.users + {e.user});
      if e.asset !in assets then seen else
        match e.kind
        case Supply => SupplyAdded(seen, k, e.amount)
        case Withdraw => SupplyTaken(seen, k, e.amount)
        case Borrow => BorrowAdded(seen, k, e.amount)
        case Repay => BorrowTaken(seen, k, e.amount)
        case _ => seen
  }

  function AppliedAll(ix: Index, assets: set<Address>, events: seq<Event>): Index {
    if events == [] then ix
    else Applied(AppliedAll(ix, assets, events[..|events| - 1]), assets, events[|events| - 1])
  }

  function Recorded(assets: set<Address>, events: seq<Event>): seq<Event> {
    if events == [] then [] else
      Recorded(assets, events[..|events| - 1]) +
      if Handles(assets, events[|events| - 1]) then [events[|events| - 1]] else []
  }

  // ---- The service

  // A handler returns a record, returns nothing or throws.
  datatype Result = Record(event: Event) | Nothing | Thrown

  class EventProcessor {
    const assets: set<Address>
    var users: set<Address>
    var supplies: map<Key, SupplyPosition>
    var borrows: map<Key, BorrowPosition>

    ghost function View(): Index
      reads this
    {
      Index(users, supplies, borrows)
    }

    constructor (assets: set<Address>)
      ensures View() == EMPTY_INDEX && this.assets == assets
    {
      this.assets := assets;
      users, supplies, borrows := {}, map[], map[];
    }

    method ProcessEvents(events: seq<Event>) returns (processed: seq<Event>)
      modifies this
      ensures View() == AppliedAll(old(View()), assets, events)
      ensures processed == Recorded(assets, events)
    {
      processed := [];
      for i := 0 to |events|
        invariant View() == AppliedAll(old(View()), assets, events[..i])
        invariant processed == Recorded(assets, events[..i])
      {
        assert events[..i + 1][..i] == events[..i];
        var result := ProcessEvent(events[i]);
        if result.Record? {
          processed := processed + [result.event];
        }
      }
      assert events[..|events|] == events;
    }

    method ProcessEvent(e: Event) returns (result: Result)
      modifies this
      ensures View() == Applied(old(View()), assets, e)
      ensures result.Record? <==> Handles(assets, e)
      ensures result.Record? ==> result.event == e
    {
      match e.kind
      case Supply => result := HandleSupplyEvent(e);
      case Withdraw => result := HandleWithdrawEvent(e);
      case Borrow => result := HandleBorrowEvent(e);
      case Repay => result := HandleRepayEvent(e);
      case Liquidation => result := Record(e);
      case Unknown => result := Nothing;
    }

    method HandleSupplyEvent(e: Event) returns (result: Result)
      requires e.kind == Supply
      modifies this`users, this`supplies
      ensures View() == Applied(old(View()), assets, e)
      ensures result == if e.asset in assets then Record(e) else Thrown
    {
      users := users + {e.user};
      if e.asset !in assets {
        return Thrown;
      }
      var k := Key(e.user, e.asset);
      if k in supplies {
        supplies := supplies[k := supplies[k].(amount := supplies[k].amount + e.amount)];
      } else {
        supplies := supplies[k := SupplyPosition(e.amount, e.amount, INITIAL_INDEX)];
      }
      return Record(e);
    }

    method HandleWithdrawEvent(e: Event) returns (result: Result)
      requires e.kind == Withdraw
      modifies this`users, this`supplies
      ensures View() == Applied(old(View()), assets, e)
      ensures result == if e.asset in assets then Record(e) else Thrown
    {
      users := users + {e.user};
      if e.asset !in assets {
        return Thrown;
      }
      var k := Key(e.user, e.asset);
      if k in supplies {
        var current := supplies[k].amount;
        var amount := if current >= e.amount then current - e.amount else 0;
        supplies := supplies[k := supplies[k].(amount := amount)];
      }
      return Record(e);
    }

    method HandleBorrowEvent(e: Event) returns (result: Result)
      requires e.kind == Borrow
      modifies this`users, this`borrows
      ensures View() == Applied(old(View()), assets, e)
      ensures result == if e.asset in assets then Record(e) else Thrown
    {
      users := users + {e.user};
      if e.asset !in assets {
        return Thrown;
      }
      var k := Key(e.user, e.asset);
      if k in borrows {
        borrows := borrows[k := borrows[k].(amount := borrows[k].amount + e.amount)];
      } else {
        borrows := borrows[k := BorrowPosition(e.amount, INITIAL_INDEX, 0)];
      }
      return Record(e);
    }

    method HandleRepayEvent(e: Event) returns (result: Result)
      requires e.kind == Repay
      modifies this`users, this`borrows
      ensures View() == Applied(old(View()), assets, e)
      ensures result == if e.asset in assets then Record(e) else Thrown
    {
      users := users + {e.user};
      if e.asset !in assets {
        return Thrown;
      }
      var k := Key(e.user, e.asset);
      if k in borrows {
        var current := borrows[k].amount;
        var amount := if current >= e.amount then current - e.amount else 0;
        borrows := borrows[k := borrows[k].(amount := amount)];
      }
      return Record(e);
    }
  }

  // ---- The fold in closed form

  // What an event means for one position: a signed amount, or nothing.
  function Delta(assets: set<Address>, e: Event, k: Key, up: Kind, down: Kind): seq<int> {
    if k.user != e.user || k.asset != e.asset || k.asset !in assets then []
    else if e.kind == up then [e.amount]
    else if e.kind == down then [-e.amount]
    else []
  }

  function Deltas(assets: set<Address>, events: seq<Event>, k: Key, up: Kind, down: Kind): seq<int> {
    if events == [] then [] else
      Deltas(assets, events[..|events| - 1], k, up, down) + Delta(assets, events[|events| - 1], k, up, down)
  }

  function SumSeq(s: seq<int>): int {
    if s == [] then 0 else SumSeq(s[..|s| - 1]) + s[|s| - 1]
  }

  // The least sum of any prefix, the empty one included.
  function Low(d: seq<int>): int {
    if d == [] then 0 else
      var before := Low(d[..|d| - 1]);
      if SumSeq(d) < before then SumSeq(d) else before
  }

  lemma {:induction false} LowIsLeast(d: seq<int>)
    ensures forall i :: 0 <= i <= |d| ==> Low(d) <= SumSeq(d[..i])
    ensures exists i :: 0 <= i <= |d| && Low(d) == SumSeq(d[..i])
  {
    assert d[..|d|] == d;
    if d != [] {
      var e := d[..|d| - 1];
      LowIsLeast(e);
      forall i | 0 <= i <= |d| ensures Low(d) <= SumSeq(d[..i]) {
        if i < |d| {
          assert d[..i] == e[..i];
        }
      }
      var j :| 0 <= j <= |e| && Low(e) == SumSeq(e[..j]);
      assert d[..j] == e[..j];
      assert Low(d) == SumSeq(d[..|d|]) || Low(d) == SumSeq(d[..j]);
    }
  }

  function Max(a: int, b: int): int {
    if a < b then b else a
  }

  // Start plus net sum, lifted by however far the running sum dipped below zero.
  function ClosedForm(start: int, d: seq<int>): int {
    Max(start + SumSeq(d), SumSeq(d) - Low(d))
  }

  lemma ClosedFormStep(start: int, d: seq<int>, x: int)
    requires start >= 0
    ensures ClosedForm(start, d + [x]) == Max(0, ClosedForm(start, d) + x)
  {
  }

  ghost predicate NonNegative(events: seq<Event>) {
    forall e :: e in events ==> e.amount >= 0
  }

  lemma ClosedFormNonNegative(start: int, d: seq<int>)
    requires start >= 0
    ensures ClosedForm(start, d) >= 0
  {
  }

  // The closed form follows one event, given what the event did to the position.
  lemma OneEvent(start: int, d: seq<int>, delta: seq<int>, after: int)
    requires start >= 0
    requires |delta| <= 1
    requires after == if delta == [] then ClosedForm(start, d) else Max(0, ClosedForm(start, d) + delta[0])
    ensures after == ClosedForm(start, d + delta)
  {
    if delta == [] {
      assert d + delta == d;
    } else {
      assert delta == [delta[0]];
      ClosedFormStep(start, d, delta[0]);
    }
  }

  lemma SupplyEffect(ix: Index, assets: set<Address>, e: Event, k: Key)
    requires e.amount >= 0 && Supplied(ix, k) >= 0
    ensures var delta := Delta(assets, e, k, Supply, Withdraw);
            var before := Supplied(ix, k);
            Supplied(Applied(ix, assets, e), k) == if delta == [] then before else Max(0, before + delta[0])
  {
  }

  lemma BorrowEffect(ix: Index, assets: set<Address>, e: Event, k: Key)
    requires e.amount >= 0 && Borrowed(ix, k) >= 0
    ensures var delta := Delta(assets, e, k, Borrow, Repay);
            var before := Borrowed(ix, k);
            Borrowed(Applied(ix, assets, e), k) == if delta == [] then before else Max(0, before + delta[0])
  {
  }

  // For any events and any starting index, a user's supply position in an asset is the
  // closed form of the signed amounts that concern it.
  lemma {:induction false} SupplyClosedForm(ix: Index, assets: set<Address>, events: seq<Event>, k: Key)
    requires NonNegative(events) && Supplied(ix, k) >= 0
    ensures Supplied(AppliedAll(ix, assets, events), k)
         == ClosedForm(Supplied(ix, k), Deltas(assets, events, k, Supply, Withdraw))
  {
    if events != [] {
      var earlier, e := events[..|events| - 1], events[|events| - 1];
      var start, d := Supplied(ix, k), Deltas(assets, earlier, k, Supply, Withdraw);
      SupplyClosedForm(ix, assets, earlier, k);
      ClosedFormNonNegative(start, d);
      SupplyEffect(AppliedAll(ix, assets, earlier), assets, e, k);
      OneEvent(start, d, Delta(assets, e, k, Supply, Withdraw), Supplied(AppliedAll(ix, assets, events), k));
    }
  }

  lemma {:induction false} BorrowClosedForm(ix: Index, assets: set<Address>, events: seq<Event>, k: Key)
    requires NonNegative(events) && Borrowed(ix, k) >= 0
    ensures Borrowed(AppliedAll(ix, assets, events), k)
         == ClosedForm(Borrowed(ix, k), Deltas(assets, events, k, Borrow, Repay))
  {
    if events != [] {
      var earlier, e := events[..|events| - 1], events[|events| - 1];
      var start, d := Borrowed(ix, k), Deltas(assets, earlier, k, Borrow, Repay);
      BorrowClosedForm(ix, assets, earlier, k);
      ClosedFormNonNegative(start, d);
      BorrowEffect(AppliedAll(ix, assets, earlier), assets, e, k);
      OneEvent(start, d, Delta(assets, e, k, Borrow, Repay), Borrowed(AppliedAll(ix, assets, events), k));
    }
  }

  lemma PlainSumIff(start: int, d: seq<int>)
    requires start >= 0
    ensures ClosedForm(start, d) >= 0
    ensures ClosedForm(start, d) == start + SumSeq(d) <==> forall i :: 0 <= i <= |d| ==> start + SumSeq(d[..i]) >= 0
  {
    ClosedFormNonNegative(start, d);
    LowIsLeast(d);
  }

  // An indexed supply is never negative, and is the plain net sum of the events if and
  // only if no prefix of them takes out more than was there.
  lemma SupplyPlainIff(ix: Index, assets: set<Address>, events: seq<Event>, k: Key)
    requires NonNegative(events) && Supplied(ix, k) >= 0
    ensures var d := Deltas(assets, events, k, Supply, Withdraw);
            var amount := Supplied(AppliedAll(ix, assets, events), k);
            && amount >= 0
            && (amount == Supplied(ix, k) + SumSeq(d) <==>
                  forall i :: 0 <= i <= |d| ==> Supplied(ix, k) + SumSeq(d[..i]) >= 0)
  {
    SupplyClosedForm(ix, assets, events, k);
    PlainSumIff(Supplied(ix, k), Deltas(assets, events, k, Supply, Withdraw));
  }

  // Likewise an indexed debt.
  lemma BorrowPlainIff(ix: Index, assets: set<Address>, events: seq<Event>, k: Key)
    requires NonNegative(events) && Borrowed(ix, k) >= 0
    ensures var d := Deltas(assets, events, k, Borrow, Repay);
            var amount := Borrowed(AppliedAll(ix, assets, events), k);
            && amount >= 0
            && (amount == Borrowed(ix, k) + SumSeq(d) <==>
                  forall i :: 0 <= i <= |d| ==> Borrowed(ix, k) + SumSeq(d[..i]) >= 0)
  {
    BorrowClosedForm(ix, assets, events, k);
    PlainSumIff(Borrowed(ix, k), Deltas(assets, events, k, Borrow, Repay));
  }

  // Nothing but the amount of an existing position ever changes.
  lemma {:induction false} RecordsKept(ix: Index, assets: set<Address>, events: seq<Event>, k: Key)
    ensures var after := AppliedAll(ix, assets, events);
            && (k in ix.supplies ==>
                  && k in after.supplies
                  && after.supplies[k].(amount := ix.supplies[k].amount) == ix.supplies[k])
            && (k in ix.borrows ==>
                  && k in after.borrows
                  && after.borrows[k].(amount := ix.borrows[k].amount) == ix.borrows[k])
            && ix.users <= after.users
  {
    if events != [] {
      RecordsKept(ix, assets, events[..|events| - 1], k);
    }
  }

  // ---- What events create

  // The amount of the first event of one kind that concerns a position.
  function FirstAmount(assets: set<Address>, events: seq<Event>, k: Key, kind: Kind): Option<int> {
    if events == [] then None else
      var earlier, e := FirstAmount(assets, events[..|events| - 1], k, kind), events[|events| - 1];
      if earlier == None && e.kind == kind && e.user == k.user && e.asset == k.asset && e.asset in assets
      then Some(e.amount) else earlier
  }

  // A supply position comes into being with the first supply to it, and keeps that amount
  // as its shares and the unit index, whatever follows.
  lemma {:induction false} SupplyOpened(ix: Index, assets: set<Address>, events: seq<Event>, k: Key)
    requires k !in ix.supplies
    ensures var after, first := AppliedAll(ix, assets, events).supplies, FirstAmount(assets, events, k, Supply);
            && (k in after <==> first.Some?)
            && (k in after ==> after[k] == SupplyPosition(after[k].amount, first.value, INITIAL_INDEX))
  {
    if events != [] {
      SupplyOpened(ix, assets, events[..|events| - 1], k);
    }
  }

  // Likewise a debt with the first borrow, at unit index and without accrued interest.
  lemma {:induction false} BorrowOpened(ix: Index, assets: set<Address>, events: seq<Event>, k: Key)
    requires k !in ix.borrows
    ensures var after := AppliedAll(ix, assets, events).borrows;
            && (k in after <==> FirstAmount(assets, events, k, Borrow).Some?)
            && (k in after ==> after[k] == BorrowPosition(after[k].amount, INITIAL_INDEX, 0))
  {
    if events != [] {
      BorrowOpened(ix, assets, events[..|events| - 1], k);
    }
  }

  // Every event that moves an amount makes its user known, of an unknown asset too;
  // nothing else does.
  predicate Names(e: Event, user: Address) {
    e.user == user && e.kind != Liquidation && e.kind != Unknown
  }

  lemma {:induction false} UsersSeen(ix: Index, assets: set<Address>, events: seq<Event>, user: Address)
    ensures user in AppliedAll(ix, assets, events).users
            <==> user in ix.users || exists e :: e in events && Names(e, user)
  {
    if events != [] {
      var earlier, last := events[..|events| - 1], events[|events| - 1];
      UsersSeen(ix, assets, earlier, user);
      assert events == earlier + [last];
      assert forall e :: e in events <==> e in earlier || e == last;
      LastNamed(AppliedAll(ix, assets, earlier), assets, last, user);
    }
  }

  lemma LastNamed(ix: Index, assets: set<Address>, e: Event, user: Address)
    ensures user in Applied(ix, assets, e).users <==> user in ix.users || Names(e, user)
  {
  }

  // The records returned are those of liquidations and of all movements of known assets,
  // each the event itself.
  lemma RecordedAlone(assets: set<Address>, e: Event)
    ensures Recorded(assets, [e])
         == if e.kind == Liquidation || (e.kind != Unknown && e.asset in assets) then [e] else []
  {
    assert [e][..0] == [];
  }

  // And they come in the order of the events.
  lemma {:induction false} RecordedInOrder(assets: set<Address>, first: seq<Event>, rest: seq<Event>)
    ensures Recorded(assets, first + rest) == Recorded(assets, first) + Recorded(assets, rest)
  {
    if rest == [] {
      assert first + rest == first;
    } else {
      RecordedInOrder(assets, first, rest[..|rest| - 1]);
      assert (first + rest)[..|first + rest| - 1] == first + rest[..|rest| - 1];
    }
  }
}
