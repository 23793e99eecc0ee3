// The price oracle: keepers post prices, guarded by a minimum interval and a deviation
// limit, and every posting extends a time-weighted accumulator.
module PriceOracle {
  import opened FixedPoint
  import opened Ledgers

  // ---- Specification: the stored state as a value. `None` is a panic, which leaves
  // ---- the contract as it was.

  datatype Feed = Feed(
    admin: Option<Address>,
    keepers: map<Address, bool>,
    deviationThreshold: int,
    minInterval: int,
    prices: map<Address, int>,
    lastUpdates: map<Address, int>,
    cumulativePrices: map<Address, int>,
    cumulativeTimes: map<Address, int>)

  const NEW_FEED := Feed(None, map[], 0, 0, map[], map[], map[], map[])

  function Initialized(f: Feed, admin: Address, deviationThreshold: int, minInterval: U64): Option<Feed> {
    if f.admin.Some? then None else
      Some(f.(admin := Some(admin), keepers := f.keepers[admin := true],
              deviationThreshold := deviationThreshold, minInterval := minInterval))
  }

  // The named administrator must have signed, and be the stored one.
  function WithKeeper(f: Feed, signers: set<Address>, admin: Address, keeper: Address, enable: bool): Option<Feed> {
    if admin !in signers || f.admin != Some(admin) then None else Some(f.(keepers := f.keepers[keeper := enable]))
  }

  predicate IsKeeper(f: Feed, keeper: Address) {
    keeper in f.keepers && f.keepers[keeper]
  }

  // The checks a posting must pass once the asset has a price.
  predicate UpdateAllowed(f: Feed, now: U64, asset: Address, price: int) {
    var elapsed := now - Get(f.lastUpdates, asset);
    var oldPrice := Get(f.prices, asset);
    && elapsed >= 0
    && (f.minInterval > 0 ==> elapsed >= f.minInterval)
    && (oldPrice > 0 ==> && PercentOfFits(oldPrice, f.deviationThreshold)
                         && AbsDiff(price, oldPrice) <= PercentOf(oldPrice, f.deviationThreshold))
    && InI128(oldPrice * elapsed)
    && InI128(Get(f.cumulativePrices, asset) + oldPrice * elapsed)
  }

  // The holding time of the old price is added; the time total is cast back to 64 bits.
  function Accumulated(f: Feed, now: U64, asset: Address): Feed {
    var elapsed := now - Get(f.lastUpdates, asset);
    f.(cumulativePrices := f.cumulativePrices[asset := Get(f.cumulativePrices, asset) + Get(f.prices, asset) * elapsed],
       cumulativeTimes := f.cumulativeTimes[asset := (Get(f.cumulativeTimes, asset) + elapsed) % TWO_TO_THE_64])
  }

  function WithPrice(f: Feed, now: U64, keeper: Address, asset: Address, price: int): Option<Feed> {
    if !IsKeeper(f, keeper) || price <= 0 then None
    else if Get(f.lastUpdates, asset) != 0 && !UpdateAllowed(f, now, asset, price) then None
    else
      var g := if Get(f.lastUpdates, asset) != 0 then Accumulated(f, now, asset) else f;
      Some(g.(prices := g.prices[asset := price], lastUpdates := g.lastUpdates[asset := now]))
  }

  function Twap(f: Feed, asset: Address): int {
    if Get(f.cumulativeTimes, asset) == 0 then Get(f.prices, asset)
    else TruncDiv(Get(f.cumulativePrices, asset), Get(f.cumulativeTimes, asset))
  }

  // ---- The contract

  class Oracle {
    var admin: Option<Address>
    var keepers: map<Address, bool>
    var deviationThreshold: int
    var minInterval: U64
    var prices: map<Address, int>
    var lastUpdates: map<Address, int>
    var cumulativePrices: map<Address, int>
    var cumulativeTimes: map<Address, int>

    ghost function View(): Feed
      reads this
    {
      Feed(admin, keepers, deviationThreshold, minInterval, prices, lastUpdates, cumulativePrices, cumulativeTimes)
    }

    constructor ()
      ensures View() == NEW_FEED
    {
      admin, keepers, deviationThreshold, minInterval := None, map[], 0, 0;
      prices, lastUpdates, cumulativePrices, cumulativeTimes := map[], map[], map[], map[];
    }

    method Initialize(admin: Address, deviationThreshold: int, minInterval: U64) returns (ok: bool)
      modifies this
      ensures ok <==> Initialized(old(View()), admin, deviationThreshold, minInterval).Some?
      ensures View() == if ok then Initialized(old(View()), admin, deviationThreshold, minInterval).value
                              else old(View())
    {
      if this.admin.Some? {
        return false;
      }
      this.admin := Some(admin);
      keepers := keepers[admin := true];
      this.deviationThreshold := deviationThreshold;
      this.minInterval := minInterval;
      return true;
    }

    method SetKeeper(signers: set<Address>, admin: Address, keeper: Address, enable: bool) returns (ok: bool)
      modifies this
      ensures ok <==> WithKeeper(old(View()), signers, admin, keeper, enable).Some?
      ensures View() == if ok then WithKeeper(old(View()), signers, admin, keeper, enable).value else old(View())
    {
      if admin !in signers {
        return false;
      }
      if this.admin != Some(admin) {
        return false;
      }
      keepers := keepers[keeper := enable];
      return true;
    }

    method SetPrice(now: U64, keeper: Address, asset: Address, price: int) returns (ok: bool)
      modifies this
      ensures ok <==> WithPrice(old(View()), now, keeper, asset, price).Some?
      ensures View() == if ok then WithPrice(old(View()), now, keeper, asset, price).value else old(View())
    {
      if !(keeper in keepers && keepers[keeper]) {
        return false;
      }
      if price <= 0 {
        return false;
      }
      var lastUpdate := Get(lastUpdates, asset);
      if lastUpdate != 0 {
        var elapsed := now - lastUpdate;
        if elapsed < 0 {
          return false;
        }
        if minInterval > 0 && elapsed < minInterval {
          return false;
        }
        var oldPrice := Get(prices, asset);
        if oldPrice > 0 {
          if !PercentOfFits(oldPrice, deviationThreshold) {
            return false;
          }
          var deviation := AbsDiff(price, oldPrice);
          var maxDeviation := PercentOf(oldPrice, deviationThreshold);
          if deviation > maxDeviation {
            return false;
          }
        }
        var priceTime := Get(cumulativePrices, asset) + oldPrice * elapsed;
        if !InI128(oldPrice * elapsed) || !InI128(priceTime) {
          return false;
        }
        var newTime := (Get(cumulativeTimes, asset) + elapsed) % TWO_TO_THE_64;
        cumulativePrices := cumulativePrices[asset := priceTime];
        cumulativeTimes := cumulativeTimes[asset := newTime];
      }
      prices := prices[asset := price];
      lastUpdates := lastUpdates[asset := now];
      return true;
    }

    method GetTwap(asset: Address) returns (average: int)
      ensures average == Twap(View(), asset)
    {
      var cumulativePrice := Get(cumulativePrices, asset);
      var cumulativeTime := Get(cumulativeTimes, asset);
      if cumulativeTime == 0 {
        return Get(prices, asset);
      }
      return TruncDiv(cumulativePrice, cumulativeTime);
    }
  }

  // ---- Runs

  datatype Call =
    | Initialize(admin: Address, deviationThreshold: int, minInterval: U64)
    | SetKeeper(signers: set<Address>, admin: Address, keeper: Address, enable: bool)
    | SetPrice(now: U64, keeper: Address, asset: Address, price: int)

  function Attempt(f: Feed, c: Call): Option<Feed> {
    match c
    case Initialize(admin, d, m) => Initialized(f, admin, d, m)
    case SetKeeper(signers, admin, keeper, enable) => WithKeeper(f, signers, admin, keeper, enable)
    case SetPrice(now, keeper, asset, price) => WithPrice(f, now, keeper, asset, price)
  }

  function Step(f: Feed, c: Call): Feed {
    match Attempt(f, c)
    case Some(g) => g
    case None => f
  }

  function Run(f: Feed, calls: seq<Call>): Feed {
    if calls == [] then f else Step(Run(f, calls[..|calls| - 1]), calls[|calls| - 1])
  }

  datatype Posting = Posting(time: int, price: int)

  predicate Accepts(f: Feed, c: Call, asset: Address) {
    c.SetPrice? && c.asset == asset && Attempt(f, c).Some?
  }

  // The prices accepted for one asset, oldest first.
  function History(f: Feed, calls: seq<Call>, asset: Address): seq<Posting> {
    if calls == [] then [] else
      var earlier := calls[..|calls| - 1];
      var c := calls[|calls| - 1];
      var h := History(f, earlier, asset);
      if Accepts(Run(f, earlier), c, asset) then h + [Posting(c.now, c.price)] else h
  }

  // The ledger clock is never at zero.
  predicate Clocked(calls: seq<Call>) {
    forall c :: c in calls && c.SetPrice? ==> c.now > 0
  }

  // Every price weighted by the time it was held, up to the last posting.
  function PriceTime(h: seq<Posting>): int {
    if |h| < 2 then 0 else
      PriceTime(h[..|h| - 1]) + h[|h| - 2].price * (h[|h| - 1].time - h[|h| - 2].time)
  }

  // The limit actually enforced: a negative threshold freezes the price.
  function Limit(f: Feed): nat {
    if f.deviationThreshold < 0 then 0 else f.deviationThreshold
  }

  // One accepted posting after another.
  ghost predicate Follows(before: Posting, after: Posting, limit: nat, minInterval: int) {
    && before.time <= after.time
    && before.time + minInterval <= after.time
    && AbsDiff(after.price, before.price) * ONE <= before.price * limit
  }

  ghost predicate WithinLimits(h: seq<Posting>, limit: nat, minInterval: int) {
    h != [] ==>
      var last := h[|h| - 1];
      && last.time > 0
      && last.price > 0
      && (|h| > 1 ==> Follows(h[|h| - 2], last, limit, minInterval))
      && WithinLimits(h[..|h| - 1], limit, minInterval)
  }

  ghost predicate Tracks(f: Feed, asset: Address, h: seq<Posting>) {
    && WithinLimits(h, Limit(f), f.minInterval)
    && (f.admin == None ==> h == [] && f.keepers == map[])
    && 0 <= f.minInterval
    && 0 <= Get(f.lastUpdates, asset) < TWO_TO_THE_64
    && if h == [] then
         && Get(f.prices, asset) == Get(f.lastUpdates, asset) == 0
         && Get(f.cumulativePrices, asset) == Get(f.cumulativeTimes, asset) == 0
       else
         var last := h[|h| - 1];
         && Get(f.prices, asset) == last.price
         && Get(f.lastUpdates, asset) == last.time
         && Get(f.cumulativePrices, asset) == PriceTime(h)
         && Get(f.cumulativeTimes, asset) == last.time - h[0].time
         && h[0].time <= last.time
  }

  lemma {:induction false} PostingsPositive(h: seq<Posting>, limit: nat, minInterval: int)
    requires WithinLimits(h, limit, minInterval)
    ensures forall i :: 0 <= i < |h| ==> h[i].price > 0 && h[i].time > 0
  {
    if h != [] {
      var e := h[..|h| - 1];
      PostingsPositive(e, limit, minInterval);
      assert forall i :: 0 <= i < |e| ==> h[i] == e[i];
    }
  }

  // What an accepted posting on top of an earlier one tells about the two.
  lemma AcceptedFollows(f: Feed, asset: Address, last: Posting, now: U64, keeper: Address, price: int)
    requires last.time == Get(f.lastUpdates, asset) != 0 && last.price == Get(f.prices, asset) > 0
    requires f.minInterval >= 0
    requires WithPrice(f, now, keeper, asset, price).Some?
    ensures price > 0 && Follows(last, Posting(now, price), Limit(f), f.minInterval)
  {
  }

  lemma FirstPosting(f: Feed, g: Feed, asset: Address, now: U64, price: int)
    requires Tracks(f, asset, []) && now > 0 && price > 0
    requires g.admin.Some? && g.deviationThreshold == f.deviationThreshold && g.minInterval == f.minInterval
    requires Get(g.prices, asset) == price && Get(g.lastUpdates, asset) == now
    requires Get(g.cumulativePrices, asset) == Get(g.cumulativeTimes, asset) == 0
    ensures Tracks(g, asset, [Posting(now, price)])
  {
  }

  lemma LaterPosting(f: Feed, g: Feed, asset: Address, h: seq<Posting>, now: U64, price: int)
    requires Tracks(f, asset, h) && h != [] && now > 0 && price > 0
    requires Follows(h[|h| - 1], Posting(now, price), Limit(f), f.minInterval)
    requires g.admin.Some? && g.deviationThreshold == f.deviationThreshold && g.minInterval == f.minInterval
    requires Get(g.prices, asset) == price && Get(g.lastUpdates, asset) == now
    requires Get(g.cumulativePrices, asset) == PriceTime(h) + h[|h| - 1].price * (now - h[|h| - 1].time)
    requires Get(g.cumulativeTimes, asset) == (h[|h| - 1].time - h[0].time + now - h[|h| - 1].time) % TWO_TO_THE_64
    ensures Tracks(g, asset, h + [Posting(now, price)])
  {
    var h' := h + [Posting(now, price)];
    assert h'[..|h|] == h;
    assert h'[|h'| - 2] == h[|h| - 1];
    PostingsPositive(h, Limit(f), f.minInterval);
    SmallRemainder(now - h[0].time);
  }

  lemma PostingTracks(f: Feed, asset: Address, h: seq<Posting>, now: U64, keeper: Address, price: int)
    requires Tracks(f, asset, h) && now > 0
    requires WithPrice(f, now, keeper, asset, price).Some?
    ensures Tracks(WithPrice(f, now, keeper, asset, price).value, asset, h + [Posting(now, price)])
  {
    var g := WithPrice(f, now, keeper, asset, price).value;
    if h == [] {
      FirstPosting(f, g, asset, now, price);
      assert h + [Posting(now, price)] == [Posting(now, price)];
    } else {
      AcceptedFollows(f, asset, h[|h| - 1], now, keeper, price);
      LaterPosting(f, g, asset, h, now, price);
    }
  }

  lemma SmallRemainder(x: int)
    requires 0 <= x < TWO_TO_THE_64
    ensures x % TWO_TO_THE_64 == x
  {
  }

  lemma StepTracks(f: Feed, asset: Address, h: seq<Posting>, c: Call)
    requires Tracks(f, asset, h)
    requires c.SetPrice? ==> c.now > 0
    ensures Tracks(Step(f, c), asset, if Accepts(f, c, asset) then h + [Posting(c.now, c.price)] else h)
  {
    if Accepts(f, c, asset) {
      PostingTracks(f, asset, h, c.now, c.keeper, c.price);
    } else if c.SetPrice? && Attempt(f, c).Some? {
      var g := Attempt(f, c).value;
      assert Get(g.prices, asset) == Get(f.prices, asset);
      assert Get(g.cumulativePrices, asset) == Get(f.cumulativePrices, asset);
    }
  }

  // On every run the stored price, clock and both accumulators are exactly those of the
  // accepted postings; the cast of the time total to 64 bits never loses anything.
  lemma {:induction false} RunTracks(calls: seq<Call>, asset: Address)
    requires Clocked(calls)
    ensures Tracks(Run(NEW_FEED, calls), asset, History(NEW_FEED, calls, asset))
  {
    if calls != [] {
      var earlier := calls[..|calls| - 1];
      RunTracks(earlier, asset);
      StepTracks(Run(NEW_FEED, earlier), asset, History(NEW_FEED, earlier, asset), calls[|calls| - 1]);
    }
  }

  lemma RunWithinLimits(calls: seq<Call>, asset: Address)
    requires Clocked(calls)
    ensures var f := Run(NEW_FEED, calls); WithinLimits(History(NEW_FEED, calls, asset), Limit(f), f.minInterval)
  {
    RunTracks(calls, asset);
  }

  // ---- Who may post

  // Named by the initialization or enabled by the administrator.
  predicate Enables(c: Call, keeper: Address) {
    (c.Initialize? && c.admin == keeper) || (c.SetKeeper? && c.keeper == keeper && c.enable)
  }

  // ---- What the calls so far have set up

  // The first initialization, which is the only one that counts.
  function FirstInit(calls: seq<Call>): Option<Call> {
    if calls == [] then None else
      var earlier, c := FirstInit(calls[..|calls| - 1]), calls[|calls| - 1];
      if earlier == None && c.Initialize? then Some(c) else earlier
  }

  lemma {:induction false} FirstInitInitializes(calls: seq<Call>)
    ensures FirstInit(calls).Some? ==> FirstInit(calls).value.Initialize?
  {
    if calls != [] {
      FirstInitInitializes(calls[..|calls| - 1]);
    }
  }

  function AdminOf(calls: seq<Call>): Option<Address> {
    match FirstInit(calls)
    case Some(Initialize(admin, _, _)) => Some(admin)
    case _ => None
  }

  // The last word on a keeper: the initialization names one, after that the signed calls
  // of the administrator enable and disable.
  predicate Enabled(calls: seq<Call>, keeper: Address) {
    calls != [] &&
    var earlier, c := calls[..|calls| - 1], calls[|calls| - 1];
    if c.Initialize? && c.admin == keeper && FirstInit(earlier) == None then true
    else if c.SetKeeper? && c.keeper == keeper && c.admin in c.signers && AdminOf(earlier) == Some(c.admin)
    then c.enable
    else Enabled(earlier, keeper)
  }

  function Threshold(calls: seq<Call>): int {
    match FirstInit(calls)
    case Some(Initialize(_, threshold, _)) => threshold
    case _ => 0
  }

  function Interval(calls: seq<Call>): int {
    match FirstInit(calls)
    case Some(Initialize(_, _, interval)) => interval
    case _ => 0
  }

  // On every run administrator, threshold and interval are those of the first
  // initialization, and an account is a keeper if and only if the last word on it says so.
  lemma {:induction false} SetupDecided(calls: seq<Call>, keeper: Address)
    ensures var f := Run(NEW_FEED, calls);
            && f.admin == AdminOf(calls)
            && f.deviationThreshold == Threshold(calls)
            && f.minInterval == Interval(calls) >= 0
            && (IsKeeper(f, keeper) <==> Enabled(calls, keeper))
  {
    if calls != [] {
      var earlier, c := calls[..|calls| - 1], calls[|calls| - 1];
      FirstInitInitializes(earlier);
      SetupDecided(earlier, keeper);
    }
  }

  // An account that was never enabled has no price accepted, on any run.
  lemma {:induction false} OnlyKeepersPost(calls: seq<Call>, keeper: Address)
    requires forall c :: c in calls ==> !Enables(c, keeper)
    ensures !IsKeeper(Run(NEW_FEED, calls), keeper)
    ensures forall now: U64, asset, price :: WithPrice(Run(NEW_FEED, calls), now, keeper, asset, price) == None
  {
    if calls != [] {
      var earlier := calls[..|calls| - 1];
      OnlyKeepersPost(earlier, keeper);
      assert calls[|calls| - 1] in calls;
    }
  }

  // ---- Which postings are accepted

  // What the next posting must satisfy, in amounts: a price for the first one; after that
  // the clock not behind, the interval kept, the deviation within the threshold of the
  // last price, and products in range. A negative threshold leaves room for an unchanged
  // price at most.
  predicate MayFollow(h: seq<Posting>, threshold: int, interval: int, now: int, price: int) {
    && price > 0
    && (h != [] ==>
          var last := h[|h| - 1];
          && last.time <= now && last.time + interval <= now
          && InI128(last.price * threshold)
          && (if threshold >= 0 then AbsDiff(price, last.price) * ONE <= last.price * threshold
              else price == last.price && last.price * -threshold < ONE)
          && PriceTime(h) + last.price * (now - last.time) <= I128_MAX)
  }

  lemma DeviationIff(price: int, before: int, threshold: int)
    requires price > 0 && before > 0
    ensures PercentOfFits(before, threshold) <==> InI128(before * threshold)
    ensures AbsDiff(price, before) <= PercentOf(before, threshold) <==>
              if threshold >= 0 then AbsDiff(price, before) * ONE <= before * threshold
              else price == before && before * -threshold < ONE
  {
    MulDivMeaning(before, threshold, ONE);
    if threshold >= 0 {
      FloorGreatest(before, threshold, ONE, AbsDiff(price, before));
    } else {
      NegativePercent(before, threshold);
    }
  }

  lemma NegativePercent(before: int, threshold: int)
    requires before > 0 && threshold < 0
    ensures PercentOf(before, threshold) <= 0
    ensures PercentOf(before, threshold) == 0 <==> before * -threshold < ONE
  {
    assert before * threshold == -(before * -threshold);
    MulMonotone(1, 1, before, -threshold);
    DivFloor(before * -threshold, ONE);
  }

  lemma {:induction false} PriceTimeNonNegative(h: seq<Posting>, limit: nat, minInterval: int)
    requires WithinLimits(h, limit, minInterval)
    ensures PriceTime(h) >= 0
  {
    if |h| > 1 {
      var e := h[..|h| - 1];
      PriceTimeNonNegative(e, limit, minInterval);
      PostingsPositive(h, limit, minInterval);
      MulNonNegative(h[|h| - 2].price, h[|h| - 1].time - h[|h| - 2].time);
    }
  }

  lemma TrackedAccepts(f: Feed, asset: Address, h: seq<Posting>, now: U64, keeper: Address, price: int)
    requires Tracks(f, asset, h) && now > 0
    ensures WithPrice(f, now, keeper, asset, price).Some? <==>
              IsKeeper(f, keeper) && MayFollow(h, f.deviationThreshold, f.minInterval, now, price)
  {
    if h != [] && price > 0 {
      var last := h[|h| - 1];
      PostingsPositive(h, Limit(f), f.minInterval);
      PriceTimeNonNegative(h, Limit(f), f.minInterval);
      DeviationIff(price, last.price, f.deviationThreshold);
      if now >= last.time {
        MulNonNegative(last.price, now - last.time);
      }
    }
  }

  // On every run a posting is accepted if and only if it comes from an account on which
  // the last word is that it is a keeper, and the history of the asset allows it.
  lemma PostingDecided(calls: seq<Call>, now: U64, keeper: Address, asset: Address, price: int)
    requires Clocked(calls) && now > 0
    ensures WithPrice(Run(NEW_FEED, calls), now, keeper, asset, price).Some? <==>
              && Enabled(calls, keeper)
              && MayFollow(History(NEW_FEED, calls, asset), Threshold(calls), Interval(calls), now, price)
  {
    RunTracks(calls, asset);
    SetupDecided(calls, keeper);
    TrackedAccepts(Run(NEW_FEED, calls), asset, History(NEW_FEED, calls, asset), now, keeper, price);
  }

  // ---- The average

  lemma {:induction false} PriceTimeBetween(h: seq<Posting>, low: int, high: int, limit: nat, minInterval: int)
    requires WithinLimits(h, limit, minInterval) && h != []
    requires forall i :: 0 <= i < |h| ==> low <= h[i].price <= high
    ensures var elapsed := h[|h| - 1].time - h[0].time;
            elapsed >= 0 && low * elapsed <= PriceTime(h) <= high * elapsed
  {
    if |h| > 1 {
      var e := h[..|h| - 1];
      PriceTimeBetween(e, low, high, limit, minInterval);
      var last, held := h[|h| - 2], h[|h| - 1].time - h[|h| - 2].time;
      assert Follows(last, h[|h| - 1], limit, minInterval);
      assert PriceTime(h) == PriceTime(e) + last.price * held;
      HoldingBetween(PriceTime(e), last.time - h[0].time, last.price, held, low, high);
    } else {
      assert low * 0 == 0 && high * 0 == 0;
    }
  }

  lemma HoldingBetween(sum: int, before: int, price: int, held: int, low: int, high: int)
    requires held >= 0 && low <= price <= high && low * before <= sum <= high * before
    ensures low * (before + held) <= sum + price * held <= high * (before + held)
  {
  }

  // The average that a tracked history gives.
  function Average(h: seq<Posting>): int
    requires h != []
  {
    var elapsed := h[|h| - 1].time - h[0].time;
    if elapsed == 0 then h[|h| - 1].price else TruncDiv(PriceTime(h), elapsed)
  }

  lemma HistoryAverage(h: seq<Posting>, low: int, high: int, limit: nat, minInterval: int)
    requires WithinLimits(h, limit, minInterval) && h != []
    requires forall i :: 0 <= i < |h| ==> low <= h[i].price <= high
    ensures low <= Average(h) <= high
  {
    PriceTimeBetween(h, low, high, limit, minInterval);
    PostingsPositive(h, limit, minInterval);
    PriceTimeBetween(h, 0, high, limit, minInterval);
    var elapsed := h[|h| - 1].time - h[0].time;
    if elapsed > 0 {
      AverageBetween(PriceTime(h), elapsed, low, high);
    }
  }

  lemma TrackedTwap(f: Feed, asset: Address, h: seq<Posting>, low: int, high: int)
    requires Tracks(f, asset, h) && h != []
    requires forall i :: 0 <= i < |h| ==> low <= h[i].price <= high
    ensures low <= Twap(f, asset) <= high
  {
    HistoryAverage(h, low, high, Limit(f), f.minInterval);
  }

  // The average of a history: every price weighted by the time it was held, over the time
  // from the first posting to the last, rounded down. Without such a time it is the last
  // price, and nothing for an asset never posted.
  ghost predicate Averages(twap: int, h: seq<Posting>) {
    if h == [] then twap == 0
    else if h[0].time < h[|h| - 1].time then IsFloor(twap, PriceTime(h), h[|h| - 1].time - h[0].time)
    else twap == h[|h| - 1].price
  }

  lemma FloorOfAverage(x: int, n: int)
    requires x >= 0 && n > 0
    ensures IsFloor(TruncDiv(x, n), x, n)
  {
    DivFloor(x, n);
  }

  lemma TrackedAverage(f: Feed, asset: Address, h: seq<Posting>)
    requires Tracks(f, asset, h)
    ensures Averages(Twap(f, asset), h)
  {
    PriceTimeNonNegative(h, Limit(f), f.minInterval);
    if h != [] && h[0].time < h[|h| - 1].time {
      FloorOfAverage(PriceTime(h), h[|h| - 1].time - h[0].time);
    }
  }

  // On every run the average is the exact one of the prices accepted.
  lemma TwapExact(calls: seq<Call>, asset: Address)
    requires Clocked(calls)
    ensures Averages(Twap(Run(NEW_FEED, calls), asset), History(NEW_FEED, calls, asset))
  {
    RunTracks(calls, asset);
    TrackedAverage(Run(NEW_FEED, calls), asset, History(NEW_FEED, calls, asset));
  }

  // The average lies between any two bounds on the prices ever accepted for the asset,
  // so between the smallest and the largest of them.
  lemma TwapBetween(calls: seq<Call>, asset: Address, low: int, high: int)
    requires Clocked(calls)
    requires var h := History(NEW_FEED, calls, asset);
             && h != []
             && forall i :: 0 <= i < |h| ==> low <= h[i].price <= high
    ensures low <= Twap(Run(NEW_FEED, calls), asset) <= high
  {
    var f := Run(NEW_FEED, calls);
    RunTracks(calls, asset);
    TrackedTwap(f, asset, History(NEW_FEED, calls, asset), low, high);
  }

  lemma AverageBetween(x: int, n: int, low: int, high: int)
    requires x >= 0 && n > 0 && low * n <= x <= high * n
    ensures low <= TruncDiv(x, n) <= high
  {
    var q := x / n;
    DivFloor(x, n);
    assert (q + 1) * n == q * n + n;
    MulOrder(q, high, n);
    MulOrder(low, q + 1, n);
  }

  // ---- Drift

  lemma DriftStep(p: int, p': int, limit: nat)
    requires AbsDiff(p', p) * ONE <= p * limit
    ensures p' * ONE <= p * (ONE + limit)
    ensures p' * ONE >= p * (ONE - limit)
  {
  }

  // Compound bound over any window of accepted postings.
  lemma {:induction false} WindowDrift(h: seq<Posting>, i: nat, j: nat, limit: nat, minInterval: int)
    requires WithinLimits(h, limit, minInterval) && i <= j < |h|
    ensures h[j].price * Pow(ONE, j - i) <= h[i].price * Pow(ONE + limit, j - i)
    ensures limit <= ONE ==> h[j].price * Pow(ONE, j - i) >= h[i].price * Pow(ONE - limit, j - i)
    ensures (j - i) * minInterval <= h[j].time - h[i].time
    decreases |h|
  {
    var e := h[..|h| - 1];
    if j < |h| - 1 {
      WindowDrift(e, i, j, limit, minInterval);
    } else if i < j {
      WindowDrift(e, i, j - 1, limit, minInterval);
      assert Follows(h[j - 1], h[j], limit, minInterval);
      WindowStep(h[i], h[j - 1], h[j], j - 1 - i, limit, minInterval);
    }
  }

  lemma WindowStep(p0: Posting, p: Posting, p': Posting, n: nat, limit: nat, minInterval: int)
    requires Follows(p, p', limit, minInterval)
    requires p.price * Pow(ONE, n) <= p0.price * Pow(ONE + limit, n)
    requires limit <= ONE ==> p.price * Pow(ONE, n) >= p0.price * Pow(ONE - limit, n)
    requires n * minInterval <= p.time - p0.time
    ensures p'.price * Pow(ONE, n + 1) <= p0.price * Pow(ONE + limit, n + 1)
    ensures limit <= ONE ==> p'.price * Pow(ONE, n + 1) >= p0.price * Pow(ONE - limit, n + 1)
    ensures (n + 1) * minInterval <= p'.time - p0.time
  {
    DriftStep(p.price, p'.price, limit);
    PowPositive(ONE, n);
    PowPositive(ONE + limit, n);
    ChainAtMost(p0.price, p.price, p'.price, Pow(ONE, n), ONE, Pow(ONE + limit, n), ONE + limit);
    if limit <= ONE {
      PowMonotone(0, ONE - limit, n);
      PowMonotone(ONE - limit, ONE - limit, n);
      ChainAtLeast(p0.price, p.price, p'.price, Pow(ONE, n), ONE, Pow(ONE - limit, n), ONE - limit);
    }
  }

  // After n accepted updates a price has moved by at most the n-fold compound threshold,
  // and n updates take at least n minimum intervals. This holds between any two accepted
  // postings of any run, for every threshold (a negative one counts as zero).
  lemma RunDrift(calls: seq<Call>, asset: Address, i: nat, j: nat)
    requires Clocked(calls) && i <= j < |History(NEW_FEED, calls, asset)|
    ensures var f := Run(NEW_FEED, calls);
            var h := History(NEW_FEED, calls, asset);
            && h[j].price * Pow(ONE, j - i) <= h[i].price * Pow(ONE + Limit(f), j - i)
            && (Limit(f) <= ONE ==> h[j].price * Pow(ONE, j - i) >= h[i].price * Pow(ONE - Limit(f), j - i))
            && (j - i) * f.minInterval <= h[j].time - h[i].time
  {
    RunWithinLimits(calls, asset);
    var f := Run(NEW_FEED, calls);
    WindowDrift(History(NEW_FEED, calls, asset), i, j, Limit(f), f.minInterval);
  }

  // A bound for n updates is one for any larger number.
  lemma {:induction false} PadPowers(p: int, p0: int, limit: nat, n: nat, k: nat)
    requires n <= k && p >= 0
    requires p * Pow(ONE, n) <= p0 * Pow(ONE + limit, n)
    ensures p * Pow(ONE, k) <= p0 * Pow(ONE + limit, k)
    decreases k
  {
    if n < k {
      PadPowers(p, p0, limit, n, k - 1);
      PowPositive(ONE, k - 1);
      MulKeepsOrder(0, p, limit);
      ChainAtMost(p0, p, p, Pow(ONE, k - 1), ONE, Pow(ONE + limit, k - 1), ONE + limit);
    }
  }

  lemma {:induction false} PadPowersDown(p: int, p0: int, limit: nat, n: nat, k: nat)
    requires n <= k && p >= 0 && limit <= ONE
    requires p * Pow(ONE, n) >= p0 * Pow(ONE - limit, n)
    ensures p * Pow(ONE, k) >= p0 * Pow(ONE - limit, k)
    decreases k
  {
    if n < k {
      PadPowersDown(p, p0, limit, n, k - 1);
      PowPositive(ONE, k - 1);
      MulKeepsOrder(0, p, limit);
      ChainAtLeast(p0, p, p, Pow(ONE, k - 1), ONE, Pow(ONE - limit, k - 1), ONE - limit);
    }
  }

  lemma CountWithin(n: nat, interval: int, time: int)
    requires interval > 0 && n * interval <= time
    ensures n <= time / interval
  {
    MulNonNegative(n, interval);
    DivFloor(time, interval);
    var k := time / interval;
    assert (k + 1) * interval == k * interval + interval;
    MulOrder(n, k + 1, interval);
  }

  lemma WindowDriftOverTime(h: seq<Posting>, i: nat, j: nat, limit: nat, minInterval: int)
    requires WithinLimits(h, limit, minInterval) && i <= j < |h| && minInterval > 0
    ensures var k := (h[j].time - h[i].time) / minInterval;
            && k >= 0
            && h[j].price * Pow(ONE, k) <= h[i].price * Pow(ONE + limit, k)
            && (limit <= ONE ==> h[j].price * Pow(ONE, k) >= h[i].price * Pow(ONE - limit, k))
  {
    WindowDrift(h, i, j, limit, minInterval);
    PostingsPositive(h, limit, minInterval);
    var k := (h[j].time - h[i].time) / minInterval;
    CountWithin(j - i, minInterval, h[j].time - h[i].time);
    PadPowers(h[j].price, h[i].price, limit, j - i, k);
    if limit <= ONE {
      PadPowersDown(h[j].price, h[i].price, limit, j - i, k);
    }
  }

  // With a positive minimum interval the movement over any window is bounded by the
  // window's length alone, however many updates it held.
  lemma DriftOverTime(calls: seq<Call>, asset: Address, i: nat, j: nat)
    requires Clocked(calls) && i <= j < |History(NEW_FEED, calls, asset)|
    requires Run(NEW_FEED, calls).minInterval > 0
    ensures var f := Run(NEW_FEED, calls);
            var h := History(NEW_FEED, calls, asset);
            var k := (h[j].time - h[i].time) / f.minInterval;
            && k >= 0
            && h[j].price * Pow(ONE, k) <= h[i].price * Pow(ONE + Limit(f), k)
            && (Limit(f) <= ONE ==> h[j].price * Pow(ONE, k) >= h[i].price * Pow(ONE - Limit(f), k))
  {
    var f := Run(NEW_FEED, calls);
    RunWithinLimits(calls, asset);
    WindowDriftOverTime(History(NEW_FEED, calls, asset), i, j, Limit(f), f.minInterval);
  }
}
