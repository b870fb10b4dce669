/** The buyback reserve, its purchases and their history as a machine over
    storage. The oracle's price is an argument of the calls that read it. */
module BuybackMachine {
  import opened Panics
  import opened Host
  import opened Integers

  const PRICE_SCALE := 1_000_000

  datatype Config = Config(enabled: bool, priceThreshold: i128, maxBuyback: i128, minReserve: i128, interval: u32)

  datatype Purchase = Purchase(
    timestamp: u64, ledger: u32, price: i128, bought: i128, spent: i128, trigger: Symbol)

  datatype Analytics = Analytics(
    count: u32, totalBought: i128, totalSpent: i128, averagePrice: i128, lastTimestamp: u64)

  function BstFromXlm(xlm: i128, price: i128): Option<i128>
  {
    if price == 0 then Some(0) else MulDiv(xlm, PRICE_SCALE, price)
  }

  function Spent(history: seq<Purchase>): (amounts: seq<int>)
  {
    seq(|history|, i requires 0 <= i < |history| => history[i].spent)
  }

  function Bought(history: seq<Purchase>): (amounts: seq<int>)
  {
    seq(|history|, i requires 0 <= i < |history| => history[i].bought)
  }

  datatype Buyback = Buyback(
    config: Config,
    history: seq<Purchase>,
    lastLedger: u32,
    totalBought: i128,
    reserve: i128)
  {
    /** Only the given settings change. */
    function UpdateConfig(enabled: Option<bool>, threshold: Option<i128>, max: Option<i128>,
                          floor: Option<i128>, interval: Option<u32>): Option<(Buyback, ())>
    {
      Some((this.(config := Config(
        if enabled.Some? then enabled.value else config.enabled,
        if threshold.Some? then threshold.value else config.priceThreshold,
        if max.Some? then max.value else config.maxBuyback,
        if floor.Some? then floor.value else config.minReserve,
        if interval.Some? then interval.value else config.interval)), ()))
    }

    function Execute(xlm: i128, price: i128, trigger: Symbol, ledger: u32, timestamp: u64): Option<(Buyback, ())>
    {
      var estimate :- BstFromXlm(xlm, price);
      var bst := Min(estimate, config.maxBuyback);
      var newReserve :- Checked(reserve - xlm);
      var newTotal :- Checked(totalBought + bst);
      var _ :- CheckedU32(|history| + 1);
      Some((this.(reserve := newReserve, totalBought := newTotal, lastLedger := ledger,
                  history := history + [Purchase(timestamp, ledger, price, bst, xlm, trigger)]), ()))
    }

    /** Returns without buying unless every condition is met. */
    function CheckAndExecute(price: i128, ledger: u32, timestamp: u64): Option<(Buyback, ())>
    {
      if !config.enabled then Some((this, ())) else
        var elapsed :- CheckedU32(ledger - lastLedger);
        if elapsed < config.interval || price <= config.priceThreshold || reserve <= config.minReserve
        then Some((this, ())) else
          var available :- Checked(reserve - config.minReserve);
          var xlm := Min(available, config.maxBuyback);
          if xlm <= 0 then Some((this, ())) else Execute(xlm, price, "price_thr", ledger, timestamp)
    }

    function Manual(xlm: i128, price: i128, ledger: u32, timestamp: u64): Option<(Buyback, ())>
    {
      var _ :- Require(config.enabled);
      var needed :- Checked(xlm + config.minReserve);
      var _ :- Require(reserve >= needed);
      Execute(xlm, price, "manual", ledger, timestamp)
    }

    function AddToReserve(amount: i128): Option<(Buyback, ())>
    {
      var _ :- Require(amount > 0);
      var newReserve :- Checked(reserve + amount);
      Some((this.(reserve := newReserve), ()))
    }
  }

  const INITIAL := Buyback(Config(false, 1000, 100_000_000_000_000, 10_000_000_000, 1000), [], 0, 0, 0)

  datatype Call =
    | Configure(enabled: Option<bool>, threshold: Option<i128>, max: Option<i128>, floor: Option<i128>, interval: Option<u32>)
    | Check(price: i128, ledger: u32, timestamp: u64)
    | Buy(xlm: i128, price: i128, ledger: u32, timestamp: u64)
    | Deposit(amount: i128)

  function Result(b: Buyback, call: Call): Option<(Buyback, ())>
  {
    match call
    case Configure(enabled, threshold, max, floor, interval) => b.UpdateConfig(enabled, threshold, max, floor, interval)
    case Check(price, ledger, timestamp) => b.CheckAndExecute(price, ledger, timestamp)
    case Buy(xlm, price, ledger, timestamp) => b.Manual(xlm, price, ledger, timestamp)
    case Deposit(amount) => b.AddToReserve(amount)
  }

  function Step(b: Buyback, call: Call): Buyback
  {
    var result := Result(b, call);
    if result.Some? then result.value.0 else b
  }

  function Run(b: Buyback, calls: seq<Call>): Buyback
    decreases |calls|
  {
    if calls == [] then b else Run(Step(b, calls[0]), calls[1..])
  }
}

/** The accounting of every run. */
module BuybackSafety {
  import opened Panics
  import opened Host
  import opened Integers
  import opened Sums
  import opened BuybackMachine

  // ---- one purchase ---------------------------------------------------------

  /** Buying for more never yields less exactly at the prices that are not
      negative: there the order is kept, and at a negative price it turns. */
  lemma BstMonotone(x: i128, y: i128, price: i128)
    requires x <= y && BstFromXlm(x, price).Some? && BstFromXlm(y, price).Some?
    ensures price >= 0 ==> BstFromXlm(x, price).value <= BstFromXlm(y, price).value
    ensures price < 0 ==> BstFromXlm(x, price).value >= BstFromXlm(y, price).value
  {
    if price > 0 {
      TruncMonotone(x * PRICE_SCALE, y * PRICE_SCALE, price);
    } else if price < 0 {
      TruncMonotone(x * PRICE_SCALE, y * PRICE_SCALE, 0 - price);
      NegatedDivisor(x * PRICE_SCALE, 0 - price);
      NegatedDivisor(y * PRICE_SCALE, 0 - price);
    }
  }

  lemma TruncMonotone(a: int, b: int, d: int)
    requires a <= b && d > 0
    ensures TruncDiv(a, d) <= TruncDiv(b, d)
  {
    if a >= 0 {
      FloorMonotone(a, b, d);
    } else if b < 0 {
      FloorMonotone(0 - b, 0 - a, d);
    } else {
      QuotientBounds(0 - a, d);
      QuotientBounds(b, d);
    }
  }

  lemma FloorMonotone(a: int, b: int, d: int)
    requires 0 <= a <= b && d > 0
    ensures a / d <= b / d
  {
    QuotientBounds(a, d);
    QuotientBounds(b, d);
    CompareScaled(a / d, b / d + 1, d);
  }

  lemma NegatedDivisor(a: int, d: int)
    requires d > 0
    ensures TruncDiv(a, 0 - d) == 0 - TruncDiv(a, d)
  {
  }

  /** A purchase never costs less than its price: the BST bought at a positive
      price is worth no more than what was spent. */
  predicate FairPurchase(r: Purchase)
  {
    r.spent >= 0 && r.price > 0 ==> r.bought * r.price <= r.spent * PRICE_SCALE
  }

  /** A purchase at a price other than zero went through a product of its
      spend and the price scale, which so fits an i128. */
  predicate Priced(r: Purchase)
  {
    r.price != 0 ==> I128_MIN <= r.spent * PRICE_SCALE <= I128_MAX
  }

  lemma ExecuteIsFair(b: Buyback, xlm: i128, price: i128, trigger: Symbol, ledger: u32, ts: u64)
    requires b.Execute(xlm, price, trigger, ledger, ts).Some?
    ensures var next := b.Execute(xlm, price, trigger, ledger, ts).value.0;
      && |next.history| == |b.history| + 1 && next.history[..|b.history|] == b.history
      && var r := next.history[|b.history|];
      && r.spent == xlm && r.price == price && FairPurchase(r) && Priced(r)
      && next.reserve == b.reserve - r.spent && next.totalBought == b.totalBought + r.bought
  {
    if xlm >= 0 && price > 0 {
      var estimate := BstFromXlm(xlm, price).value;
      var bought := Min(estimate, b.config.maxBuyback);
      QuotientBounds(xlm * PRICE_SCALE, price);
      CompareScaled(bought, estimate, price);
    }
  }

  /** A purchase was made: the history grew. */
  predicate Purchased(b: Buyback, call: Call)
  {
    |Step(b, call).history| > |b.history|
  }

  /** Whichever way it was triggered, a purchase leaves the reserve at or above
      the configured floor, and an automatic one comes no sooner than the
      interval after the last purchase. So the reserve stays non-negative
      under a non-negative floor. */
  lemma PurchaseRespectsFloor(b: Buyback, call: Call)
    requires Purchased(b, call)
    ensures b.config.enabled && Step(b, call).reserve >= b.config.minReserve
    ensures call.Check? ==>
      && call.ledger >= b.lastLedger + b.config.interval && call.price > b.config.priceThreshold
      && Step(b, call).history[|b.history|].spent > 0
  {
  }

  /** A purchase leaves the reserve non-negative exactly when a manual one asks
      for no more than the reserve, or an automatic one has a non-negative
      floor or a cap within the reserve. */
  lemma PurchaseExact(b: Buyback, call: Call)
    requires Purchased(b, call)
    ensures Step(b, call).reserve >= 0 <==>
      if call.Buy? then call.xlm <= b.reserve
      else b.config.minReserve >= 0 || b.config.maxBuyback <= b.reserve
  {
  }

  /** Under a negative floor an automatic purchase overdraws the reserve. */
  lemma NegativeFloorRun()
    ensures Run(INITIAL, [Configure(Some(true), Some(0), None, Some(-100), None), Check(2000, 1000, 0)]).reserve == -100
  {
    var configure, check := Configure(Some(true), Some(0), None, Some(-100), None), Check(2000, 1000, 0);
    RunStep(INITIAL, configure, [check]);
    RunStep(Step(INITIAL, configure), check, []);
  }

  lemma RunStep(b: Buyback, call: Call, calls: seq<Call>)
    ensures Run(b, [call] + calls) == Run(Step(b, call), calls)
  {
    assert ([call] + calls)[1..] == calls;
  }

  // ---- runs -----------------------------------------------------------------

  /** What the accepted deposits of a run put in. */
  function Deposits(b: Buyback, calls: seq<Call>): int
    decreases |calls|
  {
    if calls == [] then 0 else
      var c := calls[0];
      (if c.Deposit? && Result(b, c).Some? then c.amount else 0) + Deposits(Step(b, c), calls[1..])
  }

  ghost predicate Accounted(b: Buyback)
  {
    && b.totalBought == SeqSum(Bought(b.history))
    && forall i :: 0 <= i < |b.history| ==> FairPurchase(b.history[i]) && Priced(b.history[i])
  }

  lemma StepAccounts(b: Buyback, call: Call)
    requires Accounted(b)
    ensures Accounted(Step(b, call))
    ensures Step(b, call).reserve + SeqSum(Spent(Step(b, call).history))
         == b.reserve + SeqSum(Spent(b.history)) + Deposits(b, [call])
  {
    match call
    case Configure(_, _, _, _, _) =>
    case Check(price, ledger, ts) =>
      if Purchased(b, call) {
        CheckPurchase(b, price, ledger, ts);
        ExecuteAccounts(b, Min(b.reserve - b.config.minReserve, b.config.maxBuyback), price, "price_thr", ledger, ts);
      }
    case Buy(xlm, price, ledger, ts) =>
      if Purchased(b, call) { ExecuteAccounts(b, xlm, price, "manual", ledger, ts); }
    case Deposit(_) =>
  }

  lemma CheckPurchase(b: Buyback, price: i128, ledger: u32, ts: u64)
    requires Purchased(b, Check(price, ledger, ts))
    ensures var xlm := Min(b.reserve - b.config.minReserve, b.config.maxBuyback);
      && I128_MIN <= xlm <= I128_MAX
      && b.CheckAndExecute(price, ledger, ts) == b.Execute(xlm, price, "price_thr", ledger, ts)
  {
  }

  lemma ExecuteAccounts(b: Buyback, xlm: i128, price: i128, trigger: Symbol, ledger: u32, ts: u64)
    requires Accounted(b) && b.Execute(xlm, price, trigger, ledger, ts).Some?
    ensures var next := b.Execute(xlm, price, trigger, ledger, ts).value.0;
      && Accounted(next)
      && next.reserve + SeqSum(Spent(next.history)) == b.reserve + SeqSum(Spent(b.history))
  {
    var next := b.Execute(xlm, price, trigger, ledger, ts).value.0;
    ExecuteIsFair(b, xlm, price, trigger, ledger, ts);
    var r := next.history[|b.history|];
    assert next.history == b.history + [r];
    assert Spent(next.history) == Spent(b.history) + [r.spent];
    assert Bought(next.history) == Bought(b.history) + [r.bought];
    SeqSumAppend(Spent(b.history), r.spent);
    SeqSumAppend(Bought(b.history), r.bought);
  }

  /** Over every run, with no condition on the calls: what was deposited is in
      the reserve or recorded as spent, and the running BST total is the sum
      of the recorded purchases. */
  lemma {:induction false} TreasuryConserved(b: Buyback, calls: seq<Call>)
    requires Accounted(b)
    ensures Accounted(Run(b, calls))
    ensures Run(b, calls).reserve + SeqSum(Spent(Run(b, calls).history))
         == b.reserve + SeqSum(Spent(b.history)) + Deposits(b, calls)
    decreases |calls|
  {
    if calls != [] {
      StepAccounts(b, calls[0]);
      TreasuryConserved(Step(b, calls[0]), calls[1..]);
    }
  }

  lemma InitialTreasury(calls: seq<Call>)
    ensures Accounted(Run(INITIAL, calls))
    ensures Run(INITIAL, calls).reserve + SeqSum(Spent(Run(INITIAL, calls).history)) == Deposits(INITIAL, calls)
  {
    TreasuryConserved(INITIAL, calls);
  }

  ghost predicate FloorsNonNegative(calls: seq<Call>)
  {
    forall i :: 0 <= i < |calls| && calls[i].Configure? && calls[i].floor.Some? ==> calls[i].floor.value >= 0
  }

  /** Under non-negative floors the reserve is never negative. */
  lemma {:induction false} ReserveNeverNegative(b: Buyback, calls: seq<Call>)
    requires b.reserve >= 0 && b.config.minReserve >= 0 && FloorsNonNegative(calls)
    ensures Run(b, calls).reserve >= 0
    decreases |calls|
  {
    if calls != [] {
      if Purchased(b, calls[0]) { PurchaseRespectsFloor(b, calls[0]); }
      StepOutsidePurchase(b, calls[0]);
      ReserveNeverNegative(Step(b, calls[0]), calls[1..]);
    }
  }

  lemma StepOutsidePurchase(b: Buyback, call: Call)
    ensures !Purchased(b, call) ==> Step(b, call).reserve >= b.reserve
    ensures Step(b, call).config.minReserve == b.config.minReserve
         || (call.Configure? && call.floor.Some? && Step(b, call).config.minReserve == call.floor.value)
  {
  }

  // ---- analytics ------------------------------------------------------------

  /** The scan's total: an addition that would overflow is skipped. */
  function ReportedSpent(history: seq<Purchase>): i128
  {
    if history == [] then 0 else
      var n := |history| - 1;
      var before := ReportedSpent(history[..n]);
      var sum := Checked(before + history[n].spent);
      if sum.Some? then sum.value else before
  }

  function LastTimestamp(history: seq<Purchase>): u64
  {
    if history == [] then 0 else
      var n := |history| - 1;
      Max(LastTimestamp(history[..n]), history[n].timestamp)
  }

  function Report(b: Buyback): Option<Analytics>
  {
    if b.history == [] then Some(Analytics(0, 0, 0, 0, 0)) else
      var count :- CheckedU32(|b.history|);
      var spent := ReportedSpent(b.history);
      var average :- if b.totalBought > 0 then MulDiv(spent, PRICE_SCALE, b.totalBought) else Some(0);
      Some(Analytics(count, b.totalBought, spent, average, LastTimestamp(b.history)))
  }

  /** For any spends, negative ones included, the running total is the sum all
      along exactly when every prefix sum is in range; when no spend is
      negative, it is the sum at the end exactly when that is in range. */
  lemma ReportedSpentExact(history: seq<Purchase>)
    ensures (forall k :: 0 <= k <= |history| ==> ReportedSpent(history[..k]) == SeqSum(Spent(history[..k]))) <==>
      (forall k :: 0 <= k <= |history| ==> SumInRange(history[..k]))
    ensures (forall i :: 0 <= i < |history| ==> history[i].spent >= 0) ==>
      (ReportedSpent(history) == SeqSum(Spent(history)) <==> SeqSum(Spent(history)) <= I128_MAX)
  {
    if forall k :: 0 <= k <= |history| ==> SumInRange(history[..k]) {
      forall k | 0 <= k <= |history|
        ensures ReportedSpent(history[..k]) == SeqSum(Spent(history[..k]))
      {
        assert forall j :: 0 <= j <= k ==> history[..k][..j] == history[..j];
        AdditionsInRange(history[..k]);
      }
    } else {
      var k :| 0 <= k <= |history| && !SumInRange(history[..k]);
      assert ReportedSpent(history[..k]) != SeqSum(Spent(history[..k]));
    }
    if forall i :: 0 <= i < |history| ==> history[i].spent >= 0 {
      NonNegativeSpends(history);
    }
  }

  ghost predicate SumInRange(history: seq<Purchase>)
  {
    I128_MIN <= SeqSum(Spent(history)) <= I128_MAX
  }

  lemma {:induction false} AdditionsInRange(history: seq<Purchase>)
    requires forall k :: 0 <= k <= |history| ==> SumInRange(history[..k])
    ensures ReportedSpent(history) == SeqSum(Spent(history))
  {
    if history != [] {
      var n := |history| - 1;
      var front := history[..n];
      assert forall k :: 0 <= k <= n ==> front[..k] == history[..k];
      AdditionsInRange(front);
      assert Spent(history)[..n] == Spent(front);
      assert history[..n + 1] == history;
      assert SumInRange(history);
    }
  }

  lemma {:induction false} NonNegativeSpends(history: seq<Purchase>)
    requires forall i :: 0 <= i < |history| ==> history[i].spent >= 0
    ensures 0 <= ReportedSpent(history) <= SeqSum(Spent(history))
    ensures ReportedSpent(history) == SeqSum(Spent(history)) <==> SeqSum(Spent(history)) <= I128_MAX
  {
    if history != [] {
      var n := |history| - 1;
      var front := history[..n];
      NonNegativeSpends(front);
      assert Spent(history)[..n] == Spent(front);
    }
  }

  /** What was bought at prices of at least some minimum is worth no more, at
      that minimum, than what was spent. */
  lemma {:induction false} BoughtAtLeastAt(history: seq<Purchase>, minimum: int)
    requires minimum > 0
    requires forall i :: 0 <= i < |history| ==>
      FairPurchase(history[i]) && history[i].spent >= 0 && history[i].price >= minimum
    ensures SeqSum(Bought(history)) * minimum <= SeqSum(Spent(history)) * PRICE_SCALE
  {
    if history != [] {
      var n := |history| - 1;
      var front, r := history[..n], history[n];
      BoughtAtLeastAt(front, minimum);
      assert Bought(history)[..n] == Bought(front) && Spent(history)[..n] == Spent(front);
      if r.bought >= 0 {
        ProductMonotone(r.bought, r.bought, minimum, r.price);
      } else {
        CompareScaled(r.bought, 0, minimum);
      }
      assert (SeqSum(Bought(front)) + r.bought) * minimum == SeqSum(Bought(front)) * minimum + r.bought * minimum;
    }
  }

  /** Two purchases that spend all there is to spend, at a price of zero. */
  function SpendTwice(): seq<Call>
  {
    var fill, spend := Deposit(I128_MAX), Buy(I128_MAX, 0, 0, 0);
    [Configure(Some(true), None, None, Some(0), None)] + ([fill] + ([spend] + ([fill] + ([spend] + []))))
  }

  lemma OverflowingSpendRun()
    ensures var history := Run(INITIAL, SpendTwice()).history;
      SeqSum(Spent(history)) == 2 * I128_MAX && ReportedSpent(history) == I128_MAX
  {
    SpentTwice(INITIAL);
    SecondSpendSkipped(Purchase(0, 0, 0, 0, I128_MAX, "manual"));
  }

  lemma SpentTwice(b: Buyback)
    requires b == INITIAL
    ensures var bought := Purchase(0, 0, 0, 0, I128_MAX, "manual");
      Run(b, SpendTwice()).history == [bought] + [bought]
  {
    var configure := Configure(Some(true), None, None, Some(0), None);
    var fill, spend := Deposit(I128_MAX), Buy(I128_MAX, 0, 0, 0);
    var ready := Step(b, configure);
    RunStep(b, configure, [fill] + ([spend] + ([fill] + ([spend] + []))));
    SpendAll(ready, [fill] + ([spend] + []));
    SpendAll(ready.(history := ready.history + [Purchase(0, 0, 0, 0, I128_MAX, "manual")]), []);
  }

  lemma SecondSpendSkipped(r: Purchase)
    requires r.spent == I128_MAX
    ensures SeqSum(Spent([r] + [r])) == 2 * I128_MAX && ReportedSpent([r] + [r]) == I128_MAX
  {
    assert [] + [r] == [r];
    OneMoreSpend([], r);
    OneMoreSpend([r], r);
  }

  lemma OneMoreSpend(history: seq<Purchase>, r: Purchase)
    ensures SeqSum(Spent(history + [r])) == SeqSum(Spent(history)) + r.spent
    ensures var sum := Checked(ReportedSpent(history) + r.spent);
      ReportedSpent(history + [r]) == if sum.Some? then sum.value else ReportedSpent(history)
  {
    assert (history + [r])[..|history|] == history;
    assert Spent(history + [r]) == Spent(history) + [r.spent];
    SeqSumAppend(Spent(history), r.spent);
  }

  lemma SpendAll(b: Buyback, calls: seq<Call>)
    requires b.config.enabled && b.config.minReserve == 0 && b.config.maxBuyback >= 0
    requires b.reserve == 0 && b.totalBought == 0 && b.lastLedger == 0 && |b.history| < 2
    ensures Run(b, [Deposit(I128_MAX)] + ([Buy(I128_MAX, 0, 0, 0)] + calls))
         == Run(b.(history := b.history + [Purchase(0, 0, 0, 0, I128_MAX, "manual")]), calls)
  {
    RunStep(b, Deposit(I128_MAX), [Buy(I128_MAX, 0, 0, 0)] + calls);
    RunStep(Step(b, Deposit(I128_MAX)), Buy(I128_MAX, 0, 0, 0), calls);
  }

  /** When the reported total can be scaled to a price, and so can each spend,
      no addition was skipped: the report is the sum. */
  lemma {:induction false} NoSpendSkipped(history: seq<Purchase>)
    requires forall i :: 0 <= i < |history| ==>
      0 <= history[i].spent && history[i].spent * PRICE_SCALE <= I128_MAX
    requires ReportedSpent(history) * PRICE_SCALE <= I128_MAX
    ensures ReportedSpent(history) == SeqSum(Spent(history))
  {
    NonNegativeSpends(history);
    if history != [] {
      var n := |history| - 1;
      var front := history[..n];
      NonNegativeSpends(front);
      NoSpendSkipped(front);
      assert Spent(history)[..n] == Spent(front);
    }
  }

  /** When any BST was bought, at positive prices and for non-negative spends,
      and the analytics can be read, the reported spend is the sum of the
      recorded ones, and the reported average price is at least every lower
      bound of the recorded prices, so at least the smallest of them. */
  lemma AverageNotBelowSmallestPrice(b: Buyback, minimum: int)
    requires Accounted(b) && b.totalBought > 0 && Report(b).Some? && minimum > 0
    requires forall i :: 0 <= i < |b.history| ==> b.history[i].spent >= 0 && b.history[i].price >= minimum
    ensures Report(b).value.averagePrice >= minimum
    ensures Report(b).value.totalSpent == SeqSum(Spent(b.history))
  {
    NoSpendSkipped(b.history);
    BoughtAtLeastAt(b.history, minimum);
    AtMostQuotient(minimum, SeqSum(Spent(b.history)) * PRICE_SCALE, b.totalBought);
  }

  lemma AtMostQuotient(x: int, n: int, d: int)
    requires d > 0 && d * x <= n
    ensures x <= n / d
  {
    QuotientBounds(n, d);
    assert x * d == d * x;
    CompareScaled(x, n / d + 1, d);
  }

  lemma AverageOverRuns(calls: seq<Call>, minimum: int)
    requires var b := Run(INITIAL, calls);
      && b.totalBought > 0 && Report(b).Some? && minimum > 0
      && forall i :: 0 <= i < |b.history| ==> b.history[i].spent >= 0 && b.history[i].price >= minimum
    ensures Report(Run(INITIAL, calls)).value.averagePrice >= minimum
    ensures Report(Run(INITIAL, calls)).value.totalSpent == SeqSum(Spent(Run(INITIAL, calls).history))
  {
    InitialTreasury(calls);
    AverageNotBelowSmallestPrice(Run(INITIAL, calls), minimum);
  }

  // ---- what is bought, and when ---------------------------------------------

  /** The BST of a purchase for a non-negative spend: the cap, or the floor of
      the spend in millionths over the price where that is less. A price of
      zero buys nothing. */
  predicate PricedAt(bought: int, spent: int, price: int, cap: int)
  {
    && bought <= cap
    && if price > 0 then
         && (bought < cap ==> bought * price <= spent * 1_000_000 < (bought + 1) * price)
         && (bought == cap ==> cap * price <= spent * 1_000_000)
       else price == 0 ==> bought == if cap < 0 then cap else 0
  }

  /** There is just one amount that is so priced. */
  lemma OnePricedAmount(x: int, y: int, spent: int, price: int, cap: int)
    requires price >= 0 && PricedAt(x, spent, price, cap) && PricedAt(y, spent, price, cap)
    ensures x == y
  {
    if price > 0 {
      CompareScaled(x + 1, y, price);
      CompareScaled(y + 1, x, price);
    }
  }

  /** Every purchase, in figures: what it spends, what it buys for that, and
      all that it changes. */
  lemma PurchaseFigures(b: Buyback, call: Call)
    requires Purchased(b, call)
    ensures call.Check? || call.Buy?
    ensures |Step(b, call).history| == |b.history| + 1
    ensures var next := Step(b, call);
      var r := next.history[|b.history|];
      && next.history == b.history + [r]
      && r.spent == (if call.Buy? then call.xlm
                     else if b.reserve - b.config.minReserve <= b.config.maxBuyback then b.reserve - b.config.minReserve
                     else b.config.maxBuyback)
      && r.price == call.price && r.ledger == call.ledger && r.timestamp == call.timestamp
      && r.trigger == (if call.Check? then "price_thr" else "manual")
      && (r.spent >= 0 ==> PricedAt(r.bought, r.spent, r.price, b.config.maxBuyback))
      && r.bought == Min(WorthOf(r.spent, r.price), b.config.maxBuyback)
      && next.reserve == b.reserve - r.spent && next.totalBought == b.totalBought + r.bought
      && next.lastLedger == call.ledger && next.config == b.config
  {
    match call
    case Check(price, ledger, ts) =>
      CheckPurchase(b, price, ledger, ts);
      ExecuteFigures(b, Min(b.reserve - b.config.minReserve, b.config.maxBuyback), price, "price_thr", ledger, ts);
    case Buy(xlm, price, ledger, ts) =>
      ExecuteFigures(b, xlm, price, "manual", ledger, ts);
  }

  lemma ExecuteFigures(b: Buyback, xlm: i128, price: i128, trigger: Symbol, ledger: u32, ts: u64)
    requires b.Execute(xlm, price, trigger, ledger, ts).Some?
    ensures var next := b.Execute(xlm, price, trigger, ledger, ts).value.0;
      && |next.history| == |b.history| + 1
      && var r := next.history[|b.history|];
      && next.history == b.history + [r]
      && r == Purchase(ts, ledger, price, r.bought, xlm, trigger)
      && (xlm >= 0 ==> PricedAt(r.bought, xlm, price, b.config.maxBuyback))
      && r.bought == Min(WorthOf(xlm, price), b.config.maxBuyback)
      && next.reserve == b.reserve - xlm && next.totalBought == b.totalBought + r.bought
      && next.lastLedger == ledger && next.config == b.config
  {
    if xlm >= 0 && price > 0 {
      BstFloor(xlm, price);
      CompareScaled(b.config.maxBuyback, BstFromXlm(xlm, price).value, price);
    }
  }

  lemma BstFloor(xlm: i128, price: i128)
    requires xlm >= 0 && price > 0
    ensures BstFromXlm(xlm, price).Some? <==> xlm * 1_000_000 <= I128_MAX
    ensures BstFromXlm(xlm, price).Some? ==>
      var bst := BstFromXlm(xlm, price).value;
      bst >= 0 && bst * price <= xlm * 1_000_000 < (bst + 1) * price && bst == xlm * 1_000_000 / price
  {
    QuotientBounds(xlm * 1_000_000, price);
    QuotientWithin(xlm * 1_000_000, price);
  }

  lemma QuotientWithin(n: int, d: int)
    requires n >= 0 && d > 0
    ensures 0 <= n / d <= n
  {
    QuotientBounds(n, d);
    ProductMonotone(n / d, n / d, 1, d);
  }

  /** The BST of any amount at any price, before the cap: the quotient of its
      millionths, rounded toward zero. */
  function WorthOf(xlm: int, price: int): int
  {
    if price == 0 then 0 else TruncDiv(xlm * 1_000_000, price)
  }

  /** A purchase, of a negative amount or at a negative price too, goes through
      exactly when its figures are in range. */
  predicate Executable(b: Buyback, xlm: int, price: int)
  {
    var bst := WorthOf(xlm, price);
    && (price != 0 ==> I128_MIN <= xlm * 1_000_000 <= I128_MAX)
    && I128_MIN <= bst <= I128_MAX
    && I128_MIN <= b.reserve - xlm <= I128_MAX
    && I128_MIN <= b.totalBought + Min(bst, b.config.maxBuyback) <= I128_MAX
    && |b.history| < U32_MAX
  }

  lemma ExecuteExactly(b: Buyback, xlm: i128, price: i128, trigger: Symbol, ledger: u32, ts: u64)
    ensures b.Execute(xlm, price, trigger, ledger, ts).Some? <==> Executable(b, xlm, price)
  {
  }

  /** An automatic purchase is made exactly when buying is enabled, the
      interval is over, the price is above its threshold, the reserve above its
      floor, the cap positive, and the figures are in range. The call panics
      exactly when the figures are not, or the ledger is before that of the
      last purchase. */
  lemma CheckBuysExactly(b: Buyback, price: i128, ledger: u32, ts: u64)
    ensures Purchased(b, Check(price, ledger, ts)) <==> CheckDue(b, price, ledger) && b.config.maxBuyback > 0 && CheckFits(b, price)
    ensures b.CheckAndExecute(price, ledger, ts).None? <==>
      b.config.enabled &&
      (ledger < b.lastLedger ||
       (CheckDue(b, price, ledger)
        && (b.reserve - b.config.minReserve > I128_MAX || (b.config.maxBuyback > 0 && !CheckFits(b, price)))))
  {
    var xlm := Min(b.reserve - b.config.minReserve, b.config.maxBuyback);
    if CheckDue(b, price, ledger) && b.reserve - b.config.minReserve <= I128_MAX && xlm > 0 {
      DueCheck(b, price, ledger, ts);
      ExecuteExactly(b, xlm, price, "price_thr", ledger, ts);
      if b.Execute(xlm, price, "price_thr", ledger, ts).Some? {
        ExecuteFigures(b, xlm, price, "price_thr", ledger, ts);
      }
    } else {
      NoCheck(b, price, ledger, ts);
    }
  }

  lemma DueCheck(b: Buyback, price: i128, ledger: u32, ts: u64)
    requires CheckDue(b, price, ledger) && b.reserve - b.config.minReserve <= I128_MAX && b.config.maxBuyback > 0
    ensures b.CheckAndExecute(price, ledger, ts)
         == b.Execute(Min(b.reserve - b.config.minReserve, b.config.maxBuyback), price, "price_thr", ledger, ts)
  {
  }

  lemma NoCheck(b: Buyback, price: i128, ledger: u32, ts: u64)
    requires !CheckDue(b, price, ledger) || b.reserve - b.config.minReserve > I128_MAX || b.config.maxBuyback <= 0
    ensures b.CheckAndExecute(price, ledger, ts) ==
      if b.config.enabled &&
         (ledger < b.lastLedger || (CheckDue(b, price, ledger) && b.reserve - b.config.minReserve > I128_MAX))
      then None else Some((b, ()))
  {
  }

  predicate CheckDue(b: Buyback, price: i128, ledger: u32)
  {
    && b.config.enabled && ledger - b.lastLedger >= b.config.interval
    && price > b.config.priceThreshold && b.reserve > b.config.minReserve
  }

  predicate CheckFits(b: Buyback, price: i128)
  {
    var available := b.reserve - b.config.minReserve;
    available <= I128_MAX && Executable(b, Min(available, b.config.maxBuyback), price)
  }

  /** A manual one when buying is enabled and the reserve covers it on top of
      the floor; otherwise the call panics. */
  lemma ManualBuysExactly(b: Buyback, xlm: i128, price: i128, ledger: u32, ts: u64)
    ensures Purchased(b, Buy(xlm, price, ledger, ts)) <==> b.Manual(xlm, price, ledger, ts).Some?
    ensures Purchased(b, Buy(xlm, price, ledger, ts)) <==>
      && b.config.enabled && I128_MIN <= xlm + b.config.minReserve <= b.reserve
      && Executable(b, xlm, price)
  {
    ExecuteExactly(b, xlm, price, "manual", ledger, ts);
    if b.Execute(xlm, price, "manual", ledger, ts).Some? {
      ExecuteFigures(b, xlm, price, "manual", ledger, ts);
    }
  }

  /** Only purchases touch the history, the total and the last ledger; a
      deposit adds a positive amount, and each setting is what it was last
      given. */
  lemma OtherCallsExact(b: Buyback, call: Call)
    ensures !Purchased(b, call) ==>
      var next := Step(b, call);
      && next.history == b.history && next.totalBought == b.totalBought && next.lastLedger == b.lastLedger
      && next.reserve == b.reserve + (if call.Deposit? && Result(b, call).Some? then call.amount else 0)
    ensures call.Deposit? ==> (Result(b, call).Some? <==> call.amount > 0 && b.reserve + call.amount <= I128_MAX)
    ensures var was, given := b.config, Step(b, call).config;
      if call.Configure? then
        && given.enabled == (if call.enabled == None then was.enabled else call.enabled.value)
        && given.priceThreshold == (if call.threshold == None then was.priceThreshold else call.threshold.value)
        && given.maxBuyback == (if call.max == None then was.maxBuyback else call.max.value)
        && given.minReserve == (if call.floor == None then was.minReserve else call.floor.value)
        && given.interval == (if call.interval == None then was.interval else call.interval.value)
      else given == was
  {
  }

  /** The report: how many purchases, their BST, the scan's total, the average
      as the floor of that total in millionths over the BST, and the latest
      time of any. */
  lemma ReportExact(b: Buyback)
    requires Report(b).Some? && b.history != [] && ReportedSpent(b.history) >= 0
    ensures var a := Report(b).value;
      && a.count == |b.history| && a.totalBought == b.totalBought && a.totalSpent == ReportedSpent(b.history)
      && (if b.totalBought > 0
          then a.averagePrice * b.totalBought <= a.totalSpent * 1_000_000 < (a.averagePrice + 1) * b.totalBought
          else a.averagePrice == 0)
      && (forall i :: 0 <= i < |b.history| ==> b.history[i].timestamp <= a.lastTimestamp)
      && exists i :: 0 <= i < |b.history| && b.history[i].timestamp == a.lastTimestamp
  {
    LatestIsLargest(b.history);
  }

  lemma {:induction false} LatestIsLargest(history: seq<Purchase>)
    requires history != []
    ensures forall i :: 0 <= i < |history| ==> history[i].timestamp <= LastTimestamp(history)
    ensures exists i :: 0 <= i < |history| && history[i].timestamp == LastTimestamp(history)
  {
    var n := |history| - 1;
    var front := history[..n];
    if n > 0 {
      LatestIsLargest(front);
      var j :| 0 <= j < |front| && front[j].timestamp == LastTimestamp(front);
      assert history[j] == front[j];
    } else {
      assert LastTimestamp(front) == 0;
    }
    assert forall i :: 0 <= i < n ==> history[i] == front[i];
    assert LastTimestamp(history) == Max(LastTimestamp(front), history[n].timestamp);
  }

  /** Under the default settings, once enabled: the first purchase comes at
      ledger 1000 and a price above 1000, and spends what is above the floor of
      10^10 up to the cap of 10^14. */
  lemma DefaultsRun()
    ensures var enable := Configure(Some(true), None, None, None, None);
      var b, rich := Run(INITIAL, [enable] + ([Deposit(10_000_000_100)] + [])), Run(INITIAL, [enable] + ([Deposit(100_010_000_000_001)] + []));
      && !Purchased(Run(INITIAL, [Deposit(10_000_000_100)] + []), Check(1001, 1000, 0))
      && !Purchased(b, Check(1001, 999, 0)) && !Purchased(b, Check(1000, 1000, 0))
      && Step(b, Check(1001, 1000, 0)).reserve == 10_000_000_000 && Step(b, Check(1001, 1000, 0)).totalBought == 99_900
      && Step(rich, Check(1001, 1000, 0)).reserve == 10_000_000_001
  {
    var enable := Configure(Some(true), None, None, None, None);
    RunStep(INITIAL, Deposit(10_000_000_100), []);
    CheckBuysExactly(Step(INITIAL, Deposit(10_000_000_100)), 1001, 1000, 0);
    RunStep(INITIAL, enable, [Deposit(10_000_000_100)] + []);
    RunStep(INITIAL, enable, [Deposit(100_010_000_000_001)] + []);
    RunStep(Step(INITIAL, enable), Deposit(10_000_000_100), []);
    RunStep(Step(INITIAL, enable), Deposit(100_010_000_000_001), []);
    DefaultChecks(Step(Step(INITIAL, enable), Deposit(10_000_000_100)));
    DefaultCap(Step(Step(INITIAL, enable), Deposit(100_010_000_000_001)));
  }

  lemma DefaultChecks(b: Buyback)
    requires b.config == Config(true, 1000, 100_000_000_000_000, 10_000_000_000, 1000)
    requires b.history == [] && b.lastLedger == 0 && b.totalBought == 0 && b.reserve == 10_000_000_100
    ensures !Purchased(b, Check(1001, 999, 0)) && !Purchased(b, Check(1000, 1000, 0))
    ensures Step(b, Check(1001, 1000, 0)).reserve == 10_000_000_000 && Step(b, Check(1001, 1000, 0)).totalBought == 99_900
  {
  }

  lemma DefaultCap(b: Buyback)
    requires b.config == Config(true, 1000, 100_000_000_000_000, 10_000_000_000, 1000)
    requires b.history == [] && b.lastLedger == 0 && b.totalBought == 0 && b.reserve == 100_010_000_000_001
    ensures Step(b, Check(1001, 1000, 0)).reserve == 10_000_000_001
  {
    WideRange();
    CheckBuysExactly(b, 1001, 1000, 0);
  }
}

/** The contract itself. */
module BuybackContract {
  import opened Panics
  import opened Host
  import opened Integers
  import opened BuybackMachine
  import opened BuybackSafety

  class BuybackStore {
    var config: Config
    var history: seq<Purchase>
    var lastLedger: u32
    var totalBought: i128
    var reserve: i128

    ghost function View(): Buyback
      reads this
    {
      Buyback(config, history, lastLedger, totalBought, reserve)
    }

    constructor ()
      ensures View() == INITIAL
    {
      config := Config(false, 1000, 100_000_000_000_000, 10_000_000_000, 1000);
      history, lastLedger, totalBought, reserve := [], 0, 0, 0;
    }

    method UpdateConfig(enabled: Option<bool>, threshold: Option<i128>, max: Option<i128>,
                        floor: Option<i128>, interval: Option<u32>) returns (r: Option<()>)
      modifies this
      ensures Commits(old(View()).UpdateConfig(enabled, threshold, max, floor, interval), old(View()), View(), r)
    {
      if enabled.Some? { config := config.(enabled := enabled.value); }
      if threshold.Some? { config := config.(priceThreshold := threshold.value); }
      if max.Some? { config := config.(maxBuyback := max.value); }
      if floor.Some? { config := config.(minReserve := floor.value); }
      if interval.Some? { config := config.(interval := interval.value); }
      r := Some(());
    }

    method ExecuteBuyback(xlm: i128, price: i128, trigger: Symbol, ledger: u32, timestamp: u64)
      returns (r: Option<()>)
      modifies this
      ensures Commits(old(View()).Execute(xlm, price, trigger, ledger, timestamp), old(View()), View(), r)
    {
      var estimate: i128 :- BstFromXlm(xlm, price);
      var bst: i128 := Min(estimate, config.maxBuyback);
      var newReserve: i128 :- Checked(reserve - xlm);
      var newTotal: i128 :- Checked(totalBought + bst);
      var count: u32 :- CheckedU32(|history| + 1);
      reserve := newReserve;
      totalBought := newTotal;
      history := history + [Purchase(timestamp, ledger, price, bst, xlm, trigger)];
      lastLedger := ledger;
      r := Some(());
    }

    method CheckAndExecuteBuyback(price: i128, ledger: u32, timestamp: u64) returns (r: Option<()>)
      modifies this
      ensures Commits(old(View()).CheckAndExecute(price, ledger, timestamp), old(View()), View(), r)
    {
      if !config.enabled {
        return Some(());
      }
      var elapsed: u32 :- CheckedU32(ledger - lastLedger);
      if elapsed < config.interval {
        return Some(());
      }
      if price <= config.priceThreshold {
        return Some(());
      }
      if reserve <= config.minReserve {
        return Some(());
      }
      var available: i128 :- Checked(reserve - config.minReserve);
      var xlm: i128 := Min(available, config.maxBuyback);
      if xlm <= 0 {
        return Some(());
      }
      r := ExecuteBuyback(xlm, price, "price_thr", ledger, timestamp);
    }

    method ManualBuyback(xlm: i128, price: i128, ledger: u32, timestamp: u64) returns (r: Option<()>)
      modifies this
      ensures Commits(old(View()).Manual(xlm, price, ledger, timestamp), old(View()), View(), r)
    {
      var _ :- Require(config.enabled);
      var needed: i128 :- Checked(xlm + config.minReserve);
      var _ :- Require(reserve >= needed);
      r := ExecuteBuyback(xlm, price, "manual", ledger, timestamp);
    }

    method AddToReserve(amount: i128) returns (r: Option<()>)
      modifies this
      ensures Commits(old(View()).AddToReserve(amount), old(View()), View(), r)
    {
      var _ :- Require(amount > 0);
      reserve :- Checked(reserve + amount);
      r := Some(());
    }

    method GetBuybackAnalytics() returns (r: Option<Analytics>)
      ensures r == Report(View())
    {
      var count: u32 :- CheckedU32(|history|);
      if count == 0 {
        return Some(Analytics(0, 0, 0, 0, 0));
      }
      var spent: i128 := 0;
      var last: u64 := 0;
      var i := 0;
      while i < |history|
        invariant 0 <= i <= |history|
        invariant spent == ReportedSpent(history[..i])
        invariant last == LastTimestamp(history[..i])
      {
        assert history[..i + 1][..i] == history[..i];
        var sum := Checked(spent + history[i].spent);
        if sum.Some? {
          spent := sum.value;
        }
        if history[i].timestamp > last {
          last := history[i].timestamp;
        }
        i := i + 1;
      }
      assert history[..i] == history;
      var average: i128 := 0;
      if totalBought > 0 {
        average :- MulDiv(spent, PRICE_SCALE, totalBought);
      }
      r := Some(Analytics(count, totalBought, spent, average, last));
    }
  }
}
