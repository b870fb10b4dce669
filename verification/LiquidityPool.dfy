/** The integer inequalities behind the constant-product pool. */
module PoolArithmetic {
  import opened Integers

  /** A swap that trades a part w of the input, with 0 <= w <= 1000 * x, never
      lowers the product of the reserves, and empties the paying reserve only
      when the receiving one was empty. */
  lemma SwapProduct(rin: int, rout: int, x: int, w: int, out: int)
    requires rin >= 0 && rout >= 0 && 0 <= w <= 1000 * x
    requires 1000 * rin + w > 0
    requires out * (1000 * rin + w) <= w * rout < (out + 1) * (1000 * rin + w)
    ensures 0 <= out <= rout
    ensures rin * rout <= (rin + x) * (rout - out)
    ensures rout > 0 ==> (out < rout <==> rin > 0)
  {
    var d := 1000 * rin + w;
    ProductMonotone(0, w, 0, rout);
    ProductMonotone(0, rin, 0, rout);
    CompareScaled(0, out + 1, d);
    // (rout - out) * d >= 1000 * rin * rout
    assert rout * d == 1000 * (rin * rout) + w * rout;
    assert (rout - out) * d == rout * d - out * d;
    CompareScaled(0, rout - out, d);
    assert 1000 * (rin + x) >= d;
    ProductMonotone(d, 1000 * (rin + x), rout - out, rout - out);
    assert (1000 * (rin + x)) * (rout - out) == 1000 * ((rin + x) * (rout - out));
    if rin == 0 {
      CompareScaled(rout, out + 1, d);
    } else if rout > 0 {
      ScalePositive(rin, rout);
      CompareScaled(0, rout - out, d);
    }
  }

  /** When each reserve keeps up with the shares, so does their product. */
  lemma SharesOfProduct(a: int, b: int, t: int, a': int, b': int, t': int)
    requires 0 <= a && 0 <= b && 0 <= t && 0 <= t'
    requires a * t' <= a' * t && b * t' <= b' * t
    ensures (a * b) * (t' * t') <= (a' * b') * (t * t)
  {
    ProductMonotone(0, a, 0, t');
    ProductMonotone(0, b, 0, t');
    ProductMonotone(a * t', a' * t, b * t', b' * t);
    PairProducts(a, b, t', t');
    PairProducts(a', b', t, t);
  }

  lemma PairProducts(a: int, b: int, c: int, d: int)
    ensures (a * c) * (b * d) == (a * b) * (c * d)
  {
    ProductSwap(a, c, b * d);
    ProductSwap(c, b, d);
    ProductSwap(a, b, c * d);
  }

  /** Two ratios, each at most the next, compose. */
  lemma ChainRatios(x0: int, y0: int, x1: int, y1: int, x2: int, y2: int)
    requires y1 > 0 && y0 >= 0 && y2 >= 0
    requires x0 * y1 <= x1 * y0
    requires x1 * y2 <= x2 * y1
    ensures x0 * y2 <= x2 * y0
  {
    ScaleOrder(x0 * y1, x1 * y0, y2);
    ScaleOrder(x1 * y2, x2 * y1, y0);
    assert (x0 * y1) * y2 == (x0 * y2) * y1 by { ProductSwap(x0, y1, y2); ProductSwap(x0, y2, y1); }
    assert (x1 * y0) * y2 == (x1 * y2) * y0 by { ProductSwap(x1, y0, y2); ProductSwap(x1, y2, y0); }
    assert (x2 * y1) * y0 == (x2 * y0) * y1 by { ProductSwap(x2, y1, y0); ProductSwap(x2, y0, y1); }
    CompareScaled(x0 * y2, x2 * y0, y1);
  }

  lemma ScaleOrder(a: int, b: int, c: int)
    requires a <= b && c >= 0
    ensures a * c <= b * c
  {
    if c > 0 { CompareScaled(a, b, c); }
  }

  /** Shares backed by the root of the product stay backed when the product
      keeps up with the square of the shares. */
  lemma BackingCarries(k: int, t: int, k': int, t': int)
    requires t > 0 && t * t <= k
    requires k * (t' * t') <= k' * (t * t)
    ensures t' * t' <= k'
    ensures t * t < k && t' > 0 ==> t' * t' < k'
  {
    SquareOfSum(t', 0);
    ScaleOrder(t * t, k, t' * t');
    ScalePositive(t, t);
    assert (t * t) * (t' * t') == (t' * t') * (t * t);
    CompareScaled(t' * t', k', t * t);
    if t' > 0 {
      ScalePositive(t', t');
      CompareScaled(t * t, k, t' * t');
    }
  }

  /** A mint of m shares for a deposit of x next to a reserve r with t shares:
      the reserve keeps up with the shares exactly when m * r <= x * t. */
  lemma MintKeepsUp(r: int, t: int, x: int, m: int)
    ensures r * (t + m) <= (r + x) * t <==> m * r <= x * t
  {
    assert r * (t + m) == r * t + m * r;
    assert (r + x) * t == r * t + x * t;
  }

  /** A payout p for m of t shares against a reserve r leaves the reserve
      keeping up with the remaining shares exactly when p * t <= m * r. */
  lemma BurnKeepsUp(r: int, t: int, p: int, m: int)
    ensures r * (t - m) <= (r - p) * t <==> p * t <= m * r
  {
    assert r * (t - m) == r * t - m * r;
    assert (r - p) * t == r * t - p * t;
  }
}

/** The pool as a machine over its storage: each entry point is a function to
    the next storage and the answer, or None when the invocation panics. */
module PoolMachine {
  import opened Panics
  import opened Host
  import opened Integers
  import opened Sums
  import opened SquareRoot

  const MINIMUM_LIQUIDITY := 1000
  const FEE_SCALE := 1000

  /** The shares of a first deposit. */
  function FirstMint(a: i128, b: i128): Option<i128>
    requires a > 0 && b > 0
  {
    var product :- Checked(a * b);
    var _ :- Require(product != I128_MAX);
    assert product >= 0 by { ProductMonotone(0, a, 0, b); }
    Checked(Isqrt(product) - MINIMUM_LIQUIDITY)
  }

  /** The payout for the traded part w of an input. */
  function Payout(w: i128, reserveIn: i128, reserveOut: i128): Option<i128>
  {
    var scaled :- Checked(reserveIn * FEE_SCALE);
    var divisor :- Checked(scaled + w);
    var product :- Checked(w * reserveOut);
    MulDiv(product, 1, divisor)
  }

  datatype SwapRecord = SwapRecord(timestamp: u64, user: Address, amountIn: i128, amountOut: i128, fee: i128)

  /** The slot of the accumulated fees. A collection stores an untyped zero,
      which is an i32, and reading that as an i128 panics. */
  datatype FeeSlot = Amount(fees: i128) | UntypedZero
  {
    function Read(): Option<i128>
    {
      match this case Amount(fees) => Some(fees) case UntypedZero => None
    }
  }

  datatype Pool = Pool(
    reserveA: i128,
    reserveB: i128,
    totalLiquidity: i128,
    liquidity: map<Address, i128>,
    feeNumerator: u32,
    swapEnabled: bool,
    history: seq<SwapRecord>,
    accumulatedFees: FeeSlot,
    drained: bool)
  {
    function Quote(a: i128): Option<i128>
    {
      var _ :- Require(a > 0 && reserveA > 0 && reserveB > 0);
      MulDiv(a, reserveB, reserveA)
    }

    function LaterMint(a: i128, bMin: i128): Option<i128>
    {
      var quoteB :- Quote(a);
      var _ :- Require(quoteB >= bMin);
      MulDiv(a, totalLiquidity, reserveA)
    }

    function Minted(a: i128, b: i128, bMin: i128): Option<i128>
      requires a > 0 && b > 0
    {
      if totalLiquidity == 0 then FirstMint(a, b) else LaterMint(a, bMin)
    }

    /** `aMin` is accepted and never looked at. */
    function AddLiquidity(provider: Address, a: i128, b: i128, aMin: i128, bMin: i128): Option<(Pool, i128)>
    {
      var _ :- Require(a > 0 && b > 0);
      var minted :- Minted(a, b, bMin);
      var newA :- Checked(reserveA + a);
      var newB :- Checked(reserveB + b);
      var newTotal :- Checked(totalLiquidity + minted);
      var balance :- Checked(Get(liquidity, provider) + minted);
      Some((this.(reserveA := newA, reserveB := newB, totalLiquidity := newTotal,
                  liquidity := liquidity[provider := balance]), minted))
    }

    function RemoveLiquidity(provider: Address, shares: i128): Option<(Pool, (i128, i128))>
    {
      var _ :- Require(totalLiquidity > 0);
      var amountA :- MulDiv(shares, reserveA, totalLiquidity);
      var amountB :- MulDiv(shares, reserveB, totalLiquidity);
      var newA :- Checked(reserveA - amountA);
      var newB :- Checked(reserveB - amountB);
      var newTotal :- Checked(totalLiquidity - shares);
      var balance :- Checked(Get(liquidity, provider) - shares);
      Some((this.(reserveA := newA, reserveB := newB, totalLiquidity := newTotal,
                  liquidity := liquidity[provider := balance]), (amountA, amountB)))
    }

    /** The part of the input that is booked as the fee. */
    function FeePart(amountIn: i128): Option<i128>
    {
      MulDiv(amountIn, FEE_SCALE - feeNumerator, FEE_SCALE)
    }

    /** The booked fee and the payout of a swap that is let through. */
    function SwapAmounts(tokenIn: Symbol, amountIn: i128, outMin: i128): Option<(i128, i128)>
    {
      var _ :- Require(amountIn > 0);
      var _ :- Require(swapEnabled);
      var fee :- FeePart(amountIn);
      var w :- Checked(amountIn - fee);
      var out :- if tokenIn == "BST" then Payout(w, reserveA, reserveB) else Payout(w, reserveB, reserveA);
      var _ :- Require(out >= outMin);
      Some((fee, out))
    }

    function Swap(user: Address, tokenIn: Symbol, amountIn: i128, outMin: i128, timestamp: u64): Option<(Pool, i128)>
    {
      var (fee, out) :- SwapAmounts(tokenIn, amountIn, outMin);
      var _ :- CheckedU32(|history| + 1);
      var newA :- Checked(if tokenIn == "BST" then reserveA + amountIn else reserveA - out);
      var newB :- Checked(if tokenIn == "BST" then reserveB - out else reserveB + amountIn);
      var fees :- accumulatedFees.Read();
      var newFees :- Checked(fees + fee);
      Some((this.(reserveA := newA, reserveB := newB, accumulatedFees := Amount(newFees),
                  history := history + [SwapRecord(timestamp, user, amountIn, out, fee)]), out))
    }

    function CollectFees(): Option<(Pool, ())>
    {
      var fees :- accumulatedFees.Read();
      Some((if fees > 0 then this.(accumulatedFees := UntypedZero) else this, ()))
    }

    function EmergencyDrain(): Option<(Pool, ())>
    {
      Some((this.(drained := true, reserveA := 0, reserveB := 0, totalLiquidity := 0), ()))
    }
  }

  const INITIAL := Pool(0, 0, 0, map[], 3, true, [], Amount(0), false)

  datatype Call =
    | Add(provider: Address, a: i128, b: i128, aMin: i128, bMin: i128)
    | Remove(provider: Address, shares: i128)
    | Trade(user: Address, tokenIn: Symbol, amountIn: i128, outMin: i128, timestamp: u64)
    | Collect
    | Drain

  function After<T>(before: Pool, result: Option<(Pool, T)>): Pool
  {
    if result.Some? then result.value.0 else before
  }

  function Step(p: Pool, call: Call): Pool
  {
    match call
    case Add(provider, a, b, aMin, bMin) => After(p, p.AddLiquidity(provider, a, b, aMin, bMin))
    case Remove(provider, shares) => After(p, p.RemoveLiquidity(provider, shares))
    case Trade(user, tokenIn, amountIn, outMin, timestamp) => After(p, p.Swap(user, tokenIn, amountIn, outMin, timestamp))
    case Collect => After(p, p.CollectFees())
    case Drain => After(p, p.EmergencyDrain())
  }

  /** The pool after a sequence of calls, rejected ones included. */
  function Run(p: Pool, calls: seq<Call>): Pool
    decreases |calls|
  {
    if calls == [] then p else Run(Step(p, calls[0]), calls[1..])
  }
}

/** What every run of the pool keeps. */
module PoolSafety {
  import opened Panics
  import opened Host
  import opened Integers
  import opened Sums
  import opened SquareRoot
  import opened PoolArithmetic
  import opened PoolMachine

  /** Shares are backed by the geometric mean of the reserves. */
  ghost predicate Solvent(p: Pool)
  {
    && p.reserveA >= 0 && p.reserveB >= 0 && p.totalLiquidity >= 0
    && p.totalLiquidity * p.totalLiquidity <= p.reserveA * p.reserveB
    && p.feeNumerator == 3
  }

  /** More than backed: the first mint keeps MINIMUM_LIQUIDITY back, and no
      sound call ever gives it out while shares exist. */
  ghost predicate Slack(p: Pool)
  {
    p.totalLiquidity > 0 ==> p.totalLiquidity * p.totalLiquidity < p.reserveA * p.reserveB
  }

  /** While shares exist there is something on both sides, so a quote, a
      later mint and a removal divide by a positive number. */
  lemma ReservesPositive(p: Pool)
    requires Solvent(p) && p.totalLiquidity > 0
    ensures p.reserveA > 0 && p.reserveB > 0
  {
    ScalePositive(p.totalLiquidity, p.totalLiquidity);
  }

  /** So those divisions fail only when the product they divide leaves the
      i128 range. */
  lemma DivisionsDefined(p: Pool, n: i128)
    requires Solvent(p) && p.totalLiquidity > 0 && n > 0
    ensures p.Quote(n).Some? <==> n * p.reserveB <= I128_MAX
    ensures MulDiv(n, p.totalLiquidity, p.reserveA).Some? <==> n * p.totalLiquidity <= I128_MAX
    ensures MulDiv(n, p.reserveA, p.totalLiquidity).Some? <==> n * p.reserveA <= I128_MAX
    ensures MulDiv(n, p.reserveB, p.totalLiquidity).Some? <==> n * p.reserveB <= I128_MAX
  {
    ReservesPositive(p);
    DefinedInRange(n, p.reserveB, p.reserveA);
    DefinedInRange(n, p.totalLiquidity, p.reserveA);
    DefinedInRange(n, p.reserveA, p.totalLiquidity);
    DefinedInRange(n, p.reserveB, p.totalLiquidity);
  }

  /** A swap divides by something positive even next to empty reserves, in
      either direction and with no shares: its price fails only on range. */
  lemma PriceDefined(w: i128, rin: i128, rout: i128)
    requires w > 0 && rin >= 0 && rout >= 0
    ensures rin * FEE_SCALE + w > 0
    ensures Payout(w, rin, rout).Some? <==> rin * FEE_SCALE + w <= I128_MAX && w * rout <= I128_MAX
  {
    ProductMonotone(0, w, 0, rout);
    if w * rout <= I128_MAX {
      DefinedInRange(w * rout, 1, rin * FEE_SCALE + w);
    }
  }

  lemma DefinedInRange(a: int, b: int, d: int)
    requires a >= 0 && b >= 0 && d > 0
    ensures MulDiv(a, b, d).Some? <==> a * b <= I128_MAX
  {
    ProductMonotone(0, a, 0, b);
    var q := TruncDiv(a * b, d);
    CompareScaled(0, q + 1, d);
    ProductMonotone(q, q, 1, d);
  }

  lemma FloorOfProduct(a: int, b: int, d: int)
    requires a >= 0 && b >= 0 && d > 0
    ensures MulDiv(a, b, d).Some? ==>
      MulDiv(a, b, d).value >= 0 && MulDiv(a, b, d).value * d <= a * b < (MulDiv(a, b, d).value + 1) * d
  {
    ProductMonotone(0, a, 0, b);
    var q := TruncDiv(a * b, d);
    CompareScaled(0, q + 1, d);
  }

  /** With the configured fee of 3 in 1000, the traded part of an input x is
      3x/1000 rounded up and the booked fee is the other 997 parts. */
  lemma TradedPart(p: Pool, x: i128)
    requires p.feeNumerator == 3 && x > 0 && p.FeePart(x).Some?
    ensures var w := x - p.FeePart(x).value; w == (3 * x + 999) / 1000 && 0 < w <= x
  {
  }

  /** The comment at swap.rs:9-10 calls the fee fraction 3/1000. The booked fee
      is that fraction of the input only for an input of one unit. */
  lemma BookedFeeIsThreePerMilleOnlyForOneUnit(p: Pool, x: i128)
    requires p.feeNumerator == 3 && x > 0 && p.FeePart(x).Some?
    ensures p.FeePart(x).value == 3 * x / 1000 <==> x == 1
  {
  }

  // ---- swaps ----------------------------------------------------------------

  /** Any accepted swap between non-negative reserves: the product does not
      fall, nothing but the reserves, the fees and the history changes, and a
      positive paying reserve is emptied exactly when the other was empty. */
  lemma SwapKeepsProduct(p: Pool, user: Address, tokenIn: Symbol, x: i128, outMin: i128, ts: u64)
    requires p.reserveA >= 0 && p.reserveB >= 0 && p.feeNumerator == 3
    requires p.Swap(user, tokenIn, x, outMin, ts).Some?
    ensures var (q, out) := p.Swap(user, tokenIn, x, outMin, ts).value;
      var (rin, rout) := if tokenIn == "BST" then (p.reserveA, p.reserveB) else (p.reserveB, p.reserveA);
      && q.reserveA >= 0 && q.reserveB >= 0
      && p.reserveA * p.reserveB <= q.reserveA * q.reserveB
      && 0 <= out <= rout && (rout > 0 ==> (out < rout <==> rin > 0))
      && q.totalLiquidity == p.totalLiquidity && q.liquidity == p.liquidity
  {
    SwapEffect(p, user, tokenIn, x, outMin, ts);
    var (q, out) := p.Swap(user, tokenIn, x, outMin, ts).value;
    if tokenIn == "BST" {
      TradeBounds(p, tokenIn, x, outMin, q.reserveA, q.reserveB);
    } else {
      TradeBounds(p, tokenIn, x, outMin, q.reserveB, q.reserveA);
      assert p.reserveA * p.reserveB == p.reserveB * p.reserveA;
      assert q.reserveA * q.reserveB == q.reserveB * q.reserveA;
    }
  }

  lemma SwapEffect(p: Pool, user: Address, tokenIn: Symbol, x: i128, outMin: i128, ts: u64)
    requires p.Swap(user, tokenIn, x, outMin, ts).Some?
    ensures p.SwapAmounts(tokenIn, x, outMin).Some?
    ensures var (q, out) := p.Swap(user, tokenIn, x, outMin, ts).value;
      && out == p.SwapAmounts(tokenIn, x, outMin).value.1
      && q.reserveA == (if tokenIn == "BST" then p.reserveA + x else p.reserveA - out)
      && q.reserveB == (if tokenIn == "BST" then p.reserveB - out else p.reserveB + x)
      && q.totalLiquidity == p.totalLiquidity && q.liquidity == p.liquidity
  {
  }

  lemma TradeBounds(p: Pool, tokenIn: Symbol, x: i128, outMin: i128, newIn: int, newOut: int)
    requires p.reserveA >= 0 && p.reserveB >= 0 && p.feeNumerator == 3
    requires p.SwapAmounts(tokenIn, x, outMin).Some?
    requires var out := p.SwapAmounts(tokenIn, x, outMin).value.1;
      var (rin, rout) := if tokenIn == "BST" then (p.reserveA, p.reserveB) else (p.reserveB, p.reserveA);
      newIn == rin + x && newOut == rout - out
    ensures var out := p.SwapAmounts(tokenIn, x, outMin).value.1;
      var (rin, rout) := if tokenIn == "BST" then (p.reserveA, p.reserveB) else (p.reserveB, p.reserveA);
      && newIn >= 0 && newOut >= 0 && rin * rout <= newIn * newOut
      && 0 <= out <= rout && (rout > 0 ==> (out < rout <==> rin > 0))
  {
    TradedPart(p, x);
    var w := x - p.FeePart(x).value;
    if tokenIn == "BST" {
      PayoutBounds(x, w, p.reserveA, p.reserveB);
    } else {
      PayoutBounds(x, w, p.reserveB, p.reserveA);
    }
  }

  lemma PayoutBounds(x: i128, w: i128, rin: i128, rout: i128)
    requires rin >= 0 && rout >= 0 && 0 < w <= x
    requires Payout(w, rin, rout).Some?
    ensures var out := Payout(w, rin, rout).value;
      && 0 <= out <= rout && rin * rout <= (rin + x) * (rout - out)
      && (rout > 0 ==> (out < rout <==> rin > 0))
  {
    var out := Payout(w, rin, rout).value;
    ProductMonotone(0, w, 0, rout);
    FloorOfProduct(w * rout, 1, 1000 * rin + w);
    SwapProduct(rin, rout, x, w, out);
  }

  ghost predicate OnlyTrades(calls: seq<Call>)
  {
    forall i :: 0 <= i < |calls| ==> calls[i].Trade?
  }

  /** Over any sequence of swaps in either direction, accepted or rejected,
      a positive pool cannot end poorer on one side without ending richer on
      the other: no round trip profits the trader. */
  lemma {:induction false} TradesNeverProfit(p: Pool, calls: seq<Call>)
    requires p.reserveA > 0 && p.reserveB > 0 && p.feeNumerator == 3
    requires OnlyTrades(calls)
    ensures var q := Run(p, calls);
      && q.reserveA > 0 && q.reserveB > 0
      && p.reserveA * p.reserveB <= q.reserveA * q.reserveB
      && (q.reserveA <= p.reserveA ==> q.reserveB >= p.reserveB)
      && (q.reserveB <= p.reserveB ==> q.reserveA >= p.reserveA)
    decreases |calls|
  {
    if calls != [] {
      var c := calls[0];
      if p.Swap(c.user, c.tokenIn, c.amountIn, c.outMin, c.timestamp).Some? {
        SwapKeepsProduct(p, c.user, c.tokenIn, c.amountIn, c.outMin, c.timestamp);
      }
      TradesNeverProfit(Step(p, c), calls[1..]);
      var q := Run(p, calls);
      NoDoubleLoss(p.reserveA, p.reserveB, q.reserveA, q.reserveB);
    }
  }

  lemma NoDoubleLoss(a: int, b: int, a': int, b': int)
    requires a > 0 && b > 0 && a' > 0 && b' > 0 && a * b <= a' * b'
    ensures a' <= a ==> b' >= b
    ensures b' <= b ==> a' >= a
  {
    CompareScaled(a', a, b');
    CompareScaled(b', b, a);
    CompareScaled(a', a, b);
    CompareScaled(b', b, a');
    assert a' * b == b * a' && a' * b' == b' * a' && a * b == b * a && a * b' == b' * a;
  }

  // ---- deposits and removals -----------------------------------------------

  /** The source accepts calls it should refuse. This is the condition on an
      accepted call and the stored numbers under which neither reserve falls
      behind the supply: a first deposit of at least the square of
      MINIMUM_LIQUIDITY, a later one that brings enough of the second asset, a
      removal within the supply, a negative removal that divides both reserves
      without rest. Whose shares are removed is not part of it; PoolHolders
      is about that. */
  ghost predicate Sound(p: Pool, call: Call)
  {
    match call
    case Add(provider, a, b, aMin, bMin) =>
      p.AddLiquidity(provider, a, b, aMin, bMin).Some? ==>
        if p.totalLiquidity == 0 then a * b >= MINIMUM_LIQUIDITY * MINIMUM_LIQUIDITY
        else (a * p.totalLiquidity / p.reserveA) * p.reserveB <= b * p.totalLiquidity
    case Remove(provider, shares) =>
      p.RemoveLiquidity(provider, shares).Some? ==>
        if shares >= 0 then shares <= p.totalLiquidity
        else (shares * p.reserveA) % p.totalLiquidity == 0 && (shares * p.reserveB) % p.totalLiquidity == 0
    case Trade(_, _, _, _, _) => true
    case Collect => true
    case Drain => true
  }

  /** The supply is not negative, and neither reserve has fallen behind it. */
  ghost predicate PerShareKept(p: Pool, q: Pool)
  {
    && q.totalLiquidity >= 0
    && p.reserveA * q.totalLiquidity <= q.reserveA * p.totalLiquidity
    && p.reserveB * q.totalLiquidity <= q.reserveB * p.totalLiquidity
  }

  /** A deposit in at least the ratio of the reserves is sound. */
  lemma BalancedDepositIsSound(p: Pool, provider: Address, a: i128, b: i128, aMin: i128, bMin: i128)
    requires Solvent(p) && p.totalLiquidity > 0 && a > 0
    requires b * p.reserveA >= a * p.reserveB
    ensures Sound(p, Add(provider, a, b, aMin, bMin))
  {
    ReservesPositive(p);
    var A, B, T := p.reserveA, p.reserveB, p.totalLiquidity;
    ProductMonotone(0, a, 0, T);
    QuotientBounds(a * T, A);
    ChainRatios(a * T / A, T, a, A, b, B);
  }

  lemma MintedShares(p: Pool, a: i128, bMin: i128)
    requires Solvent(p) && p.totalLiquidity > 0
    requires p.LaterMint(a, bMin).Some?
    ensures var m := p.LaterMint(a, bMin).value;
      m >= 0 && m == a * p.totalLiquidity / p.reserveA && m * p.reserveA <= a * p.totalLiquidity
  {
    ProductMonotone(0, a, 0, p.totalLiquidity);
    FloorOfProduct(a, p.totalLiquidity, p.reserveA);
  }

  lemma DepositEffect(p: Pool, provider: Address, a: i128, b: i128, aMin: i128, bMin: i128)
    requires p.totalLiquidity != 0 && p.AddLiquidity(provider, a, b, aMin, bMin).Some?
    ensures a > 0 && b > 0 && p.LaterMint(a, bMin).Some?
    ensures var (q, minted) := p.AddLiquidity(provider, a, b, aMin, bMin).value;
      && minted == p.LaterMint(a, bMin).value && q.feeNumerator == p.feeNumerator
      && q.reserveA == p.reserveA + a && q.reserveB == p.reserveB + b
      && q.totalLiquidity == p.totalLiquidity + minted
  {
  }

  /** An accepted later deposit never lowers the A behind a share, and keeps
      the B behind a share exactly when it is sound. */
  lemma DepositDilutesExactlyWhenUnsound(p: Pool, provider: Address, a: i128, b: i128, aMin: i128, bMin: i128)
    requires Solvent(p) && p.totalLiquidity > 0
    requires p.AddLiquidity(provider, a, b, aMin, bMin).Some?
    ensures var q := p.AddLiquidity(provider, a, b, aMin, bMin).value.0;
      && q.totalLiquidity >= p.totalLiquidity
      && p.reserveA * q.totalLiquidity <= q.reserveA * p.totalLiquidity
      && (PerShareKept(p, q) <==> Sound(p, Add(provider, a, b, aMin, bMin)))
  {
    ReservesPositive(p);
    MintedShares(p, a, bMin);
    DepositEffect(p, provider, a, b, aMin, bMin);
    var m := p.LaterMint(a, bMin).value;
    MintKeepsUp(p.reserveA, p.totalLiquidity, a, m);
    MintKeepsUp(p.reserveB, p.totalLiquidity, b, m);
  }

  /** An accepted first deposit leaves the pool solvent exactly when its
      product reaches the square of MINIMUM_LIQUIDITY, and then with slack. */
  lemma FirstDepositExact(p: Pool, provider: Address, a: i128, b: i128, aMin: i128, bMin: i128)
    requires Solvent(p) && p.totalLiquidity == 0
    requires p.AddLiquidity(provider, a, b, aMin, bMin).Some?
    ensures var q := p.AddLiquidity(provider, a, b, aMin, bMin).value.0;
      && (Solvent(q) <==> Sound(p, Add(provider, a, b, aMin, bMin)))
      && (Solvent(q) ==> Slack(q))
  {
    ProductMonotone(0, a, 0, b);
    var r := Isqrt(a * b);
    RootIsLargest(a * b, r, MINIMUM_LIQUIDITY);
    if r >= MINIMUM_LIQUIDITY {
      ProductMonotone(a, p.reserveA + a, b, p.reserveB + b);
      BelowSquare(r, MINIMUM_LIQUIDITY);
    }
  }

  lemma BelowSquare(r: int, d: int)
    requires 0 < d <= r
    ensures (r - d) * (r - d) < r * r
  {
    ProductMonotone(r - d, r - 1, r - d, r - 1);
    SquareOfSum(r, 1);
  }

  /** An accepted removal, of any i128. It keeps both reserves in step with a
      non-negative supply exactly when it is sound; a removal of the whole
      supply pays out the reserves; one of a non-negative amount leaves the
      pool solvent exactly when it stays within the supply. */
  lemma RemovalExact(p: Pool, provider: Address, shares: i128)
    requires Solvent(p)
    requires p.RemoveLiquidity(provider, shares).Some?
    ensures var (q, paid) := p.RemoveLiquidity(provider, shares).value;
      && q.totalLiquidity == p.totalLiquidity - shares
      && (PerShareKept(p, q) <==> Sound(p, Remove(provider, shares)))
      && (PerShareKept(p, q) ==> Solvent(q))
      && (shares == p.totalLiquidity ==> paid == (p.reserveA, p.reserveB))
      && (shares >= 0 ==> (Solvent(q) <==> Sound(p, Remove(provider, shares))))
  {
    var T := p.totalLiquidity;
    var (q, paid) := p.RemoveLiquidity(provider, shares).value;
    if shares >= 0 {
      PayoutForShares(p.reserveA, T, shares, paid.0);
      PayoutForShares(p.reserveB, T, shares, paid.1);
    } else {
      PayoutForNegative(p.reserveA, T, shares, paid.0);
      PayoutForNegative(p.reserveB, T, shares, paid.1);
    }
    if PerShareKept(p, q) {
      StillBacked(p, q);
    }
  }

  lemma PayoutForShares(r: int, t: int, m: int, paid: int)
    requires r >= 0 && t > 0 && m >= 0
    requires MulDiv(m, r, t) == Some(paid)
    ensures r * (t - m) <= (r - paid) * t
    ensures m == t ==> paid == r
  {
    FloorOfProduct(m, r, t);
    BurnKeepsUp(r, t, paid, m);
    if m == t {
      assert t * r == r * t;
      QuotientUnique(t * r, t, paid, r);
    }
  }

  /** Truncation rounds a negative payout up, so the reserve falls behind the
      new shares unless there is nothing to round. */
  lemma PayoutForNegative(r: int, t: int, m: int, paid: int)
    requires r >= 0 && t > 0 && m < 0
    requires MulDiv(m, r, t) == Some(paid)
    ensures r * (t - m) <= (r - paid) * t <==> (m * r) % t == 0
  {
    CeilingOfProduct(m, r, t);
    RoundedUp(m * r, t, paid);
    BurnKeepsUp(r, t, paid, m);
  }

  lemma CeilingOfProduct(m: int, r: int, t: int)
    requires m < 0 && r >= 0 && t > 0
    ensures MulDiv(m, r, t).Some? ==>
      (MulDiv(m, r, t).value - 1) * t < m * r <= MulDiv(m, r, t).value * t
  {
    NegativeProduct(m, r);
    CeilingOfQuotient(m * r, t);
  }

  lemma CeilingOfQuotient(n: int, t: int)
    requires n <= 0 && t > 0
    ensures (TruncDiv(n, t) - 1) * t < n <= TruncDiv(n, t) * t
  {
    if n == 0 {
      assert TruncDiv(n, t) == 0;
    }
  }

  lemma NegativeProduct(m: int, r: int)
    requires m < 0 && r >= 0
    ensures m * r <= 0
  {
    ProductMonotone(0, 0 - m, 0, r);
  }

  lemma RoundedUp(n: int, t: int, q: int)
    requires t > 0 && (q - 1) * t < n <= q * t
    ensures q * t <= n <==> n % t == 0
  {
    QuotientBounds(n, t);
    assert n == n / t * t + n % t;
    CompareScaled(q - 1, n / t, t);
    CompareScaled(n / t, q, t);
    CompareScaled(q, n / t + 1, t);
  }

  lemma StillBacked(p: Pool, q: Pool)
    requires Solvent(p) && p.totalLiquidity > 0 && q.feeNumerator == p.feeNumerator
    requires PerShareKept(p, q)
    ensures ShareValueKept(p, q) && Solvent(q)
    ensures Slack(p) ==> Slack(q)
  {
    SharesOfProduct(p.reserveA, p.reserveB, p.totalLiquidity, q.reserveA, q.reserveB, q.totalLiquidity);
    ValueKeepsBacking(p, q);
    KeepsUpNonNegative(p.reserveA, p.totalLiquidity, q.reserveA, q.totalLiquidity);
    KeepsUpNonNegative(p.reserveB, p.totalLiquidity, q.reserveB, q.totalLiquidity);
  }

  lemma ValueKeepsBacking(p: Pool, q: Pool)
    requires Solvent(p) && p.totalLiquidity > 0 && q.totalLiquidity >= 0
    requires ShareValueKept(p, q)
    ensures q.totalLiquidity * q.totalLiquidity <= q.reserveA * q.reserveB
    ensures Slack(p) ==> Slack(q)
  {
    BackingCarries(p.reserveA * p.reserveB, p.totalLiquidity, q.reserveA * q.reserveB, q.totalLiquidity);
  }

  lemma KeepsUpNonNegative(r: int, t: int, r': int, t': int)
    requires r >= 0 && t > 0 && t' >= 0 && r * t' <= r' * t
    ensures r' >= 0
  {
    ProductMonotone(0, r, 0, t');
    CompareScaled(0, r', t);
  }

  // ---- runs -----------------------------------------------------------------

  /** The value behind a share, as the product of the reserves over the square
      of the supply, is no lower in q than in p. */
  ghost predicate ShareValueKept(p: Pool, q: Pool)
  {
    (p.reserveA * p.reserveB) * (q.totalLiquidity * q.totalLiquidity)
      <= (q.reserveA * q.reserveB) * (p.totalLiquidity * p.totalLiquidity)
  }

  lemma SameTotalKeepsValue(p: Pool, q: Pool)
    requires q.totalLiquidity == p.totalLiquidity
    requires p.reserveA * p.reserveB <= q.reserveA * q.reserveB
    ensures ShareValueKept(p, q)
  {
    SquareOfSum(p.totalLiquidity, 0);
    ScaleOrder(p.reserveA * p.reserveB, q.reserveA * q.reserveB, p.totalLiquidity * p.totalLiquidity);
  }

  lemma ShareValueChains(p: Pool, q: Pool, r: Pool)
    requires q.totalLiquidity > 0
    requires ShareValueKept(p, q) && ShareValueKept(q, r)
    ensures ShareValueKept(p, r)
  {
    ScalePositive(q.totalLiquidity, q.totalLiquidity);
    SquareOfSum(p.totalLiquidity, 0);
    SquareOfSum(r.totalLiquidity, 0);
    ChainRatios(p.reserveA * p.reserveB, p.totalLiquidity * p.totalLiquidity,
                q.reserveA * q.reserveB, q.totalLiquidity * q.totalLiquidity,
                r.reserveA * r.reserveB, r.totalLiquidity * r.totalLiquidity);
  }

  lemma SoundStep(p: Pool, call: Call)
    requires Solvent(p) && Sound(p, call)
    ensures Solvent(Step(p, call))
    ensures Slack(p) ==> Slack(Step(p, call))
    ensures p.totalLiquidity > 0 ==> ShareValueKept(p, Step(p, call))
  {
    var q := Step(p, call);
    match call
    case Add(provider, a, b, aMin, bMin) =>
      if p.AddLiquidity(provider, a, b, aMin, bMin).Some? {
        if p.totalLiquidity == 0 {
          FirstDepositExact(p, provider, a, b, aMin, bMin);
        } else {
          DepositDilutesExactlyWhenUnsound(p, provider, a, b, aMin, bMin);
          StillBacked(p, q);
        }
      }
    case Remove(provider, shares) =>
      if p.RemoveLiquidity(provider, shares).Some? {
        RemovalExact(p, provider, shares);
        StillBacked(p, q);
      }
    case Trade(user, tokenIn, x, outMin, ts) =>
      if p.Swap(user, tokenIn, x, outMin, ts).Some? {
        SwapKeepsProduct(p, user, tokenIn, x, outMin, ts);
        SameTotalKeepsValue(p, q);
      }
    case Collect =>
    case Drain =>
  }

  /** What a deposit or removal should leave: a solvent pool after a first
      deposit, and otherwise no less of either asset per unit of supply. */
  ghost predicate Kept(p: Pool, call: Call)
  {
    call.Add? || call.Remove? ==>
      if p.totalLiquidity == 0 then Solvent(Step(p, call)) else PerShareKept(p, Step(p, call))
  }

  /** On every solvent pool the sound calls are exactly those that do. */
  lemma SoundExactly(p: Pool, call: Call)
    requires Solvent(p)
    ensures Sound(p, call) <==> Kept(p, call)
  {
    match call
    case Add(provider, a, b, aMin, bMin) =>
      if p.AddLiquidity(provider, a, b, aMin, bMin).Some? {
        if p.totalLiquidity == 0 {
          FirstDepositExact(p, provider, a, b, aMin, bMin);
        } else {
          DepositDilutesExactlyWhenUnsound(p, provider, a, b, aMin, bMin);
        }
      }
    case Remove(provider, shares) =>
      if p.RemoveLiquidity(provider, shares).Some? {
        RemovalExact(p, provider, shares);
      }
    case Trade(_, _, _, _, _) =>
    case Collect =>
    case Drain =>
  }

  ghost predicate AllSound(p: Pool, calls: seq<Call>)
    decreases |calls|
  {
    calls == [] || (Sound(p, calls[0]) && AllSound(Step(p, calls[0]), calls[1..]))
  }

  ghost predicate AllKept(p: Pool, calls: seq<Call>)
    decreases |calls|
  {
    calls == [] || (Kept(p, calls[0]) && AllKept(Step(p, calls[0]), calls[1..]))
  }

  /** A run is sound exactly when each of its calls leaves that. */
  lemma {:induction false} SoundRunExactly(p: Pool, calls: seq<Call>)
    requires Solvent(p)
    ensures AllSound(p, calls) <==> AllKept(p, calls)
    decreases |calls|
  {
    if calls != [] {
      SoundExactly(p, calls[0]);
      if Sound(p, calls[0]) {
        SoundStep(p, calls[0]);
        SoundRunExactly(Step(p, calls[0]), calls[1..]);
      }
    }
  }

  ghost predicate AlwaysFunded(p: Pool, calls: seq<Call>)
    decreases |calls|
  {
    p.totalLiquidity > 0 && (calls == [] || AlwaysFunded(Step(p, calls[0]), calls[1..]))
  }

  lemma {:induction false} FundedRun(p: Pool, calls: seq<Call>)
    requires Solvent(p) && AllSound(p, calls) && AlwaysFunded(p, calls)
    ensures ShareValueKept(p, Run(p, calls))
    decreases |calls|
  {
    if calls != [] {
      var next := Step(p, calls[0]);
      SoundStep(p, calls[0]);
      FundedRun(next, calls[1..]);
      ShareValueChains(p, next, Run(next, calls[1..]));
    }
  }

  /** Over every run of sound calls the pool stays solvent, and for as long as
      shares exist the value behind a share never falls. */
  lemma {:induction false} SoundRun(p: Pool, calls: seq<Call>)
    requires Solvent(p) && AllSound(p, calls)
    ensures Solvent(Run(p, calls))
    ensures Slack(p) ==> Slack(Run(p, calls))
    ensures AlwaysFunded(p, calls) ==> ShareValueKept(p, Run(p, calls))
    decreases |calls|
  {
    if AlwaysFunded(p, calls) {
      FundedRun(p, calls);
    }
    if calls != [] {
      SoundStep(p, calls[0]);
      SoundRun(Step(p, calls[0]), calls[1..]);
    }
  }

  /** From initialisation, the liquidity of every sound run stays strictly
      below the root of the product of the reserves. */
  lemma InitialSolvent(calls: seq<Call>)
    requires AllSound(INITIAL, calls)
    ensures Solvent(Run(INITIAL, calls)) && Slack(Run(INITIAL, calls))
  {
    SoundRun(INITIAL, calls);
  }

  // ---- runs that are not sound ----------------------------------------------

  /** The pool after one first deposit into it. */
  function Founded(a: i128, b: i128, shares: i128): Pool
  {
    INITIAL.(reserveA := a, reserveB := b, totalLiquidity := shares, liquidity := map["p" := shares])
  }

  lemma Founding(a: i128, b: i128, root: i128)
    requires a > 0 && b > 0 && IsRoot(a * b, root) && a * b <= 1_000_000_000_000_000_000
    ensures Step(INITIAL, Add("p", a, b, 0, 0)) == Founded(a, b, root - MINIMUM_LIQUIDITY)
  {
    RootUnique(a * b, root, Isqrt(a * b));
    RootAtMostArgument(a * b);
  }

  /** A first deposit below the minimum mints a negative supply. */
  lemma SmallFirstDepositRun()
    ensures Run(INITIAL, [Add("p", 1, 1, 0, 0)]).totalLiquidity == -999
    ensures !Solvent(Run(INITIAL, [Add("p", 1, 1, 0, 0)]))
  {
    Founding(1, 1, 1);
  }

  /** A deposit of one unit of B next to a million of A doubles the supply. */
  lemma UnbalancedDepositRun()
    ensures var first, second := Add("p", 1_000_000, 1_000_000, 0, 0), Add("p", 1_000_000, 1, 0, 0);
      && Solvent(Run(INITIAL, [first]))
      && !Solvent(Run(INITIAL, [first, second]))
  {
    Founding(1_000_000, 1_000_000, 1_000_000);
    var first, second := Add("p", 1_000_000, 1_000_000, 0, 0), Add("p", 1_000_000, 1, 0, 0);
    TwoCalls(INITIAL, first, second);
    var q := Step(Founded(1_000_000, 1_000_000, 999_000), second);
    assert q.totalLiquidity == 1_998_000 && q.reserveA == 2_000_000 && q.reserveB == 1_000_001;
  }

  /** A removal of one share more than there are leaves a supply of -1. */
  lemma ExcessRemovalRun()
    ensures var first, second := Add("p", 1_000_000, 1_000_000, 0, 0), Remove("p", 999_001);
      && Solvent(Run(INITIAL, [first]))
      && !Solvent(Run(INITIAL, [first, second]))
  {
    Founding(1_000_000, 1_000_000, 1_000_000);
    var first, second := Add("p", 1_000_000, 1_000_000, 0, 0), Remove("p", 999_001);
    TwoCalls(INITIAL, first, second);
    var q := Step(Founded(1_000_000, 1_000_000, 999_000), second);
    assert q.totalLiquidity == -1;
  }

  /** A negative removal mints shares for less than their part of B. */
  lemma NegativeRemovalRun()
    ensures var first, second := Add("p", 100_000_000, 1, 0, 0), Remove("p", -8_999);
      && Solvent(Run(INITIAL, [first]))
      && !Solvent(Run(INITIAL, [first, second]))
  {
    Founding(100_000_000, 1, 10_000);
    var first, second := Add("p", 100_000_000, 1, 0, 0), Remove("p", -8_999);
    TwoCalls(INITIAL, first, second);
    var q := Step(Founded(100_000_000, 1, 9_000), second);
    assert q.totalLiquidity == 17_999 && q.reserveA == 199_988_888 && q.reserveB == 1;
  }

  lemma TwoCalls(p: Pool, first: Call, second: Call)
    ensures Run(p, [first]) == Step(p, first)
    ensures Run(p, [first, second]) == Step(Step(p, first), second)
  {
    assert [first, second][1..] == [second];
    assert Run(Step(p, first), [second]) == Run(Step(Step(p, first), second), []);
  }

  // ---- withdrawing in parts, and depositing to withdraw ---------------------

  /** The pool, and the totals paid out, after removing the given amounts. */
  function Withdraw(p: Pool, parts: seq<(Address, i128)>): Option<(Pool, (int, int))>
    decreases |parts|
  {
    if parts == [] then Some((p, (0, 0))) else
      var (next, paid) :- p.RemoveLiquidity(parts[0].0, parts[0].1);
      var (last, rest) :- Withdraw(next, parts[1..]);
      Some((last, (paid.0 + rest.0, paid.1 + rest.1)))
  }

  function Shares(parts: seq<(Address, i128)>): int
  {
    if parts == [] then 0 else parts[0].1 + Shares(parts[1..])
  }

  lemma {:induction false} WithdrawalKeepsUp(p: Pool, parts: seq<(Address, i128)>)
    requires Solvent(p) && p.totalLiquidity > 0
    requires forall i :: 0 <= i < |parts| ==> parts[i].1 > 0
    requires Shares(parts) <= p.totalLiquidity && Withdraw(p, parts).Some?
    ensures var (q, paid) := Withdraw(p, parts).value;
      && q.totalLiquidity == p.totalLiquidity - Shares(parts)
      && q.reserveA == p.reserveA - paid.0 && q.reserveB == p.reserveB - paid.1
      && (q.totalLiquidity == 0 ==> q.reserveA == 0 && q.reserveB == 0)
      && p.reserveA * q.totalLiquidity <= q.reserveA * p.totalLiquidity
      && p.reserveB * q.totalLiquidity <= q.reserveB * p.totalLiquidity
    decreases |parts|
  {
    if parts != [] {
      SharesPositive(parts[1..]);
      var (next, paid) := p.RemoveLiquidity(parts[0].0, parts[0].1).value;
      RemovalExact(p, parts[0].0, parts[0].1);
      if next.totalLiquidity > 0 {
        WithdrawalKeepsUp(next, parts[1..]);
        var q := Withdraw(next, parts[1..]).value.0;
        ChainRatios(p.reserveA, p.totalLiquidity, next.reserveA, next.totalLiquidity, q.reserveA, q.totalLiquidity);
        ChainRatios(p.reserveB, p.totalLiquidity, next.reserveB, next.totalLiquidity, q.reserveB, q.totalLiquidity);
      } else {
        SharesPositive(parts[1..]);
      }
    }
  }

  lemma {:induction false} SharesPositive(parts: seq<(Address, i128)>)
    requires forall i :: 0 <= i < |parts| ==> parts[i].1 > 0
    ensures Shares(parts) >= 0
    ensures Shares(parts) == 0 <==> parts == []
  {
    if parts != [] { SharesPositive(parts[1..]); }
  }

  /** Taking out L shares in any number of parts, by anyone, never pays more of
      either asset than one removal of L would; parts that make up the whole
      supply pay out exactly the reserves. */
  lemma WithdrawingInPartsPaysNoMore(p: Pool, parts: seq<(Address, i128)>)
    requires Solvent(p) && p.totalLiquidity > 0
    requires forall i :: 0 <= i < |parts| ==> parts[i].1 > 0
    requires Shares(parts) <= p.totalLiquidity && Withdraw(p, parts).Some?
    ensures var paid := Withdraw(p, parts).value.1;
      && paid.0 <= Shares(parts) * p.reserveA / p.totalLiquidity
      && paid.1 <= Shares(parts) * p.reserveB / p.totalLiquidity
      && (Shares(parts) == p.totalLiquidity ==> paid == (p.reserveA, p.reserveB))
  {
    WithdrawalKeepsUp(p, parts);
    var (q, paid) := Withdraw(p, parts).value;
    PaidAtMostFloor(p.reserveA, p.totalLiquidity, q.reserveA, q.totalLiquidity, paid.0, Shares(parts));
    PaidAtMostFloor(p.reserveB, p.totalLiquidity, q.reserveB, q.totalLiquidity, paid.1, Shares(parts));
  }

  lemma PaidAtMostFloor(r: int, t: int, r': int, t': int, paid: int, m: int)
    requires t > 0 && r' == r - paid && t' == t - m
    requires r * t' <= r' * t
    ensures paid <= m * r / t
  {
    BurnKeepsUp(r, t, paid, m);
    QuotientBounds(m * r, t);
    CompareScaled(paid, m * r / t + 1, t);
  }

  /** A later deposit followed at once by removing the minted shares returns no
      more A than went in; of B it returns no more exactly when the deposit
      falls short of the pool's ratio by less than one unit of B per share. */
  lemma DepositThenRemove(p: Pool, provider: Address, a: i128, b: i128, aMin: i128, bMin: i128)
    requires Solvent(p) && p.totalLiquidity > 0
    requires p.AddLiquidity(provider, a, b, aMin, bMin).Some?
    requires var (q, minted) := p.AddLiquidity(provider, a, b, aMin, bMin).value;
      q.RemoveLiquidity(provider, minted).Some?
    ensures var (q, minted) := p.AddLiquidity(provider, a, b, aMin, bMin).value;
      var (r, back) := q.RemoveLiquidity(provider, minted).value;
      && back.0 <= a && r.reserveA >= p.reserveA && r.totalLiquidity == p.totalLiquidity
      && (back.1 <= b <==> minted * p.reserveB < b * p.totalLiquidity + p.totalLiquidity + minted)
      && (Sound(p, Add(provider, a, b, aMin, bMin)) ==> back.1 <= b)
      && r.liquidity == p.liquidity[provider := Get(p.liquidity, provider)]
  {
    ReservesPositive(p);
    MintedShares(p, a, bMin);
    var (q, m) := p.AddLiquidity(provider, a, b, aMin, bMin).value;
    var back := q.RemoveLiquidity(provider, m).value.1;
    ReturnBound(p.reserveA, p.totalLiquidity, a, m, back.0);
    ReturnBound(p.reserveB, p.totalLiquidity, b, m, back.1);
  }

  /** A deposit of at least the contract's own quote, which is rounded down and
      so need not be sound, returns no more of either asset than went in. */
  lemma QuotedDepositReturns(p: Pool, provider: Address, a: i128, b: i128, aMin: i128, bMin: i128)
    requires Solvent(p) && p.totalLiquidity > 0
    requires p.AddLiquidity(provider, a, b, aMin, bMin).Some?
    requires p.Quote(a).Some? && b >= p.Quote(a).value
    requires var (q, minted) := p.AddLiquidity(provider, a, b, aMin, bMin).value;
      q.RemoveLiquidity(provider, minted).Some?
    ensures var (q, minted) := p.AddLiquidity(provider, a, b, aMin, bMin).value;
      var back := q.RemoveLiquidity(provider, minted).value.1;
      back.0 <= a && back.1 <= b
  {
    ReservesPositive(p);
    MintedShares(p, a, bMin);
    DepositEffect(p, provider, a, b, aMin, bMin);
    FloorOfProduct(a, p.reserveB, p.reserveA);
    QuotedShortfall(p.reserveA, p.reserveB, p.totalLiquidity, a, p.Quote(a).value, b, p.LaterMint(a, bMin).value);
    DepositThenRemove(p, provider, a, b, aMin, bMin);
  }

  lemma QuotedShortfall(ra: int, rb: int, t: int, a: int, quote: int, b: int, m: int)
    requires ra > 0 && rb > 0 && t > 0 && b >= quote && m >= 0
    requires a * rb < (quote + 1) * ra && m * ra <= a * t
    ensures m * rb < b * t + t + m
  {
    CompareScaled(quote + 1, b + 1, ra);
    CompareScaled(a * rb, (b + 1) * ra, t);
    CompareScaled(m * ra, a * t, rb);
    assert (m * ra) * rb == (m * rb) * ra by { ProductSwap(m, ra, rb); }
    assert (a * t) * rb == (a * rb) * t by { ProductSwap(a, t, rb); }
    assert ((b + 1) * ra) * t == ((b + 1) * t) * ra by { ProductSwap(b + 1, ra, t); }
    CompareScaled(m * rb, (b + 1) * t, ra);
    assert (b + 1) * t == b * t + t;
  }

  lemma ReturnBound(r: int, t: int, x: int, m: int, back: int)
    requires r > 0 && t > 0 && x >= 0 && m >= 0
    requires MulDiv(m, r + x, t + m) == Panics.Some(back)
    ensures back <= x <==> m * r < x * t + t + m
  {
    FloorOfProduct(m, r + x, t + m);
    assert m * (r + x) == m * r + m * x;
    assert (x + 1) * (t + m) == x * t + m * x + t + m;
    CompareScaled(back, x + 1, t + m);
    if back <= x {
      ScaleOrder(back + 1, x + 1, t + m);
    }
  }

  // ---- share balances and fees ----------------------------------------------

  function Fees(history: seq<SwapRecord>): (fees: seq<int>)
  {
    seq(|history|, i requires 0 <= i < |history| => history[i].fee)
  }

  /** A run with its bookkeeping: the supply that drains have voided, and how
      many swap records were there at the last fee collection. */
  datatype Books = Books(pool: Pool, voided: int, collectedUpTo: nat)

  function BookStep(k: Books, call: Call): Books
  {
    var next := Step(k.pool, call);
    match call
    case Drain => Books(next, k.voided + k.pool.totalLiquidity, k.collectedUpTo)
    case Collect => Books(next, k.voided, |k.pool.history|)
    case _ => Books(next, k.voided, k.collectedUpTo)
  }

  function BookRun(k: Books, calls: seq<Call>): Books
    decreases |calls|
  {
    if calls == [] then k else BookRun(BookStep(k, calls[0]), calls[1..])
  }

  /** What the fee slot stands for. */
  function Collectable(slot: FeeSlot): int
  {
    match slot case Amount(fees) => fees case UntypedZero => 0
  }

  ghost predicate FeesBalanced(k: Books)
  {
    && k.collectedUpTo <= |k.pool.history|
    && 0 <= Collectable(k.pool.accumulatedFees) == SeqSum(Fees(k.pool.history[k.collectedUpTo..]))
    && k.pool.feeNumerator == 3
  }

  ghost predicate Balanced(k: Books)
  {
    MapSum(k.pool.liquidity) == k.pool.totalLiquidity + k.voided && FeesBalanced(k)
  }

  /** What a swap writes down: one record, with the fee that is accumulated. */
  lemma SwapRecorded(p: Pool, user: Address, tokenIn: Symbol, x: i128, outMin: i128, ts: u64)
    requires p.Swap(user, tokenIn, x, outMin, ts).Some?
    ensures p.FeePart(x).Some?
    ensures var (q, out) := p.Swap(user, tokenIn, x, outMin, ts).value;
      var fee := p.FeePart(x).value;
      && q.history == p.history + [SwapRecord(ts, user, x, out, fee)]
      && p.accumulatedFees.Amount? && q.accumulatedFees == Amount(p.accumulatedFees.fees + fee)
      && q.liquidity == p.liquidity && q.totalLiquidity == p.totalLiquidity && q.feeNumerator == p.feeNumerator
  {
  }

  lemma RecordAppends(history: seq<SwapRecord>, start: nat, r: SwapRecord)
    requires start <= |history|
    ensures SeqSum(Fees((history + [r])[start..])) == SeqSum(Fees(history[start..])) + r.fee
  {
    assert (history + [r])[start..] == history[start..] + [r];
    assert Fees(history[start..] + [r]) == Fees(history[start..]) + [r.fee];
    SeqSumAppend(Fees(history[start..]), r.fee);
  }

  lemma TradeBooksFee(k: Books, user: Address, tokenIn: Symbol, x: i128, outMin: i128, ts: u64)
    requires Balanced(k)
    ensures Balanced(BookStep(k, Trade(user, tokenIn, x, outMin, ts)))
  {
    if k.pool.Swap(user, tokenIn, x, outMin, ts).Some? {
      SwapRecorded(k.pool, user, tokenIn, x, outMin, ts);
      TradedPart(k.pool, x);
      var next := k.pool.Swap(user, tokenIn, x, outMin, ts).value.0;
      RecordAppends(k.pool.history, k.collectedUpTo, next.history[|k.pool.history|]);
    }
  }

  lemma DepositBooksShares(k: Books, provider: Address, a: i128, b: i128, aMin: i128, bMin: i128)
    requires Balanced(k)
    ensures Balanced(BookStep(k, Add(provider, a, b, aMin, bMin)))
  {
    var next := Step(k.pool, Add(provider, a, b, aMin, bMin));
    MapSumSet(k.pool.liquidity, provider, Get(next.liquidity, provider));
  }

  lemma RemovalBooksShares(k: Books, provider: Address, shares: i128)
    requires Balanced(k)
    ensures Balanced(BookStep(k, Remove(provider, shares)))
  {
    var next := Step(k.pool, Remove(provider, shares));
    MapSumSet(k.pool.liquidity, provider, Get(next.liquidity, provider));
  }

  lemma BookStepBalanced(k: Books, call: Call)
    requires Balanced(k)
    ensures Balanced(BookStep(k, call))
  {
    match call
    case Add(provider, a, b, aMin, bMin) => DepositBooksShares(k, provider, a, b, aMin, bMin);
    case Remove(provider, shares) => RemovalBooksShares(k, provider, shares);
    case Trade(user, tokenIn, x, outMin, ts) => TradeBooksFee(k, user, tokenIn, x, outMin, ts);
    case Collect =>
    case Drain =>
  }

  /** Over every run, with no condition on the calls: the users' balances add
      up to the supply plus what drains voided, so to the supply itself before
      any drain, and the accumulated fees are the fee fields of the swaps
      recorded since the last collection. */
  lemma {:induction false} BooksBalance(k: Books, calls: seq<Call>)
    requires Balanced(k)
    ensures Balanced(BookRun(k, calls))
    ensures BookRun(k, calls).pool == Run(k.pool, calls)
    ensures Drain !in calls ==> BookRun(k, calls).voided == k.voided
    decreases |calls|
  {
    if calls != [] {
      BookStepBalanced(k, calls[0]);
      BooksBalance(BookStep(k, calls[0]), calls[1..]);
    }
  }

  /** Without a drain the balances add up to the supply itself. */
  lemma BalancesAreSupply(k: Books, calls: seq<Call>)
    requires Balanced(k) && k.voided == 0 && Drain !in calls
    ensures MapSum<Address>(Run(k.pool, calls).liquidity) == Run(k.pool, calls).totalLiquidity
  {
    BooksBalance(k, calls);
  }

  lemma InitialBooks(calls: seq<Call>)
    ensures Balanced(BookRun(Books(INITIAL, 0, 0), calls))
    ensures Drain !in calls ==>
      MapSum<Address>(Run(INITIAL, calls).liquidity) == Run(INITIAL, calls).totalLiquidity
  {
    FreshBooks(INITIAL, calls);
  }

  lemma FreshBooks(p: Pool, calls: seq<Call>)
    requires p.liquidity == map[] && p.totalLiquidity == 0 && p.feeNumerator == 3
    requires p.history == [] && p.accumulatedFees == Amount(0)
    ensures Balanced(BookRun(Books(p, 0, 0), calls))
    ensures Drain !in calls ==> MapSum<Address>(Run(p, calls).liquidity) == Run(p, calls).totalLiquidity
  {
    BooksBalance(Books(p, 0, 0), calls);
  }

  /** Once fees have been collected, every later swap and collection panics on
      reading the slot, so no run changes the slot or the history again. */
  lemma {:induction false} CollectionStopsSwaps(p: Pool, calls: seq<Call>)
    requires p.accumulatedFees == UntypedZero
    ensures Run(p, calls).accumulatedFees == UntypedZero && Run(p, calls).history == p.history
    decreases |calls|
  {
    if calls != [] {
      UnreadableSlot(p, calls[0]);
      CollectionStopsSwaps(Step(p, calls[0]), calls[1..]);
    }
  }

  /** A collection leaves the untyped zero exactly when there is something to
      collect, or the slot was untyped before. */
  lemma CollectionExactly(p: Pool)
    ensures Step(p, Collect).accumulatedFees == UntypedZero <==>
      p.accumulatedFees == UntypedZero || p.accumulatedFees.fees > 0
  {
  }

  /** Some collection of the run meets a positive amount. */
  ghost predicate FeesCollected(p: Pool, calls: seq<Call>)
    decreases |calls|
  {
    calls != [] &&
    ((calls[0] == Collect && p.accumulatedFees.Amount? && p.accumulatedFees.fees > 0)
     || FeesCollected(Step(p, calls[0]), calls[1..]))
  }

  /** The slot is untyped after a run exactly when it was before, or some
      collection of the run met a positive amount. */
  lemma {:induction false} UntypedExactly(p: Pool, calls: seq<Call>)
    ensures Run(p, calls).accumulatedFees == UntypedZero <==>
      p.accumulatedFees == UntypedZero || FeesCollected(p, calls)
    decreases |calls|
  {
    if calls != [] {
      SlotChanges(p, calls[0]);
      UntypedExactly(Step(p, calls[0]), calls[1..]);
    }
  }

  lemma SlotChanges(p: Pool, call: Call)
    ensures Step(p, call).accumulatedFees == UntypedZero <==>
      p.accumulatedFees == UntypedZero || (call == Collect && p.accumulatedFees.fees > 0)
  {
  }

  /** A swap books something exactly when it trades two units or more. */
  lemma BookedFeePositive(p: Pool, user: Address, tokenIn: Symbol, x: i128, outMin: i128, ts: u64)
    requires p.feeNumerator == 3 && p.Swap(user, tokenIn, x, outMin, ts).Some?
    ensures var q := p.Swap(user, tokenIn, x, outMin, ts).value.0;
      && p.accumulatedFees.Amount? && q.accumulatedFees.Amount?
      && q.accumulatedFees.fees >= p.accumulatedFees.fees
      && (q.accumulatedFees.fees > p.accumulatedFees.fees <==> x >= 2)
  {
    SwapRecorded(p, user, tokenIn, x, outMin, ts);
    TradedPart(p, x);
  }

  ghost predicate BooksFee(p: Pool, call: Call)
  {
    call.Trade? && call.amountIn >= 2
    && p.Swap(call.user, call.tokenIn, call.amountIn, call.outMin, call.timestamp).Some?
  }

  /** What a call does to the amount of a slot that can be read. */
  lemma FeeStep(p: Pool, call: Call)
    requires p.feeNumerator == 3 && p.accumulatedFees.Amount? && p.accumulatedFees.fees >= 0
    ensures var q := Step(p, call);
      && q.feeNumerator == 3
      && (call == Collect && p.accumulatedFees.fees > 0 ==> q.accumulatedFees == UntypedZero)
      && (call != Collect || p.accumulatedFees.fees == 0 ==>
            && q.accumulatedFees.Amount? && q.accumulatedFees.fees >= p.accumulatedFees.fees
            && (q.accumulatedFees.fees > p.accumulatedFees.fees <==> BooksFee(p, call)))
  {
    if call.Trade? && p.Swap(call.user, call.tokenIn, call.amountIn, call.outMin, call.timestamp).Some? {
      BookedFeePositive(p, call.user, call.tokenIn, call.amountIn, call.outMin, call.timestamp);
    }
  }

  /** Some accepted swap of two units or more is followed by a collection. */
  ghost predicate SwapThenCollect(p: Pool, calls: seq<Call>)
    decreases |calls|
  {
    calls != [] &&
    ((BooksFee(p, calls[0]) && Collect in calls[1..]) || SwapThenCollect(Step(p, calls[0]), calls[1..]))
  }

  lemma {:induction false} WithoutCollect(p: Pool, calls: seq<Call>)
    requires Collect !in calls
    ensures !SwapThenCollect(p, calls)
    decreases |calls|
  {
    if calls != [] {
      WithoutCollect(Step(p, calls[0]), calls[1..]);
    }
  }

  lemma {:induction false} PendingFees(p: Pool, calls: seq<Call>)
    requires p.feeNumerator == 3 && p.accumulatedFees.Amount? && p.accumulatedFees.fees > 0
    ensures Run(p, calls).accumulatedFees == UntypedZero <==> Collect in calls
    decreases |calls|
  {
    if calls != [] {
      var next := Step(p, calls[0]);
      FeeStep(p, calls[0]);
      if calls[0] == Collect {
        CollectionStopsSwaps(next, calls[1..]);
      } else {
        PendingFees(next, calls[1..]);
        assert Collect in calls <==> Collect in calls[1..];
      }
    }
  }

  /** From a pool without fees, as it is initialised, a run ends with the
      untyped zero exactly when it collects after a swap of two units or
      more. */
  lemma {:induction false} UntypedFromNoFees(p: Pool, calls: seq<Call>)
    requires p.feeNumerator == 3 && p.accumulatedFees == Amount(0)
    ensures Run(p, calls).accumulatedFees == UntypedZero <==> SwapThenCollect(p, calls)
    decreases |calls|
  {
    if calls != [] {
      var next := Step(p, calls[0]);
      FeeStep(p, calls[0]);
      if BooksFee(p, calls[0]) {
        PendingFees(next, calls[1..]);
        if Collect !in calls[1..] { WithoutCollect(next, calls[1..]); }
      } else {
        UntypedFromNoFees(next, calls[1..]);
      }
    }
  }

  lemma InitialUntyped(calls: seq<Call>)
    ensures Run(INITIAL, calls).accumulatedFees == UntypedZero <==> SwapThenCollect(INITIAL, calls)
  {
    UntypedFromNoFees(INITIAL, calls);
  }

  /** A deposit, a swap of 1000 units, a collection: every later swap is
      refused, whatever it trades. */
  lemma CollectionRun()
    ensures var first, swap := Add("p", 1_000_000, 1_000_000, 0, 0), Trade("u", "BST", 1000, 0, 0);
      var p := Run(INITIAL, [first] + ([swap] + ([Collect] + [])));
      p.accumulatedFees == UntypedZero && SwapsRefused(p)
  {
    var first, swap := Add("p", 1_000_000, 1_000_000, 0, 0), Trade("u", "BST", 1000, 0, 0);
    Founding(1_000_000, 1_000_000, 1_000_000);
    RunStep(INITIAL, first, [swap] + ([Collect] + []));
    FoundedSwap();
    SwapAndCollect(Founded(1_000_000, 1_000_000, 999_000), swap);
  }

  ghost predicate SwapsRefused(p: Pool)
  {
    forall user, tokenIn, x, outMin, ts :: p.Swap(user, tokenIn, x, outMin, ts).None?
  }

  lemma FoundedSwap()
    ensures Founded(1_000_000, 1_000_000, 999_000).Swap("u", "BST", 1000, 0, 0).Some?
  {
  }

  lemma SwapAndCollect(p: Pool, swap: Call)
    requires p.feeNumerator == 3 && p.accumulatedFees == Amount(0) && BooksFee(p, swap)
    ensures var q := Run(p, [swap] + ([Collect] + []));
      q.accumulatedFees == UntypedZero && SwapsRefused(q)
  {
    RunStep(p, swap, [Collect] + []);
    RunStep(Step(p, swap), Collect, []);
    FeeStep(p, swap);
    CollectionExactly(Step(p, swap));
  }

  lemma RunStep(p: Pool, call: Call, calls: seq<Call>)
    ensures Run(p, [call] + calls) == Run(Step(p, call), calls)
  {
    assert ([call] + calls)[1..] == calls;
  }

  lemma UnreadableSlot(p: Pool, call: Call)
    requires p.accumulatedFees == UntypedZero
    ensures call.Trade? || call.Collect? ==> Step(p, call) == p
    ensures Step(p, call).accumulatedFees == UntypedZero && Step(p, call).history == p.history
  {
  }
}

/** The contract itself: storage slots that the entry points read and
    overwrite. Reads come first and writes last, so a panic writes nothing. */
module LiquidityPoolContract {
  import opened Panics
  import opened Host
  import opened Integers
  import opened Sums
  import opened SquareRoot
  import opened PoolMachine

  method MintFirst(a: i128, b: i128) returns (r: Option<i128>)
    requires a > 0 && b > 0
    ensures r == FirstMint(a, b)
  {
    var product: i128 :- Checked(a * b);
    ProductMonotone(0, a, 0, b);
    var root: i128 :- PoolSqrt(product);
    r := Some(root - MINIMUM_LIQUIDITY);
  }

  method Price(w: i128, reserveIn: i128, reserveOut: i128) returns (r: Option<i128>)
    ensures r == Payout(w, reserveIn, reserveOut)
  {
    var product: i128 :- Checked(w * reserveOut);
    var scaled: i128 :- Checked(reserveIn * FEE_SCALE);
    var divisor: i128 :- Checked(scaled + w);
    r := MulDiv(product, 1, divisor);
  }

  class LiquidityPool {
    var reserveA: i128
    var reserveB: i128
    var totalLiquidity: i128
    var liquidity: map<Address, i128>
    var feeNumerator: u32
    var swapEnabled: bool
    var history: seq<SwapRecord>
    var accumulatedFees: FeeSlot
    var drained: bool

    ghost function View(): Pool
      reads this
    {
      Pool(reserveA, reserveB, totalLiquidity, liquidity, feeNumerator, swapEnabled, history, accumulatedFees, drained)
    }

    constructor ()
      ensures View() == INITIAL
    {
      reserveA, reserveB, totalLiquidity, liquidity := 0, 0, 0, map[];
      feeNumerator, swapEnabled, history, accumulatedFees, drained := 3, true, [], Amount(0), false;
    }

    method Mint(a: i128, b: i128, bMin: i128) returns (r: Option<i128>)
      requires a > 0 && b > 0
      ensures r == View().Minted(a, b, bMin)
    {
      if totalLiquidity == 0 {
        r := MintFirst(a, b);
        return;
      }
      var _ :- Require(a > 0 && reserveA > 0 && reserveB > 0);
      var quoteB: i128 :- MulDiv(a, reserveB, reserveA);
      var _ :- Require(quoteB >= bMin);
      r := MulDiv(a, totalLiquidity, reserveA);
    }

    method AddLiquidity(provider: Address, a: i128, b: i128, aMin: i128, bMin: i128) returns (r: Option<i128>)
      modifies this
      ensures Commits(old(View()).AddLiquidity(provider, a, b, aMin, bMin), old(View()), View(), r)
    {
      var _ :- Require(a > 0 && b > 0);
      var minted: i128 :- Mint(a, b, bMin);
      var newA: i128 :- Checked(reserveA + a);
      var newB: i128 :- Checked(reserveB + b);
      var newTotal: i128 :- Checked(totalLiquidity + minted);
      var balance: i128 :- Checked(Get(liquidity, provider) + minted);
      reserveA, reserveB, totalLiquidity := newA, newB, newTotal;
      liquidity := liquidity[provider := balance];
      r := Some(minted);
    }

    method RemoveLiquidity(provider: Address, shares: i128) returns (r: Option<(i128, i128)>)
      modifies this
      ensures Commits(old(View()).RemoveLiquidity(provider, shares), old(View()), View(), r)
    {
      var _ :- Require(totalLiquidity > 0);
      var amountA: i128 :- MulDiv(shares, reserveA, totalLiquidity);
      var amountB: i128 :- MulDiv(shares, reserveB, totalLiquidity);
      var newA: i128 :- Checked(reserveA - amountA);
      var newB: i128 :- Checked(reserveB - amountB);
      var newTotal: i128 :- Checked(totalLiquidity - shares);
      var balance: i128 :- Checked(Get(liquidity, provider) - shares);
      reserveA, reserveB, totalLiquidity := newA, newB, newTotal;
      liquidity := liquidity[provider := balance];
      r := Some((amountA, amountB));
    }

    method PriceSwap(tokenIn: Symbol, amountIn: i128, outMin: i128) returns (r: Option<(i128, i128)>)
      ensures r == View().SwapAmounts(tokenIn, amountIn, outMin)
    {
      var _ :- Require(amountIn > 0);
      var _ :- Require(swapEnabled);
      var fee: i128 :- MulDiv(amountIn, FEE_SCALE - feeNumerator, FEE_SCALE);
      var w: i128 :- Checked(amountIn - fee);
      var reserveIn, reserveOut := reserveB, reserveA;
      if tokenIn == "BST" {
        reserveIn, reserveOut := reserveA, reserveB;
      }
      var out: i128 :- Price(w, reserveIn, reserveOut);
      var _ :- Require(out >= outMin);
      r := Some((fee, out));
    }

    method Swap(user: Address, tokenIn: Symbol, amountIn: i128, outMin: i128, timestamp: u64)
      returns (r: Option<i128>)
      modifies this
      ensures Commits(old(View()).Swap(user, tokenIn, amountIn, outMin, timestamp), old(View()), View(), r)
    {
      var amounts: (i128, i128) :- PriceSwap(tokenIn, amountIn, outMin);
      var (fee, out) := amounts;
      var reserveIn, reserveOut := reserveB, reserveA;
      if tokenIn == "BST" {
        reserveIn, reserveOut := reserveA, reserveB;
      }
      var count: u32 :- CheckedU32(|history| + 1);
      var newIn: i128 :- Checked(reserveIn + amountIn);
      var newOut: i128 :- Checked(reserveOut - out);
      var fees: i128 :- accumulatedFees.Read();
      var newFees: i128 :- Checked(fees + fee);
      history := history + [SwapRecord(timestamp, user, amountIn, out, fee)];
      if tokenIn == "BST" {
        reserveA, reserveB := newIn, newOut;
      } else {
        reserveA, reserveB := newOut, newIn;
      }
      accumulatedFees := Amount(newFees);
      r := Some(out);
    }

    method CollectFees() returns (r: Option<()>)
      modifies this
      ensures Commits(old(View()).CollectFees(), old(View()), View(), r)
    {
      var fees: i128 :- accumulatedFees.Read();
      if fees > 0 {
        accumulatedFees := UntypedZero;
      }
      r := Some(());
    }

    method EmergencyDrain() returns (r: Option<()>)
      modifies this
      ensures Commits(old(View()).EmergencyDrain(), old(View()), View(), r)
    {
      drained := true;
      reserveA, reserveB, totalLiquidity := 0, 0, 0;
      r := Some(());
    }

    /** A page of the history: the records from start on, at most limit of
        them, none when start is past the end. The history is counted by a
        u32, which is why saturating the index cannot hit a record. */
    method GetSwapHistory(start: u32, limit: u32) returns (page: seq<SwapRecord>)
      requires |history| <= U32_MAX
      ensures page == history[Min(start, |history|)..Min(start + limit, |history|)]
    {
      page := [];
      var i := 0;
      while i < limit
        invariant 0 <= i <= limit
        invariant start + i <= |history| || i == 0
        invariant page == history[Min(start, |history|)..Min(start + i, |history|)]
      {
        var index := Min(start + i, U32_MAX);
        if index >= |history| {
          break;
        }
        page := page + [history[index]];
        i := i + 1;
      }
    }
  }
}
