/** What each call of the pool does, in figures: its price, its mint and its
    payouts between their two bounds, and every slot afterwards. */
module PoolEffects {
  import opened Panics
  import opened Host
  import opened Integers
  import opened Sums
  import opened SquareRoot
  import opened PoolMachine
  import opened PoolSafety

  /** One balance has moved by an amount, and no other has. */
  ghost predicate Moved(before: map<Address, i128>, after: map<Address, i128>, who: Address, amount: int)
  {
    forall a :: Get(after, a) == Get(before, a) + (if a == who then amount else 0)
  }

  ghost predicate SettingsKept(p: Pool, q: Pool)
  {
    q.feeNumerator == p.feeNumerator && q.swapEnabled == p.swapEnabled
  }

  // ---- swaps ----------------------------------------------------------------

  /** The part of an input that is traded. */
  function Traded(x: int): int { (3 * x + 999) / 1000 }

  /** An accepted swap pays the floor of w * rout / (1000 * rin + w) for its
      traded part w, and at least the minimum asked for; the whole input goes
      into one reserve, the payout comes out of the other, and the rest of the
      input is booked as the fee. */
  lemma SwapExact(p: Pool, user: Address, tokenIn: Symbol, x: i128, outMin: i128, ts: u64)
    requires p.reserveA >= 0 && p.reserveB >= 0 && p.feeNumerator == 3
    requires p.Swap(user, tokenIn, x, outMin, ts).Some?
    ensures var (q, out) := p.Swap(user, tokenIn, x, outMin, ts).value;
      var w := Traded(x);
      var (rin, rout) := if tokenIn == "BST" then (p.reserveA, p.reserveB) else (p.reserveB, p.reserveA);
      && x > 0 && out >= outMin
      && out * (1000 * rin + w) <= w * rout < (out + 1) * (1000 * rin + w)
      && (q.reserveA, q.reserveB) == (if tokenIn == "BST" then (rin + x, rout - out) else (rout - out, rin + x))
      && q.history == p.history + [SwapRecord(ts, user, x, out, x - w)]
      && p.accumulatedFees.Amount? && q.accumulatedFees == Amount(p.accumulatedFees.fees + (x - w))
      && q.totalLiquidity == p.totalLiquidity && q.liquidity == p.liquidity
      && SettingsKept(p, q) && q.drained == p.drained
  {
    SwapFields(p, user, tokenIn, x, outMin, ts);
    SwapPrice(p, tokenIn, x, outMin);
  }

  lemma SwapFields(p: Pool, user: Address, tokenIn: Symbol, x: i128, outMin: i128, ts: u64)
    requires p.feeNumerator == 3 && p.Swap(user, tokenIn, x, outMin, ts).Some?
    ensures var (q, out) := p.Swap(user, tokenIn, x, outMin, ts).value;
      var fee := x - Traded(x);
      && p.SwapAmounts(tokenIn, x, outMin).Some? && out == p.SwapAmounts(tokenIn, x, outMin).value.1
      && q.reserveA == (if tokenIn == "BST" then p.reserveA + x else p.reserveA - out)
      && q.reserveB == (if tokenIn == "BST" then p.reserveB - out else p.reserveB + x)
      && q.history == p.history + [SwapRecord(ts, user, x, out, fee)]
      && p.accumulatedFees.Amount? && q.accumulatedFees == Amount(p.accumulatedFees.fees + fee)
      && q.totalLiquidity == p.totalLiquidity && q.liquidity == p.liquidity
      && SettingsKept(p, q) && q.drained == p.drained
  {
    TradedPart(p, x);
  }

  lemma SwapPrice(p: Pool, tokenIn: Symbol, x: i128, outMin: i128)
    requires p.reserveA >= 0 && p.reserveB >= 0 && p.feeNumerator == 3
    requires p.SwapAmounts(tokenIn, x, outMin).Some?
    ensures var out, w := p.SwapAmounts(tokenIn, x, outMin).value.1, Traded(x);
      var (rin, rout) := if tokenIn == "BST" then (p.reserveA, p.reserveB) else (p.reserveB, p.reserveA);
      && x > 0 && out >= outMin
      && out * (1000 * rin + w) <= w * rout < (out + 1) * (1000 * rin + w)
  {
    TradedPart(p, x);
    if tokenIn == "BST" {
      PayoutFloor(Traded(x), p.reserveA, p.reserveB);
    } else {
      PayoutFloor(Traded(x), p.reserveB, p.reserveA);
    }
  }

  lemma PayoutFloor(w: i128, rin: i128, rout: i128)
    requires w > 0 && rin >= 0 && rout >= 0 && Payout(w, rin, rout).Some?
    ensures var out := Payout(w, rin, rout).value;
      out * (1000 * rin + w) <= w * rout < (out + 1) * (1000 * rin + w)
  {
    ProductMonotone(0, w, 0, rout);
    FloorOfProduct(w * rout, 1, 1000 * rin + w);
  }

  lemma FloorIsQuotient(q: int, n: int, d: int)
    requires d > 0 && q * d <= n < (q + 1) * d
    ensures q == n / d
  {
    QuotientBounds(n, d);
    QuotientUnique(n, d, q, n / d);
  }

  lemma PayoutQuotient(w: i128, rin: i128, rout: i128)
    requires w > 0 && rin >= 0 && rout >= 0
    ensures Payout(w, rin, rout).Some? <==> 1000 * rin + w <= I128_MAX && w * rout <= I128_MAX
    ensures Payout(w, rin, rout).Some? ==>
      Payout(w, rin, rout).value == w * rout / (1000 * rin + w) && 0 <= Payout(w, rin, rout).value <= rout
  {
    PriceDefined(w, rin, rout);
    if Payout(w, rin, rout).Some? {
      PayoutFloor(w, rin, rout);
      FloorIsQuotient(Payout(w, rin, rout).value, w * rout, 1000 * rin + w);
      PayoutBounds(w, w, rin, rout);
    }
  }

  /** The swaps that go through. */
  lemma SwapAcceptedExactly(p: Pool, user: Address, tokenIn: Symbol, x: i128, outMin: i128, ts: u64)
    requires p.reserveA >= 0 && p.reserveB >= 0 && p.feeNumerator == 3
    ensures var w := Traded(x);
      var (rin, rout) := if tokenIn == "BST" then (p.reserveA, p.reserveB) else (p.reserveB, p.reserveA);
      p.Swap(user, tokenIn, x, outMin, ts).Some? <==>
        && x > 0 && p.swapEnabled && 997 * x <= I128_MAX
        && 1000 * rin + w <= I128_MAX && w * rout <= I128_MAX
        && outMin <= w * rout / (1000 * rin + w)
        && |p.history| < U32_MAX && rin + x <= I128_MAX
        && p.accumulatedFees.Amount? && I128_MIN <= p.accumulatedFees.fees + (x - w) <= I128_MAX
  {
    PricedExactly(p, tokenIn, x, outMin);
  }

  lemma PricedExactly(p: Pool, tokenIn: Symbol, x: i128, outMin: i128)
    requires p.reserveA >= 0 && p.reserveB >= 0 && p.feeNumerator == 3
    ensures var w := Traded(x);
      var (rin, rout) := if tokenIn == "BST" then (p.reserveA, p.reserveB) else (p.reserveB, p.reserveA);
      && (p.SwapAmounts(tokenIn, x, outMin).Some? <==>
            && x > 0 && p.swapEnabled && 997 * x <= I128_MAX
            && 1000 * rin + w <= I128_MAX && w * rout <= I128_MAX
            && outMin <= w * rout / (1000 * rin + w))
      && (p.SwapAmounts(tokenIn, x, outMin).Some? ==>
            p.SwapAmounts(tokenIn, x, outMin).value.0 == x - w && 0 <= p.SwapAmounts(tokenIn, x, outMin).value.1 <= rout)
  {
    if x > 0 {
      FeeIsRest(p, x);
      if tokenIn == "BST" {
        PayoutQuotient(Traded(x), p.reserveA, p.reserveB);
      } else {
        PayoutQuotient(Traded(x), p.reserveB, p.reserveA);
      }
    }
  }

  lemma FeeIsRest(p: Pool, x: i128)
    requires p.feeNumerator == 3 && x > 0
    ensures p.FeePart(x) == if 997 * x <= I128_MAX then Some(x - Traded(x)) else None
    ensures 0 < Traded(x) <= x
  {
    FeeDefined(p, x);
    if 997 * x <= I128_MAX { TradedPart(p, x); }
  }

  lemma FeeDefined(p: Pool, x: i128)
    requires p.feeNumerator == 3 && x > 0
    ensures p.FeePart(x).Some? <==> 997 * x <= I128_MAX
  {
    DefinedInRange(x, 997, 1000);
  }

  // ---- deposits -------------------------------------------------------------

  ghost predicate Deposited(p: Pool, q: Pool, provider: Address, a: i128, b: i128, minted: int)
  {
    && q.reserveA == p.reserveA + a && q.reserveB == p.reserveB + b
    && q.totalLiquidity == p.totalLiquidity + minted && Moved(p.liquidity, q.liquidity, provider, minted)
    && SettingsKept(p, q) && q.history == p.history && q.accumulatedFees == p.accumulatedFees && q.drained == p.drained
  }

  lemma DepositCredits(p: Pool, provider: Address, a: i128, b: i128, aMin: i128, bMin: i128)
    requires p.AddLiquidity(provider, a, b, aMin, bMin).Some?
    ensures var (q, minted) := p.AddLiquidity(provider, a, b, aMin, bMin).value;
      a > 0 && b > 0 && Deposited(p, q, provider, a, b, minted) && p.Minted(a, b, bMin) == Some(minted)
  {
  }

  /** A first deposit mints the floor root of its product less 1000. */
  lemma FirstDepositMints(p: Pool, provider: Address, a: i128, b: i128, aMin: i128, bMin: i128)
    requires p.totalLiquidity == 0
    ensures p.AddLiquidity(provider, a, b, aMin, bMin).Some? <==>
      && a > 0 && b > 0 && a * b < I128_MAX
      && p.reserveA + a <= I128_MAX && p.reserveB + b <= I128_MAX
      && I128_MIN <= Get(p.liquidity, provider) + Isqrt(a * b) - 1000 <= I128_MAX
    ensures p.AddLiquidity(provider, a, b, aMin, bMin).Some? ==>
      var (q, minted) := p.AddLiquidity(provider, a, b, aMin, bMin).value;
      IsRoot(a * b, minted + 1000) && Deposited(p, q, provider, a, b, minted)
  {
    if a > 0 && b > 0 {
      ProductMonotone(1, a, 1, b);
      RootAtMostArgument(a * b);
    }
    if p.AddLiquidity(provider, a, b, aMin, bMin).Some? {
      DepositCredits(p, provider, a, b, aMin, bMin);
    }
  }

  /** A later deposit, into any pool with a supply, is held against its own
      quote, and mints in proportion to the first reserve. */
  lemma LaterDepositMints(p: Pool, provider: Address, a: i128, b: i128, aMin: i128, bMin: i128)
    requires p.totalLiquidity != 0 && p.AddLiquidity(provider, a, b, aMin, bMin).Some?
    ensures p.reserveA > 0 && p.reserveB > 0 && a * p.reserveB / p.reserveA >= bMin
    ensures var (q, minted) := p.AddLiquidity(provider, a, b, aMin, bMin).value;
      TruncatedPart(minted, p.totalLiquidity, a, p.reserveA) && Deposited(p, q, provider, a, b, minted)
  {
    DepositCredits(p, provider, a, b, aMin, bMin);
    DepositEffect(p, provider, a, b, aMin, bMin);
    MintedPart(a, p.totalLiquidity, p.reserveA);
    QuotientOfProduct(a, p.reserveB, p.reserveA);
  }

  lemma MintedPart(a: int, t: int, r: int)
    requires a > 0 && r > 0
    ensures MulDiv(a, t, r) == MulDiv(t, a, r)
    ensures MulDiv(a, t, r).Some? <==> I128_MIN <= a * t <= I128_MAX
    ensures MulDiv(a, t, r).Some? ==> TruncatedPart(MulDiv(a, t, r).value, t, a, r) && MulDiv(a, t, r).value == TruncDiv(a * t, r)
  {
    assert a * t == t * a;
    PartTruncated(t, a, r);
    TruncationShrinks(a * t, r);
  }

  lemma TruncationShrinks(n: int, d: int)
    requires d > 0
    ensures if n >= 0 then 0 <= TruncDiv(n, d) <= n else n <= TruncDiv(n, d) <= 0
  {
    if n >= 0 {
      QuotientShrinks(n, d);
    } else {
      QuotientShrinks(0 - n, d);
    }
  }

  lemma QuotientShrinks(n: int, d: int)
    requires n >= 0 && d > 0
    ensures 0 <= n / d <= n
  {
    QuotientBounds(n, d);
    ProductMonotone(n / d, n / d, 1, d);
  }

  lemma LaterDepositAcceptedExactly(p: Pool, provider: Address, a: i128, b: i128, aMin: i128, bMin: i128)
    requires p.totalLiquidity != 0
    ensures p.AddLiquidity(provider, a, b, aMin, bMin).Some? <==>
      && a > 0 && b > 0 && p.reserveA > 0 && p.reserveB > 0
      && a * p.reserveB <= I128_MAX && I128_MIN <= a * p.totalLiquidity <= I128_MAX
      && a * p.reserveB / p.reserveA >= bMin
      && p.reserveA + a <= I128_MAX && p.reserveB + b <= I128_MAX
      && var minted := TruncDiv(a * p.totalLiquidity, p.reserveA);
      && I128_MIN <= p.totalLiquidity + minted <= I128_MAX
      && I128_MIN <= Get(p.liquidity, provider) + minted <= I128_MAX
  {
    if a > 0 && b > 0 && p.reserveA > 0 && p.reserveB > 0 {
      DefinedInRange(a, p.reserveB, p.reserveA);
      QuotientOfProduct(a, p.reserveB, p.reserveA);
      MintedPart(a, p.totalLiquidity, p.reserveA);
    }
  }

  lemma QuotientOfProduct(a: int, b: int, d: int)
    requires a >= 0 && b >= 0 && d > 0
    ensures a * b / d >= 0
    ensures MulDiv(a, b, d).Some? ==> MulDiv(a, b, d).value == a * b / d
  {
    ProductMonotone(0, a, 0, b);
    QuotientBounds(a * b, d);
    FloorOfProduct(a, b, d);
    if MulDiv(a, b, d).Some? {
      FloorIsQuotient(MulDiv(a, b, d).value, a * b, d);
    }
  }

  // ---- removals and the rest ------------------------------------------------

  ghost predicate Removed(p: Pool, q: Pool, provider: Address, shares: i128, paid: (i128, i128))
  {
    && q.reserveA == p.reserveA - paid.0 && q.reserveB == p.reserveB - paid.1
    && q.totalLiquidity == p.totalLiquidity - shares && Moved(p.liquidity, q.liquidity, provider, 0 - shares)
    && SettingsKept(p, q) && q.history == p.history && q.accumulatedFees == p.accumulatedFees && q.drained == p.drained
  }

  /** The removals that go through, from any pool. */
  lemma RemovalAcceptedExactly(p: Pool, provider: Address, shares: i128)
    ensures p.RemoveLiquidity(provider, shares).Some? <==>
      && p.totalLiquidity > 0
      && I128_MIN <= shares * p.reserveA <= I128_MAX && I128_MIN <= shares * p.reserveB <= I128_MAX
      && I128_MIN <= p.reserveA - TruncDiv(shares * p.reserveA, p.totalLiquidity) <= I128_MAX
      && I128_MIN <= p.reserveB - TruncDiv(shares * p.reserveB, p.totalLiquidity) <= I128_MAX
      && I128_MIN <= p.totalLiquidity - shares <= I128_MAX
      && I128_MIN <= Get(p.liquidity, provider) - shares <= I128_MAX
  {
    if p.totalLiquidity > 0 {
      TruncationShrinks(shares * p.reserveA, p.totalLiquidity);
      TruncationShrinks(shares * p.reserveB, p.totalLiquidity);
    }
  }

  /** A removal pays the part of each reserve, rounded toward zero. */
  lemma RemovalPays(p: Pool, provider: Address, shares: i128)
    requires p.reserveA >= 0 && p.reserveB >= 0 && p.RemoveLiquidity(provider, shares).Some?
    ensures var (q, paid) := p.RemoveLiquidity(provider, shares).value;
      && p.totalLiquidity > 0 && Removed(p, q, provider, shares, paid)
      && TruncatedPart(paid.0, shares, p.reserveA, p.totalLiquidity)
      && TruncatedPart(paid.1, shares, p.reserveB, p.totalLiquidity)
  {
    var paid := p.RemoveLiquidity(provider, shares).value.1;
    PartTruncated(shares, p.reserveA, p.totalLiquidity);
    PartTruncated(shares, p.reserveB, p.totalLiquidity);
  }

  predicate TruncatedPart(paid: int, shares: int, r: int, t: int)
  {
    if shares >= 0 then paid * t <= shares * r < (paid + 1) * t else (paid - 1) * t < shares * r <= paid * t
  }

  lemma PartTruncated(shares: int, r: int, t: int)
    requires r >= 0 && t > 0
    ensures MulDiv(shares, r, t).Some? ==> TruncatedPart(MulDiv(shares, r, t).value, shares, r, t)
  {
    if shares >= 0 {
      FloorOfProduct(shares, r, t);
    } else {
      CeilingOfProduct(shares, r, t);
    }
  }

  /** The calls that move no share: a collection touches the fee slot alone,
      and a drain clears the reserves and the supply, and marks the pool. */
  lemma CollectAndDrainExact(p: Pool)
    ensures var q := Step(p, Collect);
      q == p.(accumulatedFees := q.accumulatedFees) && (q != p ==> q.accumulatedFees == UntypedZero)
    ensures var q := Step(p, Drain);
      && q.reserveA == 0 && q.reserveB == 0 && q.totalLiquidity == 0 && q.drained
      && q.liquidity == p.liquidity && q.history == p.history && q.accumulatedFees == p.accumulatedFees && SettingsKept(p, q)
  {
  }

  /** A first deposit and a swap each way, in figures. */
  lemma FigureRun()
    ensures var p := Run(INITIAL, [Add("p", 1_000_000_000, 1_000_000_000, 0, 0)]);
      && p.totalLiquidity == 999_999_000 && !p.drained
      && p.SwapAmounts("BST", 1_000_000_000, 0) == Some((997_000_000, 2999))
      && p.SwapAmounts("XLM", 1_000_000_000, 0) == Some((997_000_000, 2999))
  {
    var a := 1_000_000_000;
    LargeFounding();
    FoundedPrice(Run(INITIAL, [Add("p", a, a, 0, 0)]));
  }

  lemma LargeFounding()
    ensures Run(INITIAL, [Add("p", 1_000_000_000, 1_000_000_000, 0, 0)]) == Founded(1_000_000_000, 1_000_000_000, 999_999_000)
  {
    Founding(1_000_000_000, 1_000_000_000, 1_000_000_000);
  }

  lemma FoundedPrice(p: Pool)
    requires p.reserveA == p.reserveB == 1_000_000_000 && p.swapEnabled && p.feeNumerator == 3
    ensures p.SwapAmounts("BST", 1_000_000_000, 0) == Some((997_000_000, 2999))
    ensures p.SwapAmounts("XLM", 1_000_000_000, 0) == Some((997_000_000, 2999))
  {
    FeeDefined(p, 1_000_000_000);
    TradedPart(p, 1_000_000_000);
    PayoutFigure();
  }

  lemma PayoutFigure()
    ensures Payout(3_000_000, 1_000_000_000, 1_000_000_000) == Some(2999)
  {
    PayoutQuotient(3_000_000, 1_000_000_000, 1_000_000_000);
  }
}
