/** Integer square roots: what they are, the two Newton loops that compute
    them, and the laws that quadratic voting rests on. */
module SquareRoot {
  import opened Panics
  import opened Integers
  import opened Sums

  predicate IsRoot(x: int, r: int)
  {
    0 <= r && r * r <= x < (r + 1) * (r + 1)
  }

  /** The floor square root, counted up one number at a time. */
  function Isqrt(x: nat): (r: nat)
    ensures IsRoot(x, r)
  {
    if x == 0 then 0 else
      var r := Isqrt(x - 1);
      if (r + 1) * (r + 1) <= x then r + 1 else r
  }

  /** A number whose square is at most x is at most the root, and only then. */
  lemma RootIsLargest(x: nat, r: nat, n: nat)
    requires IsRoot(x, r)
    ensures n <= r <==> n * n <= x
  {
    if n <= r {
      ProductMonotone(n, r, n, r);
    } else {
      ProductMonotone(r + 1, n, r + 1, n);
    }
  }

  lemma RootUnique(x: nat, r: nat, s: nat)
    requires IsRoot(x, r) && IsRoot(x, s)
    ensures r == s
  {
    RootIsLargest(x, r, s);
    RootIsLargest(x, s, r);
  }

  /** One Newton step from any positive estimate lands at or above the root,
      and it fails to go down only at an estimate at or below the root. */
  lemma NewtonStep(x: nat, n: nat)
    requires n > 0
    ensures var next := (n + x / n) / 2;
      x < (next + 1) * (next + 1) && (next >= n ==> n * n <= x)
  {
    var q := x / n;
    QuotientBounds(x, n);
    NewtonStepFrom(x, n, q, (n + q) / 2);
  }

  lemma NewtonStepFrom(x: nat, n: nat, q: nat, next: nat)
    requires q * n <= x < (q + 1) * n
    requires 2 * next <= n + q < 2 * (next + 1)
    ensures x < (next + 1) * (next + 1)
    ensures next >= n ==> n * n <= x
  {
    var k := next + 1;
    SquareOfSum(n, q + 1);
    ProductMonotone(n + q + 1, 2 * k, n + q + 1, 2 * k);
    SquareOfProduct(2, k);
    assert 4 * (n * (q + 1)) <= (n + (q + 1)) * (n + (q + 1));
    if next >= n {
      ProductMonotone(n, n, n, q);
    }
  }

  /** What the pool's loop knows: y is at or above the root, and z is the
      estimate that follows it. */
  ghost predicate Descending(x: nat, y: int, z: int)
  {
    0 < y <= x && x < (y + 1) * (y + 1) && z > 0 && z == (y + x / y) / 2
  }

  lemma DescendingStarts(x: nat)
    requires x > 0
    ensures Descending(x, x, (x + 1) / 2)
  {
    assert x / x == 1;
    ProductMonotone(1, x + 1, x + 1, x + 1);
  }

  lemma DescendingStep(x: nat, y: int, z: int)
    requires Descending(x, y, z) && z < y
    ensures 1 <= x / z && z + x / z <= x + 1
    ensures z < x ==> Descending(x, z, (z + x / z) / 2)
  {
    NewtonStep(x, y);
    QuotientPositive(x, z);
  }

  lemma DescendingStops(x: nat, y: int, z: int)
    requires Descending(x, y, z) && z >= y
    ensures y == Isqrt(x)
  {
    NewtonStep(x, y);
    RootUnique(x, y, Isqrt(x));
  }

  /** The pool's loop. Every value the loop stores or adds up is held in an
      i128 variable, so the method also proves that no operation overflows;
      the one argument that panics is the largest i128, at `x + 1`. A negative
      argument comes back unchanged. */
  method PoolSqrt(x: i128) returns (r: Option<i128>)
    ensures r.None? <==> x == I128_MAX
    ensures r.Some? && x < 0 ==> r.value == x
    ensures r.Some? && x >= 0 ==> r.value == Isqrt(x)
  {
    if x == 0 {
      return Some(0);
    }
    var start: i128 :- Checked(x + 1);
    var z: i128 := TruncDiv(start, 2);
    var y: i128 := x;
    if x > 0 { DescendingStarts(x); }
    while z < y
      invariant x < 0 ==> z >= y == x
      invariant x > 0 ==> Descending(x, y, z)
      decreases y
    {
      DescendingStep(x, y, z);
      y := z;
      var quotient: i128 := x / z;
      var total: i128 := z + quotient;
      z := total / 2;
    }
    if x > 0 { DescendingStops(x, y, z); }
    r := Some(y);
  }

  /** Division by an estimate no larger than x leaves something. */
  lemma QuotientPositive(x: int, n: int)
    requires 0 < n <= x
    ensures x / n >= 1
    ensures n + x / n <= x + 1
  {
    var q := x / n;
    QuotientBounds(x, n);
    CompareScaled(1, q + 1, n);
    ProductMonotone(0, n - 1, 0, q - 1);
    assert (n - 1) * (q - 1) == n * q - n - q + 1;
  }

  /** The voting loop. The panic at the largest i128 contradicts the comment
      "safe for all i128 non-negative values" at voting.rs:487. */
  method IntegerSqrt(x: i128) returns (r: Option<i128>)
    ensures r.None? <==> x == I128_MAX
    ensures r.Some? ==> r.value == (if x <= 0 then 0 else Isqrt(x))
  {
    if x <= 0 {
      return Some(0);
    }
    if x < 4 {
      RootUnique(x, 1, Isqrt(x));
      return Some(1);
    }
    var n: i128 := x;
    while true
      invariant 0 < n <= x < (n + 1) * (n + 1)
      invariant x == I128_MAX ==> n == x
      decreases n
    {
      QuotientPositive(x, n);
      var quotient: i128 := x / n;
      var total: i128 :- Checked(n + quotient);
      var n1: i128 := total / 2;
      NewtonStep(x, n);
      if n1 >= n {
        RootUnique(x, n, Isqrt(x));
        return Some(n);
      }
      n := n1;
    }
  }

  lemma RootMonotone(a: nat, b: nat)
    requires a <= b
    ensures Isqrt(a) <= Isqrt(b)
  {
    RootIsLargest(b, Isqrt(b), Isqrt(a));
  }

  /** A root never exceeds its argument, and reaches it only at 0 and 1. */
  lemma RootAtMostArgument(a: nat)
    ensures Isqrt(a) <= a
    ensures Isqrt(a) == a <==> a <= 1
  {
    var r := Isqrt(a);
    if r > 1 {
      ProductMonotone(2, r, r, r);
    } else if a == 1 {
      RootUnique(1, 1, r);
    }
  }

  lemma RootBetween(x: nat, low: nat, high: nat)
    requires low * low <= x < high * high
    ensures low <= Isqrt(x) < high
  {
    RootIsLargest(x, Isqrt(x), low);
    RootIsLargest(x, Isqrt(x), high);
  }

  lemma RootSubadditive(a: nat, b: nat)
    ensures Isqrt(a + b) <= Isqrt(a) + Isqrt(b)
  {
    var r, s := Isqrt(a), Isqrt(b);
    PastTheSum(a, b, r, s);
    RootBetween(a + b, 0, r + s + 1);
  }

  lemma PastTheSum(a: nat, b: nat, r: nat, s: nat)
    requires a < (r + 1) * (r + 1) && b < (s + 1) * (s + 1)
    ensures a + b < (r + s + 1) * (r + s + 1)
  {
    SquareOfSum(r + 1, s);
    SquareOfSum(s, 1);
    assert (r + 1) * s == r * s + s;
    ProductMonotone(0, r, 0, s);
  }

  /** Scaling a balance by c*c scales its root by c, up to c - 1. */
  lemma RootScales(b: nat, c: nat)
    requires c >= 1
    ensures c * Isqrt(b) <= Isqrt(c * c * b) <= c * Isqrt(b) + c - 1
  {
    SquareScaled(b, c);
    ScaledRootBetween(b, c, c * c * b);
  }

  lemma SquareScaled(b: nat, c: nat)
    requires c >= 1
    ensures c * c > 0
    ensures 0 <= c * c * b == b * (c * c)
  {
    ScalePositive(c, c);
    ProductMonotone(0, b, 0, c * c);
    assert c * c * b == b * (c * c);
  }

  lemma ScaledRootBetween(b: nat, c: nat, x: nat)
    requires c >= 1 && c * c > 0 && x == b * (c * c)
    ensures c * Isqrt(b) <= Isqrt(x) <= c * Isqrt(b) + c - 1
  {
    var r := Isqrt(b);
    var low, high := c * r, c * (r + 1);
    NextMultiple(c, r);
    CompareScaledSquares(b, c, x, r, low);
    CompareScaledSquares(b, c, x, r + 1, high);
    RootBetween(x, low, high);
  }

  lemma NextMultiple(c: nat, r: nat)
    ensures 0 <= c * r && c * (r + 1) == c * r + c
  {
    ProductMonotone(0, c, 0, r);
  }

  lemma CompareScaledSquares(b: nat, c: nat, x: nat, n: nat, scaled: nat)
    requires c * c > 0 && x == b * (c * c) && scaled == c * n
    ensures n * n <= b <==> scaled * scaled <= x
  {
    SquareOfProduct(n, c);
    assert scaled == n * c;
    CompareScaled(n * n, b, c * c);
  }

  function Roots(balances: seq<nat>): (roots: seq<int>)
  {
    seq(|balances|, i requires 0 <= i < |balances| => Isqrt(balances[i]))
  }

  /** However a balance is split over accounts, the accounts together carry at
      least the quadratic weight of the whole, and at most the weight that an
      even split would give: the square of their total is at most the number
      of accounts times the balance. */
  lemma {:induction false} SplittingBounds(balances: seq<nat>)
    ensures SeqSum(balances) >= 0
    ensures Isqrt(SeqSum(balances)) <= SeqSum(Roots(balances))
    ensures SeqSum(Roots(balances)) * SeqSum(Roots(balances)) <= |balances| * SeqSum(balances)
  {
    if balances == [] {
      RootUnique(0, 0, Isqrt(0));
    } else {
      var n := |balances| - 1;
      var rest, last := balances[..n], balances[n];
      SplittingBounds(rest);
      var roots := Roots(balances);
      assert roots[..n] == Roots(rest);
      RootSubadditive(SeqSum(rest), last);
      AddToPowerMean(n, SeqSum(Roots(rest)), SeqSum(rest), Isqrt(last), last);
    }
  }

  /** One more account keeps the square of the total below the count times the
      balance. */
  lemma AddToPowerMean(n: nat, s: int, q: int, r: int, b: int)
    requires 0 <= r && r * r <= b && q >= 0
    requires s * s <= n * q
    ensures (s + r) * (s + r) <= (n + 1) * (q + b)
  {
    SquareOfSum(s, r);
    CompareScaled(r * r, b, n + 1);
    assert (n + 1) * (q + b) == n * q + q + (n + 1) * b;
    if n == 0 {
      assert s == 0;
    } else {
      PowerMeanGap(n, s, q, r);
      assert (n + 1) * (r * r) == n * (r * r) + r * r;
    }
  }

  lemma PowerMeanGap(n: int, s: int, q: int, r: int)
    requires n > 0 && s * s <= n * q
    ensures 2 * (s * r) <= q + n * (r * r)
  {
    var gap := q + n * (r * r) - 2 * (s * r);
    SquareOfSum(s, n * r);
    ProductSwap(s, n, r);
    SquareOfProduct(n, r);
    ProductSwap(n, n, r * r);
    assert n * gap == n * q + n * (n * (r * r)) - 2 * (n * (s * r));
    CompareScaled(0, gap, n);
  }
}
