/** Failure-compatible results. A contract entry point that panics is rolled
    back by the host, so a panic is the single failure value. */
module Panics {

  datatype Option<+T> = None | Some(value: T) {
    predicate IsFailure() { None? }

    function PropagateFailure<U>(): Option<U>
      requires None?
    { None }

    function Extract(): T
      requires Some?
    { value }
  }

  /** An `assert!` in an entry point. */
  function Require(condition: bool): Option<()>
  {
    if condition then Some(()) else None
  }

  /** What an entry point on storage owes to its specification: a commit of
      the specified state and answer, or a panic that leaves storage alone. */
  ghost predicate Commits<S, T>(spec: Option<(S, T)>, before: S, after: S, answer: Option<T>)
  {
    match spec
    case None => answer.None? && after == before
    case Some((next, value)) => answer == Some(value) && after == next
  }
}

/** Host types shared by the contracts. */
module Host {
  type Address = string
  type Symbol = string
}

/** The machine integers of the contracts. Every build profile of the
    workspace turns overflow checks on, so an operation whose exact result
    leaves the range of its type panics. */
module Integers {
  import opened Panics

  function PowerOfTwo(n: nat): (p: int)
    ensures p > 0
  {
    if n == 0 then 1 else 2 * PowerOfTwo(n - 1)
  }

  lemma {:induction false} PowersMultiply(m: nat, n: nat)
    ensures PowerOfTwo(m + n) == PowerOfTwo(m) * PowerOfTwo(n)
  {
    if m > 0 { PowersMultiply(m - 1, n); }
  }

  lemma Powers()
    ensures PowerOfTwo(16) == 0x1_0000
    ensures PowerOfTwo(63) == 0x8000_0000_0000_0000
  {
    assert PowerOfTwo(4) == 16;
    PowersMultiply(4, 4);
    PowersMultiply(8, 8);
    PowersMultiply(16, 16);
    PowersMultiply(4, 3);
    PowersMultiply(8, 7);
    PowersMultiply(16, 15);
    PowersMultiply(32, 31);
  }

  /** The largest i128. Proofs use no more about it than that it is large; the
      range in figures is stated once, in RangeInFigures. */
  function MaxI128(): (max: int)
    ensures max >= 0x7FFF_FFFF_FFFF_FFFF
  {
    Powers();
    PowersMultiply(64, 63);
    ProductMonotone(1, PowerOfTwo(64), PowerOfTwo(63), PowerOfTwo(63));
    PowerOfTwo(127) - 1
  }

  const I128_MAX: int := MaxI128()
  const I128_MIN: int := -I128_MAX - 1

  lemma RangeInFigures()
    ensures I128_MAX == 0x7FFF_FFFF_FFFF_FFFF_FFFF_FFFF_FFFF_FFFF
    ensures I128_MIN == -0x8000_0000_0000_0000_0000_0000_0000_0000
    ensures U32_MAX == PowerOfTwo(32) - 1 && U64_MAX == PowerOfTwo(64) - 1
  {
    Powers();
    PowersMultiply(16, 16);
    PowersMultiply(1, 63);
    PowersMultiply(64, 63);
  }

  lemma WideRange()
    ensures I128_MAX >= 1_000_000_000_000_000_000_000_000
  {
    RangeInFigures();
  }

  const U32_MAX: int := 0xFFFF_FFFF
  const U64_MAX: int := 0xFFFF_FFFF_FFFF_FFFF

  type i128 = x: int | I128_MIN <= x <= I128_MAX witness 0
  type u32 = x: int | 0 <= x <= U32_MAX
  type u64 = x: int | 0 <= x <= U64_MAX

  /** An i128 operation whose exact result is x. */
  function Checked(x: int): Option<i128>
  {
    if I128_MIN <= x <= I128_MAX then Some(x) else None
  }

  function CheckedU32(x: int): Option<u32>
  {
    if 0 <= x <= U32_MAX then Some(x) else None
  }

  function CheckedU64(x: int): Option<u64>
  {
    if 0 <= x <= U64_MAX then Some(x) else None
  }

  /** The saturating i128 operation whose exact result is x. */
  function Saturated(x: int): i128
  {
    if x < I128_MIN then I128_MIN else if x > I128_MAX then I128_MAX else x
  }

  function Min(a: int, b: int): int { if a <= b then a else b }

  function Max(a: int, b: int): int { if a >= b then a else b }

  /** Division that truncates toward zero, the meaning of `/` on i128. */
  function TruncDiv(a: int, b: int): (q: int)
    requires b != 0
    ensures a >= 0 && b > 0 ==> q * b <= a < (q + 1) * b
    ensures a < 0 && b > 0 ==> (q - 1) * b < a <= q * b
  {
    if a >= 0 then a / b else -(-a / b)
  }

  /** `checked_mul_div_i128`: a checked product, then a truncating division. */
  function MulDiv(a: int, b: int, d: int): Option<i128>
  {
    var product :- Checked(a * b);
    var _ :- Require(d != 0);
    Checked(TruncDiv(product, d))
  }

  /** The floor of a non-negative quotient is the one integer that the two
      inequalities allow. */
  lemma QuotientUnique(a: int, b: int, q: int, r: int)
    requires b > 0
    requires q * b <= a < (q + 1) * b
    requires r * b <= a < (r + 1) * b
    ensures q == r
  {
    CompareScaled(q + 1, r, b);
    CompareScaled(r + 1, q, b);
  }

  lemma QuotientBounds(a: int, b: int)
    requires b > 0
    ensures a / b * b <= a < (a / b + 1) * b
    ensures a >= 0 ==> a / b >= 0
  {
    assert a == b * (a / b) + a % b;
  }

  /** A positive factor can be put on both sides of an ordering or cancelled. */
  lemma CompareScaled(a: int, b: int, c: int)
    requires c > 0
    ensures a <= b <==> a * c <= b * c
    ensures a < b <==> a * c < b * c
  {
    if a < b {
      ScalePositive(b - a, c);
    } else if b < a {
      ScalePositive(a - b, c);
    }
  }

  lemma ScalePositive(d: int, c: int)
    requires c > 0 && d > 0
    ensures d * c > 0
  {
  }

  lemma ProductMonotone(a: int, b: int, c: int, d: int)
    requires 0 <= a <= b && 0 <= c <= d
    ensures 0 <= a * c <= b * d
  {
    assert a * c <= b * c;
    assert b * c <= b * d;
  }

  lemma SquareOfSum(a: int, b: int)
    ensures (a + b) * (a + b) == a * a + 2 * (a * b) + b * b
    ensures (a - b) * (a - b) == a * a - 2 * (a * b) + b * b
    ensures 0 <= a * a - 2 * (a * b) + b * b
  {
    assert (a + b) * (a + b) == a * (a + b) + b * (a + b);
    assert (a - b) * (a - b) == a * (a - b) - b * (a - b);
  }

  lemma ProductSwap(a: int, b: int, c: int)
    ensures (a * b) * c == a * (b * c) == b * (a * c) == (a * c) * b
  {
  }

  lemma SquareOfProduct(a: int, b: int)
    ensures (a * b) * (a * b) == (a * a) * (b * b)
  {
    ProductSwap(a, b, a * b);
    ProductSwap(a, b, b);
    ProductSwap(a, a, b * b);
  }
}

/** Sums over finite maps and sequences of amounts. */
module Sums {

  /** The amount stored under a key, with the contracts' default of zero. */
  function Get<K>(m: map<K, int>, k: K): int
  {
    if k in m then m[k] else 0
  }

  ghost function MapSum<K>(m: map<K, int>): int
    decreases |m|
  {
    if m == map[] then 0 else
      var k :| k in m;
      assert |m - {k}| < |m| by { RemoveShrinks(m, k); }
      m[k] + MapSum(m - {k})
  }

  lemma RemoveShrinks<K>(m: map<K, int>, k: K)
    requires k in m
    ensures |m - {k}| == |m| - 1
  {
    assert (m - {k}).Keys == m.Keys - {k};
    assert |m.Keys - {k}| == |m.Keys| - 1;
    assert |m| == |m.Keys| && |m - {k}| == |(m - {k}).Keys|;
  }

  /** The sum does not depend on the key that is taken out first. */
  lemma {:induction false} MapSumTake<K>(m: map<K, int>, k: K)
    requires k in m
    ensures MapSum(m) == m[k] + MapSum(m - {k})
    decreases |m|
  {
    var j :| j in m && MapSum(m) == m[j] + MapSum(m - {j});
    if j != k {
      RemoveShrinks(m, j);
      RemoveShrinks(m, k);
      MapSumTake(m - {j}, k);
      MapSumTake(m - {k}, j);
      assert m - {j} - {k} == m - {k} - {j};
    }
  }

  /** Overwriting one entry changes the sum by the difference. */
  lemma MapSumSet<K>(m: map<K, int>, k: K, v: int)
    ensures MapSum(m[k := v]) == MapSum(m) - Get(m, k) + v
  {
    MapSumTake(m[k := v], k);
    assert m[k := v] - {k} == m - {k};
    if k in m {
      MapSumTake(m, k);
    } else {
      assert m - {k} == m;
    }
  }

  lemma {:induction false} SumNonNegative<K>(m: map<K, int>)
    requires forall k :: k in m ==> m[k] >= 0
    ensures MapSum(m) >= 0
    decreases |m|
  {
    if m != map[] {
      var k :| k in m;
      RemoveShrinks(m, k);
      MapSumTake(m, k);
      SumNonNegative(m - {k});
    }
  }

  /** Of non-negative amounts none is more than all. */
  lemma EntryAtMostSum<K>(m: map<K, int>, k: K)
    requires forall j :: j in m ==> m[j] >= 0
    ensures 0 <= Get(m, k) <= MapSum(m)
  {
    SumNonNegative(m);
    if k in m {
      MapSumTake(m, k);
      SumNonNegative(m - {k});
    }
  }

  function SeqSum(s: seq<int>): int
  {
    if s == [] then 0 else SeqSum(s[..|s| - 1]) + s[|s| - 1]
  }

  lemma SeqSumAppend(s: seq<int>, x: int)
    ensures SeqSum(s + [x]) == SeqSum(s) + x
  {
    assert (s + [x])[..|s|] == s;
  }
}

/** Lists without duplicates, as the contracts keep them for their indexes. */
module Lists {

  ghost predicate NoDuplicates<T>(s: seq<T>)
  {
    forall i, j :: 0 <= i < j < |s| ==> s[i] != s[j]
  }

  /** The list without the first occurrence of x. */
  function RemoveFirst<T(==)>(s: seq<T>, x: T): seq<T>
  {
    if s == [] then []
    else if s[0] == x then s[1..]
    else [s[0]] + RemoveFirst(s[1..], x)
  }

  lemma {:induction false} FirstPosition<T>(s: seq<T>, x: T) returns (i: nat)
    requires x in s
    ensures i < |s| && s[i] == x && x !in s[..i]
  {
    if s[0] == x {
      i := 0;
    } else {
      var j := FirstPosition(s[1..], x);
      i := j + 1;
      assert s[..i] == [s[0]] + s[1..][..j];
    }
  }

  lemma {:induction false} RemoveFirstAt<T>(s: seq<T>, x: T, i: nat)
    requires i < |s| && s[i] == x && x !in s[..i]
    ensures RemoveFirst(s, x) == s[..i] + s[i + 1..]
  {
    if i > 0 {
      assert s[0] in s[..i];
      assert s[1..][..i - 1] == s[..i][1..];
      RemoveFirstAt(s[1..], x, i - 1);
      assert s[..i] == [s[0]] + s[1..][..i - 1];
    }
  }

  lemma {:induction false} RemoveFirstAbsent<T>(s: seq<T>, x: T)
    requires x !in s
    ensures RemoveFirst(s, x) == s
  {
    if s != [] {
      RemoveFirstAbsent(s[1..], x);
    }
  }

  /** From a duplicate-free list exactly x goes. */
  lemma {:induction false} RemoveFirstElements<T>(s: seq<T>, x: T)
    requires NoDuplicates(s)
    ensures NoDuplicates(RemoveFirst(s, x))
    ensures forall y :: y in RemoveFirst(s, x) <==> y in s && y != x
  {
    if s != [] {
      assert forall y :: y in s <==> y == s[0] || y in s[1..];
      if s[0] != x {
        RemoveFirstElements(s[1..], x);
        assert s[0] !in s[1..];
      }
    }
  }

  /** The search for a position and the removal at it, as one loop. */
  method Remove<T(==)>(s: seq<T>, x: T) returns (r: seq<T>)
    ensures r == RemoveFirst(s, x)
  {
    var i := 0;
    while i < |s|
      invariant 0 <= i <= |s| && x !in s[..i]
    {
      if s[i] == x {
        RemoveFirstAt(s, x, i);
        return s[..i] + s[i + 1..];
      }
      i := i + 1;
    }
    RemoveFirstAbsent(s, x);
    r := s;
  }
}
