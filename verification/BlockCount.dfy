/** The number of blocks of an upload, computed as the ceiling of a quotient of doubles.

    Doubles are the reals of the form m * 2^k with |m| < 2^53, and every operation answers a nearest one:
    round-to-nearest of section 4.3.1 of IEEE 754-2008, with ties broken either way.  The exponents used
    here are far inside the range of the format. */
module BlockCount {
  import opened Wrappers

  const P53: nat := 0x20_0000_0000_0000
  const P64: nat := 0x1_0000_0000_0000_0000

  function Pow2(k: nat): (p: nat)
    ensures p >= 1
  {
    if k == 0 then 1 else 2 * Pow2(k - 1)
  }

  ghost predicate Scaled(x: real, m: int, k: nat) {
    -(P53 as int) < m < P53 && (x == m as real * Pow2(k) as real || x * Pow2(k) as real == m as real)
  }

  ghost predicate IsDouble(x: real) {
    exists m: int, k: nat :: k <= 900 && Scaled(x, m, k)
  }

  function Distance(x: real, y: real): real {
    if x < y then y - x else x - y
  }

  // d is what the processor makes of the exact value x.
  ghost predicate Nearest(x: real, d: real) {
    IsDouble(d) && forall other :: IsDouble(other) ==> Distance(d, x) <= Distance(other, x)
  }

  function Ceiling(x: real): int {
    -(-x).Floor
  }

  // The exact number of blocks.
  function Blocks(size: nat, chunk: nat): nat
    requires chunk > 0
  {
    (size + chunk - 1) / chunk
  }

  lemma DivisionBounds(x: nat, c: nat)
    requires c > 0
    ensures (x / c) * c <= x < (x / c) * c + c
  {
    assert x == (x / c) * c + x % c;
  }

  // n blocks cover the file and n - 1 do not.
  lemma BlocksBounds(size: nat, chunk: nat)
    requires chunk > 0
    ensures Blocks(size, chunk) >= 0
    ensures size <= Blocks(size, chunk) * chunk
    ensures (Blocks(size, chunk) - 1) * chunk < size || size == 0
    ensures Blocks(size, chunk) <= size
    ensures size > 0 <==> Blocks(size, chunk) > 0
  {
    var n := Blocks(size, chunk);
    DivisionBounds(size + chunk - 1, chunk);
    assert (n - 1) * chunk == n * chunk - chunk;
    if n >= 1 {
      MulMonotone(1, n, chunk);
      MulMonotone(1, chunk, n - 1);
      assert chunk * (n - 1) == (n - 1) * chunk;
    }
  }

  lemma IntegerIsDouble(n: nat)
    requires n < P53
    ensures IsDouble(n as real)
  {
    assert Scaled(n as real, n, 0);
  }

  lemma ExactIsKept(x: real, d: real)
    requires IsDouble(x) && Nearest(x, d)
    ensures d == x
  {
    assert Distance(d, x) <= Distance(x, x);
  }

  // Rounding does not jump over a double.
  lemma RoundingIsMonotone(x: real, d: real, bound: real)
    requires Nearest(x, d) && IsDouble(bound)
    ensures x <= bound ==> d <= bound
    ensures x >= bound ==> d >= bound
  {
    assert Distance(d, x) <= Distance(bound, x);
  }

  // A double above `low` that is closer to x keeps the rounding of x above `low`.
  lemma RoundingStaysAbove(x: real, d: real, low: real, near: real)
    requires Nearest(x, d) && IsDouble(near) && low < x
    requires Distance(near, x) < x - low
    ensures d > low
  {
    assert Distance(d, x) <= Distance(near, x);
  }

  lemma {:induction false} Pow2Split(e: nat, k: nat)
    ensures Pow2(e + k) == Pow2(e) * Pow2(k)
  {
    if e > 0 {
      Pow2Split(e - 1, k);
      assert e + k - 1 == (e - 1) + k;
      assert 2 * (Pow2(e - 1) * Pow2(k)) == (2 * Pow2(e - 1)) * Pow2(k);
    }
  }

  lemma P53IsPow2()
    ensures Pow2(53) == P53
  {
    assert Pow2(10) == 1024;
    Pow2Split(10, 10);
    Pow2Split(20, 20);
    Pow2Split(40, 10);
    assert Pow2(3) == 8;
    Pow2Split(50, 3);
  }

  lemma P64IsPow2()
    ensures Pow2(64) == P64
  {
    P53IsPow2();
    assert Pow2(11) == 2048;
    Pow2Split(53, 11);
  }

  // The binary exponent of a.
  lemma {:induction false} Exponent(a: nat, limit: nat) returns (e: nat)
    requires 1 <= a < Pow2(limit + 1)
    ensures e <= limit && Pow2(e) <= a < Pow2(e + 1)
    decreases limit
  {
    if Pow2(limit) <= a {
      e := limit;
    } else {
      e := Exponent(a, limit - 1);
    }
  }

  lemma CancelLess(q: nat, x: nat, y: nat)
    requires q * x < q * y
    ensures x < y
  {
    if x >= y { MulMonotone(y, x, q); }
  }

  lemma ScaleBounds(a: nat, q: nat, p: nat, size: nat, chunk: nat, limit: nat)
    requires 1 <= q <= a < 2 * q && 1 <= p && 1 <= chunk
    requires a * chunk < size < limit && q * (2 * p) == limit
    ensures chunk < 2 * p && a * p + 1 < limit
  {
    MulMonotone(q, a, chunk);
    CancelLess(q, chunk, 2 * p);
    if p == 1 {
      MulMonotone(1, chunk, a);
      assert a * chunk == chunk * a;
    } else {
      MulMonotone(a, 2 * q - 1, p);
      assert (2 * q - 1) * p == 2 * q * p - p;
      assert 2 * q * p == q * (2 * p);
    }
  }

  lemma ScaledNext(a: nat, p: nat)
    requires p > 0
    ensures (a as real + 1.0 / p as real) * p as real == (a * p + 1) as real
  {
    assert (1.0 / p as real) * p as real == 1.0;
    assert a as real * p as real == (a * p) as real;
  }

  lemma RealMulMonotone(a: real, b: real, c: real)
    requires a <= b && 0.0 <= c
    ensures a * c <= b * c
  {
  }

  lemma RealMulStrict(a: real, b: real, c: real)
    requires a < b && 0.0 < c
    ensures a * c < b * c
  {
  }

  // s / c is a whole number a and the quotient of what is left.
  lemma QuotientRest(s: real, c: real, a: real)
    requires c > 0.0
    ensures s / c - a == (s - a * c) / c
  {
    assert (s / c) * c == s;
    assert ((s - a * c) / c) * c == s - a * c;
    SameMultiple(s / c - a, (s - a * c) / c, c);
  }

  lemma SameMultiple(x: real, y: real, c: real)
    requires c > 0.0 && x * c == y * c
    ensures x == y
  {
    if x < y { RealMulStrict(x, y, c); }
    if y < x { RealMulStrict(y, x, c); }
  }

  // The reciprocal of a larger number is smaller.
  lemma Reciprocals(c: real, p: real)
    requires 0.0 < c < p
    ensures 0.0 < 1.0 / p < 1.0 / c
  {
    var u, v := 1.0 / p, 1.0 / c;
    assert u * p == 1.0 && v * c == 1.0;
    assert u > 0.0;
    if u >= v {
      RealMulMonotone(v, u, c);
      RealMulStrict(c, p, u);
    }
  }

  lemma RestIsLarge(rest: real, c: real, p: real)
    requires 0.0 < c < 2.0 * p && rest >= 1.0
    ensures 0.0 < 1.0 / p < 2.0 * (rest / c)
  {
    Reciprocals(c / 2.0, p);
    var v := 1.0 / c;
    assert 1.0 / (c / 2.0) == 2.0 * v;
    assert rest / c == rest * v;
    RealMulMonotone(1.0, rest, v);
  }

  // A step of 1 / p from a towards the quotient does not overshoot it by more than a falls short of it.
  lemma Over(size: nat, chunk: nat, p: nat, a: nat)
    requires 0 < chunk < 2 * p && a * chunk < size
    ensures Distance(a as real + 1.0 / p as real, size as real / chunk as real) < size as real / chunk as real - a as real
  {
    assert (a * chunk) as real == a as real * chunk as real;
    QuotientRest(size as real, chunk as real, a as real);
    RestIsLarge((size - a * chunk) as real, chunk as real, p as real);
  }

  /** Between a = n - 1 and the quotient there is room for the double next to a. */
  lemma NextDouble(a: nat, size: nat, chunk: nat) returns (d: real)
    requires 1 <= a && 0 < chunk && a * chunk < size < P53
    ensures IsDouble(d)
    ensures Distance(d, size as real / chunk as real) < size as real / chunk as real - a as real
  {
    P53IsPow2();
    MulMonotone(1, chunk, a);
    assert a * chunk == chunk * a;
    var e := Exponent(a, 52);
    Pow2Split(e, 53 - e);
    ScaleBounds(a, Pow2(e), Pow2(52 - e), size, chunk, Pow2(53));
    d := NextDoubleAt(a, 52 - e, Pow2(52 - e), size, chunk);
  }

  lemma NextIsDouble(a: nat, k: nat, p: nat)
    requires k <= 900 && p == Pow2(k) && a * p + 1 < P53
    ensures IsDouble(a as real + 1.0 / p as real)
  {
    ScaledNext(a, p);
    ScaledIsDouble(a as real + 1.0 / p as real, a * p + 1, k);
  }

  lemma ScaledIsDouble(x: real, m: int, k: nat)
    requires k <= 900 && Scaled(x, m, k)
    ensures IsDouble(x)
  {
  }

  lemma NextDoubleAt(a: nat, k: nat, p: nat, size: nat, chunk: nat) returns (d: real)
    requires k <= 900 && p == Pow2(k) && 0 < chunk < 2 * p && a * p + 1 < P53 && a * chunk < size
    ensures IsDouble(d)
    ensures Distance(d, size as real / chunk as real) < size as real / chunk as real - a as real
  {
    d := a as real + 1.0 / p as real;
    NextIsDouble(a, k, p);
    Over(size, chunk, p, a);
  }

  /** q is a value calculateBlockNumber may take the ceiling of: both operands are converted, then divided. */
  ghost predicate Computed(size: nat, chunk: nat, q: real) {
    exists ds: real, dc: real :: Quotient(size, chunk, ds, dc, q)
  }

  ghost predicate Quotient(size: nat, chunk: nat, ds: real, dc: real, q: real) {
    Nearest(size as real, ds) && Nearest(chunk as real, dc) && dc > 0.0 && Nearest(ds / dc, q)
  }

  lemma PowersAreDoubles()
    ensures IsDouble(P53 as real) && IsDouble(P64 as real) && IsDouble(1.0 / P64 as real)
  {
    P64IsPow2();
    assert Pow2(1) == 2;
    assert Scaled(P53 as real, 0x10_0000_0000_0000, 1);
    assert Scaled(P64 as real, 1, 64);
    assert Scaled(1.0 / P64 as real, 1, 64);
  }

  lemma ConvertedDivisor(chunk: nat, dc: real)
    requires 0 < chunk < P64 && Nearest(chunk as real, dc)
    ensures 1.0 <= dc <= P64 as real
    ensures chunk < P53 ==> dc == chunk as real
    ensures chunk >= P53 ==> dc >= P53 as real
  {
    PowersAreDoubles();
    IntegerIsDouble(1);
    RoundingIsMonotone(chunk as real, dc, 1.0);
    RoundingIsMonotone(chunk as real, dc, P64 as real);
    RoundingIsMonotone(chunk as real, dc, P53 as real);
    if chunk < P53 {
      IntegerIsDouble(chunk);
      ExactIsKept(chunk as real, dc);
    }
  }

  lemma CeilingOf(q: real, n: int)
    requires (n - 1) as real < q <= n as real
    ensures Ceiling(q) == n
  {
  }

  // A quotient in (0, 1] is rounded to a double in (0, 1].
  lemma SingleBlock(x: real, q: real)
    requires 1.0 / P64 as real <= x <= 1.0 && Nearest(x, q)
    ensures Ceiling(q) == 1
  {
    PowersAreDoubles();
    IntegerIsDouble(1);
    RoundingIsMonotone(x, q, 1.0);
    RoundingStaysAbove(x, q, 0.0, 1.0 / P64 as real);
    CeilingOf(q, 1);
  }

  lemma QuotientAtMost(s: real, c: real, n: real)
    requires c > 0.0 && s <= n * c
    ensures s / c <= n
  {
    var r := s / c;
    assert r * c == s;
    if r > n { RealMulStrict(n, r, c); }
  }

  lemma QuotientAtLeast(s: real, c: real, top: real)
    requires 0.0 < c <= top && s >= 1.0
    ensures 1.0 / top <= s / c
  {
    var r, u := s / c, 1.0 / top;
    assert r * c == s && u * top == 1.0;
    assert u > 0.0;
    if r < u {
      RealMulStrict(r, u, c);
      RealMulMonotone(c, top, u);
    }
  }

  // A quotient in (a, a + 1] is rounded to a double in (a, a + 1].
  lemma ManyBlocks(size: nat, chunk: nat, n: nat, q: real)
    requires 0 < chunk && 2 <= n <= size < P53
    requires (n - 1) * chunk < size <= n * chunk
    requires Nearest(size as real / chunk as real, q)
    ensures Ceiling(q) == n
  {
    var x := size as real / chunk as real;
    var d := NextDouble(n - 1, size, chunk);
    RoundingStaysAbove(x, q, (n - 1) as real, d);
    assert size as real <= n as real * chunk as real by { assert (n * chunk) as real == n as real * chunk as real; }
    QuotientAtMost(size as real, chunk as real, n as real);
    IntegerIsDouble(n);
    RoundingIsMonotone(x, q, n as real);
    CeilingOf(q, n);
  }

  lemma SmallFile(size: nat, dc: real, q: real)
    requires 1 <= size && size as real <= dc <= P64 as real && Nearest(size as real / dc, q)
    ensures Ceiling(q) == 1
  {
    QuotientAtLeast(size as real, dc, P64 as real);
    QuotientAtMost(size as real, dc, 1.0);
    SingleBlock(size as real / dc, q);
  }

  lemma OneBlockCovers(size: nat, chunk: nat)
    requires 0 < size <= chunk
    ensures Blocks(size, chunk) == 1
  {
    DivisionBounds(size + chunk - 1, chunk);
    if Blocks(size, chunk) >= 2 { MulMonotone(2, Blocks(size, chunk), chunk); }
  }

  lemma EmptyFile(dc: real, q: real)
    requires dc > 0.0 && Nearest(0.0 / dc, q)
    ensures Ceiling(q) == 0
  {
    IntegerIsDouble(0);
    assert 0.0 / dc == 0.0;
    ExactIsKept(0.0, q);
  }

  lemma SeveralBlocks(size: nat, chunk: nat)
    requires 0 < chunk < size
    ensures var n := Blocks(size, chunk); 2 <= n <= size && (n - 1) * chunk < size <= n * chunk
  {
    BlocksBounds(size, chunk);
    var n := Blocks(size, chunk);
    if n <= 1 { MulMonotone(n, 1, chunk); }
  }

  lemma OperandsAreExact(size: nat, chunk: nat, ds: real, dc: real)
    requires size < P53 && 0 < chunk < P64 && Nearest(size as real, ds) && Nearest(chunk as real, dc)
    ensures ds == size as real
    ensures 1.0 <= dc <= P64 as real && (size <= chunk ==> ds <= dc) && (chunk < size ==> dc == chunk as real)
  {
    IntegerIsDouble(size);
    ExactIsKept(size as real, ds);
    ConvertedDivisor(chunk, dc);
  }

  /** Below 2^53 bytes the ceiling of the rounded quotient of the rounded operands is the exact number of blocks. */
  lemma RoundedQuotientCounts(size: nat, chunk: nat, ds: real, dc: real, q: real)
    requires size < P53 && 0 < chunk < P64 && Quotient(size, chunk, ds, dc, q)
    ensures Ceiling(q) == Blocks(size, chunk)
  {
    OperandsAreExact(size, chunk, ds, dc);
    if size == 0 {
      BlocksBounds(size, chunk);
      EmptyFile(dc, q);
    } else if size <= chunk {
      OneBlockCovers(size, chunk);
      SmallFile(size, dc, q);
    } else {
      SeveralBlocks(size, chunk);
      ManyBlocks(size, chunk, Blocks(size, chunk), q);
    }
  }

  /** The same for whatever calculateBlockNumber may come to. */
  lemma BlockCountIsExact(size: nat, chunk: nat, q: real)
    requires size < P53 && 0 < chunk < P64 && Computed(size, chunk, q)
    ensures Ceiling(q) == Blocks(size, chunk)
  {
    var ds: real, dc: real :| Quotient(size, chunk, ds, dc, q);
    RoundedQuotientCounts(size, chunk, ds, dc, q);
  }

  /** The bytes slot_send_next_block takes for block s of n. */
  function BlockSize(size: nat, chunk: nat, n: nat, s: nat): int {
    if s != n then chunk else size - (n - 1) * chunk
  }

  function BytesOfBlocks(size: nat, chunk: nat, n: nat, k: nat): int {
    if k == 0 then 0 else BytesOfBlocks(size, chunk, n, k - 1) + BlockSize(size, chunk, n, k)
  }

  /** The last block never underflows, holds between 1 and chunk bytes, and all blocks add up to the file. */
  lemma {:induction false} BlocksAddUp(size: nat, chunk: nat, q: real, k: nat)
    requires 0 < size < P53 && 0 < chunk < P64 && Computed(size, chunk, q) && k <= Ceiling(q)
    ensures 1 <= BlockSize(size, chunk, Ceiling(q), Ceiling(q)) <= chunk
    ensures BytesOfBlocks(size, chunk, Ceiling(q), k) == if k == Ceiling(q) then size else k * chunk
  {
    BlockCountIsExact(size, chunk, q);
    BlocksBounds(size, chunk);
    var n := Blocks(size, chunk);
    assert (n - 1) * chunk == n * chunk - chunk;
    if k > 0 {
      BlocksAddUp(size, chunk, q, k - 1);
      assert (k - 1) * chunk == k * chunk - chunk;
    }
  }

  // A double no larger than its scaled-up integer is below 2^53.
  lemma SmallDouble(d: real, m: int, p: nat)
    requires p >= 1 && m < P53 && d * p as real == m as real
    ensures d < P53 as real
  {
    if d > 0.0 { RealMulMonotone(1.0, p as real, d); }
  }

  // A double that is an integer times a larger power of two is even.
  lemma LargeDouble(d: real, m: int, k: nat)
    requires k > 0 && d == m as real * Pow2(k) as real
    ensures d == (2 * (m * Pow2(k - 1))) as real
  {
    var h := Pow2(k - 1);
    assert Pow2(k) == 2 * h;
    assert m * (2 * h) == 2 * (m * h);
    assert d == (m * (2 * h)) as real;
  }

  // Above 2^53 every double is an even integer.
  lemma NoDoubleAbove(d: real)
    requires IsDouble(d)
    ensures !(P53 as real < d < P53 as real + 2.0)
  {
    var m: int, k: nat :| k <= 900 && Scaled(d, m, k);
    NoScaledAbove(d, m, k);
  }

  lemma NoScaledAbove(d: real, m: int, k: nat)
    requires Scaled(d, m, k)
    ensures !(P53 as real < d < P53 as real + 2.0)
  {
    if d * Pow2(k) as real == m as real {
      SmallDouble(d, m, Pow2(k));
    } else if k > 0 {
      LargeDouble(d, m, k);
    }
  }

  /** The bound is tight: for 2^53 + 1 bytes in blocks of one byte the program may count one block too few. */
  lemma ExactOnlyBelow2To53()
    ensures Computed(P53 + 1, 1, P53 as real)
    ensures Ceiling(P53 as real) == Blocks(P53 + 1, 1) - 1
  {
    var d := P53 as real;
    PowersAreDoubles();
    IntegerIsDouble(1);
    forall other: real | IsDouble(other)
      ensures Distance(d, (P53 + 1) as real) <= Distance(other, (P53 + 1) as real)
    {
      NoDoubleAbove(other);
    }
    assert Nearest((P53 + 1) as real, d);
    assert Nearest(1.0, 1.0) && Nearest(d / 1.0, d);
    assert Quotient(P53 + 1, 1, d, 1.0, d);
  }
}
