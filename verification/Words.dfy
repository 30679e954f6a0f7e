/** Machine words, saturating arithmetic and wrap-around sequence distance.

    Every C expression is modelled over the subset types below, so writing an
    unguarded sum or product at one of these types obliges the verifier to show
    that the C expression does not overflow. */
module Words {

  const U32_MAX: int := 0xFFFF_FFFF
  const U64_MAX: int := 0xFFFF_FFFF_FFFF_FFFF
  const TWO31: int := 0x8000_0000
  const TWO32: int := 0x1_0000_0000
  const NS_PER_SEC: int := 1_000_000_000

  type u16 = x: int | 0 <= x <= 0xFFFF
  type u32 = x: int | 0 <= x <= 0xFFFF_FFFF
  type u64 = x: int | 0 <= x <= 0xFFFF_FFFF_FFFF_FFFF

  function Min(a: int, b: int): int { if a < b then a else b }
  function Max(a: int, b: int): int { if a > b then a else b }

  function SatAdd(a: u64, b: u64): (r: u64)
    ensures r == Min(a + b, U64_MAX)
  {
    if U64_MAX - a < b then U64_MAX else a + b
  }

  /** Product, quotient and remainder as named operations, so that a proof can
      hide their meaning and reason about the surrounding linear arithmetic. */
  function Mul(a: int, b: int): int { a * b }
  function Div(a: int, d: int): int
    requires d > 0
  { a / d }
  function Mod(a: int, d: int): int
    requires d > 0
  { a % d }

  lemma MulNonNegative(a: nat, b: nat)
    ensures 0 <= a * b
  {
  }

  lemma MulZero(a: int)
    ensures Mul(a, 0) == 0 && Mul(0, a) == 0
  {
  }

  lemma DivFacts(a: nat, d: nat)
    requires d > 0
    ensures 0 <= a / d <= a && 0 <= a % d < d
  {
    assert a == (a / d) * d + a % d;
    if a / d > 0 { MulMono(1, d, a / d); }
  }

  function SatMul(a: u64, b: u64): (r: u64)
    ensures r == Min(Mul(a, b), U64_MAX)
  {
    if a == 0 || b == 0 then 0
    else if MulOverflows(a, b) then U64_MAX else a * b
  }

  /** The C overflow guard `a > UINT64_MAX / b`. */
  predicate MulOverflows(a: u64, b: u64): (over: bool)
    requires b > 0
    ensures over <==> Mul(a, b) > U64_MAX
  {
    QuotientBound(a, b, U64_MAX);
    a > U64_MAX / b
  }

  /** The overflow guard `a > limit / b` is exact. */
  lemma QuotientBound(a: nat, b: nat, limit: nat)
    requires b > 0
    ensures a > limit / b <==> a * b > limit
  {
    var q, r := limit / b, limit % b;
    assert limit == q * b + r;
    if a > q {
      assert a * b >= (q + 1) * b by { MulMono(q + 1, a, b); }
    } else {
      assert a * b <= q * b by { MulMono(a, q, b); }
    }
  }

  lemma MulMono(a: int, b: int, c: nat)
    requires a <= b
    ensures a * c <= b * c
  {
    assert (b - a) * c >= 0;
  }

  function CeilDiv(n: nat, d: nat): (r: nat)
    requires d > 0
  {
    n / d + (if n % d != 0 then 1 else 0)
  }

  /** Adding a whole multiple of the divisor moves only the quotient. */
  lemma DivOfMultiplePlus(q: int, n: int, d: int)
    requires d > 0
    ensures (q * d + n) / d == q + n / d
    ensures (q * d + n) % d == n % d
  {
    var m := q * d + n;
    var k, r := n / d, n % d;
    assert m == (q + k) * d + r;
    DivUnique(m, d, q + k, r);
  }

  lemma DivUnique(m: int, d: int, q: int, r: int)
    requires d > 0 && 0 <= r < d && m == q * d + r
    ensures m / d == q && m % d == r
  {
    var k := m / d - q;
    assert k * d == r - m % d by { assert (m / d) * d + m % d == m; }
    if k >= 1 { MulMono(1, k, d); }
    if k <= -1 { MulMono(k, -1, d); }
  }

  lemma DivMono(a: int, b: int, d: int)
    requires a <= b && d > 0
    ensures a / d <= b / d
  {
    if a / d > b / d {
      assert (a / d) * d >= (b / d + 1) * d by { MulMono(b / d + 1, a / d, d); }
    }
  }

  /** CeilDiv is the least integer whose product with d reaches n. */
  lemma CeilDivIsLeast(n: nat, d: nat, k: nat)
    requires d > 0
    ensures CeilDiv(n, d) * d >= n
    ensures CeilDiv(n, d) <= k <==> n <= k * d
  {
    var q, r := n / d, n % d;
    assert n == q * d + r;
    assert (q + 1) * d == q * d + d;
    if k <= q - 1 { MulMono(k, q - 1, d); assert (q - 1) * d == q * d - d; }
    if k >= q { MulMono(q, k, d); }
    if k >= q + 1 { MulMono(q + 1, k, d); }
  }

  // ---------------------------------------------------------- sequence space

  /** `(int32_t)(a - b)` for 32-bit sequence numbers. */
  function SignedDistance(a: u32, b: u32): (d: int)
    ensures -TWO31 <= d < TWO31
  {
    var diff := (a - b) % TWO32;
    if diff < TWO31 then diff else diff - TWO32
  }

  function Wrap32(x: int): (r: u32) { x % TWO32 }

  /** Two unbounded sequence numbers whose distance a signed 32-bit value can hold. */
  predicate Near(x: int, y: int) { -TWO31 <= x - y < TWO31 }

  lemma SignedDistanceExact(x: int, y: int)
    ensures Near(x, y) <==> SignedDistance(Wrap32(x), Wrap32(y)) == x - y
  {
    var kx, ky := x / TWO32, y / TWO32;
    assert Wrap32(x) - Wrap32(y) == (ky - kx) * TWO32 + (x - y);
    DivOfMultiplePlus(ky - kx, x - y, TWO32);
    assert (Wrap32(x) - Wrap32(y)) % TWO32 == (x - y) % TWO32;
  }

  lemma Wrap32Add(x: int, n: int)
    ensures Wrap32(Wrap32(x) + n) == Wrap32(x + n)
  {
    assert x + n == (x / TWO32) * TWO32 + (Wrap32(x) + n);
    DivOfMultiplePlus(x / TWO32, Wrap32(x) + n, TWO32);
  }

  // ------------------------------------------------------------- finite sets

  /** The integers a, a+1, ..., b-1. */
  ghost function Interval(a: int, b: int): (s: set<int>)
    requires a <= b
    ensures forall x :: x in s <==> a <= x < b
    ensures |s| == b - a
    decreases b - a
  {
    if a == b then {} else Interval(a, b - 1) + {b - 1}
  }

  lemma {:induction false} SubsetCount<T>(a: set<T>, b: set<T>)
    requires a <= b
    ensures |a| <= |b|
    ensures |a| == |b| ==> a == b
  {
    if a != {} {
      var x :| x in a;
      SubsetCount(a - {x}, b - {x});
    }
  }

  lemma NewMember<T>(a: set<T>, b: set<T>) returns (x: T)
    requires a <= b && |a| < |b|
    ensures x in b && x !in a
  {
    var rest := b - a;
    assert b == a + rest;
    DisjointCount(a, rest);
    x :| x in rest;
  }

  lemma DisjointCount<T>(a: set<T>, b: set<T>)
    requires a !! b
    ensures |a + b| == |a| + |b|
  {
  }
}
