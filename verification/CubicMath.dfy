/** Fixed-point arithmetic of the CUBIC window (RFC 9438) and the unbounded
    reference formulas of the growth audit. Windows are Q16 segments, time is
    Q10 seconds, and C = 0.4 makes the cubic term |t - K|^3 / 40960. */
module CubicMath {
  import opened Words

  const Q_ONE: int := 65536
  const SCALE: int := 40960
  /** No window measured in Q16 segments exceeds 2^48. */
  const Q16_BOUND: int := 0x1_0000_0000_0000

  function Cube(x: nat): nat { MulNonNegative(x, x); MulNonNegative(x * x, x); x * x * x }

  lemma CubeMono(a: nat, b: nat)
    requires a <= b
    ensures Cube(a) <= Cube(b)
    ensures a < b ==> Cube(a) < Cube(b)
  {
    MulMono(a, b, a); MulMono(a, b, b);
    assert a * a <= b * b by { assert a * b == b * a; }
    MulMono(a * a, b * b, a);
    assert b * b * a <= b * b * b by {
      MulMono(a, b, b * b);
      assert b * b * a == a * (b * b) && b * (b * b) == b * b * b;
    }
    if a < b {
      assert b * b >= 1;
      assert b * b * b - b * b * a == (b - a) * (b * b);
      assert (b - a) * (b * b) >= 1;
    }
  }

  lemma CubeAtLeast(x: nat)
    ensures x <= Cube(x)
  {
    if x >= 1 {
      MulMono(1, x, x);
      assert x * x >= 1;
      MulMono(1, x * x, x);
    }
  }

  // --------------------------------------------------------------------- cube roots

  /** The floor of the cube root, by definition. */
  ghost function FloorCbrt(v: nat): (r: nat)
    ensures Cube(r) <= v < Cube(r + 1)
  {
    CubeAtLeast(v + 1);
    CbrtBelow(v, v)
  }

  ghost function CbrtBelow(v: nat, n: nat): (r: nat)
    requires v < Cube(n + 1)
    ensures Cube(r) <= v < Cube(r + 1)
  {
    if n == 0 || Cube(n) <= v then n else CbrtBelow(v, n - 1)
  }

  lemma CbrtUnique(v: nat, r: nat)
    requires Cube(r) <= v < Cube(r + 1)
    ensures r == FloorCbrt(v)
  {
    hide Cube;
    var f := FloorCbrt(v);
    if f < r { CubeMono(f + 1, r); }
    if r < f { CubeMono(r + 1, f); }
  }

  /** `tcp_shift_cubic_cube_leq`: two divisions instead of a 192-bit product. */
  predicate CubeLeq(value: u64, limit: u64): (leq: bool)
    ensures leq <==> Cube(value) <= limit
  {
    if value == 0 then true
    else if value > limit / value then
      assert value * value > limit by { QuotientBound(value, value, limit); }
      assert Cube(value) >= value * value by {
        MulMono(1, value, value * value);
        assert value * (value * value) == value * value * value;
      }
      false
    else
      assert value * value <= limit by { QuotientBound(value, value, limit); }
      assert value * value >= 1;
      var square: u64 := value * value;
      assert value > limit / square <==> value * square > limit by { QuotientBound(value, square, limit); }
      assert value * square == Cube(value);
      value <= limit / square
  }

  /** `tcp_shift_cubic_cuberoot_floor`. */
  method CuberootFloor(value: u64) returns (low: u64)
    ensures low == FloorCbrt(value) && low <= U32_MAX
  {
    hide CubeLeq;
    low := 0;
    var high := U32_MAX;
    assert Cube(0) == 0 && Cube(U32_MAX + 1) > U64_MAX;
    hide Cube;
    while low < high
      invariant 0 <= low <= high <= U32_MAX
      invariant Cube(low) <= value < Cube(high + 1)
    {
      var middle := low + (high - low + 1) / 2;
      if CubeLeq(middle, value) { low := middle; } else { high := middle - 1; }
    }
    CbrtUnique(value, low);
  }

  /** The audit script's own search: doubling, then bisection, over unbounded integers. */
  method AuditCbrt(value: nat) returns (low: nat)
    ensures low == FloorCbrt(value)
  {
    low := 0;
    var high := 1;
    assert Cube(0) == 0;
    hide Cube;
    while Cube(high) <= value
      invariant 1 <= high
      decreases value - high
    {
      CubeAtLeast(high);
      high := high * 2;
    }
    while low + 1 < high
      invariant 0 <= low < high && Cube(low) <= value < Cube(high)
      decreases high - low
    {
      var middle := (low + high) / 2;
      if Cube(middle) <= value { low := middle; } else { high := middle; }
    }
    CbrtUnique(value, low);
  }

  // --------------------------------------------------------- the cubic window function

  function CubeSat(value: u64): (r: u64)
    ensures r == Min(Cube(value), U64_MAX)
  {
    hide MulOverflows;
    if value == 0 then 0
    else if MulOverflows(value, value) then
      assert Cube(value) >= value * value by {
        MulMono(1, value, value * value);
        assert value * (value * value) == value * value * value;
      }
      U64_MAX
    else
      var square: u64 := value * value;
      assert square >= 1;
      assert Mul(value, square) == Cube(value);
      if MulOverflows(value, square) then U64_MAX else square * value
  }

  /** `tcp_shift_cubic_window_q16`. */
  function Window(wMax: u64, k: u64, t: u64): u64
  {
    hide CubeSat;
    if t >= k then SatAdd(wMax, CubeSat(t - k) / SCALE)
    else
      var term := CubeSat(k - t) / SCALE;
      if term >= wMax then 0 else wMax - term
  }

  /** The audit's `cubic_window_q16`. */
  function AuditWindow(wMax: nat, k: nat, t: nat): nat
  {
    if t >= k then wMax + Cube(t - k) / SCALE
    else
      var term := Cube(k - t) / SCALE;
      if term >= wMax then 0 else wMax - term
  }

  /** Saturation is invisible below 2^48: while K's cube fits 64 bits, the code's
      window and the exact one compare the same way with every real window. */
  lemma WindowExact(wMax: u64, k: u64, t: u64, x: nat)
    requires wMax <= Q16_BOUND && Cube(k) <= U64_MAX && x <= Q16_BOUND
    ensures Window(wMax, k, t) < x <==> AuditWindow(wMax, k, t) < x
    ensures Min(Window(wMax, k, t), x) == Min(AuditWindow(wMax, k, t), x)
  {
    if t < k { CubeMono(k - t, k); }
    hide Cube, CubeSat;
  }

  /** Below K nothing saturates at all. */
  lemma WindowBelowK(wMax: u64, k: u64, t: u64)
    requires Cube(k) <= U64_MAX && t <= k
    ensures Window(wMax, k, t) == AuditWindow(wMax, k, t)
  {
    CubeMono(k - t, k);
    assert Cube(0) == 0;
    hide Cube, CubeSat;
  }

  lemma WindowMonotone(wMax: nat, k: nat, s: nat, t: nat)
    requires s <= t
    ensures AuditWindow(wMax, k, s) <= AuditWindow(wMax, k, t)
  {
    if t < k { CubeMono(k - t, k - s); }
    if k <= s { CubeMono(s - k, t - k); }
    hide Cube;
  }

  /** The curve starts no lower than the window the epoch began with, meets
      W_max at K, and K is the last Q10 instant with the first property. */
  lemma WindowAnchors(wMax: nat, cwnd: nat)
    requires cwnd < wMax
    ensures var k := FloorCbrt((wMax - cwnd) * SCALE);
      && AuditWindow(wMax, k, k) == wMax
      && AuditWindow(wMax, k, 0) >= cwnd
      && AuditWindow(wMax, k + 1, 0) <= cwnd
  {
    var gap := wMax - cwnd;
    var k := FloorCbrt(gap * SCALE);
    assert Cube(0) == 0;
    hide Cube, FloorCbrt;
    DivOfMultiplePlus(gap, 0, SCALE);
    DivMono(Cube(k), gap * SCALE, SCALE);
    DivMono(gap * SCALE, Cube(k + 1), SCALE);
  }

  // ----------------------------------------------------------- time and byte conversion

  /** `tcp_shift_cubic_time_q10`. */
  function TimeQ10(ns: u64): u64
  {
    JoinQ10(ns / NS_PER_SEC, ns % NS_PER_SEC)
  }

  function JoinQ10(seconds: u64, remainder: u64): u64
    requires remainder < NS_PER_SEC
  {
    if seconds > U64_MAX / 1024 then U64_MAX
    else seconds * 1024 + remainder * 1024 / NS_PER_SEC
  }

  function NonzeroTimeQ10(ns: u64): u64
  {
    if ns != 0 && TimeQ10(ns) == 0 then 1 else TimeQ10(ns)
  }

  /** No 64-bit nanosecond count reaches the saturation guard: the conversion is
      exact, and is the floor of the true Q10 time. */
  lemma TimeExact(ns: u64)
    ensures TimeQ10(ns) == (ns / NS_PER_SEC) * 1024 + (ns % NS_PER_SEC) * 1024 / NS_PER_SEC
    ensures TimeQ10(ns) == ns * 1024 / NS_PER_SEC
    ensures TimeQ10(ns) <= 0x1_0000_0000_0000
  {
    assert ns * 1024 == ((ns / NS_PER_SEC) * 1024) * NS_PER_SEC + (ns % NS_PER_SEC) * 1024;
    DivOfMultiplePlus((ns / NS_PER_SEC) * 1024, (ns % NS_PER_SEC) * 1024, NS_PER_SEC);
  }

  /** `tcp_shift_cubic_q16_from_bytes`. */
  function Q16(bytes: u32, mss: u32): (q: u64)
    ensures q <= Q16_BOUND
  {
    if mss == 0 then 0 else
    DivFacts(bytes * Q_ONE, mss);
    bytes * Q_ONE / mss
  }

  /** `tcp_shift_cubic_bytes_from_q16`. */
  function BytesOf(q: u64, mss: u32, limit: u32): (bytes: u32)
    ensures bytes <= limit
  {
    hide MulOverflows;
    if mss == 0 || q == 0 then 0
    else if MulOverflows(q, mss) then limit
    else
      MulNonNegative(q, mss);
      var exact := q * mss / Q_ONE;
      if exact > limit then limit else exact
  }

  lemma Q16Mono(a: u32, b: u32, mss: u32)
    requires mss > 0 && a <= b
    ensures Q16(a, mss) <= Q16(b, mss)
  {
    DivMono(a * Q_ONE, b * Q_ONE, mss);
  }

  /** A window above x bytes in Q16 is at least x bytes, at every MSS. */
  lemma BytesAbove(q: u64, x: u32, mss: u32, limit: u32)
    requires mss > 0 && x <= limit && q > Q16(x, mss)
    ensures BytesOf(q, mss, limit) >= x
  {
    hide MulOverflows;
    var n := x * Q_ONE;
    assert n == (n / mss) * mss + n % mss;
    DivFacts(n, mss);
    MulMono(n / mss + 1, q, mss);
    assert (n / mss + 1) * mss == (n / mss) * mss + mss;
    DivMono(x * Q_ONE + 0, q * mss, Q_ONE);
    DivOfMultiplePlus(x, 0, Q_ONE);
  }

  lemma Q16AtLeastOne(bytes: u32, mss: u32)
    requires 0 < mss <= bytes
    ensures Q16(bytes, mss) >= Q_ONE
  {
    DivMono(mss * Q_ONE, bytes * Q_ONE, mss);
    DivOfMultiplePlus(Q_ONE, 0, mss);
    assert mss * Q_ONE == Q_ONE * mss + 0;
  }

  lemma BytesMono(p: u64, q: u64, mss: u32, limit: u32)
    requires p <= q <= Q16_BOUND
    ensures BytesOf(p, mss, limit) <= BytesOf(q, mss, limit)
  {
    BytesExact(p, mss, limit);
    BytesExact(q, mss, limit);
    MulMono(p, q, mss);
    hide BytesOf;
    DivMono(p * mss, q * mss, Q_ONE);
  }

  /** For windows below 2^48 the product fits, so only the limit clips. */
  lemma BytesExact(q: u64, mss: u32, limit: u32)
    requires q <= Q16_BOUND
    ensures 0 <= q * mss
    ensures BytesOf(q, mss, limit) == Min(q * mss / Q_ONE, limit)
  {
    hide MulOverflows;
    MulMono(q, Q16_BOUND, mss);
    MulMono(mss, U32_MAX, Q16_BOUND);
    MulZero(q); MulZero(mss);
    if mss != 0 && q != 0 && MulOverflows(q, mss) {
      BigProduct(q, mss);
    }
  }

  /** A product above 64 bits is far above any 32-bit limit. */
  lemma BigProduct(q: u64, mss: u32)
    requires Mul(q, mss) > U64_MAX
    ensures q * mss / Q_ONE > U32_MAX
  {
    DivMono(U64_MAX + 1, q * mss, Q_ONE);
  }

  /** Bytes to Q16 and back loses at most one byte, and none exactly when the
      division is exact. */
  lemma RoundTrip(x: u32, mss: u32, limit: u32)
    requires 0 < mss <= Q_ONE && x <= limit
    ensures BytesOf(Q16(x, mss), mss, limit) == if x * Q_ONE % mss == 0 then x else x - 1
  {
    var q, r := Q16(x, mss), x * Q_ONE % mss;
    BytesExact(q, mss, limit);
    hide BytesOf, Q16;
    assert q * mss == x * Q_ONE - r by { QuotientTimes(x, mss); }
    if r == 0 {
      DivOfMultiplePlus(x, 0, Q_ONE);
    } else {
      assert x * Q_ONE - r == (x - 1) * Q_ONE + (Q_ONE - r);
      DivOfMultiplePlus(x - 1, Q_ONE - r, Q_ONE);
    }
  }

  lemma QuotientTimes(x: u32, mss: u32)
    requires mss > 0
    ensures Q16(x, mss) * mss == x * Q_ONE - x * Q_ONE % mss
    ensures 0 <= x * Q_ONE % mss < mss && (x == 0 ==> x * Q_ONE % mss == 0)
  {
    var n := x * Q_ONE;
    assert n == (n / mss) * mss + n % mss;
  }
}
