/** Rational scaling and bandwidth-delay products, written without a 128-bit type.

    Each routine splits its operands before multiplying. The contracts compare
    it with the plain formula over unbounded integers, clipped to 64 bits. */
module Scaling {
  import opened Words

  function FloorScaled(value: nat, num: nat, den: nat): int
    requires den > 0
  { Min(value * num / den, U64_MAX) }

  function CeilScaled(value: nat, num: nat, den: nat): int
    requires den > 0
  { Min(CeilDiv(value * num, den), U64_MAX) }

  /** value = q*den + r gives value*num = (q*num)*den + r*num. */
  lemma SplitProduct(value: nat, num: nat, den: nat)
    requires den > 0
    ensures value * num / den == (value / den) * num + (value % den) * num / den
    ensures (value * num) % den == ((value % den) * num) % den
  {
    var q, r := value / den, value % den;
    assert value * num == (q * num) * den + r * num by {
      assert value == q * den + r;
      Distribute(q, den, r, num);
    }
    DivOfMultiplePlus(q * num, r * num, den);
  }

  lemma Distribute(q: int, d: int, r: int, n: int)
    ensures (q * d + r) * n == (q * n) * d + r * n
  {
    assert (q * d + r) * n == (q * d) * n + r * n;
    assert (q * d) * n == q * (d * n) == q * (n * d) == (q * n) * d;
  }

  /** The quotient part, and the remainder part, which always fits 64 bits. */
  lemma ScaledPieces(value: u64, num: u32, den: u32)
    requires den > 0
    ensures 0 <= Div(value, den) <= value && 0 <= Mod(value, den) < den
    ensures 0 <= Mul(Div(value, den), num)
    ensures 0 <= Mul(Mod(value, den), num) <= U64_MAX
    ensures 0 <= Div(Mul(Mod(value, den), num), den) <= U32_MAX
    ensures 0 <= Mod(Mul(Mod(value, den), num), den)
    ensures FloorScaled(value, num, den) ==
            Min(Mul(Div(value, den), num) + Div(Mul(Mod(value, den), num), den), U64_MAX)
    ensures CeilScaled(value, num, den) ==
            Min(Mul(Div(value, den), num) + Div(Mul(Mod(value, den), num), den)
                + (if Mod(Mul(Mod(value, den), num), den) != 0 then 1 else 0), U64_MAX)
  {
    SplitProduct(value, num, den);
    DivFacts(value, den);
    RemainderProductFits(value % den, num, den);
    DivFacts((value % den) * num, den);
    MulNonNegative(value / den, num);
  }

  lemma RemainderProductFits(r: nat, num: u32, den: u32)
    requires r < den
    ensures 0 <= r * num <= U64_MAX
    ensures r * num / den <= num
  {
    MulMono(r, den, num);
    MulMono(den, U32_MAX, num);
    MulMono(num, U32_MAX, U32_MAX);
    assert den * num == num * den && U32_MAX * num == num * U32_MAX;
    DivMono(r * num, num * den + 0, den);
    DivOfMultiplePlus(num, 0, den);
  }

  /** `tcp_shift_bbr_scale_floor_u64` and its copies in bbr_drain.c and bbr_probe.c. */
  function ScaleFloor(value: u64, num: u32, den: u32): (r: u64)
    ensures den == 0 ==> r == U64_MAX
    ensures den > 0 ==> r == FloorScaled(value, num, den)
  {
    hide Mul, Div, Mod, SatMul, FloorScaled;
    if den == 0 then U64_MAX else
    ScaledPieces(value, num, den);
    var whole := SatMul(Div(value, den), num);
    if whole == U64_MAX then U64_MAX else
    var remainderProduct: u64 := Mul(Mod(value, den), num);
    SatAdd(whole, Div(remainderProduct, den))
  }

  /** `tcp_shift_bbr_scale_ceil_u64` and its copy in bbr_probe.c. */
  function ScaleCeil(value: u64, num: u32, den: u32): (r: u64)
    ensures den == 0 ==> r == U64_MAX
    ensures den > 0 ==> r == CeilScaled(value, num, den)
  {
    hide Mul, Div, Mod, SatMul, FloorScaled, CeilScaled;
    if den == 0 then U64_MAX else
    ScaledPieces(value, num, den);
    var whole := SatMul(Div(value, den), num);
    if whole == U64_MAX then U64_MAX else
    var remainderProduct: u64 := Mul(Mod(value, den), num);
    var floor := SatAdd(whole, Div(remainderProduct, den));
    if floor == U64_MAX then U64_MAX else
    if Mod(remainderProduct, den) != 0 then SatAdd(floor, 1) else floor
  }

  /** `tcp_shift_bbr3_scale`, and `ratio` in bbr3_congestion.c. */
  function Scale3(value: u64, num: u32, den: u32): (r: u64)
    ensures den == 0 ==> r == U64_MAX
    ensures den > 0 ==> r == FloorScaled(value, num, den)
  {
    hide Mul, Div, Mod, MulOverflows, FloorScaled, CeilScaled;
    if den == 0 then U64_MAX else
    ScaledPieces(value, num, den);
    MulZero(Div(value, den));
    if num != 0 && MulOverflows(Div(value, den), num) then U64_MAX else
    var whole: u64 := Mul(Div(value, den), num);
    var fraction: u64 := Mul(Mod(value, den), num);
    SatAdd(whole, Div(fraction, den))
  }

  /** `tcp_shift_prr_div_round_up_product`. */
  function ProductCeil(value: u64, multiplier: u32, divisor: u32): (r: u64)
    requires multiplier > 0
    ensures divisor == 0 ==> r == U64_MAX
    ensures divisor > 0 ==> r == CeilScaled(value, multiplier, divisor)
  {
    hide Mul, Div, Mod, MulOverflows, FloorScaled, CeilScaled;
    if divisor == 0 then U64_MAX else
    ScaledPieces(value, multiplier, divisor);
    var quotient := Div(value, divisor);
    if MulOverflows(quotient, multiplier) then U64_MAX else
    var scaledQuotient: u64 := Mul(quotient, multiplier);
    var scaledRemainder: u64 := Mul(Mod(value, divisor), multiplier);
    SatAdd(scaledQuotient,
           Div(scaledRemainder, divisor) + (if Mod(scaledRemainder, divisor) != 0 then 1 else 0))
  }

  // --------------------------------------------------- bandwidth-delay product

  function BdpExactFloor(bw: nat, rtt: nat): int { Min(bw * rtt / NS_PER_SEC, U64_MAX) }
  function BdpExactCeil(bw: nat, rtt: nat): int { Min(CeilDiv(bw * rtt, NS_PER_SEC), U64_MAX) }

  /** With bw = bq*D + br and rtt = rq*D + rr, the product over D is
      bq*rtt + br*rq + br*rr/D, and also bw*rq + bq*rr + br*rr/D. */
  lemma SplitBdp(bw: nat, rtt: nat)
    ensures bw * rtt / NS_PER_SEC ==
            (bw / NS_PER_SEC) * rtt + (bw % NS_PER_SEC) * (rtt / NS_PER_SEC)
            + (bw % NS_PER_SEC) * (rtt % NS_PER_SEC) / NS_PER_SEC
    ensures bw * rtt / NS_PER_SEC ==
            bw * (rtt / NS_PER_SEC) + (bw / NS_PER_SEC) * (rtt % NS_PER_SEC)
            + (bw % NS_PER_SEC) * (rtt % NS_PER_SEC) / NS_PER_SEC
    ensures bw * rtt % NS_PER_SEC == (bw % NS_PER_SEC) * (rtt % NS_PER_SEC) % NS_PER_SEC
  {
    var bq, br, rq, rr := bw / NS_PER_SEC, bw % NS_PER_SEC, rtt / NS_PER_SEC, rtt % NS_PER_SEC;
    SplitProduct(bw, rtt, NS_PER_SEC);
    SplitProduct(rtt, br, NS_PER_SEC);
    assert br * rtt == rtt * br && br * rq == rq * br && br * rr == rr * br;
    assert bq * rtt == bq * (rq * NS_PER_SEC) + bq * rr;
    assert bw * rq == (bq * NS_PER_SEC) * rq + br * rq;
    assert bq * (rq * NS_PER_SEC) == (bq * NS_PER_SEC) * rq;
  }

  lemma BdpPieces(bw: u64, rtt: u64)
    ensures var bq, br, rq, rr :=
              bw / NS_PER_SEC, bw % NS_PER_SEC, rtt / NS_PER_SEC, rtt % NS_PER_SEC;
            var cross := Mul(br, rr);
            && 0 <= Mul(bq, rtt) && 0 <= Mul(br, rq) && 0 <= Mul(bw, rq) && 0 <= Mul(bq, rr)
            && 0 <= cross <= U64_MAX
            && BdpExactFloor(bw, rtt) == Min(Mul(bq, rtt) + Mul(br, rq) + cross / NS_PER_SEC, U64_MAX)
            && BdpExactFloor(bw, rtt) == Min(Mul(bw, rq) + Mul(bq, rr) + cross / NS_PER_SEC, U64_MAX)
            && Mul(bq, rtt) + Mul(br, rq) == Mul(bw, rq) + Mul(bq, rr)
            && BdpExactCeil(bw, rtt) ==
               Min(Mul(bq, rtt) + Mul(br, rq) + cross / NS_PER_SEC
                   + (if cross % NS_PER_SEC != 0 then 1 else 0), U64_MAX)
    ensures bw == 0 || rtt == 0 ==> BdpExactCeil(bw, rtt) == 0
  {
    var bq, br, rq, rr := bw / NS_PER_SEC, bw % NS_PER_SEC, rtt / NS_PER_SEC, rtt % NS_PER_SEC;
    SplitBdp(bw, rtt);
    MulNonNegative(bq, rtt); MulNonNegative(br, rq); MulNonNegative(bw, rq); MulNonNegative(bq, rr);
    MulNonNegative(br, rr);
    MulMono(br, NS_PER_SEC, rr);
    MulZero(bw); MulZero(rtt);
  }

  /** `tcp_shift_bbr_bdp_bytes`. */
  function BdpCeil(bw: u64, rtt: u64): (r: u64)
    ensures r == BdpExactCeil(bw, rtt)
  {
    hide Mul, SatMul, BdpExactFloor, BdpExactCeil;
    BdpPieces(bw, rtt);
    if bw == 0 || rtt == 0 then 0 else
    var bwWhole, bwRemainder := bw / NS_PER_SEC, bw % NS_PER_SEC;
    var rttWhole, rttRemainder := rtt / NS_PER_SEC, rtt % NS_PER_SEC;
    var first := SatMul(bwWhole, rtt);
    if first == U64_MAX then U64_MAX else
    var second := SatAdd(first, SatMul(bwRemainder, rttWhole));
    if second == U64_MAX then U64_MAX else
    var cross: u64 := Mul(bwRemainder, rttRemainder);
    var third := SatAdd(second, cross / NS_PER_SEC);
    if third == U64_MAX then U64_MAX else
    if cross % NS_PER_SEC != 0 then SatAdd(third, 1) else third
  }

  /** `bdp_bytes` in bbr3_probe.c. */
  function BdpCeil3(bw: u64, rtt: u64): (r: u64)
    ensures r == BdpExactCeil(bw, rtt)
  {
    hide Mul, SatMul, BdpExactFloor, BdpExactCeil;
    BdpPieces(bw, rtt);
    if bw == 0 || rtt == 0 then 0 else
    var whole := SatAdd(SatMul(bw, rtt / NS_PER_SEC),
                        SatMul(bw / NS_PER_SEC, rtt % NS_PER_SEC));
    var cross: u64 := Mul(bw % NS_PER_SEC, rtt % NS_PER_SEC);
    SatAdd(SatAdd(whole, cross / NS_PER_SEC), if cross % NS_PER_SEC != 0 then 1 else 0)
  }

  /** `bdp` in bbr3_controller.c. */
  function BdpFloor(bw: u64, rtt: u64): (r: u64)
    ensures r == BdpExactFloor(bw, rtt)
  {
    hide Mul, SatMul, BdpExactFloor, BdpExactCeil;
    BdpPieces(bw, rtt);
    var whole := SatMul(bw, rtt / NS_PER_SEC);
    var part := SatMul(bw / NS_PER_SEC, rtt % NS_PER_SEC);
    var cross: u64 := Mul(bw % NS_PER_SEC, rtt % NS_PER_SEC);
    SatAdd(SatAdd(whole, part), cross / NS_PER_SEC)
  }

  /** The two ceiling products agree everywhere; the floor is at most one below,
      and equal exactly when the division is exact or the product saturates. */
  lemma BdpFormsAgree(bw: u64, rtt: u64)
    ensures BdpCeil(bw, rtt) == BdpCeil3(bw, rtt)
    ensures BdpFloor(bw, rtt) <= BdpCeil(bw, rtt) <= BdpFloor(bw, rtt) + 1
    ensures BdpFloor(bw, rtt) == BdpCeil(bw, rtt) <==>
            bw * rtt % NS_PER_SEC == 0 || bw * rtt / NS_PER_SEC >= U64_MAX
  {
    hide BdpCeil, BdpCeil3, BdpFloor;
    assert 0 <= bw * rtt;
  }

  /** A non-zero rate and RTT never have a zero ceiling product. */
  lemma BdpCeilPositive(bw: u64, rtt: u64)
    ensures BdpCeil(bw, rtt) > 0 <==> bw > 0 && rtt > 0
  {
    hide BdpCeil;
    if bw > 0 && rtt > 0 {
      assert bw * rtt > 0;
      CeilDivIsLeast(bw * rtt, NS_PER_SEC, 0);
    }
  }
}
