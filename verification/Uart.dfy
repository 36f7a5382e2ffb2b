/** The fractional baud divider of src/hal/uart.rs (and src/hal/uart1.rs): the
    APB clock divided by clkdiv + frag/16. */
module Uart {
  import opened Machine

  const APB_CLK_HZ := 80_000_000

  /** Sixteenths of a clock tick per bit. Division by zero is a panic. */
  function DividerX16(baud: Word): (q: Option<nat>)
  {
    if baud == 0 then None else Some(APB_CLK_HZ * 16 / baud)
  }

  /** What is written to the register: casts to u16 and u8. */
  function ClkDiv(q: nat): nat { q / 16 % 0x1_0000 }
  function Frag(q: nat): nat { q % 16 % 0x100 }

  /** The debug assertion of init, which sees the value after the cast. */
  predicate Accepted(q: nat) { ClkDiv(q) <= 0x0FFF }

  /** The register really holds the divider: nothing was cut off by the cast or
      by the 12-bit field. */
  predicate Fits(q: nat) { q / 16 <= 0x0FFF }

  /** Largest divider that does not undershoot the requested rate. */
  lemma DividerBracket(baud: Word)
    requires baud > 0
    ensures var q := DividerX16(baud).value;
            q * baud <= APB_CLK_HZ * 16 < (q + 1) * baud
  {
    var q := DividerX16(baud).value;
    var n := APB_CLK_HZ * 16;
    assert n == q * baud + n % baud;
    assert (q + 1) * baud == q * baud + baud;
  }

  /** The resulting rate is never below the request, and above it by less than one
      part in q; the divider is nonzero exactly up to 1.28 Gbaud. */
  lemma RateError(baud: Word)
    requires baud > 0
    ensures var q := DividerX16(baud).value;
            && (q > 0 <==> baud <= APB_CLK_HZ * 16)
            && (q > 0 ==>
                  var rate := (APB_CLK_HZ * 16) as real / q as real;
                  && rate >= baud as real
                  && (rate - baud as real) / baud as real < 1.0 / q as real)
  {
    DividerBracket(baud);
    var q := DividerX16(baud).value;
    if q > 0 {
      assert baud <= q * baud;
      RatioBounds(APB_CLK_HZ * 16, q, baud);
    } else {
      assert (q + 1) * baud == baud;
    }
  }

  lemma PositiveFactor(x: real, y: real)
    requires y > 0.0 && x * y > 0.0
    ensures x > 0.0
  {
  }

  lemma QuotientsOrdered(a: real, b: real, c: real, d: real)
    requires b > 0.0 && d > 0.0 && a * d < c * b
    ensures a / b < c / d
  {
    var r, s := a / b, c / d;
    assert r * b == a && s * d == c;
    var bd := b * d;
    assert bd > 0.0;
    assert a * d == r * bd && c * b == s * bd;
    assert (s - r) * bd == c * b - a * d;
    PositiveFactor(s - r, bd);
  }

  lemma RatioBounds(n: int, q: int, b: int)
    requires q > 0 && b > 0 && q * b <= n < (q + 1) * b
    ensures n as real / q as real >= b as real
    ensures (n as real / q as real - b as real) / b as real < 1.0 / q as real
  {
    var rn, rq, rb := n as real, q as real, b as real;
    var product := q * b;
    assert (q + 1) * b == product + b;
    assert product as real == rb * rq;
    var rate := rn / rq;
    assert rate * rq == rn;
    if rn == rb * rq {
      assert rate == rb;
    } else {
      QuotientsOrdered(rb, 1.0, rn, rq);
    }
    assert (rate - rb) * rq == rn - rb * rq;
    QuotientsOrdered(rate - rb, rb, 1.0, rq);
  }

  /** Clkdiv and frag together are the divider exactly from 1221 baud on, and the
      12-bit field holds clkdiv exactly from 19532 baud on. */
  lemma RangeThresholds(baud: Word)
    requires baud > 0
    ensures var q := DividerX16(baud).value;
            && (16 * ClkDiv(q) + Frag(q) == q <==> baud >= 1221)
            && (Fits(q) <==> baud >= 19532)
  {
    DividerBracket(baud);
    var q := DividerX16(baud).value;
    Scaled(q, baud);
  }

  lemma QuotientBelow(n: int, q: nat, b: nat, k: nat)
    requires q * b <= n < (q + 1) * b
    ensures q < k <==> n < k * b
  {
    if q < k {
      assert (q + 1) * b <= k * b;
    } else {
      assert q * b >= k * b;
    }
  }

  /** Where q lies among the powers of two that matter, from its bracket. */
  lemma Scaled(q: nat, baud: Word)
    requires q * baud <= APB_CLK_HZ * 16 < (q + 1) * baud
    ensures q < 0x10_0000 <==> baud >= 1221
    ensures q < 0x1_0000 <==> baud >= 19532
  {
    QuotientBelow(APB_CLK_HZ * 16, q, baud, 0x10_0000);
    QuotientBelow(APB_CLK_HZ * 16, q, baud, 0x1_0000);
  }

  /** From 1221 baud on the two fields are the quotient and the remainder by 16: the
      fraction is less than a whole tick, and both are exact; below it only the
      fraction is. */
  lemma SplitExact(baud: Word)
    requires baud > 0
    ensures var q := DividerX16(baud).value;
            && 0 <= Frag(q) < 16 && Frag(q) == q % 16
            && (baud >= 1221 <==> ClkDiv(q) == q / 16)
  {
    DividerBracket(baud);
    Scaled(DividerX16(baud).value, baud);
    SplitAt(DividerX16(baud).value);
  }

  lemma SplitAt(q: nat)
    ensures 0 <= Frag(q) < 16 && Frag(q) == q % 16
    ensures ClkDiv(q) == q / 16 <==> q < 0x10_0000
  {
    assert q / 16 < 0x1_0000 <==> q < 0x10_0000;
  }

  /** The assertion is right from 1221 baud on; below that the divider never fits,
      so there whatever it accepts is wrong. */
  lemma AssertionRightFrom1221(baud: Word)
    requires baud > 0
    ensures var q := DividerX16(baud).value;
            if baud >= 1221 then Accepted(q) <==> Fits(q) else !Fits(q)
  {
    DividerBracket(baud);
    Scaled(DividerX16(baud).value, baud);
  }

  /** It does accept some of them. */
  lemma BogusAt1200()
    ensures var q := DividerX16(1200).value; Accepted(q) && !Fits(q)
  {
    assert DividerX16(1200).value == 1066666;
  }
}
