/** The bonding-curve progress percentage that src/components/tokens/TokenCard.tsx
    and src/components/TokenDetails/TokenInfo.tsx both compute from the
    curve's current liquidity (in wei) and the configured target (in whole
    tokens). Floating point is replaced by exact reals; what JavaScript
    numbers add beyond the reals (NaN, the infinities) is kept, because the
    `|| 0` and `Math.min` in the source exist to handle them. */
module BondingProgress {

  /** A JavaScript number, as far as this computation can produce one. */
  datatype Num = NaN | Infinity | NegInfinity | Finite(x: real)

  /** `10**18`: wei per whole token (`formatUnits(v, 18)` divides by it). */
  const WeiPerToken: real := 1000000000000000000.0

  /** The liquidity in whole tokens. */
  function Tokens(wei: nat): (r: real)
    ensures r >= 0.0
    ensures r == 0.0 <==> wei == 0
  {
    wei as real / WeiPerToken
  }

  function MinReal(a: real, b: real): (r: real)
    ensures r <= a && r <= b && (r == a || r == b)
  {
    if a <= b then a else b
  }

  /** `Math.min((tokens / target) * 100 || 0, 100)`. Dividing by a NaN
      target gives NaN and by an infinite one zero, both of which `|| 0`
      turns into 0; a zero target gives NaN for zero liquidity (so 0) and
      Infinity otherwise (so 100). */
  function Percentage(wei: nat, target: Num): (r: real)
    ensures r <= 100.0
    ensures wei == 0 ==> r == 0.0
    ensures !target.Finite? ==> r == 0.0
    ensures target == Finite(0.0) ==> (r == 100.0 <==> wei > 0)
    ensures target.Finite? && target.x > 0.0 ==>
      && 0.0 <= r
      && (r == 100.0 <==> Tokens(wei) >= target.x)
      && (r < 100.0 ==> r * target.x == Tokens(wei) * 100.0)
    ensures target.Finite? && target.x < 0.0 ==> r <= 0.0
  {
    match target
    case Finite(t) =>
      if t == 0.0 then (if wei == 0 then 0.0 else 100.0)
      else
        ScaledRatio(Tokens(wei), t);
        MinReal(Tokens(wei) / t * 100.0, 100.0)
    case _ => 0.0
  }

  /** The facts about `a / t * 100` that Percentage's contract rests on. */
  lemma ScaledRatio(a: real, t: real)
    requires a >= 0.0 && t != 0.0
    ensures (a / t * 100.0) * t == a * 100.0
    ensures t > 0.0 ==> (a / t * 100.0 >= 0.0 && (a / t * 100.0 >= 100.0 <==> a >= t))
    ensures t < 0.0 ==> a / t * 100.0 <= 0.0
  {
    var q := a / t;
    assert q * t == a;
    if t > 0.0 {
      assert q >= 0.0;
      assert q >= 1.0 ==> q * t >= t;
      assert q < 1.0 ==> q * t < t;
    } else {
      assert q <= 0.0;
    }
  }

  /** With a positive target more liquidity never shows less progress. */
  lemma {:induction false} PercentageMonotone(wei1: nat, wei2: nat, t: real)
    requires t > 0.0 && wei1 <= wei2
    ensures Percentage(wei1, Finite(t)) <= Percentage(wei2, Finite(t))
  {
    var a1, a2 := Tokens(wei1), Tokens(wei2);
    assert a1 <= a2;
    ScaledRatio(a1, t);
    ScaledRatio(a2, t);
    var p1, p2 := a1 / t * 100.0, a2 / t * 100.0;
    assert p1 * t <= p2 * t;
  }

  /** `Math.round(x * 100) / 100` on exact reals: JavaScript's Math.round
      rounds halves up, which is `floor(y + 0.5)`. */
  function Round2(x: real): (r: real)
    ensures x - 0.005 < r <= x + 0.005
    ensures r < 100.0 <==> x < 99.995
    ensures 0.0 <= x ==> 0.0 <= r
    ensures x <= 100.0 ==> r <= 100.0
  {
    var k := (x * 100.0 + 0.5).Floor;
    assert k as real <= x * 100.0 + 0.5 < k as real + 1.0;
    k as real / 100.0
  }

  /** Rounding to hundredths is idempotent. */
  lemma Round2Idempotent(x: real)
    ensures Round2(Round2(x)) == Round2(x)
  {
    var k := (x * 100.0 + 0.5).Floor;
    assert Round2(x) * 100.0 + 0.5 == k as real + 0.5;
    assert (k as real + 0.5).Floor == k;
  }
}
