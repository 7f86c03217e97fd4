/** Parts-per-million ratios and the rounding of `Permill * balance`: to nearest, halves down. */
module Permill {
  const MILLION: nat := 1_000_000

  type Ratio = n: nat | n <= MILLION

  function Share(ratio: Ratio, amount: nat): nat {
    var scaled := ratio * amount;
    scaled / MILLION + if 2 * (scaled % MILLION) > MILLION then 1 else 0
  }

  /** `part` is the integer nearest to `ratio` parts per million of `amount`, the smaller one of two equally near. */
  predicate IsShare(part: nat, ratio: Ratio, amount: nat) {
    2 * ratio * amount - MILLION <= 2 * MILLION * part < 2 * ratio * amount + MILLION
  }

  /** The rounding is to the nearest, halves down, and no other integer meets this. */
  lemma ShareIsNearest(ratio: Ratio, amount: nat, part: nat)
    ensures IsShare(part, ratio, amount) <==> part == Share(ratio, amount)
  {
    var scaled := ratio * amount;
    assert 2 * ratio * amount == 2 * scaled;
    assert scaled == MILLION * (scaled / MILLION) + scaled % MILLION;
  }

  /** Rounded shares of ratios that sum to at most one never exceed the whole together. */
  lemma SharesFit(a: Ratio, b: Ratio, amount: nat)
    requires a + b <= MILLION
    ensures Share(a, amount) + Share(b, amount) <= amount
  {
    var x, y := a * amount, b * amount;
    assert x + y == (a + b) * amount;
    assert (a + b) * amount <= MILLION * amount by { LessTimes(a + b, MILLION, amount); }
    var qx, qy, rx, ry := x / MILLION, y / MILLION, x % MILLION, y % MILLION;
    assert x == MILLION * qx + rx && y == MILLION * qy + ry;
    assert MILLION * (qx + qy) + rx + ry <= MILLION * amount;
  }

  lemma LessTimes(a: nat, b: nat, c: nat)
    requires a <= b
    ensures a * c <= b * c
  {}

  lemma ShareFits(a: Ratio, amount: nat)
    ensures Share(a, amount) <= amount
  {
    SharesFit(a, 0, amount);
  }

  /** The condition is needed: ratios above one in total overspend some amount. */
  lemma SharesFitIff(a: Ratio, b: Ratio)
    ensures (forall amount: nat :: Share(a, amount) + Share(b, amount) <= amount) <==> a + b <= MILLION
  {
    if a + b <= MILLION {
      forall amount: nat ensures Share(a, amount) + Share(b, amount) <= amount { SharesFit(a, b, amount); }
    } else {
      assert Share(a, MILLION) == a && Share(b, MILLION) == b;
    }
  }
}
