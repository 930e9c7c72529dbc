/** `Math.round(part / whole * 100)`, the completion percentage shown by the
    sidebar and the overall statistics, in exact integer arithmetic. */
module Percentage {

  /** Round half up of `100 * part / whole`: the result is the integer
      nearest to the exact percentage, with halves going up. */
  function RoundedPercent(part: int, whole: int): (p: int)
    requires whole > 0
    ensures (2 * p - 1) * whole <= 200 * part < (2 * p + 1) * whole
  {
    var p := (200 * part + whole) / (2 * whole);
    assert 2 * whole * p <= 200 * part + whole < 2 * whole * p + 2 * whole;
    p
  }

  /** Cancelling a positive factor from a strict inequality. */
  lemma CancelFactor(a: int, b: int, w: int)
    requires w > 0
    ensures a * w < b * w ==> a < b
  {
    if a >= b {
      assert a * w - b * w == (a - b) * w;
    }
  }

  /** The nearest-integer property pins the result down: any `p` within
      half a percent of the exact value (halves up) is the result. */
  lemma RoundedPercentUnique(part: int, whole: int, p: int)
    requires whole > 0
    requires (2 * p - 1) * whole <= 200 * part < (2 * p + 1) * whole
    ensures RoundedPercent(part, whole) == p
  {
    var q := RoundedPercent(part, whole);
    CancelFactor(2 * q - 1, 2 * p + 1, whole);
    CancelFactor(2 * p - 1, 2 * q + 1, whole);
  }

  /** A share between none and all rounds to a percentage in 0..100. */
  lemma RoundedPercentBounds(part: int, whole: int)
    requires whole > 0 && 0 <= part <= whole
    ensures 0 <= RoundedPercent(part, whole) <= 100
  {
    var p := RoundedPercent(part, whole);
    CancelFactor(2 * p - 1, 201, whole);
    CancelFactor(-1, 2 * p + 1, whole);
  }

  /** All of it is 100 percent, none of it is 0 percent. */
  lemma RoundedPercentEnds(whole: int)
    requires whole > 0
    ensures RoundedPercent(whole, whole) == 100
    ensures RoundedPercent(0, whole) == 0
  {
    RoundedPercentUnique(whole, whole, 100);
    RoundedPercentUnique(0, whole, 0);
  }

  /** More completed never shows a smaller percentage. */
  lemma RoundedPercentMonotone(part1: int, part2: int, whole: int)
    requires whole > 0 && part1 <= part2
    ensures RoundedPercent(part1, whole) <= RoundedPercent(part2, whole)
  {
    var p1 := RoundedPercent(part1, whole);
    var p2 := RoundedPercent(part2, whole);
    CancelFactor(2 * p1 - 1, 2 * p2 + 1, whole);
  }

  /** 100 percent is shown as soon as at least 199 of every 200 are done,
      so from 200 items on a share short of all of them can show 100. */
  lemma FullPercentThreshold(part: int, whole: int)
    requires whole > 0 && 0 <= part <= whole
    ensures RoundedPercent(part, whole) == 100 <==> 200 * part >= 199 * whole
  {
    if 200 * part >= 199 * whole {
      RoundedPercentBounds(part, whole);
      RoundedPercentUnique(part, whole, 100);
    }
  }
}
