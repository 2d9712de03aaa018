/**
 * The wager: integer clamping and the +/-10, +/-100 wager control.
 */
module Wager {
  import opened Options

  function Min(a: int, b: int): int { if a <= b then a else b }

  function Max(a: int, b: int): int { if a >= b then a else b }

  /**
   * max(lo, min(hi, value)) on integers: the value itself when it lies in
   * [lo, hi], otherwise the nearer bound; lo wins when the bounds cross.
   */
  function Clamp(value: int, lo: int, hi: int): (r: int)
    ensures lo <= r
    ensures lo <= hi ==> r <= hi
    ensures lo <= value <= hi ==> r == value
    ensures value <= lo ==> r == lo
    ensures lo <= hi <= value ==> r == hi
    ensures hi < lo ==> r == lo
  {
    Max(lo, Min(hi, value))
  }

  /** The four buttons of the control, in the order a click looks for them. */
  datatype WagerButton = Minus100 | Minus10 | Plus10 | Plus100

  function Delta(b: WagerButton): int {
    match b
    case Minus100 => -100
    case Minus10 => -10
    case Plus10 => 10
    case Plus100 => 100
  }

  /** The wager amount with its bounds. */
  class WagerControl {
    var min: int
    var max: int
    var value: int

    predicate Valid()
      reads this
    {
      min <= value <= max
    }

    constructor (minValue: int, maxValue: int, initial: int)
      ensures min == minValue && max == maxValue && value == initial
    {
      min, max, value := minValue, maxValue, initial;
    }

    /**
     * A left click; `hit` is the first button (in -100, -10, +10, +100 order)
     * under the pointer, if any. A hit moves the value by the button's step
     * and clamps it to [min, max].
     */
    method HandleClick(hit: Option<WagerButton>)
      modifies this`value
      ensures hit.None? ==> value == old(value)
      ensures hit.Some? ==> value == Clamp(old(value) + Delta(hit.value), min, max)
      ensures hit.Some? && min <= max ==> Valid()
      ensures old(Valid()) ==> Valid()
    {
      if hit.Some? {
        value := Clamp(value + Delta(hit.value), min, max);
      }
    }
  }
}
