/**
 * An income-statement bar pair: both bars scaled against the larger magnitude (at least 1),
 * and the sign shown above them.
 */
module IncomeChart {
  import opened Types
  import opened JsMath

  const PositiveBar := "bg-perf-bar-light"
  const NegativeBar := "bg-red-400"

  /** `Math.max(|current|, |previous|, 1)`: the scale, never below 1, so never a division by zero. */
  function MaxVal(item: IncomeStatementItem): (m: real)
    ensures m >= 1.0
    ensures m >= Abs(item.currentValue) && m >= Abs(item.previousValue)
    ensures m == 1.0 || m == Abs(item.currentValue) || m == Abs(item.previousValue)
  {
    var a := Abs(item.currentValue);
    var b := Abs(item.previousValue);
    var ab := if a > b then a else b;
    if ab > 1.0 then ab else 1.0
  }

  /** A magnitude scaled against a bound at or above it, in percent. */
  function Scaled(x: real, m: real): (h: real)
    requires 0.0 <= x <= m && m >= 1.0
    ensures 0.0 <= h <= 100.0
    ensures h * m == x * 100.0
    ensures x == m ==> h == 100.0
  {
    x / m * 100.0
  }

  /** What the chart renders from an item, number formatting aside. */
  datatype Bars = Bars(previousHeight: real, currentHeight: real, positive: bool, prefix: string, currentBarClass: string)

  /** The two bar heights in percent, the sign test, and the current bar's colour. */
  function IncomeBars(item: IncomeStatementItem): (b: Bars)
    ensures 0.0 <= b.previousHeight <= 100.0 && 0.0 <= b.currentHeight <= 100.0
    ensures b.currentHeight * MaxVal(item) == Abs(item.currentValue) * 100.0
    ensures b.previousHeight * MaxVal(item) == Abs(item.previousValue) * 100.0
    ensures b.positive <==> item.percentageChange >= 0.0
    ensures b.prefix == (if item.percentageChange >= 0.0 then "+" else "")
    ensures b.currentBarClass == NegativeBar <==> item.percentageChange < 0.0
    ensures Abs(item.currentValue) >= 1.0 && Abs(item.currentValue) >= Abs(item.previousValue) ==>
      b.currentHeight == 100.0
    ensures Abs(item.previousValue) >= 1.0 && Abs(item.previousValue) >= Abs(item.currentValue) ==>
      b.previousHeight == 100.0
  {
    var m := MaxVal(item);
    var positive := item.percentageChange >= 0.0;
    Bars(
      Scaled(Abs(item.previousValue), m),
      Scaled(Abs(item.currentValue), m),
      positive,
      if positive then "+" else "",
      if positive then PositiveBar else NegativeBar)
  }

  /** The bars keep the ratio of the two magnitudes. */
  lemma HeightsProportional(item: IncomeStatementItem)
    ensures IncomeBars(item).currentHeight * Abs(item.previousValue) ==
      IncomeBars(item).previousHeight * Abs(item.currentValue)
  {
    var b := IncomeBars(item);
    var m := MaxVal(item);
    var c, p := Abs(item.currentValue), Abs(item.previousValue);
    assert (b.currentHeight * p) * m == (b.currentHeight * m) * p == c * 100.0 * p;
    assert (b.previousHeight * c) * m == (b.previousHeight * m) * c == p * 100.0 * c;
    assert c * 100.0 * p == p * 100.0 * c;
  }
}
