/** Two-place decimal quantities (meter values, consumption, rates, bills).
    Every such quantity is held as a whole number of hundredths, so 171.00 is
    17100; a product of two of them is a whole number of ten-thousandths. */
module Money {

  /** The default `rate_per_unit`, 171.00 per unit. */
  const DefaultRate: int := 17100

  /** `r` hundredths is what `round(x, 2)` gives for the value `x` of `p`
      ten-thousandths under the decimal default of rounding half to even:
      the nearest whole number of hundredths, and on a tie the even one. */
  predicate IsHalfEvenRounding(p: int, r: int)
  {
    var d := p - 100 * r;
    -50 <= d <= 50 && ((d == 50 || d == -50) ==> r % 2 == 0)
  }

  /** Rounds `p` ten-thousandths to hundredths, half to even. */
  function RoundHalfEven(p: int): (r: int)
    ensures IsHalfEvenRounding(p, r)
  {
    var q, rem := p / 100, p % 100;
    if rem < 50 then q
    else if rem > 50 then q + 1
    else if q % 2 == 0 then q
    else q + 1
  }

  /** Half-even rounding has one answer only. */
  lemma HalfEvenRoundingUnique(p: int, r1: int, r2: int)
    requires IsHalfEvenRounding(p, r1) && IsHalfEvenRounding(p, r2)
    ensures r1 == r2
  {
  }

  /** Rounding half to even never reverses the order of two values. */
  lemma RoundingMonotone(p1: int, p2: int)
    requires p1 <= p2
    ensures RoundHalfEven(p1) <= RoundHalfEven(p2)
  {
  }

  /** `MeterReading.bill_amount`: `round(consumption * rate_per_unit, 2)`. */
  function BillAmount(consumption: int, rate: int): (r: int)
    ensures IsHalfEvenRounding(consumption * rate, r)
  {
    RoundHalfEven(consumption * rate)
  }

  /** At a rate of whole units, such as the default 171.00, the bill is exact:
      50.00 units at 171.00 cost 8550.00. */
  lemma BillAtWholeRate(consumption: int, units: int)
    ensures BillAmount(consumption, 100 * units) == consumption * units
  {
    var p := consumption * (100 * units);
    assert p == 100 * (consumption * units);
    HalfEvenRoundingUnique(p, BillAmount(consumption, 100 * units), consumption * units);
  }

  /** The example of a 50-unit consumption at the default rate. */
  lemma DefaultRateExample()
    ensures BillAmount(5000, DefaultRate) == 855000
  {
    BillAtWholeRate(5000, 171);
  }

  /** A tie rounds to the even hundredth: 0.01 at 0.50 is 0.0050, billed 0.00,
      and 0.03 at 0.50 is 0.0150, billed 0.02. */
  lemma BillTiesRoundToEven()
    ensures BillAmount(1, 50) == 0 && BillAmount(3, 50) == 2
  {
  }

  /** With a non-negative rate, more consumption never costs less, and no
      consumption costs nothing. */
  lemma BillMonotone(c1: int, c2: int, rate: int)
    requires c1 <= c2 && 0 <= rate
    ensures BillAmount(c1, rate) <= BillAmount(c2, rate)
    ensures BillAmount(0, rate) == 0
  {
    assert c1 * rate <= c2 * rate;
    RoundingMonotone(c1 * rate, c2 * rate);
    HalfEvenRoundingUnique(0, BillAmount(0, rate), 0);
  }
}
