/** The price calculators. The two booking pages count the days of a range
    as `ceil(|end - start| / 1 day) + 1`, so an inverted range is priced as
    if its dates were swapped; the search results estimate the count as
    `max(1, (end - start) / 1 day + 1)`, so an inverted range is priced as
    one day. Prices are exact `real` amounts. */
module Pricing {
  import opened Basics
  import opened Domain
  import opened Engine

  function Abs(x: int): int { if x < 0 then -x else x }

  /** The booking pages' day count, `ceil(|end - start|) + 1` on whole days. */
  function InclusiveDays(s: Day, e: Day): (n: int)
    ensures n >= 1
    ensures s <= e ==> n == |DaysFrom(s, e)|
    ensures e <= s ==> n == |DaysFrom(e, s)|
  {
    Abs(e - s) + 1
  }

  /** The search results' day count, `max(1, end - start + 1)`. */
  function EstimatedDays(s: Day, e: Day): (n: int)
    ensures n >= 1
    ensures s <= e ==> n == InclusiveDays(s, e)
    ensures s > e ==> n == 1
  {
    Max(1, e - s + 1)
  }

  /** `qtySmall * price_small + qtyMedium * price_medium + qtyLarge * price_large`. */
  function DailyTotal(q: Tiers, p: Prices): real
  {
    q.small as real * p.small + q.medium as real * p.medium + q.large as real * p.large
  }

  /** `calculateTotal` of the booking modal: 0 while a date is missing, else
      the daily total times the inclusive day count. */
  function BookingTotal(q: Tiers, p: Prices, start: Option<Day>, end: Option<Day>): real
  {
    if start.None? || end.None? then 0.0
    else DailyTotal(q, p) * InclusiveDays(start.value, end.value) as real
  }

  predicate PricesNonNegative(p: Prices)
  {
    0.0 <= p.small && 0.0 <= p.medium && 0.0 <= p.large
  }

  lemma DailyTotalNonNegative(q: Tiers, p: Prices)
    requires q.NonNegative() && PricesNonNegative(p)
    ensures DailyTotal(q, p) >= 0.0
  {
    assert q.small as real * p.small >= 0.0;
    assert q.medium as real * p.medium >= 0.0;
    assert q.large as real * p.large >= 0.0;
  }

  /** The total is 0 without both dates; with them it is the daily total
      times the number of days of the range taken in either order, so it
      does not change when the dates are swapped, never falls below the
      daily total for non-negative inputs, and is exactly the daily total
      for a one-day range. */
  lemma BookingTotalFacts(q: Tiers, p: Prices, start: Option<Day>, end: Option<Day>)
    ensures start.None? || end.None? ==> BookingTotal(q, p, start, end) == 0.0
    ensures BookingTotal(q, p, start, end) == BookingTotal(q, p, end, start)
    ensures start.Some? && end.Some? && start.value <= end.value ==>
              BookingTotal(q, p, start, end) == DailyTotal(q, p) * |DaysFrom(start.value, end.value)| as real
    ensures start.Some? && start == end ==> BookingTotal(q, p, start, end) == DailyTotal(q, p)
    ensures q.NonNegative() && PricesNonNegative(p) && start.Some? && end.Some? ==>
              BookingTotal(q, p, start, end) >= DailyTotal(q, p) >= 0.0
  {
    if q.NonNegative() && PricesNonNegative(p) && start.Some? && end.Some? {
      DailyTotalNonNegative(q, p);
      var n := InclusiveDays(start.value, end.value);
      var daily := DailyTotal(q, p);
      assert daily * n as real == daily + daily * (n - 1) as real;
      assert daily * (n - 1) as real >= 0.0 by {
        assert daily >= 0.0 && (n - 1) as real >= 0.0;
      }
    }
  }

  /** The daily total is additive in the quantities, so the total of a
      combined selection is the sum of the totals. */
  lemma BookingTotalAdditive(q1: Tiers, q2: Tiers, p: Prices, start: Option<Day>, end: Option<Day>)
    ensures BookingTotal(q1.Plus(q2), p, start, end) == BookingTotal(q1, p, start, end) + BookingTotal(q2, p, start, end)
  {
    var a, b := DailyTotal(q1, p), DailyTotal(q2, p);
    assert DailyTotal(q1.Plus(q2), p) == a + b;
  }

  /** The estimate of the search results. The classifier's answer may lack a
      tier, and `undefined * price` is `NaN`: the estimate is then `None`;
      `null * price` is 0, so a `null` tier adds nothing. */
  function EstimatedTotal(req: Requirements, p: Prices, s: Day, e: Day): (r: Option<real>)
    ensures r.Some? <==> !req.small.Undefined? && !req.medium.Undefined? && !req.large.Undefined?
  {
    if req.small.Undefined? || req.medium.Undefined? || req.large.Undefined? then None
    else Some(DailyTotal(Tiers(CountOrZero(req.small), CountOrZero(req.medium), CountOrZero(req.large)), p)
              * EstimatedDays(s, e) as real)
  }

  /** A `null` tier prices like a tier of 0, while a tier left out makes
      the whole estimate `NaN`. */
  lemma NullTierPricesAsZero(m: Count, l: Count, p: Prices, s: Day, e: Day)
    ensures EstimatedTotal(Requirements(Null, m, l), p, s, e) == EstimatedTotal(Requirements(Num(0), m, l), p, s, e)
    ensures EstimatedTotal(Requirements(Undefined, m, l), p, s, e).None?
  {
    var withNull, withZero := Requirements(Null, m, l), Requirements(Num(0), m, l);
    if !m.Undefined? && !l.Undefined? {
      var q := Tiers(0, CountOrZero(m), CountOrZero(l));
      assert Tiers(CountOrZero(withNull.small), CountOrZero(withNull.medium), CountOrZero(withNull.large)) == q;
      assert Tiers(CountOrZero(withZero.small), CountOrZero(withZero.medium), CountOrZero(withZero.large)) == q;
      assert EstimatedTotal(withNull, p, s, e).value == DailyTotal(q, p) * EstimatedDays(s, e) as real;
      assert EstimatedTotal(withZero, p, s, e).value == DailyTotal(q, p) * EstimatedDays(s, e) as real;
    }
  }

  /** Both calculators agree on a valid range; on an inverted one the
      estimate charges one day and the booking pages charge the swapped
      range, which is at least two days. */
  lemma CalculatorsOnRanges(q: Tiers, p: Prices, s: Day, e: Day)
    ensures var est := EstimatedTotal(Requirements(Num(q.small), Num(q.medium), Num(q.large)), p, s, e);
            && est.Some?
            && (s <= e ==> est.value == BookingTotal(q, p, Some(s), Some(e)))
            && (s > e ==> (est.value == DailyTotal(q, p)
                           && BookingTotal(q, p, Some(s), Some(e)) == DailyTotal(q, p) * (s - e + 1) as real
                           && s - e + 1 >= 2))
  {
    var req := Requirements(Num(q.small), Num(q.medium), Num(q.large));
    assert Tiers(CountOrZero(req.small), CountOrZero(req.medium), CountOrZero(req.large)) == q;
  }

  /** Prices {2, 5, 10} per day, quantities {1, 0, 2}, three days: 66. */
  lemma ThreeDayExample()
    ensures BookingTotal(Tiers(1, 0, 2), Prices(2.0, 5.0, 10.0), Some(1), Some(3)) == 66.0
  {
    assert DailyTotal(Tiers(1, 0, 2), Prices(2.0, 5.0, 10.0)) == 22.0;
    assert InclusiveDays(1, 3) == 3;
  }
}
