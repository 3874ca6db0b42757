/** Reservation pricing: the discounting variant of the reservation service and the flat variant
    of the shared models package, both writing `TotalCost` of a reservation in place. */
module Pricing {
  import opened Records
  import opened Time

  /** The billable length of [start, end] in days: fractional, raised to 1 when shorter than a day. */
  function BillableDays(start: Instant, end: Instant): (days: real)
    ensures days >= 1.0 && days >= FractionalDays(end - start)
    ensures FractionalDays(end - start) >= 1.0 ==> days == FractionalDays(end - start)
    ensures FractionalDays(end - start) < 1.0 ==> days == 1.0
  {
    var days := FractionalDays(end - start);
    if days < 1.0 then 1.0 else days
  }

  /** The cost the discounting variant stores: days × rate, less 10% beyond seven days. */
  function DiscountedCost(start: Instant, end: Instant, costPerDay: real): real
  {
    var total := BillableDays(start, end) * costPerDay;
    if BillableDays(start, end) > 7.0 then total - total * 0.10 else total
  }

  /** The cost the flat variant stores: days × rate for every length. */
  function FlatCost(start: Instant, end: Instant, costPerDay: real): real
  {
    BillableDays(start, end) * costPerDay
  }

  /** Up to seven days the two variants charge the same. */
  lemma VariantsAgreeUpToAWeek(start: Instant, end: Instant, costPerDay: real)
    requires end - start <= 7 * Day
    ensures DiscountedCost(start, end, costPerDay) == FlatCost(start, end, costPerDay)
  {
    FractionalDaysAtMost(end - start, 7);
  }

  /** Beyond seven days the discounting variant charges exactly 90% of the flat one. */
  lemma LongStayDiscount(start: Instant, end: Instant, costPerDay: real)
    requires end - start > 7 * Day
    ensures DiscountedCost(start, end, costPerDay) == 0.9 * FlatCost(start, end, costPerDay)
  {
    FractionalDaysAtMost(end - start, 7);
  }

  /** Cost depends only on the length of the reservation, not on where it lies. */
  lemma CostDependsOnlyOnLength(start: Instant, end: Instant, shift: int, costPerDay: real)
    ensures DiscountedCost(start + shift, end + shift, costPerDay) == DiscountedCost(start, end, costPerDay)
    ensures FlatCost(start + shift, end + shift, costPerDay) == FlatCost(start, end, costPerDay)
  {
    assert (end + shift) - (start + shift) == end - start;
  }

  /** Exactly seven days is not discounted; eight days at 100 per day cost 720. */
  lemma WeekBoundary(start: Instant)
    ensures DiscountedCost(start, start + 7 * Day, 100.0) == 700.0
    ensures DiscountedCost(start, start + 8 * Day, 100.0) == 720.0
  {
    assert FractionalDays(start + 7 * Day - start) == 7.0;
    assert FractionalDays(start + 8 * Day - start) == 8.0;
  }

  /** A three-day booking at 50 per day costs 150 under either variant. */
  lemma ThreeDaysAtFifty(start: Instant)
    ensures FlatCost(start, start + 3 * Day, 50.0) == 150.0
    ensures DiscountedCost(start, start + 3 * Day, 50.0) == 150.0
  {
    assert FractionalDays(start + 3 * Day - start) == 3.0;
  }

  /** A sub-day booking is billed as one full day. */
  lemma ShortStayBilledAsOneDay(start: Instant, end: Instant, costPerDay: real)
    requires end - start < Day
    ensures DiscountedCost(start, end, costPerDay) == costPerDay
    ensures FlatCost(start, end, costPerDay) == costPerDay
  {
    assert FractionalDays(end - start) < 1.0;
  }

  /** With the discount a longer stay can cost less: 7 days cost 700, 7.5 days cost 675. */
  lemma DiscountIsNotMonotone(start: Instant)
    ensures DiscountedCost(start, start + 7 * Day, 100.0) == 700.0
    ensures DiscountedCost(start, start + 7 * Day + 12 * Hour, 100.0) == 675.0
  {
    assert FractionalDays(start + 7 * Day - start) == 7.0;
    assert FractionalDays(start + 7 * Day + 12 * Hour - start) == 7.5;
  }

  /** With the flat variant and a non-negative rate, a longer stay never costs less. */
  lemma FlatCostMonotone(start: Instant, end1: Instant, end2: Instant, costPerDay: real)
    requires end1 <= end2 && costPerDay >= 0.0
    ensures FlatCost(start, end1, costPerDay) <= FlatCost(start, end2, costPerDay)
  {
    var d1, d2 := BillableDays(start, end1), BillableDays(start, end2);
    assert FractionalDays(end1 - start) <= FractionalDays(end2 - start);
    assert d1 <= d2;
    assert d1 * costPerDay <= d2 * costPerDay;
  }

  /** The reservation struct the handlers update in place. */
  class ReservationRecord {
    var id: nat
    var name: string
    var company: string
    var startDate: Instant
    var endDate: Instant
    var totalCost: real
    var hallId: nat

    /** The row this record currently holds. */
    function Value(): Reservation
      reads this
    {
      Reservation(id, name, company, startDate, endDate, totalCost, hallId)
    }

    constructor (r: Reservation)
      ensures Value() == r
    {
      id, name, company := r.id, r.name, r.company;
      startDate, endDate := r.start, r.end;
      totalCost, hallId := r.totalCost, r.hallId;
    }

    /** `CalculateTotalCost` of the reservation service: writes the discounted cost and nothing else. */
    method CalculateTotalCost(costPerDay: real)
      modifies this`totalCost
      ensures totalCost == DiscountedCost(startDate, endDate, costPerDay)
      ensures Value() == old(Value()).(totalCost := DiscountedCost(old(startDate), old(endDate), costPerDay))
    {
      var days := (endDate - startDate) as real / Day as real;
      if days < 1.0 {
        days := 1.0;
      }
      var total := days * costPerDay;
      if days > 7.0 {
        var discount := total * 0.10;
        total := total - discount;
      }
      totalCost := total;
    }

    /** `CalculateTotalCost` of the shared models package: writes the flat cost and nothing else. */
    method CalculateFlatTotalCost(costPerDay: real)
      modifies this`totalCost
      ensures totalCost == FlatCost(startDate, endDate, costPerDay)
      ensures Value() == old(Value()).(totalCost := FlatCost(old(startDate), old(endDate), costPerDay))
    {
      var days := (endDate - startDate) as real / Day as real;
      if days < 1.0 {
        days := 1.0;
      }
      totalCost := days * costPerDay;
    }
  }
}
