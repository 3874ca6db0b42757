/** Hall utilization as the HTTP handler reports it: booked days (inclusive of both ends) over the
    days of a window. */
module Utilization {
  import opened Records
  import opened Time
  import opened Decimal

  /** An optional `YYYY-MM-DD` query parameter: empty, unparsable, or the instant it denotes. */
  datatype DateParam = Absent | Malformed | Given(at: Instant)

  /** The JSON body of a successful answer. `rate` is None where Go would divide by zero days. */
  datatype Report = Report(hallId: nat, period: DateRange, totalDays: int, bookedDays: int, rate: Option<real>)

  /** The reporting window: each bound taken from its parameter, the start defaulting to thirty days
      before now and the end to now; the start parameter is examined first. */
  function ResolveWindow(startParam: DateParam, endParam: DateParam, now: Instant): (r: Result<DateRange>)
    ensures startParam.Malformed? ==> r == Err(BadRequest("Invalid start_date format"))
    ensures !startParam.Malformed? && endParam.Malformed? ==> r == Err(BadRequest("Invalid end_date format"))
    ensures r.Ok? <==> !startParam.Malformed? && !endParam.Malformed?
    ensures r.Ok? ==> r.value.start == (if startParam.Given? then startParam.at else now - ThirtyDays)
    ensures r.Ok? ==> r.value.end == (if endParam.Given? then endParam.at else now)
  {
    if startParam.Malformed? then Err(BadRequest("Invalid start_date format"))
    else if endParam.Malformed? then Err(BadRequest("Invalid end_date format"))
    else
      var s := if startParam.Given? then startParam.at else now - ThirtyDays;
      var e := if endParam.Given? then endParam.at else now;
      Ok(DateRange(s, e))
  }

  /** The days a window spans, counting both ends: whole days between its bounds plus one. */
  function TotalDays(w: DateRange): (n: int)
    ensures w.start <= w.end ==> n >= 1 && (n - 1) * Day <= w.end - w.start < n * Day
  {
    WholeDays(w.end - w.start) + 1
  }

  /** Selected by the overlap query: this hall, starting no later than the window ends and ending no
      earlier than it starts (so touching a bound is enough). */
  predicate Overlaps(r: Reservation, hallId: nat, w: DateRange)
  {
    r.hallId == hallId && r.start <= w.end && r.end >= w.start
  }

  /** `WHERE hall_id = ? AND start_date <= ? AND end_date >= ?`, in table order. */
  function Overlapping(rows: seq<Reservation>, hallId: nat, w: DateRange): (kept: seq<Reservation>)
    ensures forall r :: r in kept <==> r in rows && Overlaps(r, hallId, w)
    ensures |kept| <= |rows|
  {
    if rows == [] then []
    else
      var r := rows[|rows| - 1];
      Overlapping(rows[..|rows| - 1], hallId, w) + (if Overlaps(r, hallId, w) then [r] else [])
  }

  /** The days one reservation adds: its part inside the window, in whole days, plus one. */
  function Contribution(r: Reservation, w: DateRange): int
  {
    var overlapStart := if w.start > r.start then w.start else r.start;
    var overlapEnd := if w.end < r.end then w.end else r.end;
    WholeDays(overlapEnd - overlapStart) + 1
  }

  /** The sum of the contributions of `rows`. */
  function BookedDays(rows: seq<Reservation>, w: DateRange): int
  {
    if rows == [] then 0 else BookedDays(rows[..|rows| - 1], w) + Contribution(rows[|rows| - 1], w)
  }

  /** `float64(bookedDays) / float64(totalDays) * 100`, undefined for an empty window. */
  function Rate(bookedDays: int, totalDays: int): (rate: Option<real>)
    ensures rate.Some? <==> totalDays != 0
    ensures rate.Some? ==> rate.value * (totalDays as real) == 100.0 * (bookedDays as real)
  {
    if totalDays == 0 then None else Some(bookedDays as real / totalDays as real * 100.0)
  }

  /** `GetHallUtilizationRate`: validate the hall id, find the hall, resolve the window, then sum the
      clamped inclusive day counts of the overlapping reservations. */
  method GetHallUtilizationRate(db: Storage, hallIdText: string, startParam: DateParam, endParam: DateParam, now: Instant)
    returns (out: Result<Report>)
    ensures ParseUint(hallIdText).None? ==> out == Err(BadRequest("Invalid hall ID"))
    ensures (ParseUint(hallIdText).Some? && FindHall(db, ParseUint(hallIdText).value).None?)
              ==> out == Err(NotFound("Hall not found"))
    ensures (ParseUint(hallIdText).Some? && FindHall(db, ParseUint(hallIdText).value).Some?
             && ResolveWindow(startParam, endParam, now).Err?)
              ==> out == Err(ResolveWindow(startParam, endParam, now).failure)
    ensures out.Ok? ==>
              var id := ParseUint(hallIdText).value;
              var w := ResolveWindow(startParam, endParam, now).value;
              FindHall(db, id).Some? && ResolveWindow(startParam, endParam, now).Ok?
              && out.value.hallId == id && out.value.period == w
              && out.value.totalDays == TotalDays(w)
              && out.value.bookedDays == BookedDays(Overlapping(db.reservations, id, w), w)
              && out.value.rate == Rate(out.value.bookedDays, out.value.totalDays)
    ensures (ParseUint(hallIdText).Some? && FindHall(db, ParseUint(hallIdText).value).Some?
             && ResolveWindow(startParam, endParam, now).Ok?) ==> out.Ok?
  {
    var parsed := ParseUint(hallIdText);
    if parsed.None? {
      return Err(BadRequest("Invalid hall ID"));
    }
    var hallId := parsed.value;
    var found := FindHall(db, hallId);
    if found.None? {
      return Err(NotFound("Hall not found"));
    }
    var hall := found.value;
    var window := ResolveWindow(startParam, endParam, now);
    if window.Err? {
      return Err(window.failure);
    }
    var startDate, endDate := window.value.start, window.value.end;

    var totalDays := WholeDays(endDate - startDate) + 1;

    var reservations := Overlapping(db.reservations, hall.id, window.value);

    var bookedDays := 0;
    var i := 0;
    while i < |reservations|
      invariant 0 <= i <= |reservations|
      invariant bookedDays == BookedDays(reservations[..i], window.value)
    {
      var r := reservations[i];
      var overlapStart := r.start;
      if startDate > overlapStart {
        overlapStart := startDate;
      }
      var overlapEnd := r.end;
      if endDate < overlapEnd {
        overlapEnd := endDate;
      }
      var days := WholeDays(overlapEnd - overlapStart) + 1;
      bookedDays := bookedDays + days;
      assert reservations[..i + 1][..i] == reservations[..i];
      i := i + 1;
    }
    assert reservations[..i] == reservations;

    var utilizationRate := Rate(bookedDays, totalDays);
    return Ok(Report(hall.id, window.value, totalDays, bookedDays, utilizationRate));
  }

  /** The default window spans thirty-one days, both ends counted. */
  lemma DefaultWindowDays(now: Instant)
    ensures ResolveWindow(Absent, Absent, now) == Ok(DateRange(now - ThirtyDays, now))
    ensures TotalDays(ResolveWindow(Absent, Absent, now).value) == 31
  {
    assert WholeDays(ThirtyDays) == 30;
  }

  /** A reservation that overlaps a well-formed window, and is itself well formed, adds at least one
      day: clamped to the window it still starts no later than it ends. */
  lemma ContributionAtLeastOne(r: Reservation, hallId: nat, w: DateRange)
    requires w.start <= w.end && r.start <= r.end && Overlaps(r, hallId, w)
    ensures Contribution(r, w) >= 1
  {
    var overlapStart := if w.start > r.start then w.start else r.start;
    var overlapEnd := if w.end < r.end then w.end else r.end;
    assert overlapStart <= overlapEnd;
  }

  /** A reservation that only touches the window's start still counts, as one day. */
  lemma TouchingStartCountsOneDay(r: Reservation, w: DateRange)
    requires r.start <= r.end == w.start <= w.end
    ensures Overlaps(r, r.hallId, w) && Contribution(r, w) == 1
  {
  }

  lemma {:induction false} BookedDaysAppend(a: seq<Reservation>, b: seq<Reservation>, w: DateRange)
    ensures BookedDays(a + b, w) == BookedDays(a, w) + BookedDays(b, w)
    decreases |b|
  {
    if b == [] {
      assert a + b == a;
    } else {
      var b' := b[..|b| - 1];
      assert (a + b)[..|a + b| - 1] == a + b';
      BookedDaysAppend(a, b', w);
    }
  }

  /** Taking row k out of `b` removes exactly its contribution. */
  lemma BookedDaysRemove(b: seq<Reservation>, k: nat, w: DateRange)
    requires k < |b|
    ensures BookedDays(b, w) == BookedDays(b[..k] + b[k + 1..], w) + Contribution(b[k], w)
  {
    assert b == (b[..k] + [b[k]]) + b[k + 1..];
    BookedDaysAppend(b[..k] + [b[k]], b[k + 1..], w);
    BookedDaysAppend(b[..k], [b[k]], w);
    BookedDaysAppend(b[..k], b[k + 1..], w);
    assert [b[k]][..0] == [];
  }

  /** Booked days do not depend on the order the storage returns the rows in. */
  lemma {:induction false} BookedDaysOrderIndependent(a: seq<Reservation>, b: seq<Reservation>, w: DateRange)
    requires multiset(a) == multiset(b)
    ensures BookedDays(a, w) == BookedDays(b, w)
    decreases |a|
  {
    if a != [] {
      var x := a[|a| - 1];
      var a' := a[..|a| - 1];
      assert multiset(a') == multiset(a) - multiset{x} by {
        assert a == a' + [x];
      }
      assert x in multiset(b) by {
        assert x in a;
      }
      var k :| 0 <= k < |b| && b[k] == x;
      var b' := b[..k] + b[k + 1..];
      assert multiset(b') == multiset(b) - multiset{x} by {
        assert b == b[..k] + [x] + b[k + 1..];
      }
      BookedDaysOrderIndependent(a', b', w);
      BookedDaysRemove(b, k, w);
    }
  }

  /** With every row well formed and overlapping, there are at least as many booked days as rows. */
  lemma {:induction false} BookedDaysAtLeastRows(rows: seq<Reservation>, hallId: nat, w: DateRange)
    requires w.start <= w.end
    requires forall r :: r in rows ==> r.start <= r.end && Overlaps(r, hallId, w)
    ensures BookedDays(rows, w) >= |rows|
  {
    if rows != [] {
      var init := rows[..|rows| - 1];
      assert forall r :: r in init ==> r in rows;
      BookedDaysAtLeastRows(init, hallId, w);
      ContributionAtLeastOne(rows[|rows| - 1], hallId, w);
    }
  }

  /** Utilization is not bounded by the window: two back-to-back one-day bookings of a two-day
      window give four booked days against three total days. */
  lemma BookedDaysCanExceedTotalDays(t: Instant)
    ensures var w := DateRange(t, t + 2 * Day);
            var rows := [Reservation(1, "a", "c", t, t + Day, 0.0, 7), Reservation(2, "b", "c", t + Day, t + 2 * Day, 0.0, 7)];
            Overlapping(rows, 7, w) == rows && TotalDays(w) == 3 && BookedDays(rows, w) == 4
  {
    var w := DateRange(t, t + 2 * Day);
    var r1 := Reservation(1, "a", "c", t, t + Day, 0.0, 7);
    var r2 := Reservation(2, "b", "c", t + Day, t + 2 * Day, 0.0, 7);
    var rows := [r1, r2];
    assert rows[..1] == [r1];
    assert [r1][..0] == [];
    assert WholeDays(Day) == 1;
    assert WholeDays(2 * Day) == 2;
    assert Contribution(r1, w) == 2;
    assert Contribution(r2, w) == 2;
    assert BookedDays([r1], w) == 2;
    assert BookedDays(rows, w) == BookedDays(rows[..1], w) + Contribution(r2, w);
  }
}
