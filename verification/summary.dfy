/** The reservation summary of the dashboard and of the command-line tool: how many bookings are past,
    current and upcoming, and the revenue over all of them. */
module Summary {
  import opened Records
  import Booking

  /** The counters the summary reports. */
  datatype Tally = Tally(total: nat, past: nat, current: nat, upcoming: nat, revenue: real)

  /** How many rows fall into category `c`. */
  function CountOf(rows: seq<Reservation>, c: Booking.Category, now: Instant): nat
  {
    if rows == [] then 0
    else CountOf(rows[..|rows| - 1], c, now) + (if Booking.CategoryOf(rows[|rows| - 1], now) == c then 1 else 0)
  }

  /** The sum of the stored costs. */
  function Revenue(rows: seq<Reservation>): real
  {
    if rows == [] then 0.0 else Revenue(rows[..|rows| - 1]) + rows[|rows| - 1].totalCost
  }

  /** The counting loop both summaries run: add each cost to the revenue and bump the counter of the
      row's category. */
  method CountReservations(rows: seq<Reservation>, now: Instant) returns (t: Tally)
    ensures t == Tally(|rows|, CountOf(rows, Booking.Past, now), CountOf(rows, Booking.Current, now),
                       CountOf(rows, Booking.Upcoming, now), Revenue(rows))
  {
    var pastCount, currentCount, upcomingCount := 0, 0, 0;
    var totalRevenue := 0.0;
    var i := 0;
    while i < |rows|
      invariant 0 <= i <= |rows|
      invariant pastCount == CountOf(rows[..i], Booking.Past, now)
      invariant currentCount == CountOf(rows[..i], Booking.Current, now)
      invariant upcomingCount == CountOf(rows[..i], Booking.Upcoming, now)
      invariant totalRevenue == Revenue(rows[..i])
    {
      var r := rows[i];
      assert rows[..i + 1][..i] == rows[..i];
      totalRevenue := totalRevenue + r.totalCost;
      if r.end < now {
        pastCount := pastCount + 1;
      } else if r.start > now {
        upcomingCount := upcomingCount + 1;
      } else {
        currentCount := currentCount + 1;
      }
      i := i + 1;
    }
    assert rows[..i] == rows;
    return Tally(|rows|, pastCount, currentCount, upcomingCount, totalRevenue);
  }

  /** Every reservation is counted in exactly one category. */
  lemma {:induction false} CountsAddUp(rows: seq<Reservation>, now: Instant)
    ensures CountOf(rows, Booking.Past, now) + CountOf(rows, Booking.Current, now)
              + CountOf(rows, Booking.Upcoming, now) == |rows|
  {
    if rows != [] {
      CountsAddUp(rows[..|rows| - 1], now);
    }
  }

  /** The summary's counts are the sizes of the lists the categorized listing returns. */
  lemma {:induction false} CountsMatchCategorizedLists(rows: seq<Reservation>, c: Booking.Category, now: Instant)
    ensures CountOf(rows, c, now) == |Booking.WithCategory(rows, c, now)|
  {
    if rows != [] {
      CountsMatchCategorizedLists(rows[..|rows| - 1], c, now);
    }
  }

  /** Revenue is additive over any split of the rows. */
  lemma {:induction false} RevenueAppend(a: seq<Reservation>, b: seq<Reservation>)
    ensures Revenue(a + b) == Revenue(a) + Revenue(b)
    decreases |b|
  {
    if b == [] {
      assert a + b == a;
    } else {
      var b' := b[..|b| - 1];
      assert (a + b)[..|a + b| - 1] == a + b';
      RevenueAppend(a, b');
    }
  }

  /** With no negative cost stored, the revenue is at least the cost of any one booking. */
  lemma {:induction false} RevenueBoundsEachCost(rows: seq<Reservation>, k: nat)
    requires k < |rows|
    requires forall j :: 0 <= j < |rows| ==> rows[j].totalCost >= 0.0
    ensures Revenue(rows) >= rows[k].totalCost
  {
    var init := rows[..|rows| - 1];
    if k < |rows| - 1 {
      RevenueBoundsEachCost(init, k);
    } else {
      RevenueNonNegative(init);
    }
  }

  lemma {:induction false} RevenueNonNegative(rows: seq<Reservation>)
    requires forall j :: 0 <= j < |rows| ==> rows[j].totalCost >= 0.0
    ensures Revenue(rows) >= 0.0
  {
    if rows != [] {
      RevenueNonNegative(rows[..|rows| - 1]);
    }
  }

  /** `GetReservationSummary`: fail without a database handle or when the fetch fails, otherwise
      count. `db` is None for a nil handle. */
  method GetReservationSummary(db: Option<Storage>, now: Instant) returns (out: Result<Tally>)
    ensures db.None? ==> out == Err(Internal("Database is disabled. Cannot create reservation."))
    ensures db.Some? && !db.value.online ==> out == Err(Internal("Failed to retrieve reservations"))
    ensures db.Some? && db.value.online ==>
              out.Ok? && out.value.total == |db.value.reservations|
              && out.value.past + out.value.current + out.value.upcoming == out.value.total
              && out.value.revenue == Revenue(db.value.reservations)
              && out.value.past == CountOf(db.value.reservations, Booking.Past, now)
              && out.value.current == CountOf(db.value.reservations, Booking.Current, now)
              && out.value.upcoming == CountOf(db.value.reservations, Booking.Upcoming, now)
  {
    if db.None? {
      return Err(Internal("Database is disabled. Cannot create reservation."));
    }
    if !db.value.online {
      return Err(Internal("Failed to retrieve reservations"));
    }
    var tally := CountReservations(db.value.reservations, now);
    CountsAddUp(db.value.reservations, now);
    return Ok(tally);
  }

  /** What the summary command prints: the summary table, or the fetch error. */
  datatype Printed = Table(tally: Tally) | FetchError(prefix: string)

  /** `SummaryCmd`: stop on a failed fetch, otherwise count exactly as the dashboard does. */
  method SummaryCmd(db: Storage, now: Instant) returns (out: Printed)
    ensures !db.online ==> out == FetchError("Failed to retrieve reservations:")
    ensures db.online ==>
              out.Table? && out.tally.total == |db.reservations|
              && out.tally.past + out.tally.current + out.tally.upcoming == out.tally.total
              && out.tally.revenue == Revenue(db.reservations)
              && out.tally.past == CountOf(db.reservations, Booking.Past, now)
              && out.tally.current == CountOf(db.reservations, Booking.Current, now)
              && out.tally.upcoming == CountOf(db.reservations, Booking.Upcoming, now)
  {
    if !db.online {
      return FetchError("Failed to retrieve reservations:");
    }
    var tally := CountReservations(db.reservations, now);
    CountsAddUp(db.reservations, now);
    return Table(tally);
  }
}
