/** Hall utilization as the command-line tool prints it: the last thirty days, truncated day counts
    with no inclusive `+1`. */
module CliUtilization {
  import opened Records
  import opened Time
  import Utilization

  /** What the command prints: the utilization line, or an error line. */
  datatype Outcome = Report(hallId: int, bookedDays: int, totalDays: int, rate: real) | Message(text: string)

  /** `maxTime`: the later of two instants. */
  function MaxTime(a: Instant, b: Instant): (m: Instant)
    ensures m == a || m == b
    ensures m >= a && m >= b
  {
    if a > b then a else b
  }

  /** `minTime`: the earlier of two instants. */
  function MinTime(a: Instant, b: Instant): (m: Instant)
    ensures m == a || m == b
    ensures m <= a && m <= b
  {
    if a < b then a else b
  }

  /** The window the command always uses: the thirty days up to now. */
  function LastThirtyDays(now: Instant): (w: DateRange)
    ensures w.end == now && w.end - w.start == ThirtyDays
  {
    DateRange(now - ThirtyDays, now)
  }

  /** The days one reservation adds: whole days of its part inside the window, nothing more. */
  function Contribution(r: Reservation, w: DateRange): int
  {
    WholeDays(MinTime(w.end, r.end) - MaxTime(w.start, r.start))
  }

  function BookedDays(rows: seq<Reservation>, w: DateRange): int
  {
    if rows == [] then 0 else BookedDays(rows[..|rows| - 1], w) + Contribution(rows[|rows| - 1], w)
  }

  /** The utilization command: reject a missing hall id, find the hall, then sum the truncated day
      counts of the reservations overlapping the last thirty days. */
  method UtilizationCmd(db: Storage, hallId: int, now: Instant) returns (out: Outcome)
    ensures hallId == 0 ==> out == Message("Error: You must provide a hall ID using --hall")
    ensures hallId != 0 && FindHall(db, hallId).None? ==> out == Message("Error: Hall not found")
    ensures hallId != 0 && FindHall(db, hallId).Some? ==>
              var w := LastThirtyDays(now);
              var booked := BookedDays(Utilization.Overlapping(db.reservations, hallId as nat, w), w);
              out == Report(hallId, booked, 30, booked as real / 30.0 * 100.0)
  {
    if hallId == 0 {
      return Message("Error: You must provide a hall ID using --hall");
    }
    var found := FindHall(db, hallId);
    if found.None? {
      return Message("Error: Hall not found");
    }
    var startDate := now - ThirtyDays;
    var endDate := now;
    var window := DateRange(startDate, endDate);
    var reservations := Utilization.Overlapping(db.reservations, hallId as nat, window);
    var bookedDays := SumBookedDays(reservations, window);
    var totalDays := WholeDays(endDate - startDate);
    WindowLengthsDiffer(now);
    assert totalDays == 30;
    var utilizationRate := bookedDays as real / totalDays as real * 100.0;
    return Report(hallId, bookedDays, totalDays, utilizationRate);
  }

  /** The loop of the command: add the truncated whole days of each row's part inside the window. */
  method SumBookedDays(reservations: seq<Reservation>, window: DateRange) returns (bookedDays: int)
    ensures bookedDays == BookedDays(reservations, window)
  {
    bookedDays := 0;
    var i := 0;
    while i < |reservations|
      invariant 0 <= i <= |reservations|
      invariant bookedDays == BookedDays(reservations[..i], window)
    {
      var r := reservations[i];
      var overlapStart := MaxTime(window.start, r.start);
      var overlapEnd := MinTime(window.end, r.end);
      bookedDays := bookedDays + WholeDays(overlapEnd - overlapStart);
      assert reservations[..i + 1][..i] == reservations[..i];
      i := i + 1;
    }
    assert reservations[..i] == reservations;
  }

  /** For the same rows and window the HTTP handler counts exactly one more day per row than the
      command does: the two utilization figures disagree whenever any reservation overlaps. */
  lemma {:induction false} HandlerCountsOneMorePerRow(rows: seq<Reservation>, w: DateRange)
    ensures Utilization.BookedDays(rows, w) == BookedDays(rows, w) + |rows|
  {
    if rows != [] {
      HandlerCountsOneMorePerRow(rows[..|rows| - 1], w);
      var r := rows[|rows| - 1];
      assert Utilization.Contribution(r, w) == Contribution(r, w) + 1;
    }
  }

  /** The command's window spans thirty days while the handler's default window counts thirty-one. */
  lemma WindowLengthsDiffer(now: Instant)
    ensures WholeDays(LastThirtyDays(now).end - LastThirtyDays(now).start) == 30
    ensures Utilization.TotalDays(LastThirtyDays(now)) == 31
  {
    assert WholeDays(ThirtyDays) == 30;
  }
}
