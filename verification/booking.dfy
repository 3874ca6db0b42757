/** The booking rules of the reservation handler: date validation, the inclusive double-booking test,
    creation with suggestions on a clash, update by field copy and repricing, the past / current /
    upcoming partition, and the whitelist for the sort parameter. */
module Booking {
  import opened Records
  import opened Time
  import opened Pricing
  import opened Suggestions

  /** The double-booking test `hall_id = ? AND (start_date BETWEEN s AND e OR end_date BETWEEN s AND e)`:
      an existing row of the hall clashes when its start or its end lies in [s, e], both ends included. */
  predicate ClashesWith(r: Reservation, hallId: nat, s: Instant, e: Instant)
  {
    r.hallId == hallId && ((s <= r.start <= e) || (s <= r.end <= e))
  }

  /** A clashing row that is not the reservation being updated (`id != ?`), when there is one. */
  predicate Counted(r: Reservation, hallId: nat, s: Instant, e: Instant, exclude: Option<nat>)
  {
    ClashesWith(r, hallId, s, e) && (exclude.None? || r.id != exclude.value)
  }

  function CountMatching(rows: seq<Reservation>, hallId: nat, s: Instant, e: Instant, exclude: Option<nat>): (n: nat)
    ensures n > 0 <==> exists r :: r in rows && Counted(r, hallId, s, e, exclude)
    ensures n <= |rows|
  {
    if rows == [] then 0
    else
      var init := rows[..|rows| - 1];
      var last := rows[|rows| - 1];
      assert rows == init + [last];
      CountMatching(init, hallId, s, e, exclude) + (if Counted(last, hallId, s, e, exclude) then 1 else 0)
  }

  /** The `Count` query. Its error is not checked, so a failing storage reads as no clash. */
  function ConflictCount(db: Storage, hallId: nat, s: Instant, e: Instant, exclude: Option<nat>): (n: nat)
    ensures !db.online ==> n == 0
    ensures n > 0 <==> db.online && exists r :: r in db.reservations && Counted(r, hallId, s, e, exclude)
  {
    if db.online then CountMatching(db.reservations, hallId, s, e, exclude) else 0
  }

  /** A clash is an overlap of the closed intervals, for a well-formed existing row. */
  lemma ClashIsClosedOverlap(r: Reservation, hallId: nat, s: Instant, e: Instant)
    requires r.start <= r.end && ClashesWith(r, hallId, s, e)
    ensures r.hallId == hallId && r.start <= e && s <= r.end
  {
  }

  /** An overlap of the closed intervals is a clash unless the existing row strictly contains the
      request: the test does not look at containment. */
  lemma ClosedOverlapIsClashOrContainment(r: Reservation, hallId: nat, s: Instant, e: Instant)
    requires r.hallId == hallId && s <= e && r.start <= e && s <= r.end
    ensures ClashesWith(r, hallId, s, e) || (r.start < s && e < r.end)
  {
  }

  /** A booking that strictly contains the request is never a clash: neither of its endpoints lies
      inside the requested period. */
  lemma ContainmentIsNotAClash(r: Reservation, hallId: nat, s: Instant, e: Instant)
    requires r.start < s && e < r.end
    ensures !ClashesWith(r, hallId, s, e)
  {
  }

  /** A request starting exactly when an existing booking ends clashes with it. */
  lemma TouchingIsAClash(r: Reservation, s: Instant, e: Instant)
    requires r.end == s && s <= e
    ensures ClashesWith(r, r.hallId, s, e)
  {
  }

  /** On update the reservation's own row is never counted. */
  lemma OwnRowNeverCounted(r: Reservation, s: Instant, e: Instant)
    ensures !Counted(r, r.hallId, s, e, Some(r.id))
  {
  }

  /** An update whose only clash is with its own stored row passes the double-booking test. */
  lemma ClashWithSelfOnlyPasses(db: Storage, id: nat, hallId: nat, s: Instant, e: Instant)
    requires forall r :: r in db.reservations && ClashesWith(r, hallId, s, e) ==> r.id == id
    ensures ConflictCount(db, hallId, s, e, Some(id)) == 0
  {
  }

  /** Submitting a suggested period other than the leading one is itself refused: it starts where a
      reservation of the same hall ends, and the inclusive test counts that touch as a clash. */
  lemma SuggestedDatesAreRefused(db: Storage, hallId: nat, requestedStart: Instant, requestedEnd: Instant,
                                 rows: seq<Reservation>, o: DateRange)
    requires db.online && requestedStart <= requestedEnd
    requires IsWindowResult(db, hallId, SearchWindow(requestedStart, requestedEnd), rows) && rows != []
    requires o in Alternatives(rows, requestedStart, requestedEnd)
    requires o.start != SearchWindow(requestedStart, requestedEnd).start
    ensures ConflictCount(db, hallId, o.start, o.end, None) > 0
  {
    SuggestionsStartAtReservationEnds(rows, requestedStart, requestedEnd, o);
    SuggestionsHaveRequestedLength(rows, requestedStart, requestedEnd);
    var r :| r in rows && r.end == o.start;
    WindowResultMembers(db, hallId, SearchWindow(requestedStart, requestedEnd), rows);
    assert Counted(r, hallId, o.start, o.end, None);
  }

  /** `duration_days`: whole days of the booking, at least one. */
  function DurationDays(start: Instant, end: Instant): (n: int)
    ensures n >= 1
    ensures end - start >= Day ==> n * Day <= end - start < n * Day + Day
    ensures end - start < Day ==> n == 1
  {
    var duration := WholeDays(end - start);
    if duration < 1 then 1 else duration
  }

  /** A later end never reports fewer days. */
  lemma DurationDaysMonotone(start: Instant, end1: Instant, end2: Instant)
    requires end1 <= end2
    ensures DurationDays(start, end1) <= DurationDays(start, end2)
  {
    WholeDaysMonotonic(end1 - start, end2 - start);
  }

  /** Reported for a booking of a whole number of days, `cost_per_day` is the hall's own rate. */
  lemma WholeDayBookingReportsHallRate(start: Instant, k: nat, costPerDay: real)
    requires k >= 1
    ensures FlatCost(start, start + k * Day, costPerDay) / (DurationDays(start, start + k * Day) as real) == costPerDay
  {
    assert WholeDays(k * Day) == k;
    assert FractionalDays(start + k * Day - start) == k as real;
  }

  /** What creating a reservation answers. */
  datatype CreateOutcome =
    | Created(reservation: Reservation, durationDays: int, costPerDay: real)
    | Rejected(failure: Failure)
    /** 409, with the suggestions only when they could be computed. */
    | Clash(message: string, suggestions: Option<seq<DateRange>>)

  /** The validation shared by create and update: the start strictly before the end. */
  predicate StartBeforeEnd(p: Reservation) { p.start < p.end }

  /** `CreateReservation`: validate the dates, refuse a clash (with suggestions), price the booking
      with the hall's rate and store it under its own id, or under `newId` when it carries none. `payload`
      is None when the body does not bind. */
  method CreateReservation(db: Storage, payload: Option<Reservation>, newId: nat, now: Instant)
    returns (out: CreateOutcome)
    ensures payload.None? ==> out == Rejected(BadRequest("Invalid request payload"))
    ensures (payload.Some? && !StartBeforeEnd(payload.value))
              ==> out == Rejected(BadRequest("Start date must be before end date"))
    ensures (payload.Some? && StartBeforeEnd(payload.value) && payload.value.start < now)
              ==> out == Rejected(BadRequest("Start date cannot be in the past"))
    ensures out.Clash? <==>
              payload.Some? && StartBeforeEnd(payload.value) && payload.value.start >= now
              && ConflictCount(db, payload.value.hallId, payload.value.start, payload.value.end, None) > 0
    ensures out.Clash? ==>
              var p := payload.value;
              out.message == "Hall is already booked for these dates"
              && out.suggestions.Some?
              && exists rows :: IsWindowResult(db, p.hallId, SearchWindow(p.start, p.end), rows)
                                && out.suggestions.value == Alternatives(rows, p.start, p.end)
    ensures out.Created? <==>
              payload.Some? && StartBeforeEnd(payload.value) && payload.value.start >= now
              && ConflictCount(db, payload.value.hallId, payload.value.start, payload.value.end, None) == 0
              && FindHall(db, payload.value.hallId).Some?
    ensures out.Created? ==>
              var p := payload.value;
              var cost := FlatCost(p.start, p.end, FindHall(db, p.hallId).value.costPerDay);
              out.reservation == p.(id := AssignedId(p.id, newId), totalCost := cost)
              && out.durationDays == DurationDays(p.start, p.end)
              && out.costPerDay == cost / (DurationDays(p.start, p.end) as real)
    ensures (payload.Some? && StartBeforeEnd(payload.value) && payload.value.start >= now
             && ConflictCount(db, payload.value.hallId, payload.value.start, payload.value.end, None) == 0
             && FindHall(db, payload.value.hallId).None?)
              ==> out == Rejected(NotFound("Hall not found"))
    ensures out.Rejected? && out.failure.NotFound? ==> out.failure == NotFound("Hall not found")
  {
    if payload.None? {
      return Rejected(BadRequest("Invalid request payload"));
    }
    var reservation := payload.value;
    if !(reservation.start < reservation.end) {
      return Rejected(BadRequest("Start date must be before end date"));
    }
    if reservation.start < now {
      return Rejected(BadRequest("Start date cannot be in the past"));
    }

    var count := ConflictCount(db, reservation.hallId, reservation.start, reservation.end, None);
    if count > 0 {
      var suggested := SuggestAlternativeDates(db, reservation.hallId, reservation.start, reservation.end);
      var suggestions := if suggested.Ok? then Some(suggested.value) else None;
      return Clash("Hall is already booked for these dates", suggestions);
    }

    var hall := FindHall(db, reservation.hallId);
    if hall.None? {
      return Rejected(NotFound("Hall not found"));
    }
    var record := new ReservationRecord(reservation.(id := AssignedId(reservation.id, newId)));
    record.CalculateFlatTotalCost(hall.value.costPerDay);
    var stored := record.Value();

    var duration := DurationDays(stored.start, stored.end);
    return Created(stored, duration, stored.totalCost / duration as real);
  }

  /** The field copy of `UpdateReservation`: name, company, hall and dates come from the request, the
      id and everything else stay, and the cost is recomputed from the hall's rate. */
  method ApplyUpdate(record: ReservationRecord, updated: Reservation, costPerDay: real)
    modifies record
    ensures record.Value() == old(record.Value()).(name := updated.name, company := updated.company,
              hallId := updated.hallId, start := updated.start, end := updated.end,
              totalCost := FlatCost(updated.start, updated.end, costPerDay))
  {
    record.name := updated.name;
    record.company := updated.company;
    record.hallId := updated.hallId;
    record.startDate := updated.start;
    record.endDate := updated.end;
    record.CalculateFlatTotalCost(costPerDay);
  }

  /** `UpdateReservation`: find the stored row, validate the new dates (no check against now), refuse
      a clash with any other row, then copy the fields and reprice. */
  method UpdateReservation(db: Storage, id: nat, payload: Option<Reservation>) returns (out: Result<Reservation>)
    ensures FindReservation(db, id).None? ==> out == Err(NotFound("Reservation not found"))
    ensures FindReservation(db, id).Some? && payload.None? ==> out == Err(BadRequest("Invalid request payload"))
    ensures (FindReservation(db, id).Some? && payload.Some? && !StartBeforeEnd(payload.value))
              ==> out == Err(BadRequest("Start date must be before end date"))
    ensures (FindReservation(db, id).Some? && payload.Some? && StartBeforeEnd(payload.value)
             && ConflictCount(db, payload.value.hallId, payload.value.start, payload.value.end, Some(id)) > 0)
              ==> out == Err(Conflict("The hall is already booked for the selected dates"))
    ensures (FindReservation(db, id).Some? && payload.Some? && StartBeforeEnd(payload.value)
             && ConflictCount(db, payload.value.hallId, payload.value.start, payload.value.end, Some(id)) == 0
             && FindHall(db, payload.value.hallId).None?)
              ==> out == Err(NotFound("Hall not found"))
    ensures out.Ok? <==>
              FindReservation(db, id).Some? && payload.Some? && StartBeforeEnd(payload.value)
              && ConflictCount(db, payload.value.hallId, payload.value.start, payload.value.end, Some(id)) == 0
              && FindHall(db, payload.value.hallId).Some?
    ensures out.Ok? ==>
              var u := payload.value;
              out.value == FindReservation(db, id).value.(name := u.name, company := u.company,
                hallId := u.hallId, start := u.start, end := u.end,
                totalCost := FlatCost(u.start, u.end, FindHall(db, u.hallId).value.costPerDay))
              && out.value.id == id
    ensures out.Err? && out.failure.NotFound? ==>
              out.failure == NotFound("Reservation not found") || out.failure == NotFound("Hall not found")
  {
    var existing := FindReservation(db, id);
    if existing.None? {
      return Err(NotFound("Reservation not found"));
    }
    if payload.None? {
      return Err(BadRequest("Invalid request payload"));
    }
    var updated := payload.value;
    if !(updated.start < updated.end) {
      return Err(BadRequest("Start date must be before end date"));
    }
    var count := ConflictCount(db, updated.hallId, updated.start, updated.end, Some(id));
    if count > 0 {
      return Err(Conflict("The hall is already booked for the selected dates"));
    }
    var hall := FindHall(db, updated.hallId);
    if hall.None? {
      return Err(NotFound("Hall not found"));
    }
    var record := new ReservationRecord(existing.value);
    ApplyUpdate(record, updated, hall.value.costPerDay);
    return Ok(record.Value());
  }

  /** Where a reservation stands relative to now. */
  datatype Category = Past | Current | Upcoming

  /** Ended before now is past; otherwise starting after now is upcoming; everything else is current. */
  function CategoryOf(r: Reservation, now: Instant): (c: Category)
    ensures c == Past <==> r.end < now
    ensures c == Upcoming <==> r.end >= now && r.start > now
    ensures c == Current <==> r.end >= now && r.start <= now
  {
    if r.end < now then Past else if r.start > now then Upcoming else Current
  }

  /** The rows of one category, in input order. */
  function WithCategory(rows: seq<Reservation>, c: Category, now: Instant): (kept: seq<Reservation>)
    ensures |kept| <= |rows|
  {
    if rows == [] then []
    else
      var r := rows[|rows| - 1];
      WithCategory(rows[..|rows| - 1], c, now) + (if CategoryOf(r, now) == c then [r] else [])
  }

  /** Filtering by category commutes with concatenation, so each list keeps the input order. */
  lemma {:induction false} WithCategoryAppend(a: seq<Reservation>, b: seq<Reservation>, c: Category, now: Instant)
    ensures WithCategory(a + b, c, now) == WithCategory(a, c, now) + WithCategory(b, c, now)
    decreases |b|
  {
    if b == [] {
      assert a + b == a;
    } else {
      var b' := b[..|b| - 1];
      assert (a + b)[..|a + b| - 1] == a + b';
      WithCategoryAppend(a, b', c, now);
    }
  }

  /** A row is in the list of its own category and in no other. */
  lemma {:induction false} WithCategoryMembers(rows: seq<Reservation>, c: Category, now: Instant, r: Reservation)
    ensures r in WithCategory(rows, c, now) <==> r in rows && CategoryOf(r, now) == c
  {
    if rows != [] {
      var init := rows[..|rows| - 1];
      WithCategoryMembers(init, c, now, r);
      assert rows == init + [rows[|rows| - 1]];
    }
  }

  /** The three lists split the input: every row lands in exactly one of them, none is lost or duplicated. */
  lemma {:induction false} CategoriesPartition(rows: seq<Reservation>, now: Instant)
    ensures multiset(WithCategory(rows, Past, now)) + multiset(WithCategory(rows, Current, now))
              + multiset(WithCategory(rows, Upcoming, now)) == multiset(rows)
    ensures |WithCategory(rows, Past, now)| + |WithCategory(rows, Current, now)|
              + |WithCategory(rows, Upcoming, now)| == |rows|
  {
    if rows != [] {
      var init := rows[..|rows| - 1];
      var r := rows[|rows| - 1];
      CategoriesPartition(init, now);
      assert rows == init + [r];
    }
  }

  /** A booking ending exactly now, or starting exactly now, is current. */
  lemma BoundariesAreCurrent(r: Reservation, now: Instant)
    requires r.start <= r.end && (r.end == now || r.start == now)
    ensures CategoryOf(r, now) == Current
  {
  }

  /** The loop of `GetCategorizedReservations`: append each row to the list of its category. */
  method Categorize(rows: seq<Reservation>, now: Instant) returns (past: seq<Reservation>, current: seq<Reservation>, upcoming: seq<Reservation>)
    ensures past == WithCategory(rows, Past, now)
    ensures current == WithCategory(rows, Current, now)
    ensures upcoming == WithCategory(rows, Upcoming, now)
  {
    past, current, upcoming := [], [], [];
    var i := 0;
    while i < |rows|
      invariant 0 <= i <= |rows|
      invariant past == WithCategory(rows[..i], Past, now)
      invariant current == WithCategory(rows[..i], Current, now)
      invariant upcoming == WithCategory(rows[..i], Upcoming, now)
    {
      var r := rows[i];
      assert rows[..i + 1][..i] == rows[..i];
      if r.end < now {
        past := past + [r];
      } else if r.start > now {
        upcoming := upcoming + [r];
      } else {
        current := current + [r];
      }
      i := i + 1;
    }
    assert rows[..i] == rows;
  }

  datatype Categorized = Categorized(past: seq<Reservation>, current: seq<Reservation>, upcoming: seq<Reservation>)

  /** `GetCategorizedReservations`: fetch every reservation and split them by category. */
  method GetCategorizedReservations(db: Storage, now: Instant) returns (out: Result<Categorized>)
    ensures !db.online ==> out == Err(Internal("Failed to retrieve reservations"))
    ensures db.online ==> out == Ok(Categorized(WithCategory(db.reservations, Past, now),
                                                WithCategory(db.reservations, Current, now),
                                                WithCategory(db.reservations, Upcoming, now)))
  {
    if !db.online {
      return Err(Internal("Failed to retrieve reservations"));
    }
    var past, current, upcoming := Categorize(db.reservations, now);
    return Ok(Categorized(past, current, upcoming));
  }

  /** The columns a listing may be sorted by. */
  predicate SortableField(field: string)
  {
    field == "start_date" || field == "end_date" || field == "company" || field == "hall_id"
  }

  /** The `order` parameter, defaulting to "asc" when absent; anything but "asc" or "desc" becomes "asc". */
  function NormalizeOrder(order: Option<string>): (o: string)
    ensures o == "asc" || o == "desc"
    ensures o == "desc" <==> order == Some("desc")
  {
    var o := if order.Some? then order.value else "asc";
    if o != "asc" && o != "desc" then "asc" else o
  }

  /** The ORDER BY clause the listing applies: none without `sort_by` or for a column outside the
      whitelist, otherwise the column and the normalized direction. */
  function SortClause(sortBy: string, order: Option<string>): (clause: Option<string>)
    ensures clause.Some? <==> SortableField(sortBy)
    ensures clause.Some? ==> clause.value == sortBy + " " + NormalizeOrder(order)
  {
    if sortBy != "" && SortableField(sortBy) then Some(sortBy + " " + NormalizeOrder(order)) else None
  }
}
