/** Alternative-date suggestion: free periods of the requested length around a refused request. */
module Suggestions {
  import opened Records
  import opened Time

  /** The search window: thirty days before the requested start to thirty days after the requested end. */
  function SearchWindow(requestedStart: Instant, requestedEnd: Instant): (w: DateRange)
    ensures w.start + ThirtyDays == requestedStart && w.end - ThirtyDays == requestedEnd
  {
    DateRange(requestedStart - ThirtyDays, requestedEnd + ThirtyDays)
  }

  /** The rows the window query keeps: this hall, starting and ending inside the window (table order). */
  function InWindow(rows: seq<Reservation>, hallId: nat, w: DateRange): (kept: seq<Reservation>)
    ensures forall r :: r in kept <==> r in rows && r.hallId == hallId && w.start <= r.start && r.end <= w.end
    ensures |kept| <= |rows|
  {
    if rows == [] then []
    else
      var r := rows[|rows| - 1];
      InWindow(rows[..|rows| - 1], hallId, w)
        + (if r.hallId == hallId && w.start <= r.start && r.end <= w.end then [r] else [])
  }

  predicate SortedByStart(rows: seq<Reservation>)
  {
    forall i, j :: 0 <= i < j < |rows| ==> rows[i].start <= rows[j].start
  }

  /** A row no later than every row of a sorted list can be put in front of it. */
  lemma SortedCons(x: Reservation, rest: seq<Reservation>)
    requires SortedByStart(rest)
    requires forall k :: 0 <= k < |rest| ==> x.start <= rest[k].start
    ensures SortedByStart([x] + rest)
  {
    var s := [x] + rest;
    forall i, j | 0 <= i < j < |s| ensures s[i].start <= s[j].start {
      assert s[j] == rest[j - 1];
      if i > 0 {
        assert s[i] == rest[i - 1];
      }
    }
  }

  /** Place `r` before the first row that does not start earlier. */
  function InsertByStart(r: Reservation, rows: seq<Reservation>): (out: seq<Reservation>)
    requires SortedByStart(rows)
    ensures SortedByStart(out) && multiset(out) == multiset(rows) + multiset{r}
  {
    if rows == [] || r.start <= rows[0].start then
      SortedCons(r, rows);
      [r] + rows
    else
      var rest := InsertByStart(r, rows[1..]);
      assert multiset(rows) == multiset{rows[0]} + multiset(rows[1..]) by {
        assert rows == [rows[0]] + rows[1..];
      }
      assert forall k :: 0 <= k < |rest| ==> rows[0].start <= rest[k].start by {
        forall k | 0 <= k < |rest| ensures rows[0].start <= rest[k].start {
          assert rest[k] in multiset(rest);
          assert rest[k] == r || rest[k] in multiset(rows[1..]);
        }
      }
      SortedCons(rows[0], rest);
      [rows[0]] + rest
  }

  /** `ORDER BY start_date ASC`: the same rows by ascending start (ties in table order). */
  function OrderByStart(rows: seq<Reservation>): (out: seq<Reservation>)
    ensures SortedByStart(out) && multiset(out) == multiset(rows)
  {
    if rows == [] then []
    else
      assert rows == [rows[0]] + rows[1..];
      InsertByStart(rows[0], OrderByStart(rows[1..]))
  }

  /** What the suggestion query may return: this hall's rows lying inside the window, ordered by
      start; the order of rows with equal starts is left to the storage. */
  predicate IsWindowResult(db: Storage, hallId: nat, w: DateRange, rows: seq<Reservation>)
  {
    SortedByStart(rows) && multiset(rows) == multiset(InWindow(db.reservations, hallId, w))
  }

  /** A window result holds exactly this hall's rows that start and end inside the window. */
  lemma WindowResultMembers(db: Storage, hallId: nat, w: DateRange, rows: seq<Reservation>)
    requires IsWindowResult(db, hallId, w, rows)
    ensures forall r :: r in rows <==> r in db.reservations && r.hallId == hallId && w.start <= r.start && r.end <= w.end
  {
    assert forall r :: r in rows <==> r in multiset(rows);
    var kept := InWindow(db.reservations, hallId, w);
    assert forall r :: r in kept <==> r in multiset(kept);
  }

  /** The window query `WHERE hall_id = ? AND start_date >= ? AND end_date <= ? ORDER BY start_date ASC`. */
  method FetchWindow(db: Storage, hallId: nat, w: DateRange) returns (out: Result<seq<Reservation>>)
    ensures !db.online ==> out == Err(QueryFailed)
    ensures db.online ==> out.Ok? && IsWindowResult(db, hallId, w, out.value)
  {
    if !db.online {
      return Err(QueryFailed);
    }
    return Ok(OrderByStart(InWindow(db.reservations, hallId, w)));
  }

  /** The N + 1 candidate gaps around N rows: before the first, between neighbours, after the last. */
  function Gaps(rows: seq<Reservation>, w: DateRange): (gaps: seq<DateRange>)
    requires rows != []
    ensures |gaps| == |rows| + 1
    ensures gaps[0] == DateRange(w.start, rows[0].start)
    ensures forall i :: 0 <= i < |rows| - 1 ==> gaps[i + 1] == DateRange(rows[i].end, rows[i + 1].start)
    ensures gaps[|rows|] == DateRange(rows[|rows| - 1].end, w.end)
  {
    var inner := PairGaps(rows, |rows| - 1);
    PairGapsAt(rows, |rows| - 1);
    [DateRange(w.start, rows[0].start)] + inner + [DateRange(rows[|rows| - 1].end, w.end)]
  }

  /** The gap between rows i and i + 1. */
  function Between(rows: seq<Reservation>, i: nat): DateRange
    requires i + 1 < |rows|
  {
    DateRange(rows[i].end, rows[i + 1].start)
  }

  /** The gaps between the first n + 1 rows, in row order. */
  function PairGaps(rows: seq<Reservation>, n: nat): (gaps: seq<DateRange>)
    requires n < |rows|
    ensures |gaps| == n
  {
    if n == 0 then [] else PairGaps(rows, n - 1) + [Between(rows, n - 1)]
  }

  lemma {:induction false} PairGapsAt(rows: seq<Reservation>, n: nat)
    requires n < |rows|
    ensures forall i :: 0 <= i < n ==> PairGaps(rows, n)[i] == Between(rows, i)
  {
    if n > 0 {
      PairGapsAt(rows, n - 1);
    }
  }

  /** A gap fits a duration when it is at least that long. */
  predicate Fits(gap: DateRange, d: int) { gap.end - gap.start >= d }

  /** The earliest period of length `d` inside a gap. */
  function Earliest(gap: DateRange, d: int): (r: DateRange)
    ensures r.start == gap.start && r.end - r.start == d
  {
    DateRange(gap.start, gap.start + d)
  }

  /** The offer a single gap yields: its earliest sub-period when it fits, nothing otherwise. */
  function OfferOf(gap: DateRange, d: int): (o: seq<DateRange>)
    ensures |o| <= 1
    ensures o != [] <==> Fits(gap, d)
    ensures o != [] ==> o[0] == Earliest(gap, d)
  {
    if Fits(gap, d) then [Earliest(gap, d)] else []
  }

  /** One offer per fitting gap, in gap order. */
  function Offers(gaps: seq<DateRange>, d: int): seq<DateRange>
  {
    if gaps == [] then [] else Offers(gaps[..|gaps| - 1], d) + OfferOf(gaps[|gaps| - 1], d)
  }

  /** The offers of the gaps between the first n + 1 rows. */
  function PairOffers(rows: seq<Reservation>, n: nat, d: int): seq<DateRange>
    requires n < |rows|
  {
    if n == 0 then [] else PairOffers(rows, n - 1, d) + OfferOf(Between(rows, n - 1), d)
  }

  /** The suggestions for a request, given the rows the window query returned: the request itself when
      there are none, otherwise the offers of the leading gap, of each gap between neighbours, and of
      the trailing gap. */
  function Alternatives(rows: seq<Reservation>, requestedStart: Instant, requestedEnd: Instant): seq<DateRange>
  {
    var w := SearchWindow(requestedStart, requestedEnd);
    var d := requestedEnd - requestedStart;
    if rows == [] then [DateRange(requestedStart, requestedStart + d)]
    else
      OfferOf(DateRange(w.start, rows[0].start), d)
        + PairOffers(rows, |rows| - 1, d)
        + OfferOf(DateRange(rows[|rows| - 1].end, w.end), d)
  }

  lemma {:induction false} OffersAppend(a: seq<DateRange>, b: seq<DateRange>, d: int)
    ensures Offers(a + b, d) == Offers(a, d) + Offers(b, d)
    decreases |b|
  {
    if b == [] {
      assert a + b == a;
    } else {
      var b' := b[..|b| - 1];
      assert (a + b)[..|a + b| - 1] == a + b';
      OffersAppend(a, b', d);
    }
  }

  lemma {:induction false} PairOffersAreGapOffers(rows: seq<Reservation>, n: nat, d: int)
    requires n < |rows|
    ensures PairOffers(rows, n, d) == Offers(PairGaps(rows, n), d)
  {
    if n > 0 {
      PairOffersAreGapOffers(rows, n - 1, d);
      assert PairGaps(rows, n)[..n - 1] == PairGaps(rows, n - 1);
    }
  }

  /** The suggestions are exactly the offers of the N + 1 candidate gaps, in gap order. */
  lemma AlternativesAreGapOffers(rows: seq<Reservation>, requestedStart: Instant, requestedEnd: Instant)
    requires rows != []
    ensures Alternatives(rows, requestedStart, requestedEnd)
              == Offers(Gaps(rows, SearchWindow(requestedStart, requestedEnd)), requestedEnd - requestedStart)
  {
    var w := SearchWindow(requestedStart, requestedEnd);
    var d := requestedEnd - requestedStart;
    var lead, trail := DateRange(w.start, rows[0].start), DateRange(rows[|rows| - 1].end, w.end);
    var inner := PairGaps(rows, |rows| - 1);
    PairGapsAt(rows, |rows| - 1);
    calc {
      Offers(Gaps(rows, w), d);
    ==  { assert Gaps(rows, w) == ([lead] + inner) + [trail]; }
      Offers(([lead] + inner) + [trail], d);
    ==  { OffersAppend([lead] + inner, [trail], d); OffersOfOne(trail, d); }
      Offers([lead] + inner, d) + OfferOf(trail, d);
    ==  { OffersAppend([lead], inner, d); OffersOfOne(lead, d); }
      OfferOf(lead, d) + Offers(inner, d) + OfferOf(trail, d);
    ==  { PairOffersAreGapOffers(rows, |rows| - 1, d); }
      OfferOf(lead, d) + PairOffers(rows, |rows| - 1, d) + OfferOf(trail, d);
    }
  }

  lemma OffersOfOne(g: DateRange, d: int)
    ensures Offers([g], d) == OfferOf(g, d)
  {
    assert [g][..0] == [];
  }

  /** An offer is exactly the earliest sub-period of some gap long enough for it, and every such gap gives one. */
  lemma {:induction false} OffersAreFittingGaps(gaps: seq<DateRange>, d: int, o: DateRange)
    ensures o in Offers(gaps, d) <==> exists g :: g in gaps && Fits(g, d) && o == Earliest(g, d)
  {
    if gaps != [] {
      var init := gaps[..|gaps| - 1];
      OffersAreFittingGaps(init, d, o);
      assert gaps == init + [gaps[|gaps| - 1]];
      assert forall g :: g in gaps <==> g in init || g == gaps[|gaps| - 1];
    }
  }

  /** There are never more offers than gaps, so at most N + 1 for N rows. */
  lemma {:induction false} OffersAtMostGaps(gaps: seq<DateRange>, d: int)
    ensures |Offers(gaps, d)| <= |gaps|
  {
    if gaps != [] {
      OffersAtMostGaps(gaps[..|gaps| - 1], d);
    }
  }

  /** Every suggestion has exactly the requested length. */
  lemma SuggestionsHaveRequestedLength(rows: seq<Reservation>, requestedStart: Instant, requestedEnd: Instant)
    ensures forall o :: o in Alternatives(rows, requestedStart, requestedEnd) ==> o.end - o.start == requestedEnd - requestedStart
  {
    if rows != [] {
      var d := requestedEnd - requestedStart;
      var gaps := Gaps(rows, SearchWindow(requestedStart, requestedEnd));
      AlternativesAreGapOffers(rows, requestedStart, requestedEnd);
      forall o | o in Offers(gaps, d) ensures o.end - o.start == d {
        OffersAreFittingGaps(gaps, d, o);
      }
    }
  }

  /** With no rows in the window the request itself is the one suggestion; otherwise there are at most N + 1. */
  lemma SuggestionCount(rows: seq<Reservation>, requestedStart: Instant, requestedEnd: Instant)
    ensures rows == [] ==> Alternatives(rows, requestedStart, requestedEnd) == [DateRange(requestedStart, requestedEnd)]
    ensures |Alternatives(rows, requestedStart, requestedEnd)| <= |rows| + 1
  {
    if rows != [] {
      AlternativesAreGapOffers(rows, requestedStart, requestedEnd);
      OffersAtMostGaps(Gaps(rows, SearchWindow(requestedStart, requestedEnd)), requestedEnd - requestedStart);
    }
  }

  /** The offer a suggestion came from: the first fitting gap whose earliest sub-period it is. */
  lemma {:induction false} OfferSource(gaps: seq<DateRange>, d: int, o: DateRange) returns (k: nat)
    requires o in Offers(gaps, d)
    ensures k < |gaps| && Fits(gaps[k], d) && o == Earliest(gaps[k], d)
  {
    var n := |gaps| - 1;
    if Fits(gaps[n], d) && o == Earliest(gaps[n], d) {
      k := n;
    } else {
      k := OfferSource(gaps[..n], d, o);
    }
  }

  lemma {:induction false} FittingGapOffered(gaps: seq<DateRange>, d: int, k: nat)
    requires k < |gaps| && Fits(gaps[k], d)
    ensures Earliest(gaps[k], d) in Offers(gaps, d)
  {
    if k < |gaps| - 1 {
      FittingGapOffered(gaps[..|gaps| - 1], d, k);
    }
  }

  /** Gap k (the leading gap, the gap between rows k - 1 and k, or the trailing gap) is offered
      whenever it is at least the requested length. */
  lemma GapOffered(rows: seq<Reservation>, requestedStart: Instant, requestedEnd: Instant, k: nat)
    requires rows != [] && k <= |rows|
    requires Fits(Gaps(rows, SearchWindow(requestedStart, requestedEnd))[k], requestedEnd - requestedStart)
    ensures Earliest(Gaps(rows, SearchWindow(requestedStart, requestedEnd))[k], requestedEnd - requestedStart)
              in Alternatives(rows, requestedStart, requestedEnd)
  {
    var gaps := Gaps(rows, SearchWindow(requestedStart, requestedEnd));
    var d := requestedEnd - requestedStart;
    AlternativesAreGapOffers(rows, requestedStart, requestedEnd);
    FittingGapOffered(gaps, d, k);
  }

  /** Every suggestion lies inside one of the candidate gaps (so inside the window, or it is the request). */
  lemma SuggestionsLieInGaps(rows: seq<Reservation>, requestedStart: Instant, requestedEnd: Instant, o: DateRange)
    requires rows != [] && requestedStart <= requestedEnd
    requires o in Alternatives(rows, requestedStart, requestedEnd)
    ensures exists k :: 0 <= k <= |rows| && Gaps(rows, SearchWindow(requestedStart, requestedEnd))[k].start == o.start
              && o.end <= Gaps(rows, SearchWindow(requestedStart, requestedEnd))[k].end
  {
    var gaps := Gaps(rows, SearchWindow(requestedStart, requestedEnd));
    var d := requestedEnd - requestedStart;
    AlternativesAreGapOffers(rows, requestedStart, requestedEnd);
    assert o in Offers(gaps, d);
    var k := OfferSource(gaps, d, o);
    assert o == Earliest(gaps[k], d) && Fits(gaps[k], d);
    assert k <= |rows| && gaps[k].start == o.start && o.end <= gaps[k].end;
  }

  /** Rows that are well formed and do not overlap, in start order: each ends no later than the next starts. */
  predicate Chained(rows: seq<Reservation>)
  {
    (forall i :: 0 <= i < |rows| ==> rows[i].start <= rows[i].end)
    && (forall i :: 0 <= i < |rows| - 1 ==> rows[i].end <= rows[i + 1].start)
  }

  lemma {:induction false} ChainedOrder(rows: seq<Reservation>, i: nat, j: nat)
    requires Chained(rows) && i <= j < |rows|
    ensures rows[i].end <= rows[j].end && rows[i].start <= rows[j].start
    ensures i < j ==> rows[i].end <= rows[j].start
    decreases j - i
  {
    if i < j {
      ChainedOrder(rows, i + 1, j);
    }
  }

  /** Against the rows it was computed from, when they do not overlap each other, no suggestion shares
      any instant with a reservation's interior: for half-open intervals the suggestions are free. */
  lemma SuggestionsAvoidWindowRows(rows: seq<Reservation>, requestedStart: Instant, requestedEnd: Instant, o: DateRange, r: Reservation)
    requires rows != [] && Chained(rows) && requestedStart <= requestedEnd
    requires forall x :: x in rows ==> SearchWindow(requestedStart, requestedEnd).start <= x.start
    requires o in Alternatives(rows, requestedStart, requestedEnd) && r in rows
    ensures o.end <= r.start || r.end <= o.start
  {
    var w := SearchWindow(requestedStart, requestedEnd);
    var d := requestedEnd - requestedStart;
    var gaps := Gaps(rows, w);
    AlternativesAreGapOffers(rows, requestedStart, requestedEnd);
    var k := OfferSource(gaps, d, o);
    var j :| 0 <= j < |rows| && rows[j] == r;
    if k == 0 {
      // the leading offer ends no later than the first row starts
      assert o.end <= rows[0].start;
      ChainedOrder(rows, 0, j);
    } else if k == |rows| {
      // the trailing offer starts where the last row ends
      assert o.start == rows[|rows| - 1].end;
      ChainedOrder(rows, j, |rows| - 1);
    } else {
      // gap k lies between rows k - 1 and k
      assert gaps[(k - 1) + 1] == DateRange(rows[k - 1].end, rows[k].start);
      assert o.start == rows[k - 1].end && o.end <= rows[k].start;
      if j < k {
        ChainedOrder(rows, j, k - 1);
      } else {
        ChainedOrder(rows, k, j);
      }
    }
  }

  /** Every suggestion after the leading gap starts exactly where some fetched reservation ends. */
  lemma SuggestionsStartAtReservationEnds(rows: seq<Reservation>, requestedStart: Instant, requestedEnd: Instant, o: DateRange)
    requires rows != []
    requires o in Alternatives(rows, requestedStart, requestedEnd)
    requires o.start != SearchWindow(requestedStart, requestedEnd).start
    ensures exists r :: r in rows && r.end == o.start
  {
    var w := SearchWindow(requestedStart, requestedEnd);
    var d := requestedEnd - requestedStart;
    var gaps := Gaps(rows, w);
    AlternativesAreGapOffers(rows, requestedStart, requestedEnd);
    var k := OfferSource(gaps, d, o);
    assert k != 0;
    assert gaps[k].start == o.start;
    if k < |rows| {
      assert gaps[(k - 1) + 1] == DateRange(rows[k - 1].end, rows[k].start);
    }
    assert rows[k - 1] in rows && rows[k - 1].end == o.start;
  }

  /** `SuggestAlternativeDates`: query the window, then offer the earliest fitting period of every gap
      around the rows it returned. */
  method SuggestAlternativeDates(db: Storage, hallId: nat, requestedStart: Instant, requestedEnd: Instant)
    returns (out: Result<seq<DateRange>>)
    ensures !db.online ==> out == Err(QueryFailed)
    ensures db.online ==> exists rows :: IsWindowResult(db, hallId, SearchWindow(requestedStart, requestedEnd), rows)
                                 && out == Ok(Alternatives(rows, requestedStart, requestedEnd))
  {
    var window := SearchWindow(requestedStart, requestedEnd);
    var fetched := FetchWindow(db, hallId, window);
    if fetched.Err? {
      return Err(fetched.failure);
    }
    var suggestions := WalkGaps(fetched.value, requestedStart, requestedEnd);
    return Ok(suggestions);
  }

  /** The walk over the sorted rows: the request itself when there are none, otherwise an offer for
      the leading gap, for each gap between neighbours, and for the trailing gap, each only when the
      gap is at least as long as the request. */
  method WalkGaps(reservations: seq<Reservation>, requestedStart: Instant, requestedEnd: Instant)
    returns (suggestions: seq<DateRange>)
    ensures suggestions == Alternatives(reservations, requestedStart, requestedEnd)
  {
    var window := SearchWindow(requestedStart, requestedEnd);
    var requestedDuration := requestedEnd - requestedStart;
    suggestions := [];

    if |reservations| == 0 {
      suggestions := suggestions + [DateRange(requestedStart, requestedStart + requestedDuration)];
      return;
    }

    suggestions := AppendOffer(suggestions, DateRange(window.start, reservations[0].start), requestedDuration);
    ghost var leading := suggestions;

    var i := 0;
    while i < |reservations| - 1
      invariant 0 <= i <= |reservations| - 1
      invariant suggestions == leading + PairOffers(reservations, i, requestedDuration)
    {
      suggestions := AppendOffer(suggestions, DateRange(reservations[i].end, reservations[i + 1].start), requestedDuration);
      assert (leading + PairOffers(reservations, i, requestedDuration)) + OfferOf(Between(reservations, i), requestedDuration)
          == leading + (PairOffers(reservations, i, requestedDuration) + OfferOf(Between(reservations, i), requestedDuration));
      i := i + 1;
    }

    var last := reservations[|reservations| - 1];
    suggestions := AppendOffer(suggestions, DateRange(last.end, window.end), requestedDuration);
  }

  /** One step of the walk: append the earliest period of length `d` in `gap` when the gap is at
      least that long. */
  method AppendOffer(suggestions: seq<DateRange>, gap: DateRange, d: int) returns (result: seq<DateRange>)
    ensures result == suggestions + OfferOf(gap, d)
  {
    result := suggestions;
    if gap.end - gap.start >= d {
      result := result + [DateRange(gap.start, gap.start + d)];
    } else {
      assert result == suggestions + [];
    }
  }
}
