# Hall reservations: a verified model of the booking core

This project models the core of a hall-reservation web service written in Go (Gin handlers over a
GORM database, plus a small command-line tool). It covers:

- **Booking**: creating and updating a reservation. This includes the clash query against the
  stored bookings, the price computation, and the alternative dates offered when the requested
  period is taken.
- **Alternative dates**: the reservations of the hall in a window of thirty days on each side of the
  request, ordered by start. Each gap between them that is long enough yields its earliest slot of
  the requested length.
- **Utilization**: the HTTP report and the command-line report. The first counts whole days plus
  one per overlapping reservation, over an inclusive window. The second counts truncated days over
  the last thirty days.
- **Listings and summaries**: the past/current/upcoming split, the summary counters and revenue,
  and the sort clause of the reservation listing.
- **Halls**: hall validation, the stored names of uploaded images, the content type of served
  images, and the image URL list attached to every hall.
- **Guards**: the `Bearer ` prefix check of the Authorization header and the case-insensitive role
  check.

The model is organised as follows:

- Instants are integers counting nanoseconds.
- The current time is a parameter.
- The database is a value `Storage(halls, reservations, online)`. Every query against an offline
  store fails.
- Go's `float64` becomes `real`.
- A Go struct whose methods write its fields becomes a class: `Pricing.ReservationRecord`, whose
  cost methods update `totalCost` in place.
- Loops of the source are methods with loop invariants. Each is proved equal to a specification
  function, and the properties of the service are lemmas about those functions.

Modules: `Records` (entities and lookups), `Time`, `Decimal` (`strconv.ParseUint` and `%d`),
`Pricing`, `Suggestions`, `Booking`, `Utilization`, `CliUtilization`, `Summary`, `Halls`, `Auth`.

Behaviours of the source that the lemmas make explicit:

- The clash query tests only whether an endpoint of a stored booking lies inside the requested
  period. A stored booking that strictly contains the request is not a clash
  (`Booking.ContainmentIsNotAClash`).
- A booking that merely touches the request is a clash (`Booking.TouchingIsAClash`). So every
  suggestion after the leading gap, which starts exactly where a reservation ends, is refused when
  submitted (`Booking.SuggestedDatesAreRefused`).
- The HTTP utilization report can count more booked days than the window has
  (`Utilization.BookedDaysCanExceedTotalDays`).
- For the same rows, the HTTP report counts exactly one day more per reservation than the command
  does (`CliUtilization.HandlerCountsOneMorePerRow`).
- The two pricing variants in the repository agree up to seven days and differ after
  (`Pricing.VariantsAgreeUpToAWeek`, `Pricing.LongStayDiscount`). The discounted one is not monotone
  in the length of the stay (`Pricing.DiscountIsNotMonotone`).

## Model

| member | source | states |
|---|---|---|
| Records.FindHall | services/hall/utilization.go:24-28 | a hall is found only in an online store and only with the requested id, and it is the first such hall in table order. When none is found, the store is offline or no hall has that id |
| Records.FindReservation | services/reservation/handler.go:95-101 | a reservation is found only in an online store with the requested id, and it is the first such row in table order. Otherwise the store is offline or no row has it |
| Records.AssignedId | services/reservation/handler.go:67 | an insert keeps a non-zero id sent by the client and takes the next table id for a zero one |
| Time.WholeDays | services/hall/utilization.go:75 | the integer conversion of hours/24 truncates toward zero: n whole days fit in a non-negative duration and n+1 do not, mirrored for negative durations |
| Time.FractionalDays | services/reservation/models.go:28 | the fractional day count times the length of a day is the duration |
| Decimal.ParseUint | services/hall/utilization.go:18-22 | the hall id parses iff it is a non-empty string of decimal digits whose value fits in 64 bits, and then yields that value |
| Decimal.FormatUint | services/hall/handler.go:60 | the `%d` rendering is a non-empty string of decimal digits (its value is `FormatUintValue`) |
| Decimal.FormatUintValue | services/hall/handler.go:60 | the `%d` rendering of a number reads back as the same number |
| Decimal.ParseFormatRoundTrip | services/hall/handler.go:60 | parsing the `%d` rendering of any 64-bit id gives the id back |
| Decimal.RejectsNonDigits | services/hall/utilization.go:18-22 | the empty string, a minus sign, a plus sign and a trailing letter are refused |
| Pricing.BillableDays | services/reservation/models.go:28-31 | the billed day count is the fractional length of the stay, raised to one when shorter than a day |
| Pricing.DiscountedCost | services/reservation/models.go:26-43 | the discounting price: billed days times the rate, less 10% when more than seven days are billed (its properties are the lemmas below) |
| Pricing.FlatCost | models/reservation.go:25-31 | the flat price: billed days times the rate |
| Pricing.ReservationRecord.constructor | services/reservation/models.go:8-17 | the record holds exactly the fields of the reservation it is built from |
| Pricing.ReservationRecord.CalculateTotalCost | services/reservation/models.go:26-43 | only the total cost changes, and it becomes the billed days times the rate, less 10% beyond seven days |
| Pricing.ReservationRecord.CalculateFlatTotalCost | models/reservation.go:25-31 | only the total cost changes, and it becomes the billed days times the rate |
| Pricing.VariantsAgreeUpToAWeek | services/reservation/models.go:37-40 | for a stay of at most seven days the discounted and the flat prices are equal |
| Pricing.LongStayDiscount | services/reservation/models.go:37-40 | for a stay longer than seven days the discounted price is 90% of the flat price |
| Pricing.CostDependsOnlyOnLength | services/reservation/models.go:26-43 | shifting a stay in time changes neither price |
| Pricing.WeekBoundary | services/reservation/models.go:37 | seven days at 100 cost 700 and eight days cost 720 |
| Pricing.ThreeDaysAtFifty | models/reservation.go:25-31 | three days at 50 cost 150 in both variants |
| Pricing.ShortStayBilledAsOneDay | services/reservation/models.go:29-31 | a stay shorter than a day costs one day's rate in both variants |
| Pricing.DiscountIsNotMonotone | services/reservation/models.go:34-40 | seven and a half days cost less than seven days under the discount |
| Pricing.FlatCostMonotone | models/reservation.go:26-30 | with a non-negative rate, a longer stay never costs less at the flat price |
| Suggestions.SearchWindow | services/reservation/suggestions.go:13-14 | the search window reaches thirty days before the requested start and thirty days after the requested end |
| Suggestions.InWindow | services/reservation/suggestions.go:17-18 | a row is kept iff it belongs to the hall and lies wholly inside the window |
| Suggestions.InsertByStart | services/reservation/suggestions.go:19 | inserting into a start-ordered list keeps it ordered and adds exactly that row |
| Suggestions.OrderByStart | services/reservation/suggestions.go:19 | the ordered rows are sorted by start and are a permutation of the input |
| Suggestions.FetchWindow | services/reservation/suggestions.go:16-22 | an offline store fails the query. Otherwise the result is the hall's rows inside the window, ordered by start, as a permutation |
| Suggestions.WindowResultMembers | services/reservation/suggestions.go:17-19 | a row is in a window result iff it is a stored row of the hall inside the window |
| Suggestions.Gaps | services/reservation/suggestions.go:33-55 | the free periods are the leading gap, the gap between each consecutive pair and the trailing gap, one more than the rows |
| Suggestions.Alternatives | services/reservation/suggestions.go:24-57 | the suggestions for a query result: the request itself when there are no rows, otherwise the earliest slot of every fitting gap in gap order (characterised by the lemmas below) |
| Suggestions.Earliest | services/reservation/suggestions.go:42-45 | a slot starts at its gap's start and has the requested length |
| Suggestions.OfferOf | services/reservation/suggestions.go:34-36 | a gap yields at most one slot, and does so iff it is at least as long as the request |
| Suggestions.PairOffersAreGapOffers | services/reservation/suggestions.go:38-47 | the loop over consecutive pairs offers exactly the fitting gaps between them |
| Suggestions.AlternativesAreGapOffers | services/reservation/suggestions.go:33-57 | the suggestions are the offers of the leading gap, the pair gaps and the trailing gap, in that order |
| Suggestions.OffersAreFittingGaps | services/reservation/suggestions.go:39-47 | a slot is offered iff it is the earliest slot of some gap that fits the request |
| Suggestions.OffersAtMostGaps | services/reservation/suggestions.go:33-57 | no more slots are offered than there are gaps |
| Suggestions.SuggestionsHaveRequestedLength | services/reservation/suggestions.go:25-55 | every suggestion is exactly as long as the request |
| Suggestions.SuggestionCount | services/reservation/suggestions.go:27-57 | with no rows the request itself is the one suggestion. Otherwise there are at most one more suggestions than rows |
| Suggestions.GapOffered | services/reservation/suggestions.go:33-55 | every gap long enough for the request contributes its earliest slot |
| Suggestions.SuggestionsLieInGaps | services/reservation/suggestions.go:39-47 | every suggestion starts where some free gap starts and ends inside that gap |
| Suggestions.ChainedOrder | services/reservation/suggestions.go:19 | in non-overlapping start-ordered rows an earlier row ends no later than a later one starts |
| Suggestions.SuggestionsAvoidWindowRows | services/reservation/suggestions.go:17-55 | when the window rows do not overlap one another, no suggestion shares an interior instant with any of them (half-open disjointness; under the inclusive clash test a suggestion may still touch a row) |
| Suggestions.SuggestionsStartAtReservationEnds | services/reservation/suggestions.go:39-55 | a suggestion not at the window's start begins exactly when some window row ends |
| Suggestions.SuggestAlternativeDates | services/reservation/suggestions.go:11-58 | a failed query is passed on as an error. Otherwise the result is the gap offers over some valid result of the window query |
| Suggestions.WalkGaps | services/reservation/suggestions.go:24-57 | the walk over the ordered rows produces exactly the gap offers, in gap order |
| Suggestions.AppendOffer | services/reservation/suggestions.go:34-36 | appending a gap's offer adds the earliest slot iff the gap fits |
| Utilization.ResolveWindow | services/hall/utilization.go:31-51 | a malformed start is reported first, then a malformed end. Otherwise the window uses the given dates, defaulting to thirty days ago and now |
| Utilization.DefaultWindowDays | services/hall/utilization.go:38-53 | without parameters the window is the last thirty days and counts 31 total days |
| Utilization.TotalDays | services/hall/utilization.go:53 | for a well-formed window, the whole days between its bounds plus one: n-1 days fit in it and n do not |
| Utilization.Overlapping | services/hall/utilization.go:57-59 | a row is kept iff it belongs to the hall and its closed period meets the window |
| Utilization.Contribution | services/hall/utilization.go:66-75 | one row's days: its period clamped to the window, in whole days, plus one |
| Utilization.BookedDays | services/hall/utilization.go:65-77 | the sum of the rows' contributions (additivity, order independence and bounds are the lemmas below) |
| Utilization.ContributionAtLeastOne | services/hall/utilization.go:66-75 | every overlapping reservation adds at least one day |
| Utilization.TouchingStartCountsOneDay | services/hall/utilization.go:57-75 | a reservation ending exactly at the window's start is selected and counts one day |
| Utilization.BookedDaysAppend | services/hall/utilization.go:65-77 | the booked-day sum is additive over any split of the rows |
| Utilization.BookedDaysOrderIndependent | services/hall/utilization.go:65-77 | the booked-day sum does not depend on the order the rows come back in |
| Utilization.BookedDaysAtLeastRows | services/hall/utilization.go:65-77 | the sum is at least the number of overlapping reservations |
| Utilization.BookedDaysCanExceedTotalDays | services/hall/utilization.go:53-77 | two back-to-back one-day bookings in a two-day window count four booked days against three total days |
| Utilization.Rate | services/hall/utilization.go:79 | the rate is defined iff the total is non-zero, and then rate × total = 100 × booked |
| Utilization.GetHallUtilizationRate | services/hall/utilization.go:14-89 | an unparsable id gives 400, an unknown hall 404 and a bad date 400. Otherwise the report holds the window, its inclusive day count, the booked-day sum over the overlapping rows and the rate |
| CliUtilization.MaxTime | cmd/utilization.go:57-62 | the result is one of the two instants and is not before either |
| CliUtilization.MinTime | cmd/utilization.go:64-69 | the result is one of the two instants and is not after either |
| CliUtilization.LastThirtyDays | cmd/utilization.go:37-38 | the command's window ends now and spans thirty days |
| CliUtilization.Contribution | cmd/utilization.go:44-46 | one row's days: its period clamped to the window, in truncated whole days, with no `+1` |
| CliUtilization.BookedDays | cmd/utilization.go:42-47 | the sum of the command's per-row contributions |
| CliUtilization.UtilizationCmd | cmd/utilization.go:22-53 | a zero hall id and an unknown hall print their errors. Otherwise the command computes the truncated booked days over 30 total days and prints the hall id with the rate booked/30×100 |
| CliUtilization.SumBookedDays | cmd/utilization.go:42-47 | the command's loop adds up, per row, the truncated whole days of the row's part inside the window |
| CliUtilization.HandlerCountsOneMorePerRow | cmd/utilization.go:42-47 | on the same rows and window the HTTP sum equals the command's sum plus the number of rows |
| CliUtilization.WindowLengthsDiffer | cmd/utilization.go:49 | the command's window counts 30 days where the handler's default window counts 31 |
| Booking.ClashesWith | services/reservation/handler.go:40 | the double-booking test: same hall, and the stored start or the stored end lies in the closed requested period |
| Booking.Counted | services/reservation/handler.go:122 | a row is counted when it clashes and its id is not the excluded one |
| Booking.CountMatching | services/reservation/handler.go:38-43 | the count is positive iff some row matches, and never exceeds the number of rows |
| Booking.ConflictCount | services/reservation/handler.go:38-43 | an offline store counts nothing. Otherwise the count is positive iff a stored row of the hall has an endpoint inside the period, leaving out the excluded id |
| Booking.ClashIsClosedOverlap | services/reservation/handler.go:40 | a clash is a closed-interval overlap on the same hall |
| Booking.ClosedOverlapIsClashOrContainment | services/reservation/handler.go:40 | a closed overlap is either a clash or a stored booking strictly containing the request |
| Booking.ContainmentIsNotAClash | services/reservation/handler.go:40 | for every booking and request, a booking that strictly contains the requested period is not a clash |
| Booking.TouchingIsAClash | services/reservation/handler.go:40 | a booking ending exactly when the request starts is a clash |
| Booking.OwnRowNeverCounted | services/reservation/handler.go:120-125 | the update's clash query never counts the row being updated |
| Booking.ClashWithSelfOnlyPasses | services/reservation/handler.go:120-131 | an update whose only clash is with itself passes the clash check |
| Booking.SuggestedDatesAreRefused | services/reservation/handler.go:38-56 | every suggestion after the leading gap is itself refused as a clash when submitted |
| Booking.DurationDays | services/reservation/handler.go:80-83 | the reported duration is at least one, and is the whole-day length of stays of a day or more |
| Booking.DurationDaysMonotone | services/reservation/handler.go:80-83 | a later end never reports fewer duration days |
| Booking.WholeDayBookingReportsHallRate | services/reservation/handler.go:80-88 | for a stay of whole days the reported cost per day is the hall's rate |
| Booking.CreateReservation | services/reservation/handler.go:17-93 | every rejection carries its message. A clash holds iff the dates are valid and a stored booking clashes, and it carries the gap suggestions. Without a clash a missing hall gives 404 "Hall not found". Creation holds iff there is no clash and the hall exists, and stores the booking under its own id (or the next one) at the flat price, with duration and cost per day |
| Booking.ApplyUpdate | services/reservation/handler.go:141-148 | name, company, hall and dates are copied from the payload, the cost is repriced flat, and the id is unchanged |
| Booking.UpdateReservation | services/reservation/handler.go:95-157 | the error order is not found, bad payload, bad dates, conflict with another row, unknown hall (404 "Hall not found"). Success holds iff all checks pass, and yields the stored row with the new fields and flat price |
| Booking.CategoryOf | services/reservation/handler.go:277-286 | past iff ended before now. Upcoming iff not past and starting after now. Current otherwise |
| Booking.WithCategory | services/reservation/handler.go:277-286 | the filtered list is no longer than the input |
| Booking.WithCategoryAppend | services/reservation/handler.go:277-286 | filtering distributes over concatenation |
| Booking.WithCategoryMembers | services/reservation/handler.go:277-286 | a row is listed under a category iff it is an input row of that category |
| Booking.CategoriesPartition | services/reservation/handler.go:277-286 | the three lists together are a permutation of the input |
| Booking.BoundariesAreCurrent | services/reservation/handler.go:279-285 | a reservation starting or ending exactly now is current |
| Booking.Categorize | services/reservation/handler.go:277-286 | the loop builds exactly the three filtered lists, in input order |
| Booking.GetCategorizedReservations | services/reservation/handler.go:265-295 | a failed fetch gives 500. Otherwise the three lists are the past, current and upcoming rows |
| Booking.NormalizeOrder | services/reservation/handler.go:190-193 | the order is "desc" iff "desc" was requested, and "asc" otherwise |
| Booking.SortClause | services/reservation/handler.go:189-204 | a clause is produced iff the field is whitelisted, and it names that field and the normalised order |
| Summary.CountReservations | services/reservation/summary.go:33-42 | the loop's counters are the per-category counts and the revenue of the rows |
| Summary.CountOf | services/reservation/summary.go:35-41 | the number of rows in one category |
| Summary.Revenue | services/reservation/summary.go:34 | the sum of the stored costs |
| Summary.CountsAddUp | services/reservation/summary.go:33-49 | past + current + upcoming equals the total |
| Summary.CountsMatchCategorizedLists | services/reservation/summary.go:35-41 | each summary count equals the size of the categorized listing's list |
| Summary.RevenueAppend | services/reservation/summary.go:34 | revenue is additive over any split of the rows |
| Summary.RevenueBoundsEachCost | services/reservation/summary.go:34 | with non-negative costs the revenue is at least any one cost |
| Summary.RevenueNonNegative | services/reservation/summary.go:34 | with non-negative costs the revenue is non-negative |
| Summary.GetReservationSummary | services/reservation/summary.go:14-53 | a missing handle and a failed fetch give their errors. Otherwise the counts partition the total and the revenue is the sum of costs |
| Summary.SummaryCmd | cmd/summary.go:11-49 | a failed fetch prints the error. Otherwise the table holds the same counts and revenue as the dashboard |
| Halls.ValidateHall | services/hall/handler.go:37-51 | a hall passes iff capacity and cost are positive and, when both dates are set, the start is not in the past and the end is after the start. Each failure carries its message |
| Halls.OneBoundSkipsDateChecks | services/hall/handler.go:42 | with one availability date missing, no date check applies |
| Halls.StoredImageName | services/hall/handler.go:60 | an upload is stored as `<hall id>_<file name>` (it splits back by `StoredNameRoundTrip`) |
| Halls.FirstUnderscore | services/hall/handler.go:60 | the position found is the first underscore of the name |
| Halls.StoredNameRoundTrip | services/hall/handler.go:60 | the stored name `<id>_<file>` splits back into the hall id and the uploaded file name |
| Halls.ImagesFor | services/hall/handler.go:59-77 | one image record per uploaded file |
| Halls.ImagesForAt | services/hall/handler.go:59-77 | the k-th record belongs to the hall and carries the k-th stored name |
| Halls.StoredImagesIdentifyUploads | services/hall/handler.go:60-70 | each stored image record names its hall and its uploaded file unambiguously |
| Halls.CreateHall | services/hall/handler.go:16-80 | each form error gives its message, then validation, then the insert failure. Success holds iff all pass; the hall is stored under its own id, or the next one when it carries none, and one image record per uploaded file is written for it |
| Halls.CreateHallOld | services/hall/handler.go:112-147 | a payload that does not bind, a validation failure and the insert failure give their errors. Otherwise the hall is stored under the new id |
| Halls.Ext | services/hall/handler.go:93 | the extension is a suffix of the path that starts with its last dot and holds no other dot or separator |
| Halls.ExtOfName | services/hall/handler.go:93 | a name ending in a dot-extension has exactly that extension |
| Halls.NoDotNoExt | services/hall/handler.go:93 | a path without a dot has no extension |
| Halls.ContentType | services/hall/handler.go:95-104 | jpeg iff .jpg or .jpeg, png iff .png, gif iff .gif, octet-stream otherwise |
| Halls.ServeImage | services/hall/handler.go:82-110 | a missing file gives 404. Otherwise the content type follows the extension of the requested path, case-sensitively |
| Halls.ServedTypeOfStoredUpload | services/hall/handler.go:93-104 | a stored `photo.png` is served as png and a stored `photo.PNG` as octet-stream |
| Halls.ImageNames | services/hall/handler.go:160-163 | one name per image |
| Halls.ImageNamesAt | services/hall/handler.go:160-163 | the k-th name is the k-th image's stored name |
| Halls.ImagePaths | services/hall/handler.go:160-163 | the inner loop lists the image names in order |
| Halls.FillImageUrls | services/hall/handler.go:159-165 | every hall's URL list becomes its image names, and nothing else in any hall changes |
| Halls.GetHalls | services/hall/handler.go:150-169 | a failed fetch gives 500. Otherwise every hall is returned in order with its image names as URLs |
| Auth.BearerToken | middleware/auth.go:17-31 | an empty header is "Missing token". A token is produced iff the header is longer than seven characters and starts with `Bearer `, and the prefix plus the token is the header |
| Auth.BearerRoundTrip | middleware/auth.go:25-27 | any non-empty token sent after the prefix is recovered unchanged |
| Auth.MalformedHeadersRefused | middleware/auth.go:25-31 | the bare prefix and a lower-case prefix are refused |
| Auth.Lower | middleware/auth.go:97 | lower-casing keeps the length and lowers each ASCII capital |
| Auth.RoleAllowed | middleware/auth.go:94-105 | the nested loops grant access iff some user role equals some allowed role ignoring case |
| Auth.CaseIsIgnored | middleware/auth.go:97 | a user role `ADMIN` satisfies an allowed `admin` |
| Auth.EmptyListsDeny | middleware/auth.go:94-105 | with no allowed roles or no user roles, access is denied |
| Auth.MoreRolesNeverDeny | middleware/auth.go:94-105 | adding roles to a user never revokes access |
| Auth.AllowedRoles | middleware/auth.go:76-115 | missing roles and roles of the wrong shape give 401. Otherwise the request passes iff some role matches, else 403 |

## Left out

- Token validation: JWT parsing, signature and claims, the user lookup and the collection of role names (middleware/auth.go:33-72) are left out. They are cryptography and database I/O. `Auth.AllowedRoles` takes the roles value as a parameter.
- Password hashing, user registration and login are not part of this model.
- File I/O is not modelled: saving uploads, the receipt files, and the existence check before an image is served. The existence check is the `fileExists` parameter of `Halls.ServeImage`.
- Date parsing (`time.Parse`) is not modelled. A query parameter is given as absent, malformed, or an instant.
- Calendar arithmetic is simplified: `AddDate(0, 0, -30)` is thirty fixed 24-hour days, with no daylight-saving shifts.
- Durations do not saturate: Go's `time.Sub` clamps to about ±292 years, while the model uses unbounded integers.
- Floating point is modelled as exact `real` arithmetic, with no rounding, Inf or NaN.
- Utilization.Rate: a zero total day count, which in Go divides by zero and gives Inf or NaN, is modelled as an absent rate.
- Auth.Lower: only ASCII letters are lower-cased. Go's `strings.ToLower` also folds non-ASCII letters.
- Write failures on an online store: a write fails only when the store is offline, and only the two hall inserts (`Halls.CreateHall`, `Halls.CreateHallOld`) see that and answer "Failed to create hall". A write that fails while the store is online is not modelled: the reservation `Create` and `Save`, the image save ("Failed to save image", "Failed to save image data") and the receipt write. The model returns success in those cases.
- Failure of a later query: the store is one snapshot that is online or offline for the whole request. A query that fails after an earlier one in the same request succeeded cannot be expressed. So the "Failed to retrieve reservations" path of the utilization handler after a found hall, and the failure of the suggestion query after a clash was found, are not modelled.
- Suggestions.SuggestAlternativeDates: the database's order among rows with equal start times is unspecified. The contract therefore holds for some ordering the query may return, rather than a fixed one.
- GetReservations: the date, company and hall filters of the listing, and the execution of the sort, are left out. Only the sort clause (`Booking.SortClause`) is modelled.
- Hall update and delete, reservation delete, the old hall listing and configuration loading are left out. They are plain database writes with no logic of their own. A failing configuration load in the commands is not modelled.
- Booking.UpdateReservation: the textual id path parameter is taken as an already parsed number.
- Booking.CreateReservation, Halls.CreateHall, Halls.CreateHallOld: a non-zero id sent in the body is stored as given (`Records.AssignedId`); a zero id is replaced by the next id of the table, which the database hands out and the model takes as the `newId` parameter. A duplicate given id makes the insert fail, which falls under the write failures above.
- Concurrency is not modelled, including the race between the clash check and the insert.
- CliUtilization.UtilizationCmd: the command prints only the hall id and the rate, rounded to two decimals by `%.2f`; the model returns the unrounded rate together with the booked and total days it is computed from.
- Auth.AllowedRoles: the debug print of the roles value to standard output is left out, as output with no effect on the decision.
- The default windows read the clock twice (once for each bound); the model uses one `now` for both, so the two bounds are exactly thirty days apart.
- CliUtilization.UtilizationCmd: parsing of the `--hall` flag is left out. The hall id is given as an integer, zero when the flag is missing.
- Halls.GetHalls: a hall without images gets an empty list where Go leaves a nil slice, which serialises as `null`.
- Booking.GetCategorizedReservations: an empty past, current or upcoming list is an empty sequence in the model; Go leaves a nil slice (services/reservation/handler.go:275), which serialises as `null`.
- Suggestions.SuggestAlternativeDates: when no gap fits, the model returns an empty sequence; Go returns a nil slice (services/reservation/suggestions.go:24), which the create handler serialises as `null`.
- Storage: the service's suggestion, utilization and hall code read the tables `hall_res_project.reservations` and `hall_res_project.halls` (services/reservation/models.go:21, services/hall/models.go:32), while the reservation handlers and the commands read the unqualified `reservations` and `halls` (models/reservation.go:21, models/hall.go:15). The model has one table of each and so assumes the configured database is `hall_res_project`; `Booking.SuggestedDatesAreRefused` and `CliUtilization.HandlerCountsOneMorePerRow` rely on this.
