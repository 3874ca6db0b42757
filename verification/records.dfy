/** The records the scheduling core works on, and the storage snapshot it reads. */
module Records {

  /** An instant on a fixed timeline, in nanoseconds (Go's time.Time reduced to one number). */
  type Instant = int

  datatype Option<T> = None | Some(value: T)

  /** What a handler answers instead of a successful value; the HTTP status is the variant. */
  datatype Failure =
    | BadRequest(message: string)     // 400
    | Unauthorized(message: string)   // 401
    | Forbidden(message: string)      // 403
    | NotFound(message: string)       // 404
    | Conflict(message: string)       // 409
    | Internal(message: string)       // 500
    | QueryFailed                     // an error returned by the storage layer

  datatype Result<T> = Ok(value: T) | Err(failure: Failure)

  /** A booking of one hall over [start, end], as stored in the reservations table. */
  datatype Reservation = Reservation(
    id: nat,
    name: string,
    company: string,
    start: Instant,
    end: Instant,
    totalCost: real,
    hallId: nat)

  /** A suggested free period. */
  datatype DateRange = DateRange(start: Instant, end: Instant)

  datatype HallImage = HallImage(hallId: nat, imageName: string)

  /** A bookable venue. An absent availability bound is Go's zero time. */
  datatype Hall = Hall(
    id: nat,
    capacity: int,
    location: string,
    available: bool,
    costPerDay: real,
    availableFrom: Option<Instant>,
    availableTo: Option<Instant>,
    images: seq<HallImage>,
    imageUrls: seq<string>)

  /** A snapshot of the database: every query either sees these rows or fails (offline). */
  datatype Storage = Storage(halls: seq<Hall>, reservations: seq<Reservation>, online: bool)

  /** The primary key an insert stores: a non-zero id sent by the client is kept, a zero id is
      replaced by the next one the database hands out (`next`). */
  function AssignedId(given: nat, next: nat): (id: nat)
    ensures given != 0 ==> id == given
    ensures given == 0 ==> id == next
  {
    if given != 0 then given else next
  }

  /** `First(&hall, id)`: the first hall with that id; fails when offline or when there is none. */
  function FindHall(db: Storage, id: int): (h: Option<Hall>)
    ensures h.Some? ==> db.online && h.value in db.halls && h.value.id == id
    ensures h.Some? ==> exists k :: 0 <= k < |db.halls| && db.halls[k] == h.value && forall j :: 0 <= j < k ==> db.halls[j].id != id
    ensures h.None? ==> !db.online || forall k :: 0 <= k < |db.halls| ==> db.halls[k].id != id
  {
    if db.online then FirstHall(db.halls, id) else None
  }

  /** The first hall in table order with that id. */
  function FirstHall(halls: seq<Hall>, id: int): (h: Option<Hall>)
    ensures h.Some? ==> h.value in halls && h.value.id == id
    ensures h.Some? ==> exists k :: 0 <= k < |halls| && halls[k] == h.value && forall j :: 0 <= j < k ==> halls[j].id != id
    ensures h.None? ==> forall k :: 0 <= k < |halls| ==> halls[k].id != id
  {
    if halls == [] then None
    else if halls[0].id == id then Some(halls[0])
    else
      var rest := FirstHall(halls[1..], id);
      if rest.Some? then
        var k :| 0 <= k < |halls[1..]| && halls[1..][k] == rest.value && forall j :: 0 <= j < k ==> halls[1..][j].id != id;
        assert halls[k + 1] == rest.value && forall j :: 0 <= j < k + 1 ==> halls[j].id != id;
        rest
      else rest
  }

  /** `First(&reservation, id)`: the first reservation with that id; fails when offline or when there is none. */
  function FindReservation(db: Storage, id: nat): (r: Option<Reservation>)
    ensures r.Some? ==> db.online && r.value in db.reservations && r.value.id == id
    ensures r.Some? ==> exists k :: 0 <= k < |db.reservations| && db.reservations[k] == r.value && forall j :: 0 <= j < k ==> db.reservations[j].id != id
    ensures r.None? ==> !db.online || forall k :: 0 <= k < |db.reservations| ==> db.reservations[k].id != id
  {
    if db.online then FirstReservation(db.reservations, id) else None
  }

  /** The first reservation in table order with that id. */
  function FirstReservation(rows: seq<Reservation>, id: nat): (r: Option<Reservation>)
    ensures r.Some? ==> r.value in rows && r.value.id == id
    ensures r.Some? ==> exists k :: 0 <= k < |rows| && rows[k] == r.value && forall j :: 0 <= j < k ==> rows[j].id != id
    ensures r.None? ==> forall k :: 0 <= k < |rows| ==> rows[k].id != id
  {
    if rows == [] then None
    else if rows[0].id == id then Some(rows[0])
    else
      var rest := FirstReservation(rows[1..], id);
      if rest.Some? then
        var k :| 0 <= k < |rows[1..]| && rows[1..][k] == rest.value && forall j :: 0 <= j < k ==> rows[1..][j].id != id;
        assert rows[k + 1] == rest.value && forall j :: 0 <= j < k + 1 ==> rows[j].id != id;
        rest
      else rest
  }
}
