/** The room entity: its catalog entry, its live status and the record the
    bot keeps for it. */
module Rooms {
  import opened Wrappers

  /** Milliseconds on an abstract clock (a JavaScript `Date`). */
  type Timestamp = nat

  /** The four entries of the bot's status table. */
  datatype RoomStatus = Unknown | Occupied | Free | Reserved {

    /** A status the page itself can signal (everything but Unknown). */
    predicate Signalled() {
      !Unknown?
    }
  }

  /** The numeric code under which the source stores a status. */
  function Code(s: RoomStatus): (r: int)
    ensures 0 <= r <= 3
    ensures r == 0 <==> s == Unknown
    ensures r == 1 <==> s == Occupied
    ensures r == 2 <==> s == Free
    ensures r == 3 <==> s == Reserved
  {
    match s
    case Unknown => 0
    case Occupied => 1
    case Free => 2
    case Reserved => 3
  }

  /** The status stored under a numeric code, if any. */
  function FromCode(n: int): (r: Option<RoomStatus>)
    ensures r.Some? <==> 0 <= n <= 3
    ensures r.Some? ==> Code(r.value) == n
    ensures forall s :: Code(s) == n ==> r == Some(s)
  {
    if n == 0 then Some(Unknown)
    else if n == 1 then Some(Occupied)
    else if n == 2 then Some(Free)
    else if n == 3 then Some(Reserved)
    else None
  }

  /** One element of the page's room catalog (`townData.rooms`). */
  datatype CatalogEntry = CatalogEntry(
    intraName: string,
    name: string,
    displayName: string,
    floor: int,
    seats: int)

  /** The record the bot keeps for one room. */
  datatype RoomRecord = RoomRecord(
    id: string,
    name: string,
    displayName: string,
    floor: int,
    seats: int,
    status: RoomStatus,
    currentActivity: Option<string>,
    timeSlot: Option<string>,
    lastUpdated: Timestamp)

  /** The record carries the catalog entry's identity and metadata unchanged. */
  ghost predicate ProjectsEntry(e: CatalogEntry, r: RoomRecord) {
    && r.id == e.intraName
    && r.name == e.name
    && r.displayName == e.displayName
    && r.floor == e.floor
    && r.seats == e.seats
  }
}
