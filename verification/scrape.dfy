/** One refresh of the room data: from the fetched page to the record list,
    and the all-or-nothing replacement of the bot's snapshot. */
module Scrape {
  import opened Wrappers
  import opened Rooms
  import opened StatusRule
  import opened Slots

  /** What the page's markup yields for one display name: the class attribute
      of the first `use` inside each graphic element whose id contains the
      name, and the paragraph texts of each summary card whose text contains
      it, both in document order. */
  datatype RoomMatches = RoomMatches(useClasses: seq<Option<string>>, cards: seq<seq<string>>)

  /** A fetched page: the contents of its `__NEXT_DATA__` script element
      (absent when there is no such element) and the markup matches for
      every display name. */
  datatype Page = Page(nextData: Option<string>, matches: string -> RoomMatches)

  /** What parsing the embedded data and looking up the room list gives. */
  datatype ParsedData = InvalidJson | MissingRooms | RoomList(entries: seq<CatalogEntry>)

  /** The reasons a refresh aborts. The source raises a different error on
      each path, but its single handler treats them all alike (it logs the
      message and returns `null`), so these kinds are not observable there. */
  datatype ScrapeError = TransportError | MissingDataError | SchemaError

  /** The record the bot builds for one catalog entry. */
  function BuildRecord(entry: CatalogEntry, m: RoomMatches, stamp: Timestamp): (r: RoomRecord)
    ensures ProjectsEntry(entry, r)
    ensures r.status.Signalled()
    ensures r.status == Classify(m.useClasses)
    ensures Slot(r.timeSlot, r.currentActivity) == ExtractSlot(m.cards)
    ensures r.lastUpdated == stamp
  {
    var slot := ExtractSlot(m.cards);
    RoomRecord(
      id := entry.intraName,
      name := entry.name,
      displayName := entry.displayName,
      floor := entry.floor,
      seats := entry.seats,
      status := Classify(m.useClasses),
      currentActivity := slot.currentActivity,
      timeSlot := slot.timeSlot,
      lastUpdated := stamp)
  }

  /** `rooms.map(...)`: one record per catalog entry, in catalog order; the
      i-th record is stamped with the i-th clock reading. */
  function ProcessRooms(entries: seq<CatalogEntry>, matches: string -> RoomMatches,
                        clock: nat -> Timestamp): (r: seq<RoomRecord>)
    ensures |r| == |entries|
    ensures forall i :: 0 <= i < |r| ==> ProjectsEntry(entries[i], r[i])
    ensures forall i :: 0 <= i < |r| ==> r[i].status.Signalled()
    ensures forall i :: 0 <= i < |r| ==> r[i].lastUpdated == clock(i)
    ensures forall i :: 0 <= i < |r| ==>
      r[i].status == Classify(matches(entries[i].displayName).useClasses)
    ensures forall i :: 0 <= i < |r| ==>
      Slot(r[i].timeSlot, r[i].currentActivity) == ExtractSlot(matches(entries[i].displayName).cards)
  {
    seq(|entries|, i requires 0 <= i < |entries| =>
      BuildRecord(entries[i], matches(entries[i].displayName), clock(i)))
  }

  /** Distinct catalog identifiers give distinct record identifiers. */
  lemma ProcessedIdsUnique(entries: seq<CatalogEntry>, matches: string -> RoomMatches,
                           clock: nat -> Timestamp)
    requires forall i, j :: 0 <= i < j < |entries| ==> entries[i].intraName != entries[j].intraName
    ensures var r := ProcessRooms(entries, matches, clock);
      forall i, j :: 0 <= i < j < |r| ==> r[i].id != r[j].id
  {
  }

  /** Rooms that share a display name are matched against the same markup,
      so they always get the same status and slot. */
  lemma SameDisplayNameSameStatus(entries: seq<CatalogEntry>, matches: string -> RoomMatches,
                                  clock: nat -> Timestamp, i: nat, j: nat)
    requires i < |entries| && j < |entries|
    requires entries[i].displayName == entries[j].displayName
    ensures var r := ProcessRooms(entries, matches, clock);
      r[i].status == r[j].status && r[i].timeSlot == r[j].timeSlot
      && r[i].currentActivity == r[j].currentActivity
  {
  }

  /** The pipeline of `scrapeRoomsData` up to the record list: fetch (absent
      response = transport failure), find the embedded data, parse it, look up
      the room list, then process every room. */
  function Scrape(response: Option<Page>, parse: string -> ParsedData,
                  clock: nat -> Timestamp): (r: Result<seq<RoomRecord>, ScrapeError>)
    ensures response.None? ==> r == Failure(TransportError)
    ensures response.Some? && response.value.nextData in {None, Some("")} ==>
      r == Failure(MissingDataError)
    ensures r.Success? <==>
      response.Some? && response.value.nextData.Some? && response.value.nextData.value != ""
      && parse(response.value.nextData.value).RoomList?
    ensures response.Some? && response.value.nextData.Some? && response.value.nextData.value != "" ==>
      && (parse(response.value.nextData.value).InvalidJson? ==> r == Failure(MissingDataError))
      && (parse(response.value.nextData.value).MissingRooms? ==> r == Failure(SchemaError))
    ensures r.Success? ==>
      r.value == ProcessRooms(parse(response.value.nextData.value).entries, response.value.matches, clock)
    ensures r.Success? ==>
      var entries := parse(response.value.nextData.value).entries;
      && |r.value| == |entries|
      && (forall i :: 0 <= i < |entries| ==> ProjectsEntry(entries[i], r.value[i]))
      && (forall i :: 0 <= i < |entries| ==> r.value[i].status.Signalled())
  {
    match response
    case None => Failure(TransportError)
    case Some(page) =>
      match page.nextData
      case None => Failure(MissingDataError)
      case Some(script) =>
        if script == "" then Failure(MissingDataError)
        else
          match parse(script)
          case InvalidJson => Failure(MissingDataError)
          case MissingRooms => Failure(SchemaError)
          case RoomList(entries) => Success(ProcessRooms(entries, page.matches, clock))
  }

  /** The bot's global state: the current records and the time of the last
      successful refresh (absent before the first one). */
  datatype Snapshot = Snapshot(rooms: seq<RoomRecord>, lastUpdate: Option<Timestamp>)

  /** The state at start-up. */
  const Initial := Snapshot([], None)

  /** The new state and what `scrapeRoomsData` returns (absent for `null`). */
  datatype RefreshOutcome = RefreshOutcome(state: Snapshot, returned: Option<seq<RoomRecord>>)

  /** `scrapeRoomsData`: on success both globals are replaced together and the
      new records are returned; on any error nothing changes and nothing is
      returned. The clock reading after the last record stamps the refresh. */
  function Refresh(s: Snapshot, response: Option<Page>, parse: string -> ParsedData,
                   clock: nat -> Timestamp): (r: RefreshOutcome)
    ensures r.returned.Some? <==> Scrape(response, parse, clock).Success?
    ensures r.returned.None? ==> r.state == s
    ensures Scrape(response, parse, clock).Success? ==>
      r.returned == Some(Scrape(response, parse, clock).value)
    ensures r.returned.Some? ==>
      && r.state.rooms == r.returned.value
      && r.state.lastUpdate == Some(clock(|r.returned.value|))
  {
    match Scrape(response, parse, clock)
    case Success(records) =>
      RefreshOutcome(Snapshot(records, Some(clock(|records|))), Some(records))
    case Failure(_) =>
      RefreshOutcome(s, None)
  }

  /** The invariant of the bot's state: every record carries a signalled
      status, and before the first success there are no records. */
  ghost predicate Consistent(s: Snapshot) {
    && (forall i :: 0 <= i < |s.rooms| ==> s.rooms[i].status.Signalled())
    && (s.lastUpdate.None? ==> s.rooms == [])
  }

  /** The start-up state is consistent and every refresh keeps it so. */
  lemma RefreshPreservesConsistency(s: Snapshot, response: Option<Page>,
                                    parse: string -> ParsedData, clock: nat -> Timestamp)
    requires Consistent(s)
    ensures Consistent(Initial)
    ensures Consistent(Refresh(s, response, parse, clock).state)
  {
  }

  /** With a clock that never goes back, no record is stamped later than the
      refresh that produced it. */
  lemma RecordsNotNewerThanRefresh(s: Snapshot, response: Option<Page>,
                                   parse: string -> ParsedData, clock: nat -> Timestamp)
    requires forall i, j :: 0 <= i <= j ==> clock(i) <= clock(j)
    requires Scrape(response, parse, clock).Success?
    ensures var t := Refresh(s, response, parse, clock).state;
      forall i :: 0 <= i < |t.rooms| ==> t.rooms[i].lastUpdated <= t.lastUpdate.value
  {
  }
}
