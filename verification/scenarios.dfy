/** Worked examples of the refresh and query rules on small fixture pages. */
module Scenarios {
  import opened Wrappers
  import opened Text
  import opened Rooms
  import opened StatusRule
  import opened Slots
  import opened Scrape
  import opened Query

  /** Inside one class string `occupied` wins over `free`. */
  lemma OccupiedBeatsFree()
    ensures Marker(Some("free occupied")) == Some(Occupied)
  {
  }

  /** Inside one class string `reserved` wins over `free`. */
  lemma ReservedBeatsFree()
    ensures Marker(Some("room free reserved")) == Some(Reserved)
  {
    assert OccursAt("room free reserved", "reserved", 10);
    MissingCharNotContained("room free reserved", "occupied", 'c');
  }

  /** A later element with an unrecognised class does not reset the status. */
  lemma UnrecognisedClassKeepsStatus()
    ensures Classify([Some("occupied"), Some("foo")]) == Occupied
  {
  }

  /** A later recognised marker overrides an earlier one. */
  lemma LaterMarkerWins()
    ensures Classify([Some("occupied"), None, Some("free")]) == Free
  {
  }

  /** The one-room fixture: catalog entry `r1` displayed as `A1`. */
  const Entry := CatalogEntry("r1", "Room One", "A1", 0, 10)

  /** A page whose markup marks `A1` occupied and shows its card. */
  function BusyMatches(name: string): RoomMatches {
    if name == "A1" then RoomMatches([Some("occupied")], [["9h-10h", "Math Class"]])
    else RoomMatches([], [])
  }

  /** The record built for `A1` on the busy page. */
  lemma BusyRoomRecord(stamp: Timestamp)
    ensures BuildRecord(Entry, BusyMatches("A1"), stamp)
      == RoomRecord("r1", "Room One", "A1", 0, 10, Occupied, Some("Math Class"), Some("9h-10h"), stamp)
  {
  }

  /** Without any matched element or card `A1` is Free with no slot. */
  lemma UnmatchedRoomRecord(stamp: Timestamp)
    ensures BuildRecord(Entry, RoomMatches([], []), stamp)
      == RoomRecord("r1", "Room One", "A1", 0, 10, Free, None, None, stamp)
  {
  }

  /** A card whose last paragraph is empty yields an empty activity, not an
      absent one. */
  lemma EmptyLastParagraphGivesEmptyActivity()
    ensures ExtractSlot([["9h", ""]]) == Slot(Some("9h"), Some(""))
  {
  }

  /** A failed fetch leaves both globals as they were and returns nothing. */
  lemma FailedFetchKeepsSnapshot(s: Snapshot, parse: string -> ParsedData, clock: nat -> Timestamp)
    ensures Refresh(s, None, parse, clock) == RefreshOutcome(s, None)
  {
  }

  /** A page without the embedded data element is a failed refresh too. */
  lemma MissingDataKeepsSnapshot(s: Snapshot, parse: string -> ParsedData, clock: nat -> Timestamp)
    ensures Refresh(s, Some(Page(None, BusyMatches)), parse, clock) == RefreshOutcome(s, None)
  {
  }

  /** A successful refresh of the busy page replaces the records with the
      single `A1` record. */
  lemma BusyPageRefresh(s: Snapshot, clock: nat -> Timestamp)
    ensures var out := Refresh(s, Some(Page(Some("{...}"), BusyMatches)), _ => RoomList([Entry]), clock);
      && out.returned == Some([RoomRecord("r1", "Room One", "A1", 0, 10, Occupied,
                                          Some("Math Class"), Some("9h-10h"), clock(0))])
      && out.state.lastUpdate == Some(clock(1))
  {
    BusyRoomRecord(clock(0));
    assert ProcessRooms([Entry], BusyMatches, clock)
      == [BuildRecord(Entry, BusyMatches("A1"), clock(0))];
  }

  /** `findRoom("a101")` finds the record displayed as `A101`. */
  lemma LowerCaseQueryFindsRoom(stamp: Timestamp)
    ensures var room := RoomRecord("a101", "Amphi", "A101", 1, 120, Free, None, None, stamp);
      FindRoom([room], "a101") == Some(room)
  {
  }
}
