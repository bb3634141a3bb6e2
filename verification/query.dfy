/** The read-only queries the bot's commands run against its current records. */
module Query {
  import opened Wrappers
  import opened Text
  import opened Seqs
  import opened Rooms

  /** `getRoomsByStatus(code)`: the records whose status is stored under
      `code`, in record order. */
  function RoomsByStatus(rooms: seq<RoomRecord>, code: int): (r: seq<RoomRecord>)
    ensures forall x :: x in r <==> x in rooms && Code(x.status) == code
    ensures IsSubsequence(r, rooms)
    ensures forall x {:trigger multiset(r)[x]} :: multiset(r)[x] == if Code(x.status) == code then multiset(rooms)[x] else 0
  {
    FilterMultiplicities(rooms, (x: RoomRecord) => Code(x.status) == code);
    Filter(rooms, (x: RoomRecord) => Code(x.status) == code)
  }

  /** `getRoomsByFloor(floor)`: the records on `floor`, in record order. */
  function RoomsByFloor(rooms: seq<RoomRecord>, floor: int): (r: seq<RoomRecord>)
    ensures forall x :: x in r <==> x in rooms && x.floor == floor
    ensures IsSubsequence(r, rooms)
    ensures forall x {:trigger multiset(r)[x]} :: multiset(r)[x] == if x.floor == floor then multiset(rooms)[x] else 0
  {
    FilterMultiplicities(rooms, (x: RoomRecord) => x.floor == floor);
    Filter(rooms, (x: RoomRecord) => x.floor == floor)
  }

  /** The codes the commands pass select the Free, Occupied and Reserved rooms. */
  lemma StatusCodesSelectStatuses(rooms: seq<RoomRecord>, x: RoomRecord)
    ensures x in RoomsByStatus(rooms, 2) <==> x in rooms && x.status == Free
    ensures x in RoomsByStatus(rooms, 1) <==> x in rooms && x.status == Occupied
    ensures x in RoomsByStatus(rooms, 3) <==> x in rooms && x.status == Reserved
  {
  }

  /** The four status queries split the records between them. */
  lemma {:induction false} StatusQueriesPartition(rooms: seq<RoomRecord>)
    ensures |RoomsByStatus(rooms, 0)| + |RoomsByStatus(rooms, 1)|
          + |RoomsByStatus(rooms, 2)| + |RoomsByStatus(rooms, 3)| == |rooms|
  {
    if rooms != [] {
      StatusQueriesPartition(rooms[1..]);
    }
  }

  /** When every record carries a signalled status, the free, occupied and
      reserved counts of the summary add up to the total. */
  lemma SummaryCountsAddUp(rooms: seq<RoomRecord>)
    requires forall i :: 0 <= i < |rooms| ==> rooms[i].status.Signalled()
    ensures |RoomsByStatus(rooms, 2)| + |RoomsByStatus(rooms, 1)|
          + |RoomsByStatus(rooms, 3)| == |rooms|
  {
    StatusQueriesPartition(rooms);
    FilterNone(rooms, (x: RoomRecord) => Code(x.status) == 0);
  }

  /** The test `findRoom` applies, with the query already lower-cased. */
  predicate Matches(room: RoomRecord, term: string) {
    Contains(Lower(room.displayName), term) || Contains(Lower(room.name), term)
  }

  /** Reference form of the test: the lower-cased display name or name has
      `term` as a substring. */
  ghost predicate Mentions(room: RoomRecord, term: string) {
    Occurs(Lower(room.displayName), term) || Occurs(Lower(room.name), term)
  }

  /** The position of the first record, in order, that matches `term`. */
  function FirstMatch(rooms: seq<RoomRecord>, term: string): (r: Option<nat>)
    ensures r.Some? ==> r.value < |rooms| && Mentions(rooms[r.value], term)
    ensures r.Some? ==> forall j :: 0 <= j < r.value ==> !Mentions(rooms[j], term)
    ensures r.None? <==> forall j :: 0 <= j < |rooms| ==> !Mentions(rooms[j], term)
    decreases |rooms|
  {
    if rooms == [] then None
    else
      ContainsIffOccurs(Lower(rooms[0].displayName), term);
      ContainsIffOccurs(Lower(rooms[0].name), term);
      if Matches(rooms[0], term) then Some(0)
      else
        match FirstMatch(rooms[1..], term)
        case None => None
        case Some(k) => Some(k + 1)
  }

  /** `findRoom(query)`: the first record whose display name or name contains
      the query, ignoring case; absent when none does. */
  function FindRoom(rooms: seq<RoomRecord>, query: string): (r: Option<RoomRecord>)
    ensures r.Some? ==> r.value in rooms && Mentions(r.value, Lower(query))
    ensures r.None? <==> forall j :: 0 <= j < |rooms| ==> !Mentions(rooms[j], Lower(query))
    ensures r.Some? ==>
      exists i :: (0 <= i < |rooms| && rooms[i] == r.value
                   && forall j :: 0 <= j < i ==> !Mentions(rooms[j], Lower(query)))
  {
    match FirstMatch(rooms, Lower(query))
    case None => None
    case Some(i) => Some(rooms[i])
  }

  /** The search ignores the case of the query. */
  lemma FindRoomIgnoresQueryCase(rooms: seq<RoomRecord>, q1: string, q2: string)
    requires Lower(q1) == Lower(q2)
    ensures FindRoom(rooms, q1) == FindRoom(rooms, q2)
  {
  }

  /** A query that is a piece of some record's display name, in any case,
      finds a record. */
  lemma {:induction false} FindRoomFindsDisplayName(rooms: seq<RoomRecord>, k: nat, i: nat, j: nat, query: string)
    requires k < |rooms| && i <= j <= |rooms[k].displayName|
    requires Lower(query) == Lower(rooms[k].displayName[i..j])
    ensures FindRoom(rooms, query).Some?
  {
    var dn := rooms[k].displayName;
    LowerSlice(dn, i, j);
    assert OccursAt(Lower(dn), Lower(query), i);
  }

  /** An empty query matches every record, so it finds the first one. */
  lemma {:induction false} EmptyQueryFindsFirst(rooms: seq<RoomRecord>)
    requires rooms != []
    ensures FindRoom(rooms, "") == Some(rooms[0])
  {
  }

  /** The floor heading the bot prints: ground floor, then first, second and
      third; every other value falls through to the third-floor label. */
  function FloorLabel(floor: int): (r: string)
    ensures r == "RDC" <==> floor == 0
    ensures floor == 1 ==> r == "1er étage"
    ensures floor == 2 ==> r == "2ème étage"
    ensures r == "3ème étage" <==> floor !in {0, 1, 2}
  {
    if floor == 0 then "RDC"
    else if floor == 1 then "1er étage"
    else if floor == 2 then "2ème étage"
    else "3ème étage"
  }

  /** The four floors of the building get four different labels. */
  lemma FloorLabelsDistinct(a: int, b: int)
    requires 0 <= a <= 3 && 0 <= b <= 3 && a != b
    ensures FloorLabel(a) != FloorLabel(b)
  {
  }
}
