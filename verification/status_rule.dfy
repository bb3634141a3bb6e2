/** Deriving a room's live status from the `class` attributes of the `use`
    elements inside the graphic elements matched for that room. */
module StatusRule {
  import opened Wrappers
  import opened Text
  import opened Rooms

  /** The status a single class attribute signals, if it signals one.
      An absent attribute (`undefined`) and the empty string are falsy and
      signal nothing; inside one string `occupied` beats `reserved`, which
      beats `free`. */
  function Marker(cls: Option<string>): (r: Option<RoomStatus>)
    ensures r == Some(Occupied) <==> cls.Some? && Occurs(cls.value, "occupied")
    ensures r == Some(Reserved) <==>
      cls.Some? && !Occurs(cls.value, "occupied") && Occurs(cls.value, "reserved")
    ensures r == Some(Free) <==>
      cls.Some? && !Occurs(cls.value, "occupied") && !Occurs(cls.value, "reserved")
      && Occurs(cls.value, "free")
    ensures r.None? <==>
      cls.None? || (!Occurs(cls.value, "occupied") && !Occurs(cls.value, "reserved")
                    && !Occurs(cls.value, "free"))
  {
    match cls
    case None => None
    case Some(c) =>
      ContainsIffOccurs(c, "occupied");
      ContainsIffOccurs(c, "reserved");
      ContainsIffOccurs(c, "free");
      if c == "" then None
      else if Contains(c, "occupied") then Some(Occupied)
      else if Contains(c, "reserved") then Some(Reserved)
      else if Contains(c, "free") then Some(Free)
      else None
  }

  /** One iteration of the scan: a recognised marker overwrites the status,
      anything else leaves it as it was. */
  function Step(status: RoomStatus, cls: Option<string>): RoomStatus {
    match Marker(cls)
    case Some(m) => m
    case None => status
  }

  /** The scan over the matched elements in document order, starting from `status`. */
  function Scan(status: RoomStatus, classes: seq<Option<string>>): RoomStatus
    decreases |classes|
  {
    if classes == [] then status else Scan(Step(status, classes[0]), classes[1..])
  }

  /** The marker of the last matched element that carries one, if any
      (reference definition, read from the end). */
  ghost function LastMarker(classes: seq<Option<string>>): Option<RoomStatus>
    decreases |classes|
  {
    if classes == [] then None
    else if Marker(classes[|classes| - 1]).Some? then Marker(classes[|classes| - 1])
    else LastMarker(classes[..|classes| - 1])
  }

  /** Scanning one more element is one more step. */
  lemma {:induction false} ScanSnoc(status: RoomStatus, classes: seq<Option<string>>, cls: Option<string>)
    ensures Scan(status, classes + [cls]) == Step(Scan(status, classes), cls)
    decreases |classes|
  {
    if classes != [] {
      assert (classes + [cls])[1..] == classes[1..] + [cls];
      ScanSnoc(Step(status, classes[0]), classes[1..], cls);
    }
  }

  /** The left-to-right scan ends in the last recognised marker, or in its
      starting status when there is none. */
  lemma {:induction false} ScanIsLastMarker(status: RoomStatus, classes: seq<Option<string>>)
    ensures Scan(status, classes) == LastMarker(classes).GetOr(status)
    decreases |classes|
  {
    if classes != [] {
      var init := classes[..|classes| - 1];
      var last := classes[|classes| - 1];
      assert classes == init + [last];
      ScanSnoc(status, init, last);
      ScanIsLastMarker(status, init);
    }
  }

  /** The status the bot records for a room whose matched graphic elements
      carry the given class attributes: Free by default, then last marker wins. */
  function Classify(classes: seq<Option<string>>): (r: RoomStatus)
    ensures r.Signalled()
    ensures r == LastMarker(classes).GetOr(Free)
  {
    ScanIsLastMarker(Free, classes);
    LastMarkerSignalled(classes);
    Scan(Free, classes)
  }

  /** A recognised marker is never Unknown. */
  lemma {:induction false} LastMarkerSignalled(classes: seq<Option<string>>)
    ensures LastMarker(classes).Some? ==> LastMarker(classes).value.Signalled()
    decreases |classes|
  {
    if classes != [] && Marker(classes[|classes| - 1]).None? {
      LastMarkerSignalled(classes[..|classes| - 1]);
    }
  }

  /** No matched element, or none with a recognised marker: the room is Free. */
  lemma {:induction false} NoMarkerMeansFree(classes: seq<Option<string>>)
    requires forall i :: 0 <= i < |classes| ==> Marker(classes[i]).None?
    ensures Classify(classes) == Free
    decreases |classes|
  {
    if classes != [] {
      NoMarkerMeansFree(classes[..|classes| - 1]);
    }
  }

  /** The element at index `j` decides the status when no later element
      carries a marker. */
  lemma {:induction false} LastMarkedElementDecides(classes: seq<Option<string>>, j: nat)
    requires j < |classes| && Marker(classes[j]).Some?
    requires forall k :: j < k < |classes| ==> Marker(classes[k]).None?
    ensures Classify(classes) == Marker(classes[j]).value
    decreases |classes|
  {
    if j < |classes| - 1 {
      var init := classes[..|classes| - 1];
      assert init[j] == classes[j];
      LastMarkedElementDecides(init, j);
    }
  }

  /** Appending elements without a marker never resets the status. */
  lemma {:induction false} UnmarkedSuffixKeepsStatus(classes: seq<Option<string>>, tail: seq<Option<string>>)
    requires forall i :: 0 <= i < |tail| ==> Marker(tail[i]).None?
    ensures Classify(classes + tail) == Classify(classes)
    decreases |tail|
  {
    if tail != [] {
      var front := tail[..|tail| - 1];
      assert classes + tail == (classes + front) + [tail[|tail| - 1]];
      assert (classes + tail)[..|classes + tail| - 1] == classes + front;
      assert Marker((classes + tail)[|classes + tail| - 1]).None?;
      assert LastMarker(classes + tail) == LastMarker(classes + front);
      UnmarkedSuffixKeepsStatus(classes, front);
    } else {
      assert classes + tail == classes;
    }
  }
}
