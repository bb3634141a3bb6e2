/** Extracting a room's time slot and current activity from the paragraph
    texts of the summary cards matched for that room. */
module Slots {
  import opened Wrappers
  import opened Text

  /** The time slot and the activity a room's cards yield. */
  datatype Slot = Slot(timeSlot: Option<string>, currentActivity: Option<string>)

  /** All paragraph texts of the matched cards, in document order: the
      combined selection `find('p')` walks. */
  function Flatten(cards: seq<seq<string>>): (r: seq<string>)
    ensures |r| == 0 <==> forall i :: 0 <= i < |cards| ==> cards[i] == []
  {
    if cards == [] then [] else cards[0] + Flatten(cards[1..])
  }

  /** `.first().text()`: the first text of a selection, `""` when it is empty. */
  function FirstText(ps: seq<string>): string {
    if ps == [] then "" else ps[0]
  }

  /** `.last().text()`: the last text of a selection, `""` when it is empty. */
  function LastText(ps: seq<string>): string {
    if ps == [] then "" else ps[|ps| - 1]
  }

  /** The first paragraph of the first card that has one (reference definition). */
  ghost function FirstParagraph(cards: seq<seq<string>>): Option<string>
    decreases |cards|
  {
    if cards == [] then None
    else if cards[0] != [] then Some(cards[0][0])
    else FirstParagraph(cards[1..])
  }

  /** The last paragraph of the last card that has one (reference definition). */
  ghost function LastParagraph(cards: seq<seq<string>>): Option<string>
    decreases |cards|
  {
    if cards == [] then None
    else
      var card := cards[|cards| - 1];
      if card != [] then Some(card[|card| - 1])
      else LastParagraph(cards[..|cards| - 1])
  }

  lemma {:induction false} FlattenSnoc(cards: seq<seq<string>>, card: seq<string>)
    ensures Flatten(cards + [card]) == Flatten(cards) + card
    decreases |cards|
  {
    if cards != [] {
      assert (cards + [card])[1..] == cards[1..] + [card];
      FlattenSnoc(cards[1..], card);
    }
  }

  lemma {:induction false} FirstTextIsFirstParagraph(cards: seq<seq<string>>)
    ensures FirstText(Flatten(cards)) == FirstParagraph(cards).GetOr("")
    ensures Flatten(cards) == [] <==> FirstParagraph(cards).None?
    decreases |cards|
  {
    if cards != [] && cards[0] == [] {
      FirstTextIsFirstParagraph(cards[1..]);
    }
  }

  lemma {:induction false} LastTextIsLastParagraph(cards: seq<seq<string>>)
    ensures LastText(Flatten(cards)) == LastParagraph(cards).GetOr("")
    ensures Flatten(cards) == [] <==> LastParagraph(cards).None?
    decreases |cards|
  {
    if cards != [] {
      var init := cards[..|cards| - 1];
      var card := cards[|cards| - 1];
      assert cards == init + [card];
      FlattenSnoc(init, card);
      LastTextIsLastParagraph(init);
    }
  }

  /** The slot rule: a time slot only when the first paragraph is non-empty
      and contains `h`; an activity only alongside a time slot and only when
      the last paragraph differs from the first. */
  function ExtractSlot(cards: seq<seq<string>>): (r: Slot)
    ensures r.timeSlot.Some? <==>
      FirstParagraph(cards).Some? && Occurs(FirstParagraph(cards).value, "h")
    ensures r.timeSlot.Some? ==> r.timeSlot == FirstParagraph(cards)
    ensures r.currentActivity.Some? <==>
      r.timeSlot.Some? && LastParagraph(cards) != FirstParagraph(cards)
    ensures r.currentActivity.Some? ==> r.currentActivity == LastParagraph(cards)
  {
    if |cards| > 0 then
      var ps := Flatten(cards);
      var timeText := FirstText(ps);
      var activityText := LastText(ps);
      FirstTextIsFirstParagraph(cards);
      LastTextIsLastParagraph(cards);
      ContainsIffOccurs(timeText, "h");
      if timeText != "" && Contains(timeText, "h") then
        Slot(Some(timeText), if activityText != timeText then Some(activityText) else None)
      else
        Slot(None, None)
    else
      Slot(None, None)
  }

  /** A card with a single paragraph cannot give an activity: first and last
      name the same paragraph. */
  lemma SingleParagraphHasNoActivity(cards: seq<seq<string>>)
    requires |Flatten(cards)| == 1
    ensures ExtractSlot(cards).currentActivity.None?
  {
  }

  /** With several matched cards, the time comes from the first card and the
      activity from the last one. */
  lemma {:induction false} ActivityComesFromLastCard(first: seq<string>, last: seq<string>)
    requires first != [] && last != []
    requires Occurs(first[0], "h")
    requires last[|last| - 1] != first[0]
    ensures ExtractSlot([first, last]) == Slot(Some(first[0]), Some(last[|last| - 1]))
  {
  }
}
