/**
 * The quadrant game of QuadrantView: four draggable triangles, each to be dropped onto
 * the quadrant section whose label equals the triangle's id. A section accepts a drop
 * only for its own label; the game is complete once no triangle is left in the tray.
 */
module Quadrant {
  import opened Optional

  /** A triangle; `quadrant` is the section it was dropped into, None while in the tray. */
  datatype DraggableItem = DraggableItem(image: string, id: string, quadrant: Option<string>)

  /** What the section's border shows after a drop: green, red, or nothing for an unknown id. */
  datatype DropOutcome = Accepted | Rejected | UnknownItem

  /** The new items and the outcome of one drop. */
  datatype DropResult = DropResult(outcome: DropOutcome, items: seq<DraggableItem>)

  /** The labels of the four sections, in screen order (II, I on top; III, IV below). */
  const Sections: seq<string> := ["II", "I", "III", "IV"]

  /** The triangles as the view creates them, all in the tray. */
  const InitialItems: seq<DraggableItem> :=
    [ DraggableItem("quadrant-4", "IV", None),
      DraggableItem("quadrant-2", "II", None),
      DraggableItem("quadrant-1", "I", None),
      DraggableItem("quadrant-3", "III", None) ]

  /** The starting triangles: one per section, all in the tray, so the game is not complete. */
  lemma InitialItemsValid()
    ensures |InitialItems| == 4
    ensures forall i :: 0 <= i < |InitialItems| ==> InitialItems[i].quadrant == None && InitialItems[i].id in Sections
    ensures UniqueIds(InitialItems) && PlacedCorrectly(InitialItems) && !AllPlaced(InitialItems)
  {
    assert InitialItems[0].quadrant == None;
  }

  predicate UniqueIds(items: seq<DraggableItem>) {
    forall i, j :: 0 <= i < j < |items| ==> items[i].id != items[j].id
  }

  /** Every placed triangle sits in the section named by its own id. */
  predicate PlacedCorrectly(items: seq<DraggableItem>) {
    forall i :: 0 <= i < |items| ==> items[i].quadrant == None || items[i].quadrant == Some(items[i].id)
  }

  /** `allItemsPlaced`: no triangle is left without a quadrant. */
  predicate AllPlaced(items: seq<DraggableItem>) {
    !exists i :: 0 <= i < |items| && items[i].quadrant == None
  }

  /** The section labelled `quadrant` accepts the triangle `itemId`. */
  predicate IsDropAllowed(itemId: string, quadrant: string) {
    itemId == quadrant
  }

  /** `firstIndex(where:)` on the ids: the first triangle with id `itemId`. */
  function FirstIndex(items: seq<DraggableItem>, itemId: string): (r: Option<nat>)
    ensures r.Some? ==> r.value < |items| && items[r.value].id == itemId
    ensures r.Some? ==> forall j :: 0 <= j < r.value ==> items[j].id != itemId
    ensures r.None? <==> forall j :: 0 <= j < |items| ==> items[j].id != itemId
  {
    if items == [] then None
    else if items[0].id == itemId then Some(0)
    else match FirstIndex(items[1..], itemId)
      case None => None
      case Some(k) => Some(k + 1)
  }

  /** A drop of triangle `itemId` onto the section labelled `quadrant`. */
  function Drop(items: seq<DraggableItem>, itemId: string, quadrant: string): (r: DropResult)
    ensures |r.items| == |items|
    ensures forall j :: 0 <= j < |items| ==> r.items[j].id == items[j].id && r.items[j].image == items[j].image
    // an unknown id changes nothing and shows nothing
    ensures (forall j :: 0 <= j < |items| ==> items[j].id != itemId) <==> r.outcome == UnknownItem
    ensures r.outcome == UnknownItem ==> r.items == items
    // a drop onto another section is refused and changes nothing
    ensures r.outcome != UnknownItem ==> (r.outcome == Accepted <==> IsDropAllowed(itemId, quadrant))
    ensures r.outcome == Rejected ==> r.items == items
    // an accepted drop places the first triangle with that id, and only it
    ensures r.outcome == Accepted ==>
              var k := FirstIndex(items, itemId).value;
              r.items[k].quadrant == Some(quadrant) &&
              forall j :: 0 <= j < |items| && j != k ==> r.items[j] == items[j]
    // placed triangles stay placed, and the invariants are kept
    ensures forall j :: 0 <= j < |items| && items[j].quadrant.Some? ==> r.items[j].quadrant.Some?
    ensures PlacedCorrectly(items) ==> PlacedCorrectly(r.items)
    ensures UniqueIds(items) ==> UniqueIds(r.items)
  {
    match FirstIndex(items, itemId)
    case None => DropResult(UnknownItem, items)
    case Some(k) =>
      if IsDropAllowed(itemId, quadrant) then DropResult(Accepted, items[k := items[k].(quadrant := Some(quadrant))])
      else DropResult(Rejected, items)
  }

  /** The drops `(itemId, quadrant)`, in order. */
  function DropAll(items: seq<DraggableItem>, drops: seq<(string, string)>): (r: seq<DraggableItem>)
    ensures |r| == |items|
    decreases |drops|
  {
    if drops == [] then items else DropAll(Drop(items, drops[0].0, drops[0].1).items, drops[1..])
  }

  /**
   * With unique ids, a triangle ends up placed exactly when it was placed already or
   * some drop put it onto its own section, whatever the order of the drops.
   */
  lemma {:induction false} PlacedIffDropped(items: seq<DraggableItem>, drops: seq<(string, string)>, i: nat)
    requires UniqueIds(items) && i < |items|
    ensures DropAll(items, drops)[i].quadrant.Some? <==>
              items[i].quadrant.Some? || (items[i].id, items[i].id) in drops
    decreases |drops|
  {
    if drops != [] {
      var d := drops[0];
      var next := Drop(items, d.0, d.1);
      assert drops == [d] + drops[1..];
      if d == (items[i].id, items[i].id) {
        assert FirstIndex(items, d.0) == Some(i);
        assert next.items[i].quadrant.Some?;
      } else if next.outcome == Accepted {
        var k := FirstIndex(items, d.0).value;
        assert k != i;
      }
      PlacedIffDropped(next.items, drops[1..], i);
    }
  }

  /** From an all-in-tray start, the game completes exactly when every triangle was dropped on its own section. */
  lemma CompleteIffAllDropped(items: seq<DraggableItem>, drops: seq<(string, string)>)
    requires UniqueIds(items)
    requires forall i :: 0 <= i < |items| ==> items[i].quadrant == None
    ensures AllPlaced(DropAll(items, drops)) <==>
              forall i :: 0 <= i < |items| ==> (items[i].id, items[i].id) in drops
  {
    forall i | 0 <= i < |items|
      ensures DropAll(items, drops)[i].quadrant.Some? <==> (items[i].id, items[i].id) in drops
    {
      PlacedIffDropped(items, drops, i);
    }
  }

  /** For the view's triangles: complete exactly when every section received the triangle of its own label. */
  lemma CompleteIffEverySectionFilled(drops: seq<(string, string)>)
    ensures AllPlaced(DropAll(InitialItems, drops)) <==>
              ("I", "I") in drops && ("II", "II") in drops && ("III", "III") in drops && ("IV", "IV") in drops
  {
    InitialItemsValid();
    CompleteIffAllDropped(InitialItems, drops);
    assert InitialItems[0].id == "IV" && InitialItems[1].id == "II";
    assert InitialItems[2].id == "I" && InitialItems[3].id == "III";
  }

  /** The tray: `items.filter { $0.quadrant == nil }`. */
  function Unplaced(items: seq<DraggableItem>): seq<DraggableItem> {
    if items == [] then []
    else (if items[0].quadrant == None then [items[0]] else []) + Unplaced(items[1..])
  }

  /** The triangles shown in the section labelled `quadrant`: `items.filter { $0.quadrant == quadrant }`. */
  function PlacedIn(items: seq<DraggableItem>, quadrant: string): seq<DraggableItem> {
    if items == [] then []
    else (if items[0].quadrant == Some(quadrant) then [items[0]] else []) + PlacedIn(items[1..], quadrant)
  }

  /** The tray holds exactly the triangles without a quadrant; it is empty exactly when all are placed. */
  lemma {:induction false} TrayHoldsUnplaced(items: seq<DraggableItem>)
    ensures forall x :: x in Unplaced(items) <==> x in items && x.quadrant == None
    ensures Unplaced(items) == [] <==> AllPlaced(items)
  {
    if items != [] {
      TrayHoldsUnplaced(items[1..]);
      assert items == [items[0]] + items[1..];
    }
  }

  /** Section `quadrant` holds exactly the triangles placed there. */
  lemma {:induction false} SectionHoldsPlaced(items: seq<DraggableItem>, quadrant: string)
    ensures forall x :: x in PlacedIn(items, quadrant) <==> x in items && x.quadrant == Some(quadrant)
  {
    if items != [] {
      SectionHoldsPlaced(items[1..], quadrant);
      assert items == [items[0]] + items[1..];
    }
  }

  /**
   * When the five views `u`, `q2`, `q1`, `q3`, `q4` of `t` split it, and the views of
   * `[h] + t` are those of `t` with `h` added to view `k`, the new views split `[h] + t`.
   */
  lemma SplitCons(h: DraggableItem, t: seq<DraggableItem>, k: nat,
                  u: seq<DraggableItem>, q2: seq<DraggableItem>, q1: seq<DraggableItem>, q3: seq<DraggableItem>, q4: seq<DraggableItem>,
                  U: seq<DraggableItem>, P2: seq<DraggableItem>, P1: seq<DraggableItem>, P3: seq<DraggableItem>, P4: seq<DraggableItem>)
    requires k < 5
    requires multiset(u) + multiset(q2) + multiset(q1) + multiset(q3) + multiset(q4) == multiset(t)
    requires k == 0 ==> U == [h] + u && P2 == q2 && P1 == q1 && P3 == q3 && P4 == q4
    requires k == 1 ==> U == u && P2 == [h] + q2 && P1 == q1 && P3 == q3 && P4 == q4
    requires k == 2 ==> U == u && P2 == q2 && P1 == [h] + q1 && P3 == q3 && P4 == q4
    requires k == 3 ==> U == u && P2 == q2 && P1 == q1 && P3 == [h] + q3 && P4 == q4
    requires k == 4 ==> U == u && P2 == q2 && P1 == q1 && P3 == q3 && P4 == [h] + q4
    ensures multiset(U) + multiset(P2) + multiset(P1) + multiset(P3) + multiset(P4) == multiset([h] + t)
    ensures |U| + |P2| + |P1| + |P3| + |P4| == |[h] + t|
  {
    assert multiset([h] + t) == multiset(t) + multiset{h};
    assert forall x: seq<DraggableItem> :: multiset([h] + x) == multiset(x) + multiset{h};
    assert |multiset(u) + multiset(q2) + multiset(q1) + multiset(q3) + multiset(q4)| == |t|;
  }

  /** A triangle at the head of the list that is in the tray is shown only there. */
  lemma HeadInTray(items: seq<DraggableItem>)
    requires items != [] && items[0].quadrant == None
    ensures Unplaced(items) == [items[0]] + Unplaced(items[1..])
    ensures forall q :: PlacedIn(items, q) == PlacedIn(items[1..], q)
  {
  }

  /** A triangle at the head of the list that is placed in `q` is shown only in section `q`. */
  lemma HeadInSection(items: seq<DraggableItem>, q: string)
    requires items != [] && items[0].quadrant == Some(q)
    ensures Unplaced(items) == Unplaced(items[1..])
    ensures PlacedIn(items, q) == [items[0]] + PlacedIn(items[1..], q)
    ensures forall q' :: q' != q ==> PlacedIn(items, q') == PlacedIn(items[1..], q')
  {
  }

  /** The head triangle is shown in exactly one view `k`: the tray (0) or sections II, I, III, IV (1 to 4). */
  lemma HeadShownIn(items: seq<DraggableItem>) returns (k: nat)
    requires items != [] && (items[0].quadrant == None || items[0].quadrant.value in Sections)
    ensures k < 5
    ensures k == 0 ==>
              Unplaced(items) == [items[0]] + Unplaced(items[1..]) &&
              PlacedIn(items, "II") == PlacedIn(items[1..], "II") &&
              PlacedIn(items, "I") == PlacedIn(items[1..], "I") &&
              PlacedIn(items, "III") == PlacedIn(items[1..], "III") &&
              PlacedIn(items, "IV") == PlacedIn(items[1..], "IV")
    ensures k == 1 ==>
              Unplaced(items) == Unplaced(items[1..]) &&
              PlacedIn(items, "II") == [items[0]] + PlacedIn(items[1..], "II") &&
              PlacedIn(items, "I") == PlacedIn(items[1..], "I") &&
              PlacedIn(items, "III") == PlacedIn(items[1..], "III") &&
              PlacedIn(items, "IV") == PlacedIn(items[1..], "IV")
    ensures k == 2 ==>
              Unplaced(items) == Unplaced(items[1..]) &&
              PlacedIn(items, "II") == PlacedIn(items[1..], "II") &&
              PlacedIn(items, "I") == [items[0]] + PlacedIn(items[1..], "I") &&
              PlacedIn(items, "III") == PlacedIn(items[1..], "III") &&
              PlacedIn(items, "IV") == PlacedIn(items[1..], "IV")
    ensures k == 3 ==>
              Unplaced(items) == Unplaced(items[1..]) &&
              PlacedIn(items, "II") == PlacedIn(items[1..], "II") &&
              PlacedIn(items, "I") == PlacedIn(items[1..], "I") &&
              PlacedIn(items, "III") == [items[0]] + PlacedIn(items[1..], "III") &&
              PlacedIn(items, "IV") == PlacedIn(items[1..], "IV")
    ensures k == 4 ==>
              Unplaced(items) == Unplaced(items[1..]) &&
              PlacedIn(items, "II") == PlacedIn(items[1..], "II") &&
              PlacedIn(items, "I") == PlacedIn(items[1..], "I") &&
              PlacedIn(items, "III") == PlacedIn(items[1..], "III") &&
              PlacedIn(items, "IV") == [items[0]] + PlacedIn(items[1..], "IV")
  {
    if items[0].quadrant == None {
      HeadInTray(items);
      k := 0;
    } else if items[0].quadrant == Some("II") {
      HeadInSection(items, "II");
      k := 1;
    } else if items[0].quadrant == Some("I") {
      HeadInSection(items, "I");
      k := 2;
    } else if items[0].quadrant == Some("III") {
      HeadInSection(items, "III");
      k := 3;
    } else {
      HeadInSection(items, "IV");
      k := 4;
    }
  }

  /** Every triangle is shown exactly once: in the tray or in one of the four sections. */
  lemma {:induction false} ShownOnce(items: seq<DraggableItem>)
    requires forall i :: 0 <= i < |items| ==> items[i].quadrant == None || items[i].quadrant.value in Sections
    ensures multiset(Unplaced(items)) + multiset(PlacedIn(items, "II")) + multiset(PlacedIn(items, "I"))
          + multiset(PlacedIn(items, "III")) + multiset(PlacedIn(items, "IV")) == multiset(items)
    ensures |Unplaced(items)| + |PlacedIn(items, "II")| + |PlacedIn(items, "I")|
          + |PlacedIn(items, "III")| + |PlacedIn(items, "IV")| == |items|
  {
    if items != [] {
      var h, t := items[0], items[1..];
      ShownOnce(t);
      var k := HeadShownIn(items);
      SplitCons(h, t, k, Unplaced(t), PlacedIn(t, "II"), PlacedIn(t, "I"), PlacedIn(t, "III"), PlacedIn(t, "IV"),
                Unplaced(items), PlacedIn(items, "II"), PlacedIn(items, "I"), PlacedIn(items, "III"), PlacedIn(items, "IV"));
      assert items == [h] + t;
      calc {
        multiset(Unplaced(items)) + multiset(PlacedIn(items, "II")) + multiset(PlacedIn(items, "I"))
          + multiset(PlacedIn(items, "III")) + multiset(PlacedIn(items, "IV"));
        multiset([h] + t);
        multiset(items);
      }
    }
  }

  /** QuadrantView's `items` and the drop handler of its sections. */
  class QuadrantView {
    const items: array<DraggableItem>

    ghost predicate Valid()
      reads items
    {
      UniqueIds(items[..]) && PlacedCorrectly(items[..])
    }

    constructor ()
      ensures Valid() && fresh(items) && items[..] == InitialItems
    {
      InitialItemsValid();
      var init := InitialItems;
      var a := new DraggableItem[4](i requires 0 <= i < 4 => init[i]);
      assert a[..] == init;
      items := a;
    }

    /** The `onDrop` handler of the section labelled `quadrant`, given the dropped id. */
    method OnDrop(itemId: string, quadrant: string) returns (outcome: DropOutcome)
      requires Valid()
      modifies items
      ensures Valid()
      ensures DropResult(outcome, items[..]) == Drop(old(items[..]), itemId, quadrant)
    {
      var index := 0;
      while index < items.Length && items[index].id != itemId
        invariant 0 <= index <= items.Length
        invariant forall j :: 0 <= j < index ==> items[j].id != itemId
      {
        index := index + 1;
      }
      if index == items.Length {
        outcome := UnknownItem;
        return;
      }
      assert FirstIndex(items[..], itemId) == Some(index);
      if IsDropAllowed(itemId, quadrant) {
        items[index] := items[index].(quadrant := Some(quadrant));
        outcome := Accepted;
      } else {
        outcome := Rejected;
      }
    }

    /** `allItemsPlaced`. */
    method AllItemsPlaced() returns (placed: bool)
      ensures placed == AllPlaced(items[..])
    {
      var i := 0;
      while i < items.Length
        invariant 0 <= i <= items.Length
        invariant forall j :: 0 <= j < i ==> items[j].quadrant != None
      {
        if items[i].quadrant == None {
          return false;
        }
        i := i + 1;
      }
      return true;
    }
  }
}
