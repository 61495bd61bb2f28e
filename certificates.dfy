/** The certificate deck: cards either stacked or fanned out, at most one of
    them selected and brought to the front. */
module Certificates {
  import opened Wrappers
  import opened Geometry

  /** The number of certificates the deck shows. */
  const CertificateCount: nat := 4

  /** Where one card is drawn: tilt in degrees, shift in pixels, stacking order. */
  datatype Pose = Pose(rotation: real, x: real, y: real, zIndex: real)

  /** A card's signed distance from the middle of the deck, in card positions. */
  function Offset(index: nat, count: nat): (r: real)
    ensures r < 0.0 <==> 2 * index + 1 < count
    ensures r == 0.0 <==> 2 * index + 1 == count
  {
    index as real - (count as real - 1.0) / 2.0
  }

  /** The pose of card `index` of `count`, given the selection and the mode. */
  function CardPose(index: nat, count: nat, selected: Option<nat>, expanded: bool): (p: Pose)
    ensures selected == Some(index) <==> p.zIndex > count as real
    ensures selected == Some(index) ==> p.rotation == 0.0 && p.x == 0.0 && p.y == -30.0
    ensures !expanded ==> p.rotation == 0.0 && p.x == 0.0
  {
    var offset := Offset(index, count);
    var total := count as real;
    var zIndex :=
      if selected == Some(index) then total + 20.0
      else if selected.Some? then total - Abs(offset) - 10.0
      else total - Abs(offset);
    if selected == Some(index) then Pose(0.0, 0.0, -30.0, zIndex)
    else if !expanded then Pose(0.0, 0.0, index as real * 4.0, zIndex)
    else Pose(offset * 8.0, offset * 80.0, Abs(offset) * 20.0, zIndex)
  }

  /** The selected card is drawn above every other card of the deck. */
  lemma SelectedCardOnTop(count: nat, selected: nat, other: nat, expanded: bool)
    requires selected < count && other < count && other != selected
    ensures CardPose(other, count, Some(selected), expanded).zIndex
            < CardPose(selected, count, Some(selected), expanded).zIndex
  {
  }

  /** The selected card stands upright, centred and raised, in either mode. */
  lemma SelectedCardPose(index: nat, count: nat, expanded: bool)
    ensures var p := CardPose(index, count, Some(index), expanded);
            p.rotation == 0.0 && p.x == 0.0 && p.y == -30.0
  {
  }

  /** Among unselected cards, the one nearer the middle of the deck is drawn
      higher. */
  lemma NearerMiddleStacksHigher(i: nat, j: nat, count: nat, selected: Option<nat>, expanded: bool)
    requires selected != Some(i) && selected != Some(j)
    requires Abs(Offset(i, count)) < Abs(Offset(j, count))
    ensures CardPose(i, count, selected, expanded).zIndex > CardPose(j, count, selected, expanded).zIndex
  {
  }

  /** Selecting a card lowers every other card by the same 10 levels,
      keeping their order among themselves. */
  lemma SelectionLowersOthers(i: nat, count: nat, selected: nat, expanded: bool)
    requires i != selected
    ensures CardPose(i, count, Some(selected), expanded).zIndex
            == CardPose(i, count, None, expanded).zIndex - 10.0
  {
  }

  /** Cards in mirror positions about the middle tie in stacking order and,
      when fanned out, tilt and shift by opposite amounts at the same height. */
  lemma MirrorCardsAreSymmetric(i: nat, j: nat, count: nat, selected: Option<nat>, expanded: bool)
    requires i + j + 1 == count
    requires selected != Some(i) && selected != Some(j)
    ensures CardPose(i, count, selected, expanded).zIndex == CardPose(j, count, selected, expanded).zIndex
    ensures expanded ==> CardPose(i, count, selected, expanded).rotation == -CardPose(j, count, selected, expanded).rotation
    ensures expanded ==> CardPose(i, count, selected, expanded).x == -CardPose(j, count, selected, expanded).x
    ensures expanded ==> CardPose(i, count, selected, expanded).y == CardPose(j, count, selected, expanded).y
  {
    assert Offset(i, count) == -Offset(j, count);
  }

  /** Stacked, unselected cards are upright and unshifted, each one 4 pixels
      below the card before it. */
  lemma StackedCardsStepDown(i: nat, count: nat, selected: Option<nat>)
    requires selected != Some(i) && selected != Some(i + 1)
    ensures var p := CardPose(i, count, selected, false);
            p.rotation == 0.0 && p.x == 0.0 && p.y == i as real * 4.0
    ensures CardPose(i + 1, count, selected, false).y - CardPose(i, count, selected, false).y == 4.0
  {
  }

  /** Fanned-out, unselected cards lean and shift toward their own side of the
      middle: the shift is ten times the tilt, and the drop a quarter of the
      shift in size. */
  lemma FannedCardsLeanOutward(i: nat, count: nat, selected: Option<nat>)
    requires selected != Some(i)
    ensures var p := CardPose(i, count, selected, true);
            p.x == p.rotation * 10.0 && p.y == Abs(p.rotation) * 2.5 && p.y == Abs(p.x) / 4.0
            && (p.x < 0.0 <==> 2 * i + 1 < count) && (p.x == 0.0 <==> 2 * i + 1 == count)
  {
  }

  /** The deck as shipped, with nothing selected: the two middle cards on
      top, the two outer ones below them. */
  lemma ShippedDeckOrder(expanded: bool)
    ensures CardPose(0, CertificateCount, None, expanded).zIndex == 2.5
    ensures CardPose(1, CertificateCount, None, expanded).zIndex == 3.5
    ensures CardPose(2, CertificateCount, None, expanded).zIndex == 3.5
    ensures CardPose(3, CertificateCount, None, expanded).zIndex == 2.5
  {
  }

  /** Whether a click landed on a link: the target is an anchor, or sits inside
      one. `path` holds the tag names from the target up through its ancestors. */
  function OnLink(path: seq<string>): (r: bool)
    ensures r <==> exists k :: 0 <= k < |path| && path[k] == "A"
  {
    ClosestIsLink(path) || (|path| > 0 && path[0] == "A")
  }

  /** Whether the target or one of its ancestors is an anchor. */
  function ClosestIsLink(path: seq<string>): bool
  {
    "A" in path
  }

  /** Testing the target's own tag adds nothing: the ancestor search already
      includes the target itself. */
  lemma TagTestIsSubsumed(path: seq<string>)
    requires |path| > 0 && path[0] == "A"
    ensures ClosestIsLink(path)
  {
  }

  /** The selection after a card click that is not on a link. */
  function Clicked(selected: Option<nat>, index: nat): (r: Option<nat>)
    ensures r == None <==> selected == Some(index)
    ensures r != None ==> r == Some(index)
  {
    if selected == Some(index) then None else Some(index)
  }

  /** A second click on the same card undoes a selection the first one made. */
  lemma ClickTwiceDeselects(selected: Option<nat>, index: nat)
    requires selected != Some(index)
    ensures Clicked(Clicked(selected, index), index) == None
  {
  }

  /** The state of the certificate deck. */
  class CertificateDeck {
    const count: nat
    var isExpanded: bool
    var selectedIndex: Option<nat>

    ghost predicate Valid()
      reads this
    {
      selectedIndex.Some? ==> selectedIndex.value < count
    }

    constructor (count: nat)
      ensures Valid()
      ensures this.count == count
      ensures !isExpanded && selectedIndex == None
    {
      this.count := count;
      isExpanded := false;
      selectedIndex := None;
    }

    /** A click on card `index`: ignored on a link, otherwise it toggles that
        card's selection. */
    method CardClick(index: nat, targetPath: seq<string>)
      requires Valid() && index < count
      modifies this
      ensures Valid()
      ensures isExpanded == old(isExpanded)
      ensures OnLink(targetPath) ==> selectedIndex == old(selectedIndex)
      ensures !OnLink(targetPath) ==> selectedIndex == Clicked(old(selectedIndex), index)
    {
      if OnLink(targetPath) {
        return;
      }
      selectedIndex := if selectedIndex == Some(index) then None else Some(index);
    }

    /** The expand/stack button: flip the mode and drop any selection. */
    method ExpandToggle()
      requires Valid()
      modifies this
      ensures Valid()
      ensures isExpanded == !old(isExpanded)
      ensures selectedIndex == None
    {
      isExpanded := !isExpanded;
      if selectedIndex != None {
        selectedIndex := None;
      }
    }

    /** The pose the deck's current state gives card `index`. */
    function PoseOf(index: nat): (p: Pose)
      reads this
      requires Valid() && index < count
      ensures selectedIndex == Some(index) ==> p.zIndex > count as real
      ensures selectedIndex != Some(index) ==> p.zIndex <= count as real
    {
      CardPose(index, count, selectedIndex, isExpanded)
    }
  }
}
