/**
 * The FAQ accordion: one optional open index over the fixed list of ten
 * questions. Toggling the open item closes it; toggling any other opens that
 * one instead, so at most one answer is ever shown.
 */
module Faq {
  import opened Wrappers

  /** The number of entries in the FAQ list. */
  const FaqCount: nat := 10

  /** `openItem === index ? null : index` */
  function Toggle(openItem: Option<nat>, index: nat): (r: Option<nat>)
    ensures r == None <==> openItem == Some(index)
    ensures r != None ==> r == Some(index)
  {
    if openItem == Some(index) then None else Some(index)
  }

  datatype Chevron = Up | Down

  /** How one FAQ entry renders: its answer shown or not, and its chevron. */
  datatype ItemView = ItemView(answerShown: bool, chevron: Chevron)

  /** The rendering of the whole list for an open index. */
  function Render(openItem: Option<nat>): (r: seq<ItemView>)
    ensures |r| == FaqCount
    ensures forall i :: 0 <= i < |r| ==> (r[i].answerShown <==> openItem == Some(i))
    ensures forall i :: 0 <= i < |r| ==> (r[i].chevron == Up <==> openItem == Some(i))
  {
    seq(FaqCount, i requires 0 <= i => ItemView(openItem == Some(i), if openItem == Some(i) then Up else Down))
  }

  /** The number of entries whose answer is shown. */
  function OpenCount(v: seq<ItemView>): nat
  {
    if v == [] then 0 else (if v[0].answerShown then 1 else 0) + OpenCount(v[1..])
  }

  lemma {:induction false} OpenCountOfOnly(v: seq<ItemView>, k: int)
    requires forall i :: 0 <= i < |v| ==> (v[i].answerShown <==> i == k)
    ensures OpenCount(v) == (if 0 <= k < |v| then 1 else 0)
  {
    if v != [] {
      OpenCountOfOnly(v[1..], k - 1);
    }
  }

  /**
   * At most one answer is shown, and one is shown exactly when the open
   * index lies inside the list.
   */
  lemma AtMostOneOpen(openItem: Option<nat>)
    ensures OpenCount(Render(openItem)) <= 1
    ensures OpenCount(Render(openItem)) == 1 <==> openItem.Some? && openItem.value < FaqCount
  {
    OpenCountOfOnly(Render(openItem), if openItem.Some? then openItem.value else -1);
  }

  /** From "none open", toggling the same entry twice returns to "none open". */
  lemma ToggleTwiceFromClosed(index: nat)
    ensures Toggle(Toggle(None, index), index) == None
  {
  }

  class Accordion {
    var openItem: Option<nat>

    /** The open index, if any, is an entry of the list. */
    ghost predicate Valid()
      reads this
    {
      openItem.Some? ==> openItem.value < FaqCount
    }

    constructor ()
      ensures openItem == None && Valid()
    {
      openItem := None;
    }

    /** `toggleItem(index)`; the indices come from mapping over the list. */
    method ToggleItem(index: nat)
      requires Valid() && index < FaqCount
      modifies this
      ensures openItem == Toggle(old(openItem), index) && Valid()
    {
      openItem := if openItem == Some(index) then None else Some(index);
    }

    /**
     * What the list shows in the current state: one view per entry, and
     * exactly one answer shown while an entry is open, none otherwise.
     */
    function View(): (v: seq<ItemView>)
      requires Valid()
      reads this
      ensures |v| == FaqCount
      ensures OpenCount(v) == (if openItem.Some? then 1 else 0)
    {
      AtMostOneOpen(openItem);
      Render(openItem)
    }
  }
}
