/** The FAQ accordion: one state variable, the index of the open item or none. */
module Faq {
  import opened Json

  /** `content.items || []`. */
  function Items(content: Json): (r: seq<Json>)
    ensures !Present(Field(Some(content), "items")) ==> r == []
    ensures Present(Field(Some(content), "items")) && Field(Some(content), "items").value.JArr? ==>
      r == Field(Some(content), "items").value.elems
  {
    var v := Field(Some(content), "items");
    if Present(v) && v.value.JArr? then v.value.elems else []
  }

  /** The click handler's new value of `openIndex` for a click on item `index`. */
  function Next(openIndex: Option<nat>, index: nat): (r: Option<nat>)
    ensures r == Some(index) <==> openIndex != Some(index)
    ensures r == None <==> openIndex == Some(index)
  {
    if openIndex == Some(index) then None else Some(index)
  }

  /** The items whose answer is rendered. */
  function Shown(openIndex: Option<nat>, count: nat): (r: set<nat>)
    ensures forall i: nat :: i in r <==> i < count && openIndex == Some(i)
  {
    set i: nat | i < count && openIndex == Some(i)
  }

  /** At most one answer is ever shown, whatever the state. */
  lemma AtMostOneShown(openIndex: Option<nat>, count: nat)
    ensures |Shown(openIndex, count)| <= 1
    ensures openIndex == None ==> Shown(openIndex, count) == {}
  {
    var r := Shown(openIndex, count);
    if openIndex.Some? && openIndex.value < count {
      assert r == {openIndex.value};
    } else {
      assert r == {};
    }
  }

  /** Clicking the same item twice restores the state exactly when that item was
      open or nothing was open; if another item was open, that one stays closed. */
  lemma ClickTwice(openIndex: Option<nat>, index: nat)
    ensures Next(Next(openIndex, index), index) == openIndex <==> openIndex == None || openIndex == Some(index)
    ensures Next(Next(openIndex, index), index) == (if openIndex == Some(index) then Some(index) else None)
  {
  }

  /** After a click, the clicked item is shown unless it was the open one. */
  lemma ClickShows(openIndex: Option<nat>, index: nat, count: nat)
    requires index < count
    ensures Shown(Next(openIndex, index), count) == (if openIndex == Some(index) then {} else {index})
  {
    var r := Shown(Next(openIndex, index), count);
    if openIndex == Some(index) {
      assert r == {};
    } else {
      assert r == {index};
    }
  }

  class Accordion {
    var items: seq<Json>
    var openIndex: Option<nat>

    /** The open index, when there is one, names an item. */
    ghost predicate Valid()
      reads this
    {
      openIndex.Some? ==> openIndex.value < |items|
    }

    /** The first render: nothing is open. */
    constructor (content: Json)
      ensures items == Items(content) && openIndex == None && Valid()
    {
      items := Items(content);
      openIndex := None;
    }

    /** A click on the button of item `index`. */
    method Click(index: nat)
      requires Valid() && index < |items|
      modifies this
      ensures openIndex == Next(old(openIndex), index) && items == old(items) && Valid()
    {
      openIndex := if openIndex == Some(index) then None else Some(index);
    }

    function ShownAnswers(): (r: set<nat>)
      reads this
      ensures |r| <= 1
    {
      AtMostOneShown(openIndex, |items|);
      Shown(openIndex, |items|)
    }
  }
}
