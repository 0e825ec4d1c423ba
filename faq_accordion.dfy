/** The accessible FAQ accordion (`faqAccordion` in app.js and in main.js; the
    two differ only in the panel's `maxHeight` animation, which is not
    modelled). Every item is an entry of a sequence; an item is wired, that is
    gets a click listener, only when it has both a button and a panel. A click
    collapses every item and then opens the clicked one if it was closed, so at
    most one item is ever open after a click, and its ARIA attributes say so. */
module FaqAccordion {

  /** One `.faq-accordion-item`: its `active` class, whether it contains a
      button and a panel, the button's `aria-expanded` ("true" or not) and the
      panel's `aria-hidden` ("true" or not). An attribute of a missing element
      keeps whatever value the record holds and means nothing. */
  datatype FaqItem = FaqItem(active: bool, hasButton: bool, hasPanel: bool, expanded: bool, hidden: bool)

  predicate Wired(it: FaqItem) {
    it.hasButton && it.hasPanel
  }

  /** The button and the panel agree with the `active` class. */
  predicate Mirrors(it: FaqItem) {
    (it.hasButton ==> it.expanded == it.active) && (it.hasPanel ==> it.hidden == !it.active)
  }

  /** The same element structure (buttons and panels are never added or removed). */
  predicate SameShape(a: FaqItem, b: FaqItem) {
    a.hasButton == b.hasButton && a.hasPanel == b.hasPanel
  }

  /** Indices of the items carrying `active`. */
  function ActiveSet(items: seq<FaqItem>): set<nat> {
    set j: nat | j < |items| && items[j].active
  }

  /** The set-up pass on one item: a wired item's button says collapsed and its
      panel hidden; its `active` class is left as the markup has it. */
  function Prepared(it: FaqItem): FaqItem {
    if Wired(it) then it.(expanded := false, hidden := true) else it
  }

  /** The body of the close-all loop on one item. */
  function Collapse(it: FaqItem): FaqItem {
    it.(active := false,
        expanded := if it.hasButton then false else it.expanded,
        hidden := if it.hasPanel then true else it.hidden)
  }

  /** The items after a click on the button of item `i`. A click on an unwired
      item changes nothing (it has no listener). Otherwise the clicked item is
      the only one open if it was closed, and none is open if it was open; in
      both cases every button and panel mirrors its item's state. */
  function AfterClick(items: seq<FaqItem>, i: nat): (r: seq<FaqItem>)
    requires i < |items|
    ensures |r| == |items| && forall j :: 0 <= j < |r| ==> SameShape(r[j], items[j])
    ensures !Wired(items[i]) ==> r == items
    ensures Wired(items[i]) ==> ActiveSet(r) == if items[i].active then {} else {i}
    ensures Wired(items[i]) ==> forall j :: 0 <= j < |r| ==> Mirrors(r[j])
  {
    if !Wired(items[i]) then items
    else
      var closed := seq(|items|, j requires 0 <= j < |items| => Collapse(items[j]));
      var r := if items[i].active then closed else closed[i := closed[i].(active := true, expanded := true, hidden := false)];
      assert ActiveSet(r) == if items[i].active then {} else {i} by {
        forall j: nat | j < |r| ensures r[j].active <==> (!items[i].active && j == i) {
        }
      }
      r
  }

  /** Clicking the same closed item twice opens it and closes it again: no item
      is left open. */
  lemma {:induction false} SecondClickCloses(items: seq<FaqItem>, i: nat)
    requires i < |items| && Wired(items[i]) && !items[i].active
    ensures ActiveSet(AfterClick(AfterClick(items, i), i)) == {}
  {
    var once := AfterClick(items, i);
    assert i in ActiveSet(once);
    assert Wired(once[i]);
  }

  /** A click leaves at most one item open, whatever the state before: only
      the clicked item can be. */
  lemma {:induction false} OnlyClickedCanBeOpen(items: seq<FaqItem>, i: nat)
    requires i < |items| && Wired(items[i])
    ensures forall j :: 0 <= j < |items| && AfterClick(items, i)[j].active ==> j == i
  {
    var r := AfterClick(items, i);
    forall j | 0 <= j < |items| && r[j].active ensures j == i {
      assert j in ActiveSet(r);
    }
  }

  /** The items of one page and the listeners on them. */
  class Accordion {
    var items: seq<FaqItem>

    /** The set-up loop over all items. */
    constructor (markup: seq<FaqItem>)
      ensures items == seq(|markup|, j requires 0 <= j < |markup| => Prepared(markup[j]))
    {
      items := markup;
      new;
      var n := |markup|;
      for k := 0 to n
        invariant |items| == n
        invariant forall j :: 0 <= j < k ==> items[j] == Prepared(markup[j])
        invariant forall j :: k <= j < n ==> items[j] == markup[j]
      {
        if items[k].hasButton && items[k].hasPanel {
          items := items[k := items[k].(expanded := false, hidden := true)];
        }
      }
    }

    /** The click listener of item `i`'s button (a no-op when the item has no
        listener): remember whether it was open, collapse every item, then open
        it if it was closed. */
    method Click(i: nat)
      requires i < |items|
      modifies this
      ensures items == AfterClick(old(items), i)
    {
      if !Wired(items[i]) {
        return;
      }
      var isOpen := items[i].active;
      var n := |items|;
      for k := 0 to n
        invariant |items| == n
        invariant forall j :: 0 <= j < k ==> items[j] == Collapse(old(items)[j])
        invariant forall j :: k <= j < n ==> items[j] == old(items)[j]
      {
        items := items[k := Collapse(items[k])];
      }
      if !isOpen {
        items := items[i := items[i].(active := true, expanded := true, hidden := false)];
      }
    }
  }
}
