/** The two smaller widgets of main-new.js: the hamburger menu
    (`initMobileMenu`) and the plus-sign FAQ (`initFAQ`). */
module MainNewWidgets {
  import opened Wrappers

  /** What the hamburger menu code reads and writes: the toggle's and the
      menu's `active` classes, the toggle's `aria-expanded` ("true" or not) and
      whether the body's `overflow` is "hidden" (otherwise it is ""). */
  datatype MenuView = MenuView(toggleActive: bool, menuActive: bool, expanded: bool, overflowHidden: bool)

  /** All four agree: the menu is either fully open or fully closed. */
  predicate Synced(v: MenuView) {
    v.toggleActive == v.menuActive && v.expanded == v.menuActive && v.overflowHidden == v.menuActive
  }

  /** `openMenu()` and `closeMenu()`. */
  function MenuState(open: bool): (v: MenuView)
    ensures Synced(v) && v.menuActive == open
  {
    MenuView(open, open, open, open)
  }

  /** Where a click landed: on the toggle, inside the menu, or elsewhere. */
  datatype MenuTarget = OnToggle | InMenu | Elsewhere

  /** The toggle's click listener: it decides by the toggle's own class. */
  function ToggleClick(v: MenuView): (r: MenuView)
    ensures Synced(r) && r.menuActive == !v.toggleActive
  {
    if v.toggleActive then MenuState(false) else MenuState(true)
  }

  /** The document's click listener: a click inside neither the toggle nor the
      menu closes the menu, any other click leaves it alone. */
  function DocumentClick(v: MenuView, t: MenuTarget): (r: MenuView)
    ensures t == Elsewhere ==> r == MenuState(false)
    ensures t != Elsewhere ==> r == v
  {
    if !t.OnToggle? && !t.InMenu? then MenuState(false) else v
  }

  /** The document's keydown listener. */
  function MenuKeyDown(v: MenuView, key: string): (r: MenuView)
    ensures key == "Escape" ==> r == MenuState(false)
    ensures key != "Escape" ==> r == v
  {
    if key == "Escape" then MenuState(false) else v
  }

  /** A click at `t` as the browser delivers it: the toggle's listener first
      when the click is on the toggle, then the document's, reached by
      bubbling. A click on the toggle flips the menu (the document listener
      does not undo it), a click elsewhere closes it, a click inside the menu
      changes nothing; the four attributes stay in agreement throughout, so
      the body scroll is locked exactly while the menu is open. */
  function MenuClick(v: MenuView, t: MenuTarget): (r: MenuView)
    ensures t == OnToggle ==> Synced(r) && r.menuActive == !v.toggleActive
    ensures t == Elsewhere ==> Synced(r) && !r.menuActive
    ensures t == InMenu ==> r == v
    ensures Synced(v) ==> Synced(r)
  {
    DocumentClick(if t == OnToggle then ToggleClick(v) else v, t)
  }

  /** The hamburger menu; `wired` is false when the toggle or the menu is
      missing, and then no listener exists. */
  class MobileMenu {
    const wired: bool
    var toggleActive: bool
    var menuActive: bool
    var expanded: bool
    var overflowHidden: bool

    function View(): MenuView
      reads this
    {
      MenuView(toggleActive, menuActive, expanded, overflowHidden)
    }

    constructor (hasToggle: bool, hasMenu: bool, markup: MenuView)
      ensures wired == (hasToggle && hasMenu) && View() == markup
    {
      wired := hasToggle && hasMenu;
      toggleActive, menuActive, expanded, overflowHidden :=
        markup.toggleActive, markup.menuActive, markup.expanded, markup.overflowHidden;
    }

    method OpenMenu()
      modifies this
      ensures View() == MenuState(true)
    {
      toggleActive := true;
      menuActive := true;
      expanded := true;
      overflowHidden := true;
    }

    method CloseMenu()
      modifies this
      ensures View() == MenuState(false)
    {
      toggleActive := false;
      menuActive := false;
      expanded := false;
      overflowHidden := false;
    }

    /** A click at `t`, through both click listeners. */
    method Click(t: MenuTarget)
      modifies this
      ensures wired ==> View() == MenuClick(old(View()), t)
      ensures !wired ==> View() == old(View())
    {
      if !wired {
        return;
      }
      if t == OnToggle {
        var isActive := toggleActive;
        if isActive {
          CloseMenu();
        } else {
          OpenMenu();
        }
      }
      if !t.OnToggle? && !t.InMenu? {
        CloseMenu();
      }
    }

    /** A keydown anywhere. */
    method KeyDown(key: string)
      modifies this
      ensures wired ==> View() == MenuKeyDown(old(View()), key)
      ensures !wired ==> View() == old(View())
    {
      if wired && key == "Escape" {
        CloseMenu();
      }
    }
  }

  /** The sign `initFAQ` writes into an open item's `.faq-plus` (U+2212). */
  const MinusSign := '−'
  const PlusSign := '+'

  /** One `.faq-accordion-item`: its `active` class and the text of its
      `.faq-plus` element, `None` when it has none. */
  datatype FaqEntry = FaqEntry(active: bool, sign: Option<char>)

  /** The sign says whether the item is open. */
  predicate SignMirrors(e: FaqEntry) {
    e.sign.Some? ==> e.sign.value == if e.active then MinusSign else PlusSign
  }

  function ActiveSet(items: seq<FaqEntry>): set<nat> {
    set j: nat | j < |items| && items[j].active
  }

  /** Set an item's state, rewriting its sign when it has one. */
  function SetActive(e: FaqEntry, active: bool): (r: FaqEntry)
    ensures r.active == active && SignMirrors(r) && r.sign.Some? == e.sign.Some?
  {
    FaqEntry(active, if e.sign.Some? then Some(if active then MinusSign else PlusSign) else None)
  }

  /** The items after a click on a button whose enclosing item is `item`
      (`None` when the button is in no item: nothing happens). Every other
      open item is closed with a '+' sign, closed ones are not touched, and the
      clicked item is toggled with its sign following it. */
  function FaqClick(items: seq<FaqEntry>, item: Option<nat>): (r: seq<FaqEntry>)
    requires item.Some? ==> item.value < |items|
    ensures |r| == |items|
    ensures item.None? ==> r == items
    ensures item.Some? ==> ActiveSet(r) == if items[item.value].active then {} else {item.value}
    ensures item.Some? ==> forall j :: 0 <= j < |r| && j != item.value && !items[j].active ==> r[j] == items[j]
    ensures item.Some? ==> SignMirrors(r[item.value])
    ensures forall j :: 0 <= j < |r| && SignMirrors(items[j]) ==> SignMirrors(r[j])
    ensures forall j :: 0 <= j < |r| ==> r[j].sign.Some? == items[j].sign.Some?
    ensures item.Some? ==> forall j :: 0 <= j < |r| && j != item.value && items[j].active && items[j].sign.Some? ==>
              r[j].sign == Some(PlusSign)
  {
    if item.None? then items
    else
      var i := item.value;
      var r := seq(|items|, j requires 0 <= j < |items| =>
        if j == i then SetActive(items[j], !items[j].active)
        else if items[j].active then SetActive(items[j], false)
        else items[j]);
      assert forall j: nat :: j < |r| ==> (r[j].active <==> j == i && !items[i].active);
      r
  }

  /** Clicking a closed item twice opens it and closes it again: nothing is
      left open. */
  lemma FaqSecondClickCloses(items: seq<FaqEntry>, i: nat)
    requires i < |items| && !items[i].active
    ensures ActiveSet(FaqClick(FaqClick(items, Some(i)), Some(i))) == {}
  {
    var once := FaqClick(items, Some(i));
    assert i in ActiveSet(once);
  }

  /** The FAQ items of the page and the click listeners of their buttons. */
  class Faq {
    var items: seq<FaqEntry>

    constructor (markup: seq<FaqEntry>)
      ensures items == markup
    {
      items := markup;
    }

    /** The click listener of a button whose enclosing item is `item`. */
    method OnButtonClick(item: Option<nat>)
      requires item.Some? ==> item.value < |items|
      modifies this
      ensures items == FaqClick(old(items), item)
    {
      if item.None? {
        return;
      }
      var i := item.value;
      var isOpen := items[i].active;
      var n := |items|;
      for k := 0 to n
        invariant |items| == n
        invariant forall j :: 0 <= j < k ==> items[j] == if j != i && old(items)[j].active then SetActive(old(items)[j], false) else old(items)[j]
        invariant forall j :: k <= j < n ==> items[j] == old(items)[j]
      {
        if items[k].active && k != i {
          var other := items[k].(active := false);
          if other.sign.Some? {
            other := other.(sign := Some(PlusSign));
          }
          items := items[k := other];
        }
      }
      if isOpen {
        var it := items[i].(active := false);
        if it.sign.Some? {
          it := it.(sign := Some(PlusSign));
        }
        items := items[i := it];
      } else {
        var it := items[i].(active := true);
        if it.sign.Some? {
          it := it.(sign := Some(MinusSign));
        }
        items := items[i := it];
      }
    }
  }
}
