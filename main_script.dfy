/** The navigation of main.js: the nav toggle with its body scroll lock, the
    two closing listeners (a non-dropdown menu link and a click outside, both
    at a width of at most 968 pixels), the dropdown tap toggle at mobile width
    and the hover listeners that set the trigger's ARIA state on desktop. The
    header, the active-link rule, the date minimum and the FAQ of main.js are
    the shared modules HeaderScroll, PageText and FaqAccordion. */
module MainScript {

  /** `isMobile()`: `window.innerWidth <= 968`. */
  const MobileMaxWidth := 968

  /** The menu's and the toggle's `active` classes, the toggle's
      `aria-expanded` and whether the body's overflow is "hidden". */
  datatype Nav = Nav(menuActive: bool, toggleActive: bool, expanded: bool, overflowHidden: bool)

  predicate Synced(n: Nav) {
    n.toggleActive == n.menuActive && n.expanded == n.menuActive && n.overflowHidden == n.menuActive
  }

  function Closed(): (n: Nav)
    ensures Synced(n) && !n.menuActive
  {
    Nav(false, false, false, false)
  }

  /** The toggle's click listener: the menu's class flips and the toggle's
      class, `aria-expanded` and the scroll lock follow the menu, whatever they
      were before. */
  function ToggleClick(n: Nav): (r: Nav)
    ensures r.menuActive == !n.menuActive && Synced(r)
  {
    var isActive := !n.menuActive;
    Nav(isActive, isActive, isActive, isActive)
  }

  /** A non-dropdown menu link's click listener. */
  function LinkClose(n: Nav, width: int): (r: Nav)
    ensures width <= MobileMaxWidth ==> r == Closed()
    ensures width > MobileMaxWidth ==> r == n
  {
    if width <= MobileMaxWidth then Nav(false, false, false, false) else n
  }

  /** The document's click listener: at mobile width, an open menu closes on
      a click inside neither the menu nor the toggle. */
  function OutsideClick(n: Nav, width: int, inside: bool): (r: Nav)
    ensures width <= MobileMaxWidth && n.menuActive && !inside ==> r == Closed()
    ensures !(width <= MobileMaxWidth && n.menuActive && !inside) ==> r == n
  {
    if width > MobileMaxWidth || !n.menuActive then n
    else if !inside then Nav(false, false, false, false)
    else n
  }

  /** Once in agreement, the nav stays in agreement through every listener,
      so the body scroll is locked exactly while the menu is open. */
  lemma NavStaysSynced(n: Nav, width: int, inside: bool)
    requires Synced(n)
    ensures Synced(ToggleClick(n)) && Synced(LinkClose(n, width)) && Synced(OutsideClick(n, width, inside))
    ensures ToggleClick(ToggleClick(n)) == n
  {
  }

  /** One `.dropdown`: its `active` class, whether it has a direct trigger and
      a `.dropdown-menu`, and the trigger's `aria-expanded`. */
  datatype Dropdown = Dropdown(active: bool, hasTrigger: bool, hasMenu: bool, expanded: bool)

  predicate Wired(d: Dropdown) {
    d.hasTrigger && d.hasMenu
  }

  function ActiveSet(ds: seq<Dropdown>): set<nat> {
    set j: nat | j < |ds| && ds[j].active
  }

  /** The trigger's tap listener of wired dropdown `i` (the event stops there,
      so the document's listener does not see it). At mobile width every other
      dropdown loses `active` with its trigger's ARIA state left as it was, and
      dropdown `i` is toggled with its trigger saying the new state. At desktop
      width nothing changes. */
  function Tap(ds: seq<Dropdown>, i: nat, width: int): (r: seq<Dropdown>)
    requires i < |ds|
    ensures |r| == |ds|
    ensures forall j :: 0 <= j < |r| ==> r[j].hasTrigger == ds[j].hasTrigger && r[j].hasMenu == ds[j].hasMenu
    ensures width > MobileMaxWidth || !Wired(ds[i]) ==> r == ds
    ensures width <= MobileMaxWidth && Wired(ds[i]) ==>
              ActiveSet(r) == (if ds[i].active then {} else {i}) &&
              r[i].expanded == r[i].active &&
              forall j :: 0 <= j < |r| && j != i ==> r[j] == ds[j].(active := false)
  {
    if width > MobileMaxWidth || !Wired(ds[i]) then ds
    else
      var r := seq(|ds|, j requires 0 <= j < |ds| =>
        if j == i then ds[i].(active := !ds[i].active, expanded := !ds[i].active) else ds[j].(active := false));
      assert forall j: nat :: j < |r| ==> (r[j].active <==> j == i && !ds[i].active);
      r
  }

  /** The sibling triggers' ARIA state is not reset: a dropdown open before a
      tap on another one ends closed while its trigger still says "expanded". */
  lemma {:induction false} StaleSiblingAria(ds: seq<Dropdown>, i: nat, j: nat, width: int)
    requires i < |ds| && j < |ds| && i != j && Wired(ds[i]) && width <= MobileMaxWidth
    requires ds[j].active && ds[j].expanded
    ensures var r := Tap(ds, i, width); !r[j].active && r[j].expanded
  {
    var r := Tap(ds, i, width);
    assert r[j] == ds[j].(active := false);
  }

  /** The hover listeners exist only when the page loaded at desktop width.
      Entering sets the trigger's `aria-expanded` to "true", leaving sets it to
      "false"; the classes are never touched. */
  function Hover(ds: seq<Dropdown>, i: nat, entering: bool, loadWidth: int): (r: seq<Dropdown>)
    requires i < |ds|
    ensures |r| == |ds| && forall j :: 0 <= j < |r| && j != i ==> r[j] == ds[j]
    ensures r[i].active == ds[i].active && r[i].hasTrigger == ds[i].hasTrigger && r[i].hasMenu == ds[i].hasMenu
    ensures loadWidth > MobileMaxWidth && Wired(ds[i]) ==> r[i].expanded == entering
    ensures !(loadWidth > MobileMaxWidth && Wired(ds[i])) ==> r == ds
  {
    if loadWidth > MobileMaxWidth && Wired(ds[i]) then ds[i := ds[i].(expanded := entering)] else ds
  }

  /** A tap keeps "at most one dropdown active" and never leaves a dropdown
      other than the tapped one active. */
  lemma {:induction false} TapLeavesAtMostOne(ds: seq<Dropdown>, i: nat, width: int)
    requires i < |ds| && Wired(ds[i]) && width <= MobileMaxWidth
    ensures forall j :: 0 <= j < |ds| && Tap(ds, i, width)[j].active ==> j == i
  {
    var r := Tap(ds, i, width);
    forall j | 0 <= j < |ds| && r[j].active ensures j == i {
      assert j in ActiveSet(r);
    }
  }

  /** The nav and the dropdowns of a page running main.js. `navWired` says
      whether both the toggle and the menu exist; `loadWidth` is the width when
      the page loaded, which decides once whether hover listeners exist. */
  class MainPage {
    const navWired: bool
    const loadWidth: int
    var menuActive: bool
    var toggleActive: bool
    var expanded: bool
    var overflowHidden: bool
    var dropdowns: seq<Dropdown>

    function NavView(): Nav
      reads this
    {
      Nav(menuActive, toggleActive, expanded, overflowHidden)
    }

    /** The set-up: the toggle's `aria-expanded` is "false" when the nav is wired. */
    constructor (hasToggle: bool, hasMenu: bool, nav: Nav, markup: seq<Dropdown>, width: int)
      ensures navWired == (hasToggle && hasMenu) && loadWidth == width && dropdowns == markup
      ensures NavView() == if navWired then nav.(expanded := false) else nav
    {
      navWired := hasToggle && hasMenu;
      loadWidth := width;
      menuActive, toggleActive, overflowHidden := nav.menuActive, nav.toggleActive, nav.overflowHidden;
      expanded := if hasToggle && hasMenu then false else nav.expanded;
      dropdowns := markup;
    }

    method OnNavToggle()
      requires navWired
      modifies this
      ensures NavView() == ToggleClick(old(NavView())) && dropdowns == old(dropdowns)
    {
      var isActive := !menuActive;
      menuActive := isActive;
      toggleActive := isActive;
      expanded := isActive;
      overflowHidden := isActive;
    }

    method CloseNav()
      modifies this
      ensures NavView() == Closed() && dropdowns == old(dropdowns)
    {
      menuActive := false;
      toggleActive := false;
      expanded := false;
      overflowHidden := false;
    }

    /** A click on a menu link that is not a dropdown trigger. */
    method OnMenuLink(width: int)
      requires navWired
      modifies this
      ensures NavView() == LinkClose(old(NavView()), width) && dropdowns == old(dropdowns)
    {
      if width <= MobileMaxWidth {
        CloseNav();
      }
    }

    /** The document's click listener. */
    method OnDocumentClick(width: int, inside: bool)
      requires navWired
      modifies this
      ensures NavView() == OutsideClick(old(NavView()), width, inside) && dropdowns == old(dropdowns)
    {
      if width > MobileMaxWidth || !menuActive {
        return;
      }
      if !inside {
        CloseNav();
      }
    }

    /** Dropdown `i`'s trigger tap listener. */
    method OnTap(i: nat, width: int)
      requires i < |dropdowns|
      modifies this
      ensures dropdowns == Tap(old(dropdowns), i, width) && NavView() == old(NavView())
    {
      if !dropdowns[i].hasTrigger || !dropdowns[i].hasMenu || width > MobileMaxWidth {
        return;
      }
      var n := |dropdowns|;
      for k := 0 to n
        invariant |dropdowns| == n && NavView() == old(NavView())
        invariant forall j :: 0 <= j < k ==> dropdowns[j] == if j == i then old(dropdowns)[j] else old(dropdowns)[j].(active := false)
        invariant forall j :: k <= j < n ==> dropdowns[j] == old(dropdowns)[j]
      {
        if k != i {
          dropdowns := dropdowns[k := dropdowns[k].(active := false)];
        }
      }
      var isOpen := !dropdowns[i].active;
      dropdowns := dropdowns[i := dropdowns[i].(active := isOpen, expanded := isOpen)];
    }

    /** The pointer entering (`entering`) or leaving dropdown `i`. */
    method OnHover(i: nat, entering: bool)
      requires i < |dropdowns|
      modifies this
      ensures dropdowns == Hover(old(dropdowns), i, entering, loadWidth) && NavView() == old(NavView())
    {
      if loadWidth <= MobileMaxWidth || !dropdowns[i].hasTrigger || !dropdowns[i].hasMenu {
        return;
      }
      dropdowns := dropdowns[i := dropdowns[i].(expanded := entering)];
    }
  }
}
