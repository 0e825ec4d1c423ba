/** The navigation of app.js: the mobile nav toggle and its three closing
    listeners (a menu link, a click outside, Escape), the dropdowns inside the
    nav menu (a tap toggles one at a width of at most 992 pixels; a resize
    above that clears them), and the file-level tap listener at the end of the
    file. The header, the active-link rule, the date minimum and the FAQ of
    app.js are the shared modules HeaderScroll, PageText and FaqAccordion.

    On a dropdown trigger at mobile width three listeners fire on one click:
    the file-level one (registered when the script runs, so first), the
    menu-link listener (every `.nav-menu a`, triggers included), and the
    dropdown's own tap listener. `ClickAsWritten` composes them as written;
    `Click` is the intended behaviour that `AppPage` implements. */
module AppScript {

  /** `(max-width: 992px)` and `window.innerWidth <= 992`. */
  const MobileMaxWidth := 992

  /** The nav menu's `active` class and the toggle's `aria-expanded`. */
  datatype Nav = Nav(menuActive: bool, expanded: bool)

  function NavState(open: bool): Nav {
    Nav(open, open)
  }

  /** The toggle's click listener: flip the menu; `aria-expanded` says the new state. */
  function ToggleClick(n: Nav): (r: Nav)
    ensures r.menuActive == !n.menuActive && r.expanded == r.menuActive
  {
    var nowActive := !n.menuActive;
    Nav(nowActive, nowActive)
  }

  /** A menu link's click listener: at mobile width the menu closes. */
  function LinkClose(n: Nav, width: int): (r: Nav)
    ensures width <= MobileMaxWidth ==> r == NavState(false)
    ensures width > MobileMaxWidth ==> r == n
  {
    if width <= MobileMaxWidth then Nav(false, false) else n
  }

  /** The document's click listener: it closes the menu only at mobile width,
      only when the menu is open, and only for a click inside neither the menu
      nor the toggle. */
  function OutsideClick(n: Nav, width: int, inside: bool): (r: Nav)
    ensures width <= MobileMaxWidth && n.menuActive && !inside ==> r == NavState(false)
    ensures !(width <= MobileMaxWidth && n.menuActive && !inside) ==> r == n
  {
    if width > MobileMaxWidth then n
    else if !n.menuActive then n
    else if inside then n
    else Nav(false, false)
  }

  /** The document's keydown listener: Escape closes an open menu. */
  function NavEscape(n: Nav, key: string): (r: Nav)
    ensures key == "Escape" && n.menuActive ==> r == NavState(false)
    ensures !(key == "Escape" && n.menuActive) ==> r == n
  {
    if key == "Escape" && n.menuActive then Nav(false, false) else n
  }

  /** One `.nav-menu .dropdown`: its `open` class, whether it has a direct
      trigger link and a direct `.dropdown-menu`, and the trigger's
      `aria-expanded` and `aria-haspopup`. */
  datatype DD = DD(open: bool, hasTrigger: bool, hasMenu: bool, expanded: bool, hasPopup: bool)

  predicate Wired(d: DD) {
    d.hasTrigger && d.hasMenu
  }

  predicate Mirrors(d: DD) {
    d.hasTrigger ==> d.expanded == d.open
  }

  predicate SameShapes(a: seq<DD>, b: seq<DD>) {
    |a| == |b| && forall j :: 0 <= j < |a| ==> a[j].hasTrigger == b[j].hasTrigger && a[j].hasMenu == b[j].hasMenu
  }

  function OpenSet(ds: seq<DD>): set<nat> {
    set j: nat | j < |ds| && ds[j].open
  }

  /** Remove `open`, and set `aria-expanded` "false" when there is a trigger. */
  function Shut(d: DD): DD {
    d.(open := false, expanded := if d.hasTrigger then false else d.expanded)
  }

  /** The set-up loop: every wired dropdown's trigger gets `aria-haspopup` and
      `aria-expanded` "false". */
  function Prepared(ds: seq<DD>): (r: seq<DD>)
    ensures SameShapes(r, ds)
    ensures forall j :: 0 <= j < |r| && Wired(r[j]) ==> r[j].hasPopup && !r[j].expanded
    ensures forall j :: 0 <= j < |r| && !Wired(r[j]) ==> r[j] == ds[j]
    ensures forall j :: 0 <= j < |r| ==> r[j].open == ds[j].open
  {
    seq(|ds|, j requires 0 <= j < |ds| => if Wired(ds[j]) then ds[j].(hasPopup := true, expanded := false) else ds[j])
  }

  /** The dropdown's own tap listener (only wired dropdowns have one). At
      desktop width it does nothing; at mobile width it closes every other
      dropdown and toggles this one, every trigger ending in agreement with
      its dropdown. */
  function Tap(ds: seq<DD>, i: nat, width: int): (r: seq<DD>)
    requires i < |ds|
    ensures SameShapes(r, ds)
    ensures width > MobileMaxWidth || !Wired(ds[i]) ==> r == ds
    ensures width <= MobileMaxWidth && Wired(ds[i]) ==>
              OpenSet(r) == (if ds[i].open then {} else {i}) && forall j :: 0 <= j < |r| ==> Mirrors(r[j])
    ensures forall j :: 0 <= j < |r| ==> r[j].hasPopup == ds[j].hasPopup
  {
    if width > MobileMaxWidth || !Wired(ds[i]) then ds
    else
      var r := seq(|ds|, j requires 0 <= j < |ds| =>
        if j == i then ds[i].(open := !ds[i].open, expanded := !ds[i].open) else Shut(ds[j]));
      assert forall j: nat :: j < |r| ==> (r[j].open <==> j == i && !ds[i].open);
      r
  }

  /** The file-level tap listener on every dropdown trigger: at mobile width
      it flips the dropdown's `open` class and touches nothing else. */
  function TrailingToggle(ds: seq<DD>, i: nat, width: int): (r: seq<DD>)
    requires i < |ds|
    ensures |r| == |ds| && forall j :: 0 <= j < |ds| && j != i ==> r[j] == ds[j]
    ensures r[i] == if width <= MobileMaxWidth && ds[i].hasTrigger then ds[i].(open := !ds[i].open) else ds[i]
  {
    if width <= MobileMaxWidth && ds[i].hasTrigger then ds[i := ds[i].(open := !ds[i].open)] else ds
  }

  /** The resize listener: above mobile width every open dropdown is closed
      with a collapsed trigger; closed ones are untouched. */
  function ResizeClear(ds: seq<DD>, width: int): (r: seq<DD>)
    ensures SameShapes(r, ds)
    ensures width <= MobileMaxWidth ==> r == ds
    ensures width > MobileMaxWidth ==> OpenSet(r) == {}
    ensures width > MobileMaxWidth ==> forall j :: 0 <= j < |r| ==> (if ds[j].open then Mirrors(r[j]) else r[j] == ds[j])
    ensures forall j :: 0 <= j < |r| ==> r[j].hasPopup == ds[j].hasPopup
  {
    if width <= MobileMaxWidth then ds
    else seq(|ds|, j requires 0 <= j < |ds| => if ds[j].open then Shut(ds[j]) else ds[j])
  }

  /** Everything the listeners touch. */
  datatype Page = Page(nav: Nav, ds: seq<DD>)

  /** Where a click landed. Dropdown triggers and menu links lie in the menu. */
  datatype Target = OnNavToggle | OnTrigger(i: nat) | OnMenuLink | InMenu | Elsewhere

  predicate ValidTarget(p: Page, t: Target) {
    t.OnTrigger? ==> t.i < |p.ds|
  }

  /** A click as app.js delivers it. `navWired` says whether the toggle and the
      menu both exist (otherwise no nav listener exists). On a dropdown
      trigger: the file-level toggle, the menu-link close, then the tap. */
  function ClickAsWritten(p: Page, t: Target, width: int, navWired: bool): (r: Page)
    requires ValidTarget(p, t)
    ensures SameShapes(r.ds, p.ds)
    ensures !t.OnTrigger? ==> r.ds == p.ds
    ensures !navWired || t.InMenu? ==> r.nav == p.nav
    ensures t.OnTrigger? && width > MobileMaxWidth ==> r == p
  {
    match t
    case OnNavToggle => if navWired then p.(nav := ToggleClick(p.nav)) else p
    case OnTrigger(i) =>
      var ds := Tap(TrailingToggle(p.ds, i, width), i, width);
      Page(if navWired then LinkClose(p.nav, width) else p.nav, ds)
    case OnMenuLink => if navWired then p.(nav := LinkClose(p.nav, width)) else p
    case InMenu => p
    case Elsewhere => if navWired then p.(nav := OutsideClick(p.nav, width, false)) else p
  }

  /** As written, a tap on a wired dropdown at mobile width never changes
      whether it is open: the file-level listener flips it and the tap
      listener, reading the flipped class, flips it back. A closed dropdown
      can never be opened by tapping. */
  lemma DoubleToggleKeepsState(p: Page, i: nat, width: int, navWired: bool)
    requires i < |p.ds| && Wired(p.ds[i]) && width <= MobileMaxWidth
    ensures ClickAsWritten(p, OnTrigger(i), width, navWired).ds[i].open == p.ds[i].open
    ensures OpenSet(ClickAsWritten(p, OnTrigger(i), width, navWired).ds) == if p.ds[i].open then {i} else {}
  {
    var flipped := TrailingToggle(p.ds, i, width);
    assert flipped[i].open == !p.ds[i].open;
    var r := Tap(flipped, i, width);
    assert OpenSet(r) == if flipped[i].open then {} else {i};
    assert i in OpenSet(r) <==> r[i].open;
  }

  /** As written, a tap on a dropdown trigger at mobile width also closes the
      whole nav menu the dropdown sits in, because the menu-link listener
      matches triggers too. */
  lemma TriggerTapClosesMenu(p: Page, i: nat, width: int)
    requires i < |p.ds| && width <= MobileMaxWidth
    ensures !ClickAsWritten(p, OnTrigger(i), width, true).nav.menuActive
  {
  }

  /** A click as intended: a dropdown trigger runs only the dropdown's tap
      listener (no file-level toggle; the menu-link listener skips triggers,
      as main.js's `:not(.dropdown > a)` does). */
  function Click(p: Page, t: Target, width: int, navWired: bool): (r: Page)
    requires ValidTarget(p, t)
    ensures SameShapes(r.ds, p.ds)
    ensures t.OnTrigger? ==> r.nav == p.nav
    ensures !t.OnTrigger? ==> r == ClickAsWritten(p, t, width, navWired)
    ensures t.OnTrigger? && (width > MobileMaxWidth || !Wired(p.ds[t.i])) ==> r == p
  {
    match t
    case OnTrigger(i) => p.(ds := Tap(p.ds, i, width))
    case _ => ClickAsWritten(p, t, width, navWired)
  }

  /** As intended, a tap on a wired trigger at mobile width toggles that
      dropdown alone, leaves the nav menu as it was, and keeps every trigger's
      ARIA state in agreement; a second tap closes it. */
  lemma {:induction false} TapTogglesOnlyThatDropdown(p: Page, i: nat, width: int, navWired: bool)
    requires i < |p.ds| && Wired(p.ds[i]) && width <= MobileMaxWidth
    ensures var r := Click(p, OnTrigger(i), width, navWired);
            r.nav == p.nav && OpenSet(r.ds) == (if p.ds[i].open then {} else {i}) &&
            forall j :: 0 <= j < |r.ds| ==> Mirrors(r.ds[j])
    ensures !p.ds[i].open ==>
              var once := Click(p, OnTrigger(i), width, navWired);
              OpenSet(Click(once, OnTrigger(i), width, navWired).ds) == {}
  {
    if !p.ds[i].open {
      var once := Click(p, OnTrigger(i), width, navWired);
      assert i in OpenSet(once.ds);
      assert once.ds[i].open && Wired(once.ds[i]);
    }
  }

  /** The menu closes on a click outside only at mobile width; above it no
      click closes it except on the toggle, and Escape always does. */
  lemma {:induction false} NavClosing(p: Page, width: int, key: string)
    requires p.nav.menuActive
    ensures !Click(p, Elsewhere, width, true).nav.menuActive <==> width <= MobileMaxWidth
    ensures Click(p, InMenu, width, true) == p
    ensures key == "Escape" ==> !NavEscape(p.nav, key).menuActive
    ensures !Click(p, OnNavToggle, width, true).nav.menuActive
  {
    assert OutsideClick(p.nav, width, false).menuActive <==> width > MobileMaxWidth;
  }

  /** Leaving mobile width after a tap leaves nothing open. */
  lemma {:induction false} ResizeAfterTap(p: Page, i: nat, narrow: int, wide: int)
    requires i < |p.ds| && narrow <= MobileMaxWidth < wide
    ensures OpenSet(ResizeClear(Tap(p.ds, i, narrow), wide)) == {}
  {
    var tapped := Tap(p.ds, i, narrow);
    assert OpenSet(ResizeClear(tapped, wide)) == {};
  }

  /** The nav and dropdowns of a page running app.js. */
  class AppPage {
    const navWired: bool
    var menuActive: bool
    var expanded: bool
    var dropdowns: seq<DD>

    function View(): Page
      reads this
    {
      Page(Nav(menuActive, expanded), dropdowns)
    }

    /** The set-up: the toggle's `aria-expanded` is "false" when the nav is
        wired, and the dropdown loop prepares every wired dropdown. */
    constructor (hasToggle: bool, hasMenu: bool, menuMarkup: bool, expandedMarkup: bool, markup: seq<DD>)
      ensures navWired == (hasToggle && hasMenu)
      ensures View() == Page(Nav(menuMarkup, if navWired then false else expandedMarkup), Prepared(markup))
    {
      navWired := hasToggle && hasMenu;
      menuActive := menuMarkup;
      expanded := if hasToggle && hasMenu then false else expandedMarkup;
      dropdowns := markup;
      new;
      var n := |markup|;
      for k := 0 to n
        invariant |dropdowns| == n && menuActive == menuMarkup
        invariant expanded == if navWired then false else expandedMarkup
        invariant forall j :: 0 <= j < k ==> dropdowns[j] == Prepared(markup)[j]
        invariant forall j :: k <= j < n ==> dropdowns[j] == markup[j]
      {
        var dd := dropdowns[k];
        if !dd.hasTrigger || !dd.hasMenu {
          continue;
        }
        dropdowns := dropdowns[k := dd.(hasPopup := true, expanded := false)];
      }
    }

    /** The toggle's click listener. */
    method OnNavToggle()
      requires navWired
      modifies this
      ensures View() == old(View()).(nav := ToggleClick(old(View()).nav))
    {
      var nowActive := !menuActive;
      menuActive := nowActive;
      expanded := nowActive;
    }

    /** A (non-trigger) menu link's click listener. */
    method OnMenuLink(width: int)
      requires navWired
      modifies this
      ensures View() == old(View()).(nav := LinkClose(old(View()).nav, width))
    {
      if width <= MobileMaxWidth {
        menuActive := false;
        expanded := false;
      }
    }

    /** The document's click listener. */
    method OnDocumentClick(width: int, inside: bool)
      requires navWired
      modifies this
      ensures View() == old(View()).(nav := OutsideClick(old(View()).nav, width, inside))
    {
      if width > MobileMaxWidth {
        return;
      }
      if !menuActive {
        return;
      }
      if !inside {
        menuActive := false;
        expanded := false;
      }
    }

    /** The document's keydown listener. */
    method OnKeyDown(key: string)
      requires navWired
      modifies this
      ensures View() == old(View()).(nav := NavEscape(old(View()).nav, key))
    {
      if key == "Escape" && menuActive {
        menuActive := false;
        expanded := false;
      }
    }

    /** Dropdown `i`'s tap listener (none for an unwired dropdown). */
    method OnTap(i: nat, width: int)
      requires i < |dropdowns|
      modifies this
      ensures View() == old(View()).(ds := Tap(old(dropdowns), i, width))
    {
      if !dropdowns[i].hasTrigger || !dropdowns[i].hasMenu {
        return;
      }
      if width > MobileMaxWidth {
        return;
      }
      var isOpen := dropdowns[i].open;
      var n := |dropdowns|;
      for k := 0 to n
        invariant |dropdowns| == n && menuActive == old(menuActive) && expanded == old(expanded)
        invariant forall j :: 0 <= j < k ==> dropdowns[j] == if j == i then old(dropdowns)[j] else Shut(old(dropdowns)[j])
        invariant forall j :: k <= j < n ==> dropdowns[j] == old(dropdowns)[j]
      {
        if k != i {
          var other := dropdowns[k].(open := false);
          if other.hasTrigger {
            other := other.(expanded := false);
          }
          dropdowns := dropdowns[k := other];
        }
      }
      dropdowns := dropdowns[i := dropdowns[i].(open := !isOpen, expanded := !isOpen)];
    }

    /** The resize listener of the dropdown block. */
    method OnResize(width: int)
      modifies this
      ensures View() == old(View()).(ds := ResizeClear(old(dropdowns), width))
    {
      if width <= MobileMaxWidth {
        return;
      }
      var n := |dropdowns|;
      for k := 0 to n
        invariant |dropdowns| == n && menuActive == old(menuActive) && expanded == old(expanded)
        invariant forall j :: 0 <= j < k ==> dropdowns[j] == if old(dropdowns)[j].open then Shut(old(dropdowns)[j]) else old(dropdowns)[j]
        invariant forall j :: k <= j < n ==> dropdowns[j] == old(dropdowns)[j]
      {
        if dropdowns[k].open {
          var d := dropdowns[k].(open := false);
          if d.hasTrigger {
            d := d.(expanded := false);
          }
          dropdowns := dropdowns[k := d];
        }
      }
    }

    /** A click at `t`, through every listener it reaches, as intended. */
    method OnClick(t: Target, width: int)
      requires ValidTarget(View(), t)
      modifies this
      ensures View() == Click(old(View()), t, width, navWired)
    {
      match t
      case OnNavToggle =>
        if navWired {
          OnNavToggle();
        }
      case OnTrigger(i) =>
        OnTap(i, width);
      case OnMenuLink =>
        if navWired {
          OnMenuLink(width);
        }
      case InMenu =>
      case Elsewhere =>
        if navWired {
          OnDocumentClick(width, false);
        }
    }
  }
}
