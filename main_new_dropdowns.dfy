/** The dropdown controller of main-new.js (`initDropdowns`).

    Every `.dropdown` of the page is an entry of a sequence. The controller
    keeps a registry of the listeners it has attached: `globalHandlers` (on the
    document) and, per dropdown, a list of local listeners (the `WeakMap`
    `state`). At a width of at most 968 pixels it runs in mobile mode (a tap on
    a trigger toggles its dropdown), above it in desktop mode (pointer and focus
    open and close them); in both modes a click outside every dropdown and the
    Escape key close them all. A settled resize always empties the registry,
    collapses everything and attaches the listeners of the mode the new width
    selects.

    The browser's part is modelled too, so that the registry has a meaning:
    dispatching an event runs, in registration order, the registered listeners
    whose element lies on the event's path. Event targets are abstracted to
    "inside dropdown i (on its trigger or not)" or "outside every dropdown". */
module MainNewDropdowns {
  import opened Wrappers

  /** `(max-width: 968px)` and `window.innerWidth <= 968`. */
  const MobileMaxWidth := 968

  datatype Mode = Mobile | Desktop

  function ModeFor(width: int): Mode {
    if width <= MobileMaxWidth then Mobile else Desktop
  }

  /** One `.dropdown`: its `active` class; whether it has a direct trigger
      link (`:scope > a`) and a direct `.dropdown-menu`; the trigger's
      `aria-expanded` ("true" or not) and `aria-haspopup`. The attributes of a
      missing trigger keep whatever value the record holds and mean nothing. */
  datatype Dropdown = Dropdown(active: bool, hasTrigger: bool, hasMenu: bool, expanded: bool, hasPopup: bool)

  /** A dropdown the controller wires: trigger and submenu both present. */
  predicate WellFormed(d: Dropdown) {
    d.hasTrigger && d.hasMenu
  }

  /** The trigger's `aria-expanded` agrees with the `active` class. */
  predicate Mirrors(d: Dropdown) {
    d.hasTrigger ==> d.expanded == d.active
  }

  /** The element structure, which nothing here changes. */
  predicate SameShape(a: Dropdown, b: Dropdown) {
    a.hasTrigger == b.hasTrigger && a.hasMenu == b.hasMenu
  }

  predicate SameShapes(a: seq<Dropdown>, b: seq<Dropdown>) {
    |a| == |b| && forall j :: 0 <= j < |a| ==> SameShape(a[j], b[j])
  }

  /** Indices of the open dropdowns. */
  function OpenSet(ds: seq<Dropdown>): set<nat> {
    set j: nat | j < |ds| && ds[j].active
  }

  predicate AtMostOneOpen(ds: seq<Dropdown>) {
    forall j, k :: 0 <= j < |ds| && 0 <= k < |ds| && ds[j].active && ds[k].active ==> j == k
  }

  /** `open(dd)` */
  function Open(d: Dropdown): Dropdown {
    d.(active := true, expanded := if d.hasTrigger then true else d.expanded)
  }

  /** `close(dd)` */
  function Close(d: Dropdown): Dropdown {
    d.(active := false, expanded := if d.hasTrigger then false else d.expanded)
  }

  /** `closeAll(except)`: every dropdown other than `except` ends closed with a
      collapsed trigger; `except` is not touched; so the open ones afterwards
      are at most `except`. */
  function CloseAll(ds: seq<Dropdown>, except: Option<nat>): (r: seq<Dropdown>)
    ensures SameShapes(r, ds)
    ensures forall j :: 0 <= j < |ds| && except != Some(j) ==>
              !r[j].active && Mirrors(r[j]) && r[j].hasPopup == ds[j].hasPopup
    ensures forall j :: 0 <= j < |ds| && except == Some(j) ==> r[j] == ds[j]
    ensures OpenSet(r) == if except.Some? && except.value in OpenSet(ds) then {except.value} else {}
  {
    var r := seq(|ds|, j requires 0 <= j < |ds| => if except == Some(j) then ds[j] else Close(ds[j]));
    assert forall j: nat :: j < |r| && r[j].active ==> except == Some(j);
    r
  }

  /** The mobile tap handler as main-new.js writes it: `closeAll(dd)` spares
      the tapped dropdown, and only a closed one is then opened. */
  function TapAsWritten(ds: seq<Dropdown>, i: nat): (r: seq<Dropdown>)
    requires i < |ds|
    ensures SameShapes(r, ds)
    ensures r[i].active && (ds[i].active ==> r[i] == ds[i]) && (!ds[i].active ==> Mirrors(r[i]))
    ensures forall j :: 0 <= j < |r| && j != i ==> !r[j].active && Mirrors(r[j])
    ensures forall j :: 0 <= j < |r| ==> r[j].hasPopup == ds[j].hasPopup
  {
    var others := CloseAll(ds, Some(i));
    if ds[i].active then others else others[i := Open(others[i])]
  }

  /** As written, a tap on an open dropdown leaves it open: the second tap
      that should close it only closes the others. */
  lemma TapOnOpenKeepsItOpen(ds: seq<Dropdown>, i: nat)
    requires i < |ds| && ds[i].active
    ensures OpenSet(TapAsWritten(ds, i)) == {i}
    ensures TapAsWritten(ds, i)[i] == ds[i]
  {
    assert i in OpenSet(ds);
  }

  /** As written, a tap always leaves exactly the tapped dropdown open
      (whether it was open or not), so it too keeps "at most one open". */
  lemma AsWrittenKeepsAtMostOne(ds: seq<Dropdown>, i: nat)
    requires i < |ds| && AtMostOneOpen(ds)
    ensures AtMostOneOpen(TapAsWritten(ds, i))
    ensures OpenSet(TapAsWritten(ds, i)) == {i}
  {
    var others := CloseAll(ds, Some(i));
    if !ds[i].active {
      var r := others[i := Open(others[i])];
      assert forall j :: 0 <= j < |r| && r[j].active ==> j == i;
      assert i in OpenSet(r);
    } else {
      assert i in OpenSet(ds);
    }
  }

  /** The mobile tap as intended (a second tap closes): a tap on an open
      dropdown closes every dropdown, a tap on a closed one leaves exactly that
      one open; every trigger mirrors its dropdown afterwards. */
  function Tap(ds: seq<Dropdown>, i: nat): (r: seq<Dropdown>)
    requires i < |ds|
    ensures SameShapes(r, ds)
    ensures OpenSet(r) == if ds[i].active then {} else {i}
    ensures forall j :: 0 <= j < |r| ==> Mirrors(r[j])
    ensures forall j :: 0 <= j < |r| ==> r[j].hasPopup == ds[j].hasPopup
    ensures AtMostOneOpen(r)
  {
    if ds[i].active then
      CloseAll(ds, None)
    else
      var others := CloseAll(ds, Some(i));
      var r := others[i := Open(others[i])];
      assert forall j :: 0 <= j < |r| && r[j].active ==> j == i;
      assert i in OpenSet(r);
      r
  }

  /** Where an event happened, or where the pointer or focus went
      (`relatedTarget`; `Outside` also stands for `null`). */
  datatype Target = Outside | Inside(index: nat, onTrigger: bool)

  /** `dropdowns.some((d) => d.contains(e.target))` */
  predicate Hit(ds: seq<Dropdown>, t: Target) {
    t.Inside? && t.index < |ds|
  }

  /** `dd.contains(t)` for dropdown `i` */
  predicate Within(i: nat, t: Target) {
    t.Inside? && t.index == i
  }

  datatype EventType = Click | KeyDown | MouseEnter | MouseLeave | FocusIn | FocusOut

  /** An event: its type, target, related target and key (unused ones are arbitrary). */
  datatype Event = Event(kind: EventType, target: Target, related: Target, key: string)

  /** The elements listeners are attached to. */
  datatype Element = Document | TriggerOf(i: nat) | Item(i: nat)

  /** The listener closures of the source. */
  datatype Action =
    | ToggleOnTap(i: nat)     // mobile `onClick`
    | OpenOnEnter(i: nat)     // desktop `onEnter`
    | CloseOnLeave(i: nat)    // desktop `onLeave`
    | OpenOnFocus(i: nat)     // desktop `onFocusIn`
    | CloseOnBlur(i: nat)     // desktop `onFocusOut`
    | CloseIfOutside          // outside click (both modes)
    | CloseOnEscape           // Escape key (both modes)

  /** A `{ el, type, fn }` registry entry. */
  datatype Handler = Handler(el: Element, kind: EventType, action: Action)

  /** The effect of running one listener on the dropdowns. */
  function Run(ds: seq<Dropdown>, a: Action, ev: Event): (r: seq<Dropdown>)
    ensures SameShapes(r, ds)
  {
    match a
    case ToggleOnTap(i) => if i < |ds| then Tap(ds, i) else ds
    case OpenOnEnter(i) => if i < |ds| then ds[i := Open(ds[i])] else ds
    case OpenOnFocus(i) => if i < |ds| then ds[i := Open(ds[i])] else ds
    case CloseOnLeave(i) => if i < |ds| && !Within(i, ev.related) then ds[i := Close(ds[i])] else ds
    case CloseOnBlur(i) => if i < |ds| && !Within(i, ev.related) then ds[i := Close(ds[i])] else ds
    case CloseIfOutside => if Hit(ds, ev.target) then ds else CloseAll(ds, None)
    case CloseOnEscape => if ev.key == "Escape" then CloseAll(ds, None) else ds
  }

  /** Desktop enter and focus open the dropdown without closing its siblings:
      exactly `i` is added to the open ones. */
  lemma EnterOpensOnlyItself(ds: seq<Dropdown>, i: nat, ev: Event)
    requires i < |ds|
    ensures OpenSet(Run(ds, OpenOnEnter(i), ev)) == OpenSet(ds) + {i}
    ensures OpenSet(Run(ds, OpenOnFocus(i), ev)) == OpenSet(ds) + {i}
    ensures forall j :: 0 <= j < |ds| && j != i ==> Run(ds, OpenOnEnter(i), ev)[j] == ds[j]
    ensures Run(ds, OpenOnFocus(i), ev) == Run(ds, OpenOnEnter(i), ev)
  {
    var r := ds[i := Open(ds[i])];
    assert forall j: nat :: j < |ds| ==> (r[j].active <==> ds[j].active || j == i);
  }

  /** Desktop leave and blur close the dropdown only when the pointer or focus
      went outside it, and change nothing else. */
  lemma LeaveClosesOnlyItself(ds: seq<Dropdown>, i: nat, ev: Event)
    requires i < |ds|
    ensures Within(i, ev.related) ==> Run(ds, CloseOnLeave(i), ev) == ds && Run(ds, CloseOnBlur(i), ev) == ds
    ensures !Within(i, ev.related) ==> OpenSet(Run(ds, CloseOnLeave(i), ev)) == OpenSet(ds) - {i}
    ensures !Within(i, ev.related) ==> Run(ds, CloseOnLeave(i), ev) == Run(ds, CloseOnBlur(i), ev)
    ensures forall j :: 0 <= j < |ds| && j != i ==> Run(ds, CloseOnLeave(i), ev)[j] == ds[j]
  {
    var r := ds[i := Close(ds[i])];
    assert forall j: nat :: j < |ds| ==> (r[j].active <==> ds[j].active && j != i);
  }

  /** Whether listener `h` is invoked for `ev`: same type, and its element
      reached by the event. Clicks, keydowns, `focusin` and `focusout` bubble
      from the target up, through dropdown i when the target lies inside it,
      to the document. `mouseenter` and `mouseleave` do not bubble: dropdown
      i receives one only when the pointer crosses its boundary, that is when
      the pointer (`target`) is inside it and the other end of the move
      (`related`) is not; the document never receives one. */
  predicate Fires(h: Handler, ev: Event) {
    h.kind == ev.kind &&
    match h.el
    case Document => ev.kind != MouseEnter && ev.kind != MouseLeave
    case TriggerOf(i) => ev.target == Inside(i, true)
    case Item(i) => Within(i, ev.target) && (ev.kind in {MouseEnter, MouseLeave} ==> !Within(i, ev.related))
  }

  /** The listeners of `hs` that `ev` invokes, in registration order. */
  function Matching(hs: seq<Handler>, ev: Event): (r: seq<Handler>)
    ensures forall h :: h in r ==> h in hs && Fires(h, ev)
    ensures forall h :: h in hs && Fires(h, ev) ==> h in r
  {
    if hs == [] then []
    else (if Fires(hs[0], ev) then [hs[0]] else []) + Matching(hs[1..], ev)
  }

  /** The map access `state.get(dd) || []`. */
  function Get(state: map<nat, seq<Handler>>, k: nat): seq<Handler> {
    if k in state then state[k] else []
  }

  /** The listeners the browser invokes for `ev`: those of the dropdown the
      target lies in (bubbling from the target up), then the document's. */
  function Listeners(state: map<nat, seq<Handler>>, globals: seq<Handler>, ev: Event): seq<Handler> {
    (if ev.target.Inside? then Matching(Get(state, ev.target.index), ev) else []) + Matching(globals, ev)
  }

  /** Running the listeners `hs` one after the other. */
  function Fire(ds: seq<Dropdown>, hs: seq<Handler>, ev: Event): (r: seq<Dropdown>)
    ensures SameShapes(r, ds)
  {
    if hs == [] then ds else Run(Fire(ds, hs[..|hs| - 1], ev), hs[|hs| - 1].action, ev)
  }

  /** The per-dropdown listeners each mode attaches. */
  function LocalHandlers(mode: Mode, i: nat): (hs: seq<Handler>)
    ensures |hs| == if mode == Mobile then 1 else 4
  {
    match mode
    case Mobile => [Handler(TriggerOf(i), Click, ToggleOnTap(i))]
    case Desktop => [Handler(Item(i), MouseEnter, OpenOnEnter(i)), Handler(Item(i), MouseLeave, CloseOnLeave(i)),
                     Handler(Item(i), FocusIn, OpenOnFocus(i)), Handler(Item(i), FocusOut, CloseOnBlur(i))]
  }

  /** The two document listeners both modes attach. */
  const GlobalHandlers := [Handler(Document, Click, CloseIfOutside), Handler(Document, KeyDown, CloseOnEscape)]

  /** The per-dropdown registry after the attach loop has gone over the
      dropdowns `ds` in order, on top of `state`: each well-formed one gets
      `mode`'s listeners appended to its list. */
  function Attached(state: map<nat, seq<Handler>>, ds: seq<Dropdown>, mode: Mode): map<nat, seq<Handler>> {
    if ds == [] then state
    else
      var prev := Attached(state, ds[..|ds| - 1], mode);
      var k := |ds| - 1;
      if WellFormed(ds[k]) then prev[k := Get(prev, k) + LocalHandlers(mode, k)] else prev
  }

  /** The attributes the attach loop sets on a well-formed dropdown's trigger:
      `aria-haspopup`, and `aria-expanded` mirroring the class (mobile) or
      "false" (desktop). */
  function Prepare(ds: seq<Dropdown>, mode: Mode): (r: seq<Dropdown>)
    ensures SameShapes(r, ds)
    ensures forall j :: 0 <= j < |r| ==> r[j].active == ds[j].active
    ensures forall j :: 0 <= j < |r| && WellFormed(ds[j]) ==>
              r[j].hasPopup && r[j].expanded == (mode == Mobile && ds[j].active)
    ensures forall j :: 0 <= j < |r| && !WellFormed(ds[j]) ==> r[j] == ds[j]
    ensures mode == Mobile ==> forall j :: 0 <= j < |r| && WellFormed(ds[j]) ==> Mirrors(r[j])
  {
    seq(|ds|, j requires 0 <= j < |ds| =>
      if WellFormed(ds[j]) then ds[j].(hasPopup := true, expanded := mode == Mobile && ds[j].active) else ds[j])
  }

  /** Number of well-formed dropdowns. */
  function WiredCount(ds: seq<Dropdown>): nat {
    if ds == [] then 0 else WiredCount(ds[..|ds| - 1]) + (if WellFormed(ds[|ds| - 1]) then 1 else 0)
  }

  /** Number of per-dropdown listeners held for the first `n` dropdowns. */
  function LocalCount(state: map<nat, seq<Handler>>, n: nat): nat {
    if n == 0 then 0 else LocalCount(state, n - 1) + |Get(state, n - 1)|
  }

  /** A registry built from nothing holds one listener per well-formed dropdown
      in mobile mode and four in desktop mode. */
  lemma {:induction false} FreshRegistrySize(ds: seq<Dropdown>, mode: Mode, n: nat)
    requires n <= |ds|
    ensures LocalCount(Attached(map[], ds, mode), n) == (if mode == Mobile then 1 else 4) * WiredCount(ds[..n])
  {
    if n > 0 {
      FreshRegistrySize(ds, mode, n - 1);
      assert ds[..n][..n - 1] == ds[..n - 1];
      FreshGet(ds, mode, n - 1);
    }
  }

  /** One more dropdown processed by the attach loop. */
  lemma AttachedStep(state: map<nat, seq<Handler>>, ds: seq<Dropdown>, mode: Mode, k: nat)
    requires k < |ds|
    ensures var a := Attached(state, ds[..k], mode);
            Attached(state, ds[..k + 1], mode) ==
            if WellFormed(ds[k]) then a[k := Get(a, k) + LocalHandlers(mode, k)] else a
  {
    assert ds[..k + 1][..k] == ds[..k];
  }

  /** What the registry holds for dropdown `i` after the attach loop: what it
      held before, followed by `mode`'s listeners when `i` is well-formed. No
      other dropdown's listeners land in `i`'s list. */
  lemma {:induction false} AttachedHolds(state: map<nat, seq<Handler>>, ds: seq<Dropdown>, mode: Mode, i: nat)
    ensures Get(Attached(state, ds, mode), i) ==
            Get(state, i) + if i < |ds| && WellFormed(ds[i]) then LocalHandlers(mode, i) else []
    ensures i in Attached(state, ds, mode) <==> i in state || (i < |ds| && WellFormed(ds[i]))
    decreases |ds|
  {
    if ds != [] {
      var init := ds[..|ds| - 1];
      AttachedHolds(state, init, mode, i);
      if i < |init| {
        assert init[i] == ds[i];
      }
    }
  }

  /** Attaching over shape-equal dropdowns gives the same registry. */
  lemma {:induction false} AttachedShape(state: map<nat, seq<Handler>>, a: seq<Dropdown>, b: seq<Dropdown>, mode: Mode)
    requires SameShapes(a, b)
    ensures Attached(state, a, mode) == Attached(state, b, mode)
    decreases |a|
  {
    if a != [] {
      AttachedShape(state, a[..|a| - 1], b[..|b| - 1], mode);
    }
  }

  /** What a registry attached from nothing holds for dropdown `i`. */
  lemma FreshGet(ds: seq<Dropdown>, mode: Mode, i: nat)
    ensures Get(Attached(map[], ds, mode), i) == if i < |ds| && WellFormed(ds[i]) then LocalHandlers(mode, i) else []
  {
    AttachedHolds(map[], ds, mode, i);
  }

  lemma {:induction false} MatchingNone(hs: seq<Handler>, ev: Event)
    requires forall j :: 0 <= j < |hs| ==> !Fires(hs[j], ev)
    ensures Matching(hs, ev) == []
  {
    if hs != [] {
      MatchingNone(hs[1..], ev);
    }
  }

  lemma {:induction false} MatchingOnly(hs: seq<Handler>, ev: Event, k: nat)
    requires k < |hs| && Fires(hs[k], ev)
    requires forall j :: 0 <= j < |hs| && j != k ==> !Fires(hs[j], ev)
    ensures Matching(hs, ev) == [hs[k]]
  {
    if k == 0 {
      MatchingNone(hs[1..], ev);
    } else {
      MatchingOnly(hs[1..], ev, k - 1);
    }
  }

  /** The listeners `ev` invokes on a registry attached from nothing. */
  lemma FreshListeners(ds: seq<Dropdown>, mode: Mode, ev: Event)
    ensures Listeners(Attached(map[], ds, mode), GlobalHandlers, ev) ==
            (if ev.target.Inside? then
               Matching(if ev.target.index < |ds| && WellFormed(ds[ev.target.index])
                        then LocalHandlers(mode, ev.target.index) else [], ev)
             else []) + Matching(GlobalHandlers, ev)
  {
    if ev.target.Inside? {
      FreshGet(ds, mode, ev.target.index);
    }
  }

  /** The document listeners `ev` invokes. */
  lemma GlobalMatching(ev: Event)
    ensures Matching(GlobalHandlers, ev) ==
            match ev.kind
            case Click => [GlobalHandlers[0]]
            case KeyDown => [GlobalHandlers[1]]
            case _ => []
  {
    if ev.kind == Click {
      MatchingOnly(GlobalHandlers, ev, 0);
    } else if ev.kind == KeyDown {
      MatchingOnly(GlobalHandlers, ev, 1);
    } else {
      MatchingNone(GlobalHandlers, ev);
    }
  }

  lemma FireOne(ds: seq<Dropdown>, h: Handler, ev: Event)
    ensures Fire(ds, [h], ev) == Run(ds, h.action, ev)
  {
    assert [h][..0] == [];
  }

  lemma RunOutsideInside(ds: seq<Dropdown>, ev: Event)
    requires Hit(ds, ev.target)
    ensures Run(ds, CloseIfOutside, ev) == ds
  {
  }

  /** After a fresh attach in mobile mode no pointer or focus listener exists:
      such events invoke nothing, whatever the mode before the resize. */
  lemma MobileIgnoresHoverAndFocus(ds: seq<Dropdown>, ev: Event)
    requires ev.kind in {MouseEnter, MouseLeave, FocusIn, FocusOut}
    ensures Listeners(Attached(map[], ds, Mobile), GlobalHandlers, ev) == []
  {
    FreshListeners(ds, Mobile, ev);
    GlobalMatching(ev);
    if ev.target.Inside? {
      MatchingNone(LocalHandlers(Mobile, ev.target.index), ev);
    }
  }

  /** After a fresh attach in desktop mode a tap on a trigger invokes only the
      outside-click listener, which does nothing since the target is inside:
      the mobile toggle is gone. */
  lemma DesktopIgnoresTaps(ds: seq<Dropdown>, i: nat)
    requires i < |ds|
    ensures var ev := Event(Click, Inside(i, true), Outside, "");
            Fire(ds, Listeners(Attached(map[], ds, Desktop), GlobalHandlers, ev), ev) == ds
  {
    var ev := Event(Click, Inside(i, true), Outside, "");
    FreshListeners(ds, Desktop, ev);
    GlobalMatching(ev);
    DesktopLocalIgnoresClicks(i, ev);
    var l := Listeners(Attached(map[], ds, Desktop), GlobalHandlers, ev);
    assert l == [GlobalHandlers[0]];
    FireOne(ds, GlobalHandlers[0], ev);
    RunOutsideInside(ds, ev);
  }

  lemma DesktopLocalIgnoresClicks(i: nat, ev: Event)
    requires ev.kind == Click
    ensures Matching(LocalHandlers(Desktop, i), ev) == []
  {
    var hs := LocalHandlers(Desktop, i);
    assert forall j :: 0 <= j < |hs| ==> hs[j].kind != Click;
    MatchingNone(hs, ev);
  }

  /** In either mode a click outside every dropdown closes all of them. */
  lemma OutsideClickClosesAll(ds: seq<Dropdown>, mode: Mode, ev: Event)
    requires ev.kind == Click && !ev.target.Inside?
    ensures OpenSet(Fire(ds, Listeners(Attached(map[], ds, mode), GlobalHandlers, ev), ev)) == {}
  {
    DocumentListenerOnly(ds, mode, ev);
    GlobalMatching(ev);
    FireOne(ds, GlobalHandlers[0], ev);
    assert Run(ds, CloseIfOutside, ev) == CloseAll(ds, None);
  }

  /** In either mode Escape closes every dropdown, wherever the focus is. */
  lemma EscapeClosesAll(ds: seq<Dropdown>, mode: Mode, ev: Event)
    requires ev.kind == KeyDown && ev.key == "Escape"
    ensures OpenSet(Fire(ds, Listeners(Attached(map[], ds, mode), GlobalHandlers, ev), ev)) == {}
  {
    DocumentListenerOnly(ds, mode, ev);
    GlobalMatching(ev);
    FireOne(ds, GlobalHandlers[1], ev);
    assert Run(ds, CloseOnEscape, ev) == CloseAll(ds, None);
  }

  /** A click outside every dropdown and any keydown reach the document's
      listeners only. */
  lemma DocumentListenerOnly(ds: seq<Dropdown>, mode: Mode, ev: Event)
    requires (ev.kind == Click && !ev.target.Inside?) || ev.kind == KeyDown
    ensures Listeners(Attached(map[], ds, mode), GlobalHandlers, ev) == Matching(GlobalHandlers, ev)
  {
    FreshListeners(ds, mode, ev);
    if ev.target.Inside? {
      MatchingNone(LocalHandlers(mode, ev.target.index), ev);
      MatchingNone([], ev);
    }
  }

  /** Every listener except the desktop openers keeps "at most one open". */
  lemma RunKeepsAtMostOne(ds: seq<Dropdown>, a: Action, ev: Event)
    requires AtMostOneOpen(ds) && !a.OpenOnEnter? && !a.OpenOnFocus?
    ensures AtMostOneOpen(Run(ds, a, ev))
  {
    var r := Run(ds, a, ev);
    forall j, k | 0 <= j < |r| && 0 <= k < |r| && r[j].active && r[k].active ensures j == k {
      assert ds[j].active || a.ToggleOnTap?;
      assert ds[k].active || a.ToggleOnTap?;
    }
  }

  lemma {:induction false} FireKeepsAtMostOne(ds: seq<Dropdown>, hs: seq<Handler>, ev: Event)
    requires AtMostOneOpen(ds)
    requires forall h :: h in hs ==> !h.action.OpenOnEnter? && !h.action.OpenOnFocus?
    ensures AtMostOneOpen(Fire(ds, hs, ev))
  {
    if hs != [] {
      var init := hs[..|hs| - 1];
      assert forall h :: h in init ==> h in hs;
      FireKeepsAtMostOne(ds, init, ev);
      RunKeepsAtMostOne(Fire(ds, init, ev), hs[|hs| - 1].action, ev);
    }
  }

  /** In mobile mode at most one dropdown is open after any event, provided at
      most one was before: the only listeners are the tap toggle, the outside
      click and Escape. */
  lemma {:induction false} MobileKeepsAtMostOne(ds: seq<Dropdown>, ev: Event)
    requires AtMostOneOpen(ds)
    ensures AtMostOneOpen(Fire(ds, Listeners(Attached(map[], ds, Mobile), GlobalHandlers, ev), ev))
  {
    var state := Attached(map[], ds, Mobile);
    var l := Listeners(state, GlobalHandlers, ev);
    forall h | h in l ensures !h.action.OpenOnEnter? && !h.action.OpenOnFocus? {
      FreshListeners(ds, Mobile, ev);
      if ev.target.Inside? && h in Matching(Get(state, ev.target.index), ev) {
        FreshGet(ds, Mobile, ev.target.index);
        assert h in LocalHandlers(Mobile, ev.target.index);
      } else {
        assert h in GlobalHandlers;
      }
    }
    FireKeepsAtMostOne(ds, l, ev);
  }

  /** In desktop mode pointing at or focusing into a wired dropdown opens it
      and changes nothing else (the registry was built over dropdowns of the
      same number; the states may have moved on since). */
  lemma DesktopEnterOpens(reg: seq<Dropdown>, ds: seq<Dropdown>, ev: Event)
    requires ev.kind == MouseEnter || ev.kind == FocusIn
    requires ev.target.Inside? && ev.target.index < |reg| == |ds| && WellFormed(reg[ev.target.index])
    requires ev.kind == MouseEnter ==> !Within(ev.target.index, ev.related)
    ensures Fire(ds, Listeners(Attached(map[], reg, Desktop), GlobalHandlers, ev), ev) ==
            ds[ev.target.index := Open(ds[ev.target.index])]
  {
    var i := ev.target.index;
    var h := DesktopOpener(reg, ev);
    FireOne(ds, h, ev);
    RunOpens(ds, h.action, ev);
  }

  /** The one listener pointing or focusing into wired dropdown `i` invokes
      in desktop mode: its opener. */
  lemma DesktopOpener(reg: seq<Dropdown>, ev: Event) returns (h: Handler)
    requires ev.kind == MouseEnter || ev.kind == FocusIn
    requires ev.target.Inside? && ev.target.index < |reg| && WellFormed(reg[ev.target.index])
    requires ev.kind == MouseEnter ==> !Within(ev.target.index, ev.related)
    ensures Listeners(Attached(map[], reg, Desktop), GlobalHandlers, ev) == [h]
    ensures h.action == if ev.kind == MouseEnter then OpenOnEnter(ev.target.index) else OpenOnFocus(ev.target.index)
  {
    var i := ev.target.index;
    var hs := LocalHandlers(Desktop, i);
    FreshListeners(reg, Desktop, ev);
    GlobalMatching(ev);
    assert Matching(GlobalHandlers, ev) == [];
    h := DesktopLocalMatching(i, ev);
    assert Listeners(Attached(map[], reg, Desktop), GlobalHandlers, ev) == Matching(hs, ev) + [];
  }

  /** Of dropdown `i`'s desktop listeners, pointing or focusing into it
      invokes only the opener. */
  lemma DesktopLocalMatching(i: nat, ev: Event) returns (h: Handler)
    requires Within(i, ev.target) && (ev.kind == MouseEnter || ev.kind == FocusIn)
    requires ev.kind == MouseEnter ==> !Within(i, ev.related)
    ensures Matching(LocalHandlers(Desktop, i), ev) == [h]
    ensures h.action == if ev.kind == MouseEnter then OpenOnEnter(i) else OpenOnFocus(i)
  {
    var hs := LocalHandlers(Desktop, i);
    if ev.kind == MouseEnter {
      assert !Fires(hs[1], ev) && !Fires(hs[2], ev) && !Fires(hs[3], ev);
      MatchingOnly(hs, ev, 0);
      h := hs[0];
    } else {
      assert !Fires(hs[0], ev) && !Fires(hs[1], ev) && !Fires(hs[3], ev);
      MatchingOnly(hs, ev, 2);
      h := hs[2];
    }
  }

  lemma RunOpens(ds: seq<Dropdown>, a: Action, ev: Event)
    requires (a.OpenOnEnter? || a.OpenOnFocus?) && a.i < |ds|
    ensures Run(ds, a, ev) == ds[a.i := Open(ds[a.i])]
  {
  }

  /** In desktop mode two dropdowns can be open at once: focus one, then point
      at another without leaving the first. */
  lemma DesktopMayOpenTwo(ds: seq<Dropdown>, i: nat, j: nat)
    requires i < |ds| && j < |ds| && i != j && WellFormed(ds[i]) && WellFormed(ds[j])
    ensures var reg := Attached(map[], ds, Desktop);
            var focus := Event(FocusIn, Inside(i, false), Outside, "");
            var enter := Event(MouseEnter, Inside(j, false), Outside, "");
            var once := Fire(ds, Listeners(reg, GlobalHandlers, focus), focus);
            var twice := Fire(once, Listeners(reg, GlobalHandlers, enter), enter);
            twice[i].active && twice[j].active && !AtMostOneOpen(twice)
  {
    var focus := Event(FocusIn, Inside(i, false), Outside, "");
    var enter := Event(MouseEnter, Inside(j, false), Outside, "");
    DesktopEnterOpens(ds, ds, focus);
    var once := ds[i := Open(ds[i])];
    DesktopEnterOpens(ds, once, enter);
    var twice := once[j := Open(once[j])];
    assert twice[i].active && twice[j].active;
  }

  /** A settled resize leaves no dropdown open, whichever mode it selects,
      and every trigger agrees with its dropdown. */
  lemma {:induction false} ResizeLeavesNoneOpen(ds: seq<Dropdown>, mode: Mode)
    ensures OpenSet(Prepare(CloseAll(ds, None), mode)) == {}
    ensures forall j :: 0 <= j < |ds| ==> Mirrors(Prepare(CloseAll(ds, None), mode)[j])
  {
    var closed := CloseAll(ds, None);
    var r := Prepare(closed, mode);
    assert forall j :: 0 <= j < |r| ==> !r[j].active;
  }

  /** In desktop mode a pointer moving within a dropdown (onto its trigger,
      say) reaches no listener: it neither enters nor leaves the dropdown. */
  lemma PointerWithinInvokesNothing(ds: seq<Dropdown>, ev: Event)
    requires ev.kind == MouseEnter || ev.kind == MouseLeave
    requires ev.target.Inside? && Within(ev.target.index, ev.related)
    ensures Listeners(Attached(map[], ds, Desktop), GlobalHandlers, ev) == []
  {
    FreshListeners(ds, Desktop, ev);
    GlobalMatching(ev);
    MatchingNone(LocalHandlers(Desktop, ev.target.index), ev);
  }

  /** The controller's state: the dropdowns, the document listeners it has
      attached and the per-dropdown listeners, keyed by dropdown index. */
  class Controller {
    var dropdowns: seq<Dropdown>
    var globalHandlers: seq<Handler>
    var state: map<nat, seq<Handler>>
    /** The mode the listeners were last attached for. */
    ghost var mode: Mode

    /** The registry only holds entries for dropdowns of the page. */
    ghost predicate Valid()
      reads this
    {
      forall k :: k in state ==> k < |dropdowns|
    }

    /** The listeners are exactly those of one mode: the two document ones
        and `mode`'s per-dropdown ones, attached from nothing. */
    ghost predicate Settled()
      reads this
    {
      globalHandlers == GlobalHandlers && state == Attached(map[], dropdowns, mode)
    }

    /** `initDropdowns`: nothing at all happens on a page without dropdowns;
        otherwise the listeners of the mode the width selects are attached. */
    constructor (markup: seq<Dropdown>, width: int)
      ensures Valid()
      ensures |markup| == 0 ==> dropdowns == markup && state == map[] && globalHandlers == []
      ensures |markup| > 0 ==> dropdowns == Prepare(markup, ModeFor(width)) &&
                               state == Attached(map[], markup, ModeFor(width)) &&
                               globalHandlers == GlobalHandlers
      ensures |markup| > 0 ==> Settled() && mode == ModeFor(width)
    {
      dropdowns, globalHandlers, state := markup, [], map[];
      new;
      if |dropdowns| == 0 {
        return;
      }
      if width <= MobileMaxWidth {
        AttachMobile();
      } else {
        AttachDesktop();
      }
      mode := ModeFor(width);
      AttachedShape(map[], dropdowns, markup, mode);
    }

    /** `open(dd)` on dropdown `i`. */
    method OpenDropdown(i: nat)
      requires i < |dropdowns|
      modifies this
      ensures dropdowns == old(dropdowns)[i := Open(old(dropdowns)[i])]
      ensures globalHandlers == old(globalHandlers) && state == old(state) && mode == old(mode)
    {
      var d := dropdowns[i].(active := true);
      if d.hasTrigger {
        d := d.(expanded := true);
      }
      dropdowns := dropdowns[i := d];
    }

    /** `close(dd)` on dropdown `i`. */
    method CloseDropdown(i: nat)
      requires i < |dropdowns|
      modifies this
      ensures dropdowns == old(dropdowns)[i := Close(old(dropdowns)[i])]
      ensures globalHandlers == old(globalHandlers) && state == old(state) && mode == old(mode)
    {
      var d := dropdowns[i].(active := false);
      if d.hasTrigger {
        d := d.(expanded := false);
      }
      dropdowns := dropdowns[i := d];
    }

    /** `closeAll(except)` */
    method CloseAllExcept(except: Option<nat>)
      modifies this
      ensures dropdowns == CloseAll(old(dropdowns), except)
      ensures globalHandlers == old(globalHandlers) && state == old(state) && mode == old(mode)
    {
      var n := |dropdowns|;
      for k := 0 to n
        invariant |dropdowns| == n
        invariant forall j :: 0 <= j < k ==> dropdowns[j] == if except == Some(j) then old(dropdowns)[j] else Close(old(dropdowns)[j])
        invariant forall j :: k <= j < n ==> dropdowns[j] == old(dropdowns)[j]
        invariant globalHandlers == old(globalHandlers) && state == old(state) && mode == old(mode)
      {
        if except != Some(k) {
          CloseDropdown(k);
        }
      }
    }

    /** `addHandler(document, type, fn)` */
    method AddHandler(h: Handler)
      modifies this
      ensures globalHandlers == old(globalHandlers) + [h]
      ensures dropdowns == old(dropdowns) && state == old(state)
    {
      globalHandlers := globalHandlers + [h];
    }

    /** `addLocalHandler(dd, el, type, fn)` for dropdown `i`. */
    method AddLocalHandler(i: nat, h: Handler)
      requires Valid() && i < |dropdowns|
      modifies this
      ensures Valid()
      ensures state == old(state)[i := Get(old(state), i) + [h]]
      ensures dropdowns == old(dropdowns) && globalHandlers == old(globalHandlers)
    {
      state := state[i := Get(state, i) + [h]];
    }

    /** `cleanup()`: forget every listener and collapse every dropdown. */
    method Cleanup()
      requires Valid()
      modifies this
      ensures Valid()
      ensures globalHandlers == [] && state == map[]
      ensures dropdowns == CloseAll(old(dropdowns), None)
    {
      globalHandlers := [];
      for k := 0 to |dropdowns|
        invariant forall key :: key in state ==> k <= key < |dropdowns|
        invariant dropdowns == old(dropdowns) && globalHandlers == []
      {
        state := state - {k};
      }
      assert state.Keys == {};
      CloseAllExcept(None);
    }

    /** `attachMobile()`: a tap listener on the trigger of every well-formed
        dropdown, whose trigger gets `aria-haspopup` and an `aria-expanded`
        mirroring its class; then the outside-click and Escape listeners. */
    method AttachMobile()
      requires Valid()
      modifies this
      ensures Valid()
      ensures dropdowns == Prepare(old(dropdowns), Mobile)
      ensures state == Attached(old(state), old(dropdowns), Mobile)
      ensures globalHandlers == old(globalHandlers) + GlobalHandlers
    {
      var n := |dropdowns|;
      assert old(dropdowns)[..0] == [];
      for k := 0 to n
        invariant |dropdowns| == n
        invariant forall j :: 0 <= j < k ==> dropdowns[j] == Prepare(old(dropdowns), Mobile)[j]
        invariant forall j :: k <= j < n ==> dropdowns[j] == old(dropdowns)[j]
        invariant state == Attached(old(state), old(dropdowns)[..k], Mobile)
        invariant globalHandlers == old(globalHandlers)
        invariant Valid()
      {
        var dd := dropdowns[k];
        AttachedStep(old(state), old(dropdowns), Mobile, k);
        if !dd.hasTrigger || !dd.hasMenu {
          continue;
        }
        dropdowns := dropdowns[k := dd.(hasPopup := true, expanded := dd.active)];
        AddLocalHandler(k, Handler(TriggerOf(k), Click, ToggleOnTap(k)));
      }
      assert old(dropdowns)[..n] == old(dropdowns);
      AddHandler(Handler(Document, Click, CloseIfOutside));
      AddHandler(Handler(Document, KeyDown, CloseOnEscape));
    }

    /** `attachDesktop()`: enter, leave, focus-in and focus-out listeners on
        every well-formed dropdown, whose trigger gets `aria-haspopup` and
        `aria-expanded` "false"; then the outside-click and Escape listeners. */
    method AttachDesktop()
      requires Valid()
      modifies this
      ensures Valid()
      ensures dropdowns == Prepare(old(dropdowns), Desktop)
      ensures state == Attached(old(state), old(dropdowns), Desktop)
      ensures globalHandlers == old(globalHandlers) + GlobalHandlers
    {
      var n := |dropdowns|;
      assert old(dropdowns)[..0] == [];
      for k := 0 to n
        invariant |dropdowns| == n
        invariant forall j :: 0 <= j < k ==> dropdowns[j] == Prepare(old(dropdowns), Desktop)[j]
        invariant forall j :: k <= j < n ==> dropdowns[j] == old(dropdowns)[j]
        invariant state == Attached(old(state), old(dropdowns)[..k], Desktop)
        invariant globalHandlers == old(globalHandlers)
        invariant Valid()
      {
        var dd := dropdowns[k];
        AttachedStep(old(state), old(dropdowns), Desktop, k);
        if !dd.hasTrigger || !dd.hasMenu {
          continue;
        }
        dropdowns := dropdowns[k := dd.(hasPopup := true, expanded := false)];
        AddDesktopHandlers(k);
      }
      assert old(dropdowns)[..n] == old(dropdowns);
      AddHandler(Handler(Document, Click, CloseIfOutside));
      AddHandler(Handler(Document, KeyDown, CloseOnEscape));
    }

    /** The four `addLocalHandler` calls of `attachDesktop` for dropdown `i`. */
    method AddDesktopHandlers(i: nat)
      requires Valid() && i < |dropdowns|
      modifies this
      ensures Valid()
      ensures state == old(state)[i := Get(old(state), i) + LocalHandlers(Desktop, i)]
      ensures dropdowns == old(dropdowns) && globalHandlers == old(globalHandlers)
    {
      AddLocalHandler(i, Handler(Item(i), MouseEnter, OpenOnEnter(i)));
      AddLocalHandler(i, Handler(Item(i), MouseLeave, CloseOnLeave(i)));
      AddLocalHandler(i, Handler(Item(i), FocusIn, OpenOnFocus(i)));
      AddLocalHandler(i, Handler(Item(i), FocusOut, CloseOnBlur(i)));
      assert Get(state, i) == Get(old(state), i) + LocalHandlers(Desktop, i);
    }

    /** The settled `resize` listener (it exists only on a page with
        dropdowns): clean up, then attach the listeners of the mode the new
        width selects. Whatever was attached before, the registry afterwards
        is the fresh one for that mode: two document listeners plus one (mobile)
        or four (desktop) per well-formed dropdown, so resizes never pile up
        listeners. */
    method Resize(width: int)
      requires Valid() && |dropdowns| > 0
      modifies this
      ensures Valid()
      ensures dropdowns == Prepare(CloseAll(old(dropdowns), None), ModeFor(width))
      ensures state == Attached(map[], old(dropdowns), ModeFor(width))
      ensures globalHandlers == GlobalHandlers
      ensures |globalHandlers| + LocalCount(state, |dropdowns|) ==
              2 + (if ModeFor(width) == Mobile then 1 else 4) * WiredCount(old(dropdowns))
      ensures OpenSet(dropdowns) == {} && forall j :: 0 <= j < |dropdowns| ==> Mirrors(dropdowns[j])
      ensures Settled() && mode == ModeFor(width)
    {
      Cleanup();
      AttachedShape(map[], dropdowns, old(dropdowns), ModeFor(width));
      if width <= MobileMaxWidth {
        AttachMobile();
      } else {
        AttachDesktop();
      }
      FreshRegistrySize(old(dropdowns), ModeFor(width), |old(dropdowns)|);
      assert old(dropdowns)[..|old(dropdowns)|] == old(dropdowns);
      mode := ModeFor(width);
      ResizeLeavesNoneOpen(old(dropdowns), mode);
      AttachedShape(map[], dropdowns, old(dropdowns), mode);
    }

    /** The mobile tap listener of dropdown `i`, with the second tap closing
        the dropdown (see `TapAsWritten` for the listener as written). */
    method OnTap(i: nat)
      requires i < |dropdowns|
      modifies this
      ensures dropdowns == Tap(old(dropdowns), i)
      ensures globalHandlers == old(globalHandlers) && state == old(state) && mode == old(mode)
    {
      var isOpen := dropdowns[i].active;
      if isOpen {
        CloseAllExcept(None);
      } else {
        CloseAllExcept(Some(i));
        OpenDropdown(i);
      }
    }

    /** One listener invoked for `ev`. */
    method RunHandler(a: Action, ev: Event)
      modifies this
      ensures dropdowns == Run(old(dropdowns), a, ev)
      ensures globalHandlers == old(globalHandlers) && state == old(state) && mode == old(mode)
    {
      match a
      case ToggleOnTap(i) =>
        if i < |dropdowns| {
          OnTap(i);
        }
      case OpenOnEnter(i) =>
        if i < |dropdowns| {
          OpenDropdown(i);
        }
      case OpenOnFocus(i) =>
        if i < |dropdowns| {
          OpenDropdown(i);
        }
      case CloseOnLeave(i) =>
        if i < |dropdowns| && !Within(i, ev.related) {
          CloseDropdown(i);
        }
      case CloseOnBlur(i) =>
        if i < |dropdowns| && !Within(i, ev.related) {
          CloseDropdown(i);
        }
      case CloseIfOutside =>
        if !Hit(dropdowns, ev.target) {
          CloseAllExcept(None);
        }
      case CloseOnEscape =>
        if ev.key == "Escape" {
          CloseAllExcept(None);
        }
    }

    /** The browser delivering `ev`: the listeners registered for it run in
        order, each seeing the dropdowns the previous one left. */
    method Dispatch(ev: Event)
      modifies this
      ensures dropdowns == Fire(old(dropdowns), Listeners(old(state), old(globalHandlers), ev), ev)
      ensures old(Settled()) ==> Settled()
      ensures globalHandlers == old(globalHandlers) && state == old(state) && mode == old(mode)
    {
      var hs := Listeners(state, globalHandlers, ev);
      for k := 0 to |hs|
        invariant dropdowns == Fire(old(dropdowns), hs[..k], ev)
        invariant globalHandlers == old(globalHandlers) && state == old(state) && mode == old(mode)
      {
        assert hs[..k + 1][..k] == hs[..k];
        RunHandler(hs[k].action, ev);
      }
      assert hs[..|hs|] == hs;
      AttachedShape(map[], dropdowns, old(dropdowns), mode);
    }
  }
}
