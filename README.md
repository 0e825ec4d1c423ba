# Navigation and page behaviour of a multi-page marketing site, in Dafny

The site's browser scripts come in three generations: `main-new.js`, `app.js` and `main.js`. Alongside them is the bundler configuration, `vite.config.js`. This project models what those scripts do to the page, and proves properties of that model.

**main-new.js**
- The centre is the dropdown controller `initDropdowns`. It keeps a registry of the listeners it has attached: document listeners, plus per-dropdown lists in a `WeakMap`.
- At a width of at most 968 pixels it wires tap listeners (mobile mode); above that it wires pointer and focus listeners (desktop mode).
- A settled resize always tears everything down and re-attaches the listeners of the new mode.
- The registry is modelled as a class (`MainNewDropdowns.Controller`) with a `seq` of dropdowns, a `seq` of document listeners and a `map` from dropdown index to its listener list.
- The browser's dispatch is modelled as well: the listeners on the event's path run in registration order. This lets the proofs say what an event does after a fresh attach in either mode.
- The file's hamburger menu and plus-sign FAQ are in `MainNewWidgets`.

**app.js and main.js**
- Each has a mobile nav with its closing listeners and a set of dropdowns: `AppScript` at 992 pixels and `MainScript` at 968 pixels.
- Behaviour the two files share is modelled once:
  - the header's hide-on-scroll (`HeaderScroll`). The rules of one frame are the same, but which offset a frame sees differs. app.js hands the frame the offset read by the scroll event that scheduled it and drops later events until the frame runs (`OnScrollEvent`, `OnFrame`). main.js reads the offset when the frame runs (`OnScrollEventDeferred`, then `OnScroll`). So after a scroll to 95 and then to 105 within one frame, app.js leaves the header without `scrolled` and main.js adds it. Only app.js has the `load` listener (`OnLoad`);
  - the accessible FAQ accordion (`FaqAccordion`), which differs only in the panels' `maxHeight`;
  - the active-link file name and the date input's minimum (`PageText`).
- The string helpers these need are in `Text`: `split(...).pop()`, `String(n)` and `padStart`.

**vite.config.js**
- `ViteConfig` models the output naming rules. The image-extension regular expression is given a reference meaning: unanchored and case-insensitive containment of one of its words.

Code that updates page state step by step is modelled as classes whose methods state their new state as a pure function of the old one. The properties are proved about those functions.

Two facts about the main-new.js dropdowns are worth noting:
- **Second tap.** In the older scripts a second tap on an open dropdown closes it: app.js:104 toggles `open`, and main.js:41-43 toggles `active`. In main-new.js a tap on an open dropdown leaves it open; see Finding 1.
- **At most one open.** In mobile mode every event keeps at most one dropdown open when at most one was open before (`MobileKeepsAtMostOne`, with the corrected tap; `AsWrittenKeepsAtMostOne` for the tap as written). Markup that already holds two `.dropdown.active` keeps both until a tap, an outside click or Escape closes them. In desktop mode focus and pointer can leave two open (`DesktopMayOpenTwo`).

## Model

| member | source | states |
|---|---|---|
| Text.Split | app.js:159 | `split` on one separator: the fields joined with the separator give back the string, and no field contains the separator |
| Text.SplitUnique | vite.config.js:35 | any separator-free list of fields that joins to `s` is exactly `Split(s)`: the split is the unique cut |
| Text.LastField | vite.config.js:35-36 | `split(sep).pop()`: a separator-free suffix of the input, preceded by a separator unless it is the whole input; the whole input when there is no separator |
| Text.DigitChar | app.js:276 | the character of a decimal digit is '0'..'9' and encodes that digit |
| Text.NatToString | app.js:276 | `String(n)` for 0 ≤ n < 10^21: non-empty digits, no leading zero except for 0, one digit exactly below 10, two digits for 10..99 |
| Text.NatToStringRoundTrip | app.js:276 | reading the digits of `String(n)` back gives n |
| Text.IntToString | app.js:275-278 | `String(i)` for \|i\| < 10^21: non-empty, it starts with '-' exactly for negative i, and the digits after the sign read back as \|i\| and have no leading zero unless i is 0 |
| Text.PadStart | app.js:276-277 | `padStart(len, fill)`: length is max(len, \|s\|), the original string is the suffix, every added character is the fill |
| Text.ZeroPadValue | app.js:276-277 | padding digits with '0' keeps them digits and keeps their numeric value |
| PageText.CurrentFileName | app.js:158-159 | the file name is non-empty and '/'-free; the text after the last '/' of the path, or "index.html" for an empty path or one ending in '/' |
| PageText.HighlightActiveLink | app.js:157-165 | every link whose href equals the current file name gains `active`; no link loses it; hrefs are unchanged |
| PageText.MarkMatching | app.js:160-164 | the loop over the links: each link's `active` becomes old `active` or href matches; nothing else in the array changes |
| PageText.TwoDigits | app.js:276-277 | a number below 100 becomes exactly two digits that read back as the number |
| PageText.DateMin | app.js:271-280 | `yyyy-mm-dd`: the year as `String` prints it, then two dashes at fixed places, then two-digit month (one-based) and day that read back as the calendar month and the day |
| HeaderScroll.Step | app.js:235-248 | one frame: remembered offset never negative; header hidden only when moving down past the threshold; hidden implies `scrolled` |
| HeaderScroll.RunDependsOnLastTwo | app.js:235-248 | after two or more frames the header state is determined by the last two offsets alone |
| HeaderScroll.PauseReveals | app.js:236-240 | a frame at the same offset as the previous one shows the header again |
| HeaderScroll.HeaderBehavior.constructor | app.js:231-233 | the remembered offset starts at 0 and no frame is pending; the header's transform and `scrolled` class are those of the markup until the first frame |
| HeaderScroll.HeaderBehavior.OnScroll | app.js:235-248 | the new header state is `Step` of the old: hidden iff moving down past 100, `scrolled` iff past 100, offset clamped at 0; no frame is pending afterwards |
| HeaderScroll.HeaderBehavior.OnLoad | app.js:262-265 | a page loaded past the threshold gains `scrolled`; the class is never removed there; the rest is unchanged |
| HeaderScroll.HeaderBehavior.OnScrollEvent | app.js:250-259 | the app.js scroll listener changes no header state; it leaves a frame pending, and the offset that frame will see is the one read by the first event since the last frame |
| HeaderScroll.HeaderBehavior.OnFrame | app.js:255 | the app.js frame applies `Step` to the queued offset and clears the pending frame |
| HeaderScroll.HeaderBehavior.OnScrollEventDeferred | main.js:198-207 | the main.js scroll listener changes no header state and leaves a frame pending, which reads the offset when it runs |
| FaqAccordion.AfterClick | app.js:305-325 | a click on a wired item leaves it the only open one if it was closed, and none open if it was open; every button and panel mirrors its item; unwired items have no listener |
| FaqAccordion.SecondClickCloses | app.js:305-325 | clicking a closed item twice leaves no item open |
| FaqAccordion.OnlyClickedCanBeOpen | app.js:308-324 | after a click only the clicked item can be open, whatever was open before |
| FaqAccordion.Accordion.constructor | app.js:289-303 | set-up: each wired item's button says collapsed and its panel hidden; unwired items are untouched |
| FaqAccordion.Accordion.Click | app.js:305-325 | the click listener's loop computes `AfterClick` |
| ViteConfig.RegexTest | vite.config.js:37 | `.test` searching from position `from` succeeds only if an image word starts at or after `from`, ignoring case |
| ViteConfig.RegexTestMeans | vite.config.js:37 | the left-to-right search of `/png\|jpe?g\|svg\|gif\|tiff\|bmp\|ico/i` succeeds iff an image word occurs anywhere in the text, ignoring case |
| ViteConfig.AssetFileNames | vite.config.js:34-41 | an asset goes to `assets/images/` iff its last '.'-field contains an image word, and otherwise to `assets/`; it lies under `assets/` either way |
| ViteConfig.ScriptTemplates | vite.config.js:42-43 | chunk and entry scripts share one template under `assets/` ending in `.js` |
| ViteConfig.ExtensionOfTwoParts | vite.config.js:35-36 | for `base.ext` with no other dot, the tested text is `ext` |
| ViteConfig.UnanchoredMatch | vite.config.js:37-38 | `logo.SVGZ` is routed to images: the match is unanchored and case-insensitive |
| ViteConfig.WholeNameAsExtension | vite.config.js:35-38 | a name without '.' is tested whole: `png` is routed to images |
| ViteConfig.ShortTiffIsNotAnImage | vite.config.js:37-40 | `scan.tif` is routed to `assets/` (only `tiff` is a word) |
| ViteConfig.WebpIsNotAnImage | vite.config.js:37-40 | `hero.webp` is routed to `assets/` |
| MainNewDropdowns.CloseAll | main-new.js:71-75 | every dropdown other than `except` ends closed with its trigger mirroring; `except` is untouched; the open set afterwards is at most `except` |
| MainNewDropdowns.TapOnOpenKeepsItOpen | main-new.js:119-124 | as written, a tap on an open dropdown leaves it open and unchanged, and it is the only one open |
| MainNewDropdowns.AsWrittenKeepsAtMostOne | main-new.js:119-124 | as written, a tap always leaves exactly the tapped dropdown open, so it keeps "at most one open" |
| MainNewDropdowns.TapAsWritten | main-new.js:119-124 | the tap as written: every other dropdown ends closed with its trigger mirroring; the tapped one ends open, unchanged if it was open and mirroring if it was not; structure and `aria-haspopup` are kept |
| MainNewDropdowns.Tap | main-new.js:119-124 | corrected tap: an open dropdown ends with none open, a closed one ends the only one open; triggers mirror; `aria-haspopup` is kept; at most one open |
| MainNewDropdowns.Run | main-new.js:119-172 | running any one listener never changes the element structure |
| MainNewDropdowns.EnterOpensOnlyItself | main-new.js:149-153 | desktop enter or focus adds exactly that dropdown to the open set and touches no other (focus has the same effect as enter) |
| MainNewDropdowns.LeaveClosesOnlyItself | main-new.js:150-156 | desktop leave or blur removes exactly that dropdown when the pointer or focus went outside it, and does nothing when it stayed inside; leave and blur agree |
| MainNewDropdowns.Matching | main-new.js:81-90 | the invoked listeners are exactly the registered ones of the event's type on its path |
| MainNewDropdowns.Fire | main-new.js:81-90 | running the invoked listeners one after the other never changes the element structure |
| MainNewDropdowns.LocalHandlers | main-new.js:110-161 | one listener per wired dropdown in mobile mode, four in desktop mode |
| MainNewDropdowns.Prepare | main-new.js:116-147 | the attach loop's ARIA set-up: every wired trigger gets `aria-haspopup`, and `aria-expanded` says the dropdown's state (mobile) or "false" (desktop); `active`, the element structure and unwired dropdowns are untouched |
| MainNewDropdowns.AttachedHolds | main-new.js:85-90 | after the attach loop, dropdown i's list is its old list followed by the mode's listeners exactly when i is wired; it has an entry iff it had one or is wired |
| MainNewDropdowns.AttachedShape | main-new.js:182-190 | the registry depends only on the element structure, not on which dropdowns are open |
| MainNewDropdowns.FreshGet | main-new.js:110-126 | a registry built from nothing holds the mode's listeners for wired dropdowns and none for others |
| MainNewDropdowns.FreshRegistrySize | main-new.js:182-190 | a fresh registry holds one listener per wired dropdown in mobile mode and four in desktop mode |
| MainNewDropdowns.FreshListeners | main-new.js:110-174 | after a fresh attach, an event invokes its dropdown's mode listeners of its type, then the document listeners of its type |
| MainNewDropdowns.GlobalMatching | main-new.js:129-137 | a click invokes only the outside-click listener, a keydown only the Escape listener, other events no document listener |
| MainNewDropdowns.DocumentListenerOnly | main-new.js:129-137 | a click outside every dropdown, or any keydown, invokes only document listeners |
| MainNewDropdowns.MobileIgnoresHoverAndFocus | main-new.js:110-138 | after a fresh mobile attach, pointer and focus events invoke no listener, whatever was attached before |
| MainNewDropdowns.DesktopIgnoresTaps | main-new.js:140-168 | after a fresh desktop attach, a tap on a trigger changes nothing: the mobile toggle is gone |
| MainNewDropdowns.OutsideClickClosesAll | main-new.js:129-132 | in either mode, a click outside every dropdown leaves none open |
| MainNewDropdowns.EscapeClosesAll | main-new.js:135-137 | in either mode, Escape leaves no dropdown open, wherever the focus is |
| MainNewDropdowns.RunKeepsAtMostOne | main-new.js:119-137 | every listener except the desktop openers preserves "at most one open" |
| MainNewDropdowns.FireKeepsAtMostOne | main-new.js:119-137 | any sequence of such listeners preserves "at most one open" |
| MainNewDropdowns.MobileKeepsAtMostOne | main-new.js:110-138 | in mobile mode every event preserves "at most one open" |
| MainNewDropdowns.DesktopOpener | main-new.js:149-160 | pointing or focusing into a wired dropdown in desktop mode invokes exactly its opener |
| MainNewDropdowns.DesktopEnterOpens | main-new.js:149-160 | in desktop mode entering or focusing a wired dropdown opens it and changes nothing else |
| MainNewDropdowns.PointerWithinInvokesNothing | main-new.js:149-159 | in desktop mode a pointer move that stays inside a dropdown (onto its trigger, say) invokes no listener: `mouseenter` and `mouseleave` fire only at its boundary |
| MainNewDropdowns.ResizeLeavesNoneOpen | main-new.js:182-190 | after a settled resize no dropdown is open and every trigger agrees with its dropdown, in either mode |
| MainNewDropdowns.DesktopMayOpenTwo | main-new.js:149-161 | in desktop mode focus on one and pointer on another leave both open: "at most one open" fails |
| MainNewDropdowns.Controller.constructor | main-new.js:176-178 | no dropdowns: nothing is attached; otherwise the prepared dropdowns and the fresh registry of the width's mode, plus the two document listeners, so the listeners are exactly those of one mode |
| MainNewDropdowns.Controller.OpenDropdown | main-new.js:61-65 | `open(dd)`: that dropdown becomes `Open` of itself; the rest of the state is unchanged |
| MainNewDropdowns.Controller.CloseDropdown | main-new.js:66-70 | `close(dd)`: that dropdown becomes `Close` of itself; the rest of the state is unchanged |
| MainNewDropdowns.Controller.CloseAllExcept | main-new.js:71-75 | the loop computes `CloseAll`; the registry is unchanged |
| MainNewDropdowns.Controller.AddHandler | main-new.js:81-84 | appends the listener to the document list and nothing else |
| MainNewDropdowns.Controller.AddLocalHandler | main-new.js:85-90 | appends the listener to dropdown i's list (created when missing) and nothing else |
| MainNewDropdowns.Controller.Cleanup | main-new.js:92-108 | empties both registries and closes every dropdown |
| MainNewDropdowns.Controller.AttachMobile | main-new.js:110-138 | prepares every wired trigger, registers its tap listener, then the two document listeners |
| MainNewDropdowns.Controller.AttachDesktop | main-new.js:140-174 | prepares every wired trigger, registers its four desktop listeners, then the two document listeners |
| MainNewDropdowns.Controller.AddDesktopHandlers | main-new.js:158-161 | appends the four desktop listeners to dropdown i's list |
| MainNewDropdowns.Controller.Resize | main-new.js:182-190 | after a settled resize every dropdown is closed and prepared for the new mode; the registry is the fresh one for that mode, whatever was attached before; total listeners 2 + (1 or 4) × wired dropdowns, so resizes never pile listeners up; no dropdown is left open and every trigger agrees with its dropdown |
| MainNewDropdowns.Controller.OnTap | main-new.js:119-124 | the corrected tap listener computes `Tap` |
| MainNewDropdowns.Controller.RunHandler | main-new.js:119-172 | each listener closure computes `Run` and leaves the registry alone |
| MainNewDropdowns.Controller.Dispatch | main-new.js:81-90 | delivering an event runs the invoked listeners in registration order: the dropdowns become `Fire` of them; the registry is unchanged and still that of one mode |
| MainNewWidgets.MenuState | main-new.js:22-33 | `openMenu`/`closeMenu` leave toggle class, menu class, `aria-expanded` and scroll lock in agreement |
| MainNewWidgets.ToggleClick | main-new.js:35-38 | the toggle's listener opens the menu iff the toggle was not active; everything ends in agreement |
| MainNewWidgets.DocumentClick | main-new.js:41-45 | a click outside both toggle and menu closes the menu; any other click leaves it |
| MainNewWidgets.MenuKeyDown | main-new.js:48-50 | Escape closes the menu; other keys change nothing |
| MainNewWidgets.MenuClick | main-new.js:35-45 | a click on the toggle flips the menu; one elsewhere closes it; one inside the menu changes nothing; agreement is preserved, so the scroll is locked exactly while the menu is open |
| MainNewWidgets.MobileMenu.constructor | main-new.js:17-20 | listeners exist only when both toggle and menu exist; the markup state is kept |
| MainNewWidgets.MobileMenu.OpenMenu | main-new.js:22-27 | the menu state becomes open in all four attributes |
| MainNewWidgets.MobileMenu.CloseMenu | main-new.js:28-33 | the menu state becomes closed in all four attributes |
| MainNewWidgets.MobileMenu.Click | main-new.js:35-45 | a click computes `MenuClick` when wired and changes nothing otherwise |
| MainNewWidgets.MobileMenu.KeyDown | main-new.js:48-50 | a keydown computes `MenuKeyDown` when wired and changes nothing otherwise |
| MainNewWidgets.SetActive | main-new.js:237-243 | the item takes the given state and its sign, if any, says so |
| MainNewWidgets.FaqClick | main-new.js:221-244 | the clicked item toggles and is the only one that can be open; closed siblings are untouched; every sign that mirrored its item still does, and the clicked item's sign mirrors it; every open sibling is closed with '+' in its sign; no sign element is added or removed; a button outside any item does nothing |
| MainNewWidgets.FaqSecondClickCloses | main-new.js:225-243 | clicking a closed item twice leaves no item open |
| MainNewWidgets.Faq.constructor | main-new.js:216-220 | the items are those of the page |
| MainNewWidgets.Faq.OnButtonClick | main-new.js:221-244 | the click listener's loop computes `FaqClick` |
| AppScript.ToggleClick | app.js:16-19 | the toggle flips the menu and `aria-expanded` says the new state |
| AppScript.LinkClose | app.js:38-51 | a menu link closes the menu at width ≤ 992 and does nothing above |
| AppScript.OutsideClick | app.js:54-62 | a click closes the menu exactly when width ≤ 992, the menu is open and the click is outside menu and toggle |
| AppScript.NavEscape | app.js:65-70 | Escape closes an open menu; otherwise nothing changes |
| AppScript.Prepared | app.js:80-88 | set-up: every wired trigger gets `aria-haspopup` and collapsed `aria-expanded`; no dropdown's `open` class changes; unwired dropdowns are untouched |
| AppScript.Tap | app.js:90-106 | at width ≤ 992 a tap on a wired trigger leaves that dropdown the only open one if it was closed and none open otherwise, all triggers mirroring and `aria-haspopup` kept; above 992 nothing changes |
| AppScript.TrailingToggle | app.js:336-340 | at width ≤ 992 the file-level listener flips only that dropdown's `open` class |
| AppScript.ResizeClear | app.js:110-117 | above 992 a resize leaves nothing open and collapses the triggers of the dropdowns it closed; closed ones are untouched; `aria-haspopup` is kept |
| AppScript.ClickAsWritten | app.js:336-340 | a click as app.js delivers it, with the file-level toggle (app.js:336-340) before the nav listeners (app.js:16-51) and the tap listener (app.js:90-106): only a trigger click touches the dropdowns; without a wired nav, or inside the menu, the nav is untouched; above 992 a trigger click changes nothing |
| AppScript.Click | app.js:90-106 | the corrected click: a trigger click runs only the tap listener and leaves the nav alone, and changes nothing above 992 or on an unwired dropdown; every other click is as written |
| AppScript.DoubleToggleKeepsState | app.js:336-340 | as written, a tap on a wired trigger at mobile width never changes whether the dropdown is open |
| AppScript.TriggerTapClosesMenu | app.js:37-51 | as written, a tap on a dropdown trigger at mobile width closes the whole nav menu |
| AppScript.TapTogglesOnlyThatDropdown | app.js:90-106 | as intended, a tap toggles that dropdown alone, leaves the nav as it was and keeps triggers mirroring; a second tap closes it |
| AppScript.NavClosing | app.js:54-70 | an open menu closes on an outside click iff width ≤ 992; a click inside changes nothing; Escape and the toggle close it |
| AppScript.ResizeAfterTap | app.js:109-117 | leaving mobile width after any tap leaves nothing open |
| AppScript.AppPage.constructor | app.js:11-88 | set-up: collapsed toggle when the nav is wired, and every dropdown `Prepared` |
| AppScript.AppPage.OnNavToggle | app.js:16-19 | the toggle listener computes `ToggleClick`; dropdowns are unchanged |
| AppScript.AppPage.OnMenuLink | app.js:38-51 | the link listener computes `LinkClose` |
| AppScript.AppPage.OnDocumentClick | app.js:54-62 | the document click listener computes `OutsideClick` |
| AppScript.AppPage.OnKeyDown | app.js:65-70 | the keydown listener computes `NavEscape` |
| AppScript.AppPage.OnTap | app.js:90-106 | the tap listener's loop computes `Tap`; the nav is unchanged |
| AppScript.AppPage.OnResize | app.js:110-117 | the resize listener's loop computes `ResizeClear` |
| AppScript.AppPage.OnClick | app.js:16-106 | a click at any target produces the corrected `Click` |
| MainScript.Closed | main.js:62-65 | the closed nav: all four attributes agree and the menu is closed |
| MainScript.ToggleClick | main.js:10-15 | the toggle flips the menu, and the toggle class, `aria-expanded` and scroll lock follow it |
| MainScript.LinkClose | main.js:59-68 | a non-dropdown menu link closes the nav at width ≤ 968 and does nothing above |
| MainScript.OutsideClick | main.js:71-79 | a click closes the nav exactly when width ≤ 968, the menu is open and the click is outside menu and toggle |
| MainScript.NavStaysSynced | main.js:10-79 | every nav listener preserves agreement of the four attributes; two toggles restore the state |
| MainScript.Tap | main.js:28-44 | at width ≤ 968 a tap on a wired trigger leaves that dropdown the only active one if it was inactive and none otherwise; its trigger says the new state; siblings only lose `active`; no trigger or submenu is added or removed; above 968 nothing changes |
| MainScript.StaleSiblingAria | main.js:34-43 | a sibling closed by a tap keeps `aria-expanded` "true" |
| MainScript.TapLeavesAtMostOne | main.js:28-44 | after a tap only the tapped dropdown can be active |
| MainScript.Hover | main.js:47-55 | hover listeners exist only when the page loaded above 968; entering sets the trigger's `aria-expanded`, leaving clears it; classes are never touched |
| MainScript.MainPage.constructor | main.js:8-25 | the nav is wired iff toggle and menu exist, and then its toggle starts collapsed; the load width is remembered |
| MainScript.MainPage.OnNavToggle | main.js:10-15 | the toggle listener computes `ToggleClick` |
| MainScript.MainPage.CloseNav | main.js:62-65 | the four closing assignments give `Closed()` |
| MainScript.MainPage.OnMenuLink | main.js:59-68 | the link listener computes `LinkClose` |
| MainScript.MainPage.OnDocumentClick | main.js:71-79 | the document click listener computes `OutsideClick` |
| MainScript.MainPage.OnTap | main.js:28-44 | the tap listener's loop computes `Tap` |
| MainScript.MainPage.OnHover | main.js:48-55 | the hover listeners compute `Hover` |

## Left out

- The following are not modelled, because none of it changes the navigation, dropdown or FAQ state:
  - the scroll-triggered fade-in animations (IntersectionObserver);
  - the smooth scroll to anchors and the contact-form success panel;
  - `initPerf`;
  - the burger `span` transforms of app.js;
  - the FAQ panels' `maxHeight` and the FAQ resize listener of app.js.
- These set-up attributes are not modelled, because no listener reads them: `aria-controls`, `role`, `type`, panel ids, and the nav menu id of app.js.
- Frame and timer scheduling is not modelled:
  - when a frame runs relative to scroll events: a scheduled frame is one atomic step (`OnFrame`, `OnScroll`) that the caller runs whenever a frame is pending;
  - the 200 ms debounce of the main-new resize listener: only the settled resize is modelled.
- Browser inputs are parameters rather than reads:
  - the clock and the `Date` calendar fields: `DateMin` takes year, month index and day;
  - `location.pathname`;
  - `window.innerWidth` and `matchMedia`: the width is passed in;
  - `window.pageYOffset` (with app.js's fallback to `document.documentElement.scrollTop`), as a `real`, because it is fractional on zoomed pages.
- DOM targets are abstracted. A click lands on the toggle, in the menu, on a trigger or elsewhere; an event target is inside dropdown i or outside every dropdown. Nested dropdowns are not modelled. A `mouseenter` or `mouseleave` is one pointer move: `target` is the side inside the dropdown and `related` the other side, and the dropdown receives it only when the move crosses its boundary.
- Link navigation and `preventDefault` are not modelled. The mobile taps suppress navigation (main-new.js:120, app.js:92, main.js:30). At desktop width the app.js and main.js trigger listeners let the link navigate (app.js:91).
- Finding 2 assumes that app.js is loaded after the nav markup, at the end of the body. Finding 3 does not depend on it, because its `.nav-menu a` query runs on `DOMContentLoaded`. The query at app.js:336 runs when the script is evaluated, not on `DOMContentLoaded`. If it ran earlier it would find no triggers, the file-level listener would not exist, and Finding 2 would not arise.
- The rest of vite.config.js (minifier options, entry pages, dev server port) is not modelled; it is static data with no behaviour.
- MainScript.MainPage.OnDocumentClick: requires a wired nav. In main.js the outside-click listener exists even without the menu, and it then throws at mobile width when it reads the missing menu; the exception is not modelled. With the menu present but no toggle, an outside click at mobile width on an open menu removes the menu's `active` class (main.js:74) before it throws on the missing toggle (main.js:75); that case is not modelled either.
- MainScript.MainPage.OnMenuLink: requires a wired nav. In main.js the listener does nothing without toggle and menu.
- MainNewDropdowns.Controller.Resize: requires at least one dropdown, because the resize listener is only registered on a page that has dropdowns.
- MainNewWidgets.FaqClick: assumes that the `.faq-plus` inside the clicked button is the `.faq-plus` of its item, as in the page markup. A button without one is not distinguished from an item without one.
- MainNewDropdowns.Controller.OnTap: models the corrected tap (Finding 1). The listener as written is `TapAsWritten`, with the lemmas `TapOnOpenKeepsItOpen` and `AsWrittenKeepsAtMostOne`.
- MainNewDropdowns.Run: its `ToggleOnTap` case is the corrected `Tap` of Finding 1, not the listener as written (`TapAsWritten`).
- MainNewDropdowns.Controller.RunHandler: runs the corrected tap through `OnTap`, as `Run` does.
- MainNewDropdowns.Controller.Dispatch: fires the listeners with the corrected tap, as `Run` does.
- MainNewDropdowns.RunKeepsAtMostOne: proved for the corrected tap. The tap as written keeps "at most one open" as well (`AsWrittenKeepsAtMostOne`), but the lemma is not restated over it.
- MainNewDropdowns.FireKeepsAtMostOne: lifts `RunKeepsAtMostOne`, so it is about the corrected tap.
- MainNewDropdowns.MobileKeepsAtMostOne: proved for mobile dispatch with the corrected tap. For the tap as written, see `AsWrittenKeepsAtMostOne`.
- AppScript.AppPage.OnClick: models the corrected click (Findings 2 and 3). The click as written is `ClickAsWritten`, with its own lemmas.

## Findings

| source | as written | input that shows it | evidently intended | confidence | as-written member | corrected member |
|---|---|---|---|---|---|---|
| main-new.js:119-124 | `closeAll(dd)` spares the tapped dropdown and only a closed one is then opened, so a tap on an open dropdown leaves it open | mobile width, dropdown 0 open, tap its trigger: it stays open | a second tap on an open dropdown closes it | not executed | MainNewDropdowns.TapOnOpenKeepsItOpen | MainNewDropdowns.Tap |
| app.js:336-340 | the file-level tap listener flips `open` and the dropdown's own listener (app.js:90-106) reads the flipped class and flips it back | width 500, a closed wired dropdown, tap its trigger: it stays closed | one tap toggles the dropdown once | not executed | AppScript.DoubleToggleKeepsState | AppScript.TapTogglesOnlyThatDropdown |
| app.js:37-51 | `.nav-menu a` also matches dropdown triggers, so a tap on a trigger at mobile width closes the nav menu that holds the dropdown | width 500, nav menu open, tap a dropdown trigger: the menu closes | triggers are excluded, as main.js:59 does with `:not(.dropdown > a)` | not executed | AppScript.TriggerTapClosesMenu | AppScript.TapTogglesOnlyThatDropdown |
