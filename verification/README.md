# Navigation menus of the aether themes, modelled in Dafny

The repository ships two theme scripts. Each one wires the navigation menu of a
theme to browser events.

- The **default theme** (`default/assets/js/main.js`) does five things. It marks
  the navigation links that match the current path as `active`. It adds a
  `.menu-toggle` button that opens and closes the whole navigation. On mobile
  (width at most 768 px, or a touch device), it adds a `.submenu-toggle` button
  ("+"/"-") to every `.menu-item-has-children` item. Each of those buttons opens
  and closes its own item independently. An outside-click reconciler and a
  resize reconciler put the items back into a closed state. Finally, links that
  only open a submenu ("parent links") are classified, normalised and kept in
  step with their item through `aria-expanded`.
- The **pure theme** (`pure/assets/js/main.js`) toggles `active` on `#menu` and
  `#menuToggle` together. Its submenu parents are mutually exclusive: opening
  one closes every other, at any depth. After a click on a plain menu link, that
  link is the only `active` one. It saves and restores a dark-mode preference in
  local storage. It also reacts to Escape, to resizes and to the width at start.

Module `Dom` (`dom.dfy`) holds the conventions both scripts share: the strings
"true"/"false" that booleans become in attributes and in storage, and the
768 px breakpoint. Modules `DefaultTheme` (`default_theme.dfy`) and
`PureTheme` (`pure_theme.dfy`) model one script each.

Each module replaces the DOM with a class `Page`. Its fields hold the classes and
attributes the script reads and writes. Each menu item is a datatype value in a
sequence field. Every event handler is a method of `Page`, and the `forEach`
passes are `while` loops. Each handler that updates the item or link
sequences is proved equal to a function on that sequence. The lemmas next to
those functions state what the script promises: which flags flip, which
attributes hold which strings, and which items stay untouched. Handlers that
change only single flags, such as the menu buttons, the theme switch, resize and
Escape, state their new fields directly in their `ensures`.

The window width, whether a click landed inside the navigation, the key pressed
and the new state of the theme switch are parameters of the handlers. The
default theme's touch detection is a parameter of `DefaultTheme.Page`'s
constructor. Local storage is a `map<string, string>` field.

The default theme's own comment (`default/assets/js/main.js:66-67`) says
submenus toggle on click on mobile and touch devices. Toggle creation (line 77)
and the outside-click handler (line 116) both test "width at most 768 px or a
touch device". The resize handler (line 141) tests the width alone. So on a
touch device the first resize event above 768 px removes every toggle, and no
toggle comes back while the window stays that wide.
`DefaultTheme.TouchDeviceLosesToggles` shows this.

The two themes put the breakpoint on different sides of 768 px. The default
theme treats 768 px as mobile (`<= 768`). The pure theme treats it as desktop:
a plain-link click toggles the menu only below 768 px, while the resize and
start-up checks use `>= 768`. Within the pure theme these two tests are exact
complements.

In the pure theme, `#menu` and `#menuToggle` need not agree. At start-up at
desktop width, only the menu gets `active`, and a resize clears `active` only on
the toggle. `ToggleMenu` flips both, so whether they agree or disagree, it
stays that way.

## Model

| member | source | states |
|---|---|---|
| `Dom.BoolText` | pure/assets/js/main.js:41-43 | a boolean written into an attribute or storage reads "true" or "false", and it reads back as `=== "true"` exactly when the boolean was true |
| `DefaultTheme.ActiveLinkRule` | default/assets/js/main.js:14-27 | a link with a missing or empty href, or with `data-parent="true"`, is never marked active; "/" is marked iff the path is exactly "/"; any other href is marked iff the path starts with it |
| `DefaultTheme.MarkActiveOnlyAdds` | default/assets/js/main.js:13-28 | the active-link pass keeps every link's attributes, never removes `active`, and adds it exactly where the rule says |
| `DefaultTheme.Page.MarkActiveLinks` | default/assets/js/main.js:13-28 | the loop over the navigation links leaves them as the active-link pass prescribes |
| `DefaultTheme.ParentLinkNeverActive` | default/assets/js/main.js:17-25 | a link the parent-link pass treats as a parent link (`data-parent="true"`, no href, empty href or "#") is never marked active for a path beginning with "/" |
| `DefaultTheme.Page.SetupMobileMenu` | default/assets/js/main.js:43-53 | when the page has a `.site-navigation`, a menu button is created with `aria-expanded="false"`; otherwise nothing happens |
| `DefaultTheme.Page.OnMenuButtonClick` | default/assets/js/main.js:56-60 | the menu button flips `aria-expanded` and the nav's `toggled` class together, so if they agreed before they still agree |
| `DefaultTheme.ClickToggleFlips` | default/assets/js/main.js:96-106 | a toggle click sets the toggle to the "true"/"-" or "false"/"+" pair for the negation of its own `aria-expanded` reading, so it flips `aria-expanded`, shows "-" exactly when it now reads "true", flips `submenu-open`, and flips `submenu-active` only when the item has a sub-menu; of the link, only a mirrored `aria-expanded` changes, to the new state's text |
| `DefaultTheme.ClickToggleKeepsSynced` | default/assets/js/main.js:96-106 | if an item's toggle, sub-menu class and mirrored `aria-expanded` agree with its `submenu-open` class, they still agree after a click |
| `DefaultTheme.ClickToggleTwice` | default/assets/js/main.js:85-98 | two clicks restore the item exactly whenever its toggle reads "true"/"-" or "false"/"+" and a mirrored `aria-expanded` agrees with `submenu-open`; the toggle need not agree with the item, so this covers every item the script keeps in agreement and also an open item given a fresh "+" toggle |
| `DefaultTheme.ToggleClickIsLocal` | default/assets/js/main.js:101-106 | a toggle click opens or closes its own item and leaves every other item unchanged; there is no mutual exclusion |
| `DefaultTheme.Page.OnToggleClick` | default/assets/js/main.js:92-107 | the handler's new item sequence is the single-item toggle transition |
| `DefaultTheme.Page.ForEachItem` | default/assets/js/main.js:143-154 | one `forEach` pass applies its callback to every item in order and to nothing else |
| `DefaultTheme.Page.SetupSubmenuToggles` | default/assets/js/main.js:69-89 | on a touch device or at width at most 768 every item gets a new toggle; otherwise nothing changes |
| `DefaultTheme.ToggleCount` | default/assets/js/main.js:157 | the number of toggle buttons never exceeds the number of items |
| `DefaultTheme.ToggleCountZero` | default/assets/js/main.js:157 | the toggle count is zero exactly when no item has a toggle |
| `DefaultTheme.ToggleCountFull` | default/assets/js/main.js:77-89 | the toggle count equals the number of items exactly when every item has a toggle |
| `DefaultTheme.RebuildCreatesOneTogglePerItem` | default/assets/js/main.js:77-89 | creating toggles gives exactly one per item, each starting at `aria-expanded="false"` and "+", and changes nothing else in any item |
| `DefaultTheme.CollapseAllClosesEverything` | default/assets/js/main.js:120-134 | after the outside-click passes no item is open, no sub-menu is active, and every toggle reads "false"/"+"; no toggle is added or removed; of each link, only a mirrored `aria-expanded` of an open item changes, to "false"; agreement is kept; a second run changes nothing |
| `DefaultTheme.Page.OnDocumentClick` | default/assets/js/main.js:114-137 | in mobile mode (width at most 768 or touch) a click outside the navigation collapses every item; a click inside, or in desktop mode, changes nothing |
| `DefaultTheme.TearDownRemovesToggles` | default/assets/js/main.js:141-154 | above 768 every toggle is removed and no item is left open or sub-menu active; of each link, only a mirrored `aria-expanded` of an open item changes, to "false"; agreement is kept; a second run changes nothing |
| `DefaultTheme.Page.OnResize` | default/assets/js/main.js:140-161 | above 768 the items are torn down; at or below 768 the toggles are rebuilt exactly when none exist; otherwise nothing changes |
| `DefaultTheme.TouchDeviceLosesToggles` | default/assets/js/main.js:74-77 | on a touch device wider than 768 the page loads with one toggle per item and has none after a resize at that width |
| `DefaultTheme.ParentLinkNormalised` | default/assets/js/main.js:175-218 | a parent link ends with `data-parent="true"`, no "#" href, `role="button"`, `aria-haspopup="true"` and `aria-expanded="false"`, and a second pass changes nothing; only a "#" href is removed and any other href, such as "/services" on a `data-parent="true"` link, is kept; the rest of the item (`submenu-open`, `submenu-active`, its sub-menu and its toggle) is never changed, so toggles created before the pass survive; other links are untouched |
| `DefaultTheme.Page.HandleParentLinkPass` | default/assets/js/main.js:168-233 | the loop over the items' links applies the parent-link classification and normalisation to each item |
| `DefaultTheme.ParentLinkClickIsLocal` | default/assets/js/main.js:192-210 | for any item, a parent-link click changes only its own item; on mobile it opens or closes the item through its toggle, or directly when there is no toggle but a sub-menu, changing none of the link's attributes except the mirrored `aria-expanded`, and adding or removing no toggle; on desktop, or for a link that was not normalised, the whole item sequence is unchanged |
| `DefaultTheme.ParentLinkClickKeepsSynced` | default/assets/js/main.js:192-210 | if the clicked item's toggle, sub-menu class and mirrored `aria-expanded` agree with its `submenu-open` class, they still agree after a parent-link click |
| `DefaultTheme.Page.OnParentLinkClick` | default/assets/js/main.js:192-210 | the link's click handler produces the parent-link click transition |
| `DefaultTheme.LoadedItemsSynced` | default/assets/js/main.js:216-231 | items that start closed agree with their toggles and mirrored `aria-expanded` once the page has loaded, on mobile and desktop alike |
| `DefaultTheme.Page.OnContentLoaded` | default/assets/js/main.js:8-38 | the ready handler marks the active links, creates the menu button, creates toggles in mobile mode, then runs the parent-link pass |
| `PureTheme.Page.ToggleMenu` | pure/assets/js/main.js:10-13 | `active` flips on the menu and on the menu toggle together, so doing it twice changes nothing and agreement between them is kept |
| `PureTheme.Page.OnMenuToggleClick` | pure/assets/js/main.js:16-19 | a click on the menu toggle flips both `active` classes |
| `PureTheme.SubmenuClickClosesOthers` | pure/assets/js/main.js:31-38 | after a submenu click every other item is closed; one that was open gets `aria-expanded="false"` and `aria-hidden="true"`, and one that was closed is untouched |
| `PureTheme.SubmenuClickTogglesClicked` | pure/assets/js/main.js:40-43 | the clicked item's `open` class is negated, its `aria-expanded` is the new state's text and its submenu's `aria-hidden` is the negation's text |
| `PureTheme.SubmenuClickExclusive` | pure/assets/js/main.js:31-43 | whatever the prior state, after a click at most one item is open: the clicked one if it was closed, none if it was open; attributes that matched their item still do |
| `PureTheme.SecondClickClosesAll` | pure/assets/js/main.js:23-44 | clicking the same closed parent twice leaves every submenu closed |
| `PureTheme.Page.OnSubmenuClick` | pure/assets/js/main.js:23-44 | the exclusion loop followed by the toggle of the clicked item yields the submenu click transition |
| `PureTheme.LinkClickLeavesExactlyOneActive` | pure/assets/js/main.js:59-63 | after a plain-link click exactly the clicked link is active among the plain links |
| `PureTheme.Page.OnLinkClick` | pure/assets/js/main.js:48-65 | the menu is toggled only below 768 and outside a submenu; then the links are as the exactly-one-active transition says |
| `PureTheme.SavedPreferenceRoundTrip` | pure/assets/js/main.js:72-77 | storing the switch state as "true"/"false" and reading it back with `=== "true"` gives the same state |
| `PureTheme.Page.OnThemeSwitchChange` | pure/assets/js/main.js:68-73 | the body's `dark-mode` class follows the switch, and the switch state is stored under "darkMode" as text |
| `PureTheme.Page.LoadSavedTheme` | pure/assets/js/main.js:75-80 | the switch and dark mode are turned on exactly when the stored value is "true"; otherwise they are left as they were |
| `PureTheme.ReloadKeepsPreference` | pure/assets/js/main.js:68-80 | saving the switch state on one page and loading a fresh page over the same storage restores that state |
| `PureTheme.Page.OnResize` | pure/assets/js/main.js:83-88 | a resize to 768 or wider clears `active` on the menu toggle only; the menu is untouched |
| `PureTheme.Page.OnKeyDown` | pure/assets/js/main.js:91-96 | Escape toggles the menu only when it is active, so afterwards the menu is never active; other keys change nothing |
| `PureTheme.Page.OnContentLoaded` | pure/assets/js/main.js:75-101 | start-up restores the saved theme and adds `active` to the menu at 768 or wider |

## Left out

- Querying the DOM, creating and inserting elements, `innerHTML` and registering
  listeners are left out. The menu items are a fixed sequence of values, and
  each handler is a method that the event calls directly.
- Re-running `setupSubmenuToggles` on a resize registers extra document-click
  and resize listeners. This is not modelled. The outside-click and teardown
  transitions are idempotent (`CollapseAllClosesEverything`,
  `TearDownRemovesToggles`), and a second rebuild finds toggles and does
  nothing, so extra listeners would not change the state.
- The `MutationObserver` that mirrors `submenu-open` into a parent link's
  `aria-expanded` runs asynchronously. It is modelled as a synchronous update
  applied wherever the item's class changes (`Mirror`).
- `window.innerWidth`, the click target's position and the key pressed are
  handler parameters. Touch detection is a constructor parameter, fixed for
  the life of the page.
- The markup is assumed to carry no `.submenu-toggle` button and no parent-link
  listener before the script runs. `DefaultTheme.Page`'s constructor accepts
  any item, but for an item that already has a toggle, `AddToggle` replaces
  it. The script would insert a second button (`default/assets/js/main.js:83-89`),
  and the count at line 157 would then exceed the number of items.
  `LoadedItemsSynced` states this assumption as its precondition.
- `navLinks` and the items' links are separate values, although one anchor can
  match both `.main-navigation a` (line 11) and
  `.site-navigation .menu-item-has-children > a` (line 171). Nothing is lost.
  The active-link pass runs once, before the parent-link pass (lines 13-37), so
  it reads the markup's own `href` and `data-parent`. The parent-link pass and
  the click handlers never read or write `active`.
- `localStorage` is a map field. Storage failures are not modelled.
- The `toggleBtn.click()` re-dispatch is modelled as a direct call of the toggle
  handler. Also not modelled: `preventDefault`, `stopPropagation`, the
  navigation a plain link triggers, and CSS hover menus.
- Bubbling to the document is not applied automatically. The default theme
  inserts its `.menu-toggle` button before `.site-navigation`
  (`default/assets/js/main.js:53`), so the button is outside the navigation.
  One real click on it is `OnMenuButtonClick` followed by
  `OnDocumentClick(width, false)`. In mobile mode that same click also
  collapses every submenu (lines 116-134). A caller of the model must make both
  calls.
- The default theme assumes each item has exactly one direct link and at most
  one direct `.sub-menu`. Other markup is not modelled.
- The pure theme assumes each `.has-submenu` item has a `.submenu` and a link.
  Without a `.submenu`, the script throws part way through its handler; that
  case is not modelled.
- The pure theme assumes `#menu`, `#menuToggle` and `#themeSwitch` exist, and
  the script uses all three without a null check
  (`pure/assets/js/main.js:11-12, 16, 68, 100`). `PureTheme.Page` always has
  them. If `#menuToggle` is missing, the ready handler throws at line 16, and
  no setup after it happens. If `#themeSwitch` is missing, it throws at line
  68. Lines 75-101 then never run: the saved theme is not loaded, no resize or
  Escape listener is registered, and the menu never gets `active` at desktop
  width. Neither failure is modelled.
- The default theme only sets the toggle and the parent link's
  `aria-expanded`. It never sets `aria-hidden`, so the model has no such
  attribute.
- The item-level fallback in `OnParentLinkClick` is not fully covered. It opens
  an item that has a sub-menu but no toggle, and a later rebuild then creates a
  "+" toggle on an open item. This only happens when the width drops to 768 or
  below with no resize event in between. `RebuildCreatesOneTogglePerItem`
  therefore claims agreement only for items that were closed.
  `ClickToggleTwice` and `ParentLinkClickIsLocal` do not require agreement, so
  they also cover such an item.
