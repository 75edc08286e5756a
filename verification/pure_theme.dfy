/**
 * The navigation and theme behaviour of the pure theme: the menu toggle, the
 * submenu parents (opening one closes every other), the plain menu links
 * (exactly one is active after a click), the dark-mode switch and its saved
 * preference, and the Escape key, resize and start-up width checks.
 *
 * The DOM is replaced by a `Page` object: each `.has-submenu` element is one
 * `SubmenuItem` value, each plain menu link one `MenuLink` value, and
 * `localStorage` a map from key to string.
 */
module PureTheme {
  import opened Dom

  /** The storage key of the dark-mode preference. */
  const DarkModeKey: string := "darkMode"

  // ------------------------------------------------------------------
  // Submenus
  // ------------------------------------------------------------------

  /**
   * A `.has-submenu` element: its `open` class, the `aria-expanded` attribute
   * of its link and the `aria-hidden` attribute of its `.submenu`.
   */
  datatype SubmenuItem = SubmenuItem(open: bool, linkExpanded: Option<string>, submenuHidden: Option<string>)

  /** The item's attributes describe its `open` class. */
  predicate AriaSynced(it: SubmenuItem)
  {
    it.linkExpanded == Some(BoolText(it.open)) && it.submenuHidden == Some(BoolText(!it.open))
  }

  /** No two items are open. */
  predicate AtMostOneOpen(items: seq<SubmenuItem>)
  {
    forall i, j :: 0 <= i < |items| && 0 <= j < |items| && items[i].open && items[j].open ==> i == j
  }

  /** The exclusion loop on an item other than the clicked one: an open item is closed. */
  function CloseOther(it: SubmenuItem): SubmenuItem
  {
    if it.open then SubmenuItem(false, Some("false"), Some("true")) else it
  }

  /** The clicked item: its `open` class toggles and both attributes follow the new state. */
  function ToggleClicked(it: SubmenuItem): SubmenuItem
  {
    var isOpen := !it.open;
    SubmenuItem(isOpen, Some(BoolText(isOpen)), Some(BoolText(!isOpen)))
  }

  /** A click on the link of item `k`. */
  function AfterSubmenuClick(items: seq<SubmenuItem>, k: nat): seq<SubmenuItem>
    requires k < |items|
  {
    seq(|items|, i requires 0 <= i < |items| => if i == k then ToggleClicked(items[i]) else CloseOther(items[i]))
  }

  /**
   * After a click on item `k`, every other item is closed: one that was open
   * now has `aria-expanded="false"` on its link and `aria-hidden="true"` on its
   * submenu, one that was closed is untouched.
   */
  lemma SubmenuClickClosesOthers(items: seq<SubmenuItem>, k: nat)
    requires k < |items|
    ensures |AfterSubmenuClick(items, k)| == |items|
    ensures forall i :: 0 <= i < |items| && i != k ==>
      !AfterSubmenuClick(items, k)[i].open &&
      (items[i].open ==> AfterSubmenuClick(items, k)[i] == SubmenuItem(false, Some("false"), Some("true"))) &&
      (!items[i].open ==> AfterSubmenuClick(items, k)[i] == items[i])
  {
  }

  /**
   * The clicked item's `open` class is negated, its link's `aria-expanded` is
   * the text of the new state and its submenu's `aria-hidden` the text of the
   * negation.
   */
  lemma SubmenuClickTogglesClicked(items: seq<SubmenuItem>, k: nat)
    requires k < |items|
    ensures AfterSubmenuClick(items, k)[k].open == !items[k].open
    ensures AfterSubmenuClick(items, k)[k].linkExpanded == Some(BoolText(!items[k].open))
    ensures AfterSubmenuClick(items, k)[k].submenuHidden == Some(BoolText(items[k].open))
  {
  }

  /**
   * Whatever the state before, after a click at most one item is open: the
   * clicked one when it was closed (last one wins), none when it was open.
   * Attributes that described their item's state still do, and the clicked
   * item's always do.
   */
  lemma SubmenuClickExclusive(items: seq<SubmenuItem>, k: nat)
    requires k < |items|
    ensures AtMostOneOpen(AfterSubmenuClick(items, k))
    ensures forall i :: 0 <= i < |items| ==> (AfterSubmenuClick(items, k)[i].open <==> i == k && !items[k].open)
    ensures AriaSynced(AfterSubmenuClick(items, k)[k])
    ensures forall i :: 0 <= i < |items| && AriaSynced(items[i]) ==> AriaSynced(AfterSubmenuClick(items, k)[i])
  {
  }

  /** Clicking a closed item twice leaves every item closed. */
  lemma SecondClickClosesAll(items: seq<SubmenuItem>, k: nat)
    requires k < |items| && !items[k].open
    ensures forall i :: 0 <= i < |items| ==> !AfterSubmenuClick(AfterSubmenuClick(items, k), k)[i].open
  {
  }

  // ------------------------------------------------------------------
  // Plain menu links
  // ------------------------------------------------------------------

  /** A link matched by `.menu-item a` that is not the link of a `.has-submenu` item. */
  datatype MenuLink = MenuLink(inSubmenu: bool, active: bool)

  /** A click on plain link `j` clears `active` on every plain link and sets it on `j`. */
  function AfterLinkClick(links: seq<MenuLink>, j: nat): seq<MenuLink>
    requires j < |links|
  {
    seq(|links|, i requires 0 <= i < |links| => links[i].(active := i == j))
  }

  /** Exactly the clicked link is active afterwards, and no link moves in or out of a submenu. */
  lemma LinkClickLeavesExactlyOneActive(links: seq<MenuLink>, j: nat)
    requires j < |links|
    ensures |AfterLinkClick(links, j)| == |links|
    ensures forall i :: 0 <= i < |links| ==>
      (AfterLinkClick(links, j)[i].active <==> i == j) && AfterLinkClick(links, j)[i].inSubmenu == links[i].inSubmenu
  {
  }

  /** Whether a click on a plain link toggles the menu: only below the breakpoint and outside a submenu. */
  predicate LinkClickTogglesMenu(link: MenuLink, width: int)
  {
    width < Breakpoint && !link.inSubmenu
  }

  // ------------------------------------------------------------------
  // Dark-mode preference
  // ------------------------------------------------------------------

  /** Whether the start-up check finds a saved preference for dark mode: only the exact text "true" counts. */
  predicate SavedDarkMode(storage: map<string, string>)
  {
    DarkModeKey in storage && IsTrueText(storage[DarkModeKey])
  }

  /** Saving the switch's state and reading it back gives that state, whatever else is stored. */
  lemma SavedPreferenceRoundTrip(storage: map<string, string>, checked: bool)
    ensures SavedDarkMode(storage[DarkModeKey := BoolText(checked)]) == checked
  {
  }

  // ------------------------------------------------------------------
  // The page
  // ------------------------------------------------------------------

  /**
   * The document as the script sees it: the `active` classes of `#menu` and
   * `#menuToggle`, the submenu items, the plain menu links, the `dark-mode`
   * class of the body, the `checked` state of `#themeSwitch`, and local storage.
   */
  class Page {
    var menuActive: bool
    var toggleActive: bool
    var submenus: seq<SubmenuItem>
    var links: seq<MenuLink>
    var darkMode: bool
    var switchChecked: bool
    var storage: map<string, string>

    /** The page as the markup and the browser's storage give it, before the script runs. */
    constructor (menuActive: bool, toggleActive: bool, submenus: seq<SubmenuItem>, links: seq<MenuLink>,
                 darkMode: bool, switchChecked: bool, storage: map<string, string>)
      ensures this.menuActive == menuActive && this.toggleActive == toggleActive
      ensures this.submenus == submenus && this.links == links
      ensures this.darkMode == darkMode && this.switchChecked == switchChecked && this.storage == storage
    {
      this.menuActive := menuActive;
      this.toggleActive := toggleActive;
      this.submenus := submenus;
      this.links := links;
      this.darkMode := darkMode;
      this.switchChecked := switchChecked;
      this.storage := storage;
    }

    /** Flips `active` on the menu and on the menu toggle together; doing it twice changes nothing. */
    method ToggleMenu()
      modifies this`menuActive, this`toggleActive
      ensures menuActive == !old(menuActive) && toggleActive == !old(toggleActive)
      ensures old(menuActive) == old(toggleActive) ==> menuActive == toggleActive
    {
      menuActive := !menuActive;
      toggleActive := !toggleActive;
    }

    /** A click on the menu toggle. */
    method OnMenuToggleClick()
      modifies this`menuActive, this`toggleActive
      ensures menuActive == !old(menuActive) && toggleActive == !old(toggleActive)
    {
      ToggleMenu();
    }

    /** A click on the link of submenu item `k`: every other open item is closed, then item `k` flips. */
    method OnSubmenuClick(k: nat)
      requires k < |submenus|
      modifies this`submenus
      ensures submenus == AfterSubmenuClick(old(submenus), k)
    {
      ghost var before := submenus;
      var i := 0;
      while i < |submenus|
        invariant 0 <= i <= |submenus| == |before|
        invariant forall j :: 0 <= j < i ==> submenus[j] == if j == k then before[j] else CloseOther(before[j])
        invariant forall j :: i <= j < |submenus| ==> submenus[j] == before[j]
      {
        if i != k && submenus[i].open {
          submenus := submenus[i := SubmenuItem(false, Some("false"), Some("true"))];
        }
        i := i + 1;
      }
      var isOpen := !submenus[k].open;
      submenus := submenus[k := SubmenuItem(isOpen, Some(BoolText(isOpen)), Some(BoolText(!isOpen)))];
    }

    /**
     * A click on plain link `j` at width `width`: below the breakpoint, and
     * when the link is not inside a submenu, the menu is toggled; then exactly
     * link `j` is made active.
     */
    method OnLinkClick(j: nat, width: int)
      requires j < |links|
      modifies this`menuActive, this`toggleActive, this`links
      ensures links == AfterLinkClick(old(links), j)
      ensures LinkClickTogglesMenu(old(links)[j], width) ==>
        menuActive == !old(menuActive) && toggleActive == !old(toggleActive)
      ensures !LinkClickTogglesMenu(old(links)[j], width) ==>
        menuActive == old(menuActive) && toggleActive == old(toggleActive)
    {
      if width < Breakpoint {
        if !links[j].inSubmenu {
          ToggleMenu();
        }
      }
      ghost var before, menu, toggle := links, menuActive, toggleActive;
      var i := 0;
      while i < |links|
        invariant 0 <= i <= |links| == |before|
        invariant menuActive == menu && toggleActive == toggle
        invariant forall m :: 0 <= m < i ==> links[m] == before[m].(active := false)
        invariant forall m :: i <= m < |links| ==> links[m] == before[m]
      {
        links := links[i := links[i].(active := false)];
        i := i + 1;
      }
      links := links[j := links[j].(active := true)];
    }

    /** The switch's change handler, `checked` being its new state: the body class follows it and it is saved. */
    method OnThemeSwitchChange(checked: bool)
      modifies this`switchChecked, this`darkMode, this`storage
      ensures switchChecked == checked && darkMode == checked
      ensures storage == old(storage)[DarkModeKey := BoolText(checked)]
    {
      switchChecked := checked;
      darkMode := switchChecked;
      storage := storage[DarkModeKey := BoolText(switchChecked)];
    }

    /** The start-up check: a saved "true" turns the switch and dark mode on; anything else changes nothing. */
    method LoadSavedTheme()
      modifies this`switchChecked, this`darkMode
      ensures SavedDarkMode(storage) ==> switchChecked && darkMode
      ensures !SavedDarkMode(storage) ==> switchChecked == old(switchChecked) && darkMode == old(darkMode)
    {
      if DarkModeKey in storage && storage[DarkModeKey] == "true" {
        switchChecked := true;
        darkMode := true;
      }
    }

    /** A resize to at least the breakpoint clears `active` on the menu toggle only. */
    method OnResize(width: int)
      modifies this`toggleActive
      ensures toggleActive == if width >= Breakpoint then false else old(toggleActive)
    {
      if width >= Breakpoint {
        toggleActive := false;
      }
    }

    /** A key press: Escape toggles the menu only when it is active, so it can only close it. */
    method OnKeyDown(key: string)
      modifies this`menuActive, this`toggleActive
      ensures key == "Escape" ==> !menuActive
      ensures menuActive ==> old(menuActive)
      ensures key == "Escape" && old(menuActive) ==> toggleActive == !old(toggleActive)
      ensures key != "Escape" || !old(menuActive) ==> menuActive == old(menuActive) && toggleActive == old(toggleActive)
    {
      if key == "Escape" && menuActive {
        ToggleMenu();
      }
    }

    /** The start-up work of the ready handler: the saved theme, then the menu shown at desktop width. */
    method OnContentLoaded(width: int)
      modifies this`switchChecked, this`darkMode, this`menuActive
      ensures SavedDarkMode(storage) ==> switchChecked && darkMode
      ensures !SavedDarkMode(storage) ==> switchChecked == old(switchChecked) && darkMode == old(darkMode)
      ensures menuActive == (width >= Breakpoint || old(menuActive))
    {
      LoadSavedTheme();
      if width >= Breakpoint {
        menuActive := true;
      }
    }
  }

  /**
   * Saving the switch's state on one page and loading a fresh page, whose
   * markup starts with the switch off and no dark mode, over the same storage
   * restores that state before any interaction.
   */
  method ReloadKeepsPreference(checked: bool, width: int) returns (dark: bool, switchOn: bool)
    ensures dark == checked && switchOn == checked
  {
    var first := new Page(false, false, [], [], false, false, map[]);
    first.OnThemeSwitchChange(checked);
    SavedPreferenceRoundTrip(map[], checked);
    var second := new Page(false, false, [], [], false, false, first.storage);
    second.OnContentLoaded(width);
    dark, switchOn := second.darkMode, second.switchChecked;
  }
}
