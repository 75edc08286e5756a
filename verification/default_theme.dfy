/**
 * The navigation behaviour of the default theme: the active-link pass, the
 * mobile menu button, the per-item submenu toggle buttons with the
 * outside-click and resize reconcilers that reset them, and the treatment of
 * parent links (links that open a submenu instead of navigating).
 *
 * The DOM is replaced by a `Page` object that holds the classes and attributes
 * the script reads and writes.  Each `.menu-item-has-children` element inside
 * `.site-navigation` is one `MenuItem` value; the handlers are methods of `Page` whose loops follow the
 * script's `forEach` passes, and each is proved equal to a function on the
 * item sequence about which the lemmas below state what the script promises.
 */
module DefaultTheme {
  import opened Dom

  // ------------------------------------------------------------------
  // Active links
  // ------------------------------------------------------------------

  /** A link of `.main-navigation`, as the active-link pass sees it. */
  datatype NavLink = NavLink(href: Option<string>, dataParent: Option<string>, active: bool)

  /** JavaScript's `String.prototype.startsWith`. */
  predicate StartsWith(s: string, prefix: string)
  {
    |prefix| <= |s| && s[..|prefix|] == prefix
  }

  /**
   * Whether the active-link pass adds `active` to a link with attributes
   * `href` and `data-parent` when the page's path is `path`.  Links with a
   * missing or empty `href` and parent links are skipped; the home link "/"
   * is special-cased.
   */
  predicate MarksActive(href: Option<string>, dataParent: Option<string>, path: string)
  {
    href.Some? && href.value != "" && dataParent != Some("true") &&
    ((href.value == "/" && path == "/") || (href.value != "/" && StartsWith(path, href.value)))
  }

  /** The active-link pass over all links: it only ever adds the class. */
  function MarkActive(links: seq<NavLink>, path: string): seq<NavLink>
  {
    seq(|links|, i requires 0 <= i < |links| =>
      links[i].(active := links[i].active || MarksActive(links[i].href, links[i].dataParent, path)))
  }

  /** The three cases of the active-link rule. */
  lemma ActiveLinkRule(href: Option<string>, dataParent: Option<string>, path: string)
    ensures href.None? || href == Some("") || dataParent == Some("true") ==> !MarksActive(href, dataParent, path)
    ensures href == Some("/") && dataParent != Some("true") ==> (MarksActive(href, dataParent, path) <==> path == "/")
    ensures href.Some? && href.value != "" && href.value != "/" && dataParent != Some("true") ==>
      (MarksActive(href, dataParent, path) <==> StartsWith(path, href.value))
  {
  }

  /** The pass keeps every link's attributes, keeps every `active` class, and adds it exactly where the rule says. */
  lemma MarkActiveOnlyAdds(links: seq<NavLink>, path: string)
    ensures |MarkActive(links, path)| == |links|
    ensures forall i :: 0 <= i < |links| ==>
      MarkActive(links, path)[i].href == links[i].href &&
      MarkActive(links, path)[i].dataParent == links[i].dataParent &&
      (MarkActive(links, path)[i].active <==> links[i].active || MarksActive(links[i].href, links[i].dataParent, path))
  {
  }

  // ------------------------------------------------------------------
  // Menu items, toggle buttons and parent links
  // ------------------------------------------------------------------

  /** A `.submenu-toggle` button: its `aria-expanded` attribute and its text. */
  datatype Toggle = Toggle(expanded: string, text: string)

  /** The toggle button as it reads when the item's submenu is `open` or closed. */
  function ToggleFor(open: bool): Toggle
  {
    Toggle(BoolText(open), if open then "-" else "+")
  }

  /**
   * The direct link of a `.menu-item-has-children` item.  `observed` records
   * that the parent-link pass attached its click listener and the observer
   * that mirrors the item's `submenu-open` class into `aria-expanded`.
   */
  datatype ParentLink = ParentLink(
    href: Option<string>,
    dataParent: Option<string>,
    ariaExpanded: Option<string>,
    role: Option<string>,
    ariaHasPopup: Option<string>,
    parentLinkClass: bool,
    observed: bool)

  /**
   * A `.menu-item-has-children` element: its link, whether it has a direct
   * `.sub-menu`, that sub-menu's `submenu-active` class, its own
   * `submenu-open` class, and the toggle button inserted after its link.
   */
  datatype MenuItem = MenuItem(
    link: ParentLink,
    hasSubMenu: bool,
    subMenuActive: bool,
    open: bool,
    toggle: Option<Toggle>)

  /** The agreement the handlers keep between an item's classes and the attributes that describe them. */
  predicate Synced(it: MenuItem)
  {
    it.subMenuActive == (it.hasSubMenu && it.open) &&
    (it.toggle.Some? ==> it.toggle.value == ToggleFor(it.open)) &&
    (it.link.observed ==> it.link.ariaExpanded == Some(BoolText(it.open)))
  }

  /** What the observer does after the item's class attribute changed. */
  function Mirror(it: MenuItem): MenuItem
  {
    if it.link.observed then it.(link := it.link.(ariaExpanded := Some(BoolText(it.open)))) else it
  }

  /** Flips `submenu-active` on the item's sub-menu (when it has one) and `submenu-open` on the item. */
  function FlipClasses(it: MenuItem): MenuItem
  {
    Mirror(it.(subMenuActive := if it.hasSubMenu then !it.subMenuActive else it.subMenuActive, open := !it.open))
  }

  /** The toggle button's click handler. */
  function ClickToggle(it: MenuItem): MenuItem
    requires it.toggle.Some?
  {
    var expanded := IsTrueText(it.toggle.value.expanded);
    FlipClasses(it.(toggle := Some(Toggle(BoolText(!expanded), if expanded then "+" else "-"))))
  }

  /** A click flips `aria-expanded`, shows "-" exactly when it now reads "true", and flips the item's classes. */
  lemma ClickToggleFlips(it: MenuItem)
    requires it.toggle.Some?
    ensures ClickToggle(it).toggle.Some?
    ensures ClickToggle(it).toggle == Some(ToggleFor(!IsTrueText(it.toggle.value.expanded)))
    ensures IsTrueText(ClickToggle(it).toggle.value.expanded) == !IsTrueText(it.toggle.value.expanded)
    ensures ClickToggle(it).toggle.value.text == if IsTrueText(ClickToggle(it).toggle.value.expanded) then "-" else "+"
    ensures ClickToggle(it).open == !it.open
    ensures ClickToggle(it).subMenuActive == (if it.hasSubMenu then !it.subMenuActive else it.subMenuActive)
    ensures ClickToggle(it).hasSubMenu == it.hasSubMenu
    ensures ClickToggle(it).link.(ariaExpanded := it.link.ariaExpanded) == it.link
    ensures it.link.observed ==> ClickToggle(it).link.ariaExpanded == Some(BoolText(!it.open))
    ensures !it.link.observed ==> ClickToggle(it).link == it.link
  {
  }

  /** On an item whose attributes agree with its classes, a click keeps them agreeing. */
  lemma ClickToggleKeepsSynced(it: MenuItem)
    requires it.toggle.Some? && Synced(it)
    ensures Synced(ClickToggle(it))
  {
  }

  /**
   * Two clicks restore the item whenever its toggle reads "true"/"-" or
   * "false"/"+" and a mirrored `aria-expanded` agrees with `submenu-open`; the
   * toggle itself need not agree with the item, so this also covers an open
   * item that was given a fresh "+" toggle.  Every `Synced` item qualifies.
   */
  lemma ClickToggleTwice(it: MenuItem)
    requires it.toggle == Some(ToggleFor(true)) || it.toggle == Some(ToggleFor(false))
    requires it.link.observed ==> it.link.ariaExpanded == Some(BoolText(it.open))
    ensures ClickToggle(it).toggle.Some?
    ensures ClickToggle(ClickToggle(it)) == it
  {
  }

  /** The toggle click on item `i`: only that item changes. */
  function AfterToggleClick(items: seq<MenuItem>, i: nat): seq<MenuItem>
    requires i < |items| && items[i].toggle.Some?
  {
    items[i := ClickToggle(items[i])]
  }

  /** Items toggle independently: a click opens or closes its own item and leaves every other item as it was. */
  lemma ToggleClickIsLocal(items: seq<MenuItem>, i: nat)
    requires i < |items| && items[i].toggle.Some?
    ensures |AfterToggleClick(items, i)| == |items|
    ensures AfterToggleClick(items, i)[i].open == !items[i].open
    ensures forall j :: 0 <= j < |items| && j != i ==> AfterToggleClick(items, i)[j] == items[j]
  {
  }

  /** Applies `f` to every item, as one `forEach` pass over the queried items does. */
  function MapItems(items: seq<MenuItem>, f: MenuItem -> MenuItem): (r: seq<MenuItem>)
    ensures |r| == |items| && forall i :: 0 <= i < |items| ==> r[i] == f(items[i])
  {
    seq(|items|, i requires 0 <= i < |items| => f(items[i]))
  }

  /** The pass over `.submenu-active`: the class is removed from every sub-menu. */
  function RemoveSubMenuActive(it: MenuItem): MenuItem
  {
    it.(subMenuActive := false)
  }

  /** The pass over `.submenu-open`: the class is removed from every item that has it. */
  function RemoveOpen(it: MenuItem): MenuItem
  {
    if it.open then Mirror(it.(open := false)) else it
  }

  /** The pass over `.submenu-toggle` on an outside click: every button back to "false" and "+". */
  function ResetToggle(it: MenuItem): MenuItem
  {
    if it.toggle.Some? then it.(toggle := Some(Toggle("false", "+"))) else it
  }

  /** The pass over `.submenu-toggle` on a resize to desktop: every button removed. */
  function RemoveToggle(it: MenuItem): MenuItem
  {
    it.(toggle := None)
  }

  /** Creating an item's toggle button: it starts as "false" and "+". */
  function AddToggle(it: MenuItem): MenuItem
  {
    it.(toggle := Some(Toggle("false", "+")))
  }

  /** The outside-click reconciler's three passes. */
  function CollapseAll(items: seq<MenuItem>): seq<MenuItem>
  {
    MapItems(MapItems(MapItems(items, RemoveSubMenuActive), RemoveOpen), ResetToggle)
  }

  /** The resize reconciler's three passes above the breakpoint. */
  function TearDown(items: seq<MenuItem>): seq<MenuItem>
  {
    MapItems(MapItems(MapItems(items, RemoveSubMenuActive), RemoveOpen), RemoveToggle)
  }

  /** The toggle-creation pass of `setupSubmenuToggles`. */
  function Rebuild(items: seq<MenuItem>): seq<MenuItem>
  {
    MapItems(items, AddToggle)
  }

  /** The number of toggle buttons on the page. */
  function ToggleCount(items: seq<MenuItem>): (n: nat)
    ensures n <= |items|
  {
    if items == [] then 0 else (if items[0].toggle.Some? then 1 else 0) + ToggleCount(items[1..])
  }

  /** The count is zero exactly when no item has a toggle. */
  lemma {:induction false} ToggleCountZero(items: seq<MenuItem>)
    ensures ToggleCount(items) == 0 <==> forall i :: 0 <= i < |items| ==> items[i].toggle.None?
  {
    if items != [] {
      ToggleCountZero(items[1..]);
      assert forall i :: 1 <= i < |items| ==> items[i] == items[1..][i - 1];
    }
  }

  /** The count equals the number of items exactly when every item has a toggle. */
  lemma {:induction false} ToggleCountFull(items: seq<MenuItem>)
    ensures ToggleCount(items) == |items| <==> forall i :: 0 <= i < |items| ==> items[i].toggle.Some?
  {
    if items != [] {
      ToggleCountFull(items[1..]);
      assert forall i :: 1 <= i < |items| ==> items[i] == items[1..][i - 1];
    }
  }

  /**
   * An outside click in mobile mode leaves no item open, no sub-menu active
   * and every toggle at "false" and "+"; it adds and removes no toggle, and it
   * keeps the attributes of an item that agreed with its classes in agreement.
   */
  lemma CollapseAllClosesEverything(items: seq<MenuItem>)
    ensures |CollapseAll(items)| == |items|
    ensures forall i :: 0 <= i < |items| ==>
      var c := CollapseAll(items)[i];
      !c.open && !c.subMenuActive && c.hasSubMenu == items[i].hasSubMenu &&
      c.toggle.Some? == items[i].toggle.Some? &&
      (c.toggle.Some? ==> c.toggle.value == ToggleFor(false)) &&
      c.link.(ariaExpanded := items[i].link.ariaExpanded) == items[i].link &&
      (items[i].link.observed && items[i].open ==> c.link.ariaExpanded == Some("false")) &&
      (!(items[i].link.observed && items[i].open) ==> c.link == items[i].link) &&
      (Synced(items[i]) ==> Synced(c))
    ensures CollapseAll(CollapseAll(items)) == CollapseAll(items)
  {
  }

  /**
   * A resize above the breakpoint removes every toggle and leaves no item
   * open and no sub-menu active; running it again changes nothing.
   */
  lemma TearDownRemovesToggles(items: seq<MenuItem>)
    ensures |TearDown(items)| == |items|
    ensures ToggleCount(TearDown(items)) == 0
    ensures forall i :: 0 <= i < |items| ==>
      var c := TearDown(items)[i];
      !c.open && !c.subMenuActive && c.hasSubMenu == items[i].hasSubMenu && c.toggle.None? &&
      c.link.(ariaExpanded := items[i].link.ariaExpanded) == items[i].link &&
      (items[i].link.observed && items[i].open ==> c.link.ariaExpanded == Some("false")) &&
      (!(items[i].link.observed && items[i].open) ==> c.link == items[i].link) &&
      (Synced(items[i]) ==> Synced(c))
    ensures TearDown(TearDown(items)) == TearDown(items)
  {
    ToggleCountZero(TearDown(items));
  }

  /**
   * Rebuilding creates exactly one toggle per item, each reading "false" and
   * "+"; an item that was closed and agreed with its attributes still does.
   */
  lemma RebuildCreatesOneTogglePerItem(items: seq<MenuItem>)
    ensures |Rebuild(items)| == |items|
    ensures ToggleCount(Rebuild(items)) == |items|
    ensures forall i :: 0 <= i < |items| ==>
      Rebuild(items)[i] == items[i].(toggle := Some(ToggleFor(false))) &&
      (Synced(items[i]) && !items[i].open ==> Synced(Rebuild(items)[i]))
  {
    ToggleCountFull(Rebuild(items));
  }

  /** Whether the parent-link pass treats a link as a parent link. */
  predicate IsParentLink(l: ParentLink)
  {
    l.dataParent == Some("true") || l.href.None? || l.href == Some("") || l.href == Some("#")
  }

  /** What the parent-link pass does to a parent link. */
  function NormaliseParentLink(l: ParentLink): ParentLink
  {
    l.(dataParent := Some("true"),
       href := if l.href == Some("#") then None else l.href,
       parentLinkClass := true,
       role := Some("button"),
       ariaHasPopup := Some("true"),
       ariaExpanded := Some("false"),
       observed := true)
  }

  /** The parent-link pass on one item. */
  function HandleParentLink(it: MenuItem): MenuItem
  {
    if IsParentLink(it.link) then it.(link := NormaliseParentLink(it.link)) else it
  }

  /** The parent-link pass over all items. */
  function HandleParentLinks(items: seq<MenuItem>): seq<MenuItem>
  {
    MapItems(items, HandleParentLink)
  }

  /**
   * A normalised parent link carries `data-parent="true"`, no "#" href,
   * `role="button"`, `aria-haspopup="true"` and `aria-expanded="false"`; it is
   * still a parent link, and normalising it again changes nothing.  Only a "#"
   * href is removed; any other href is kept.  The pass changes nothing of the
   * item but its link, so toggles created before it survive.  A link that is
   * not a parent link is left alone.
   */
  lemma ParentLinkNormalised(it: MenuItem)
    ensures IsParentLink(it.link) ==>
      var n := HandleParentLink(it).link;
      n.dataParent == Some("true") && n.href != Some("#") &&
      n.role == Some("button") && n.ariaHasPopup == Some("true") &&
      n.ariaExpanded == Some("false") && n.observed && n.parentLinkClass &&
      IsParentLink(n) && HandleParentLink(HandleParentLink(it)) == HandleParentLink(it)
    ensures IsParentLink(it.link) ==>
      HandleParentLink(it).link.href == (if it.link.href == Some("#") then None else it.link.href)
    ensures HandleParentLink(it) == it.(link := HandleParentLink(it).link)
    ensures !IsParentLink(it.link) ==> HandleParentLink(it) == it
  {
  }

  /** A parent link is never marked active when the path, as every page path does, begins with "/". */
  lemma ParentLinkNeverActive(l: ParentLink, path: string)
    requires IsParentLink(l)
    requires |path| > 0 && path[0] == '/'
    ensures !MarksActive(l.href, l.dataParent, path)
  {
  }

  /** The parent link's click listener at width `width`. */
  function AfterParentLinkClick(items: seq<MenuItem>, i: nat, width: int): seq<MenuItem>
    requires i < |items|
  {
    if !items[i].link.observed || width > Breakpoint then items
    else if items[i].toggle.Some? then AfterToggleClick(items, i)
    else if items[i].hasSubMenu then items[i := FlipClasses(items[i])]
    else items
  }

  /**
   * A parent-link click changes only its own item.  On mobile it opens or
   * closes that item through its toggle, or directly when the item has a
   * sub-menu but no toggle, adding or removing no toggle and changing no
   * attribute of the link except the mirrored `aria-expanded`; on desktop, or
   * for a link that was not normalised, nothing changes.  None of this needs
   * the item's attributes to agree with its classes.
   */
  lemma ParentLinkClickIsLocal(items: seq<MenuItem>, i: nat, width: int)
    requires i < |items|
    ensures |AfterParentLinkClick(items, i, width)| == |items|
    ensures forall j :: 0 <= j < |items| && j != i ==> AfterParentLinkClick(items, i, width)[j] == items[j]
    ensures AfterParentLinkClick(items, i, width)[i].open ==
      (if items[i].link.observed && width <= Breakpoint && (items[i].toggle.Some? || items[i].hasSubMenu)
       then !items[i].open else items[i].open)
    ensures !(items[i].link.observed && width <= Breakpoint) ==> AfterParentLinkClick(items, i, width) == items
    ensures AfterParentLinkClick(items, i, width)[i].toggle.Some? == items[i].toggle.Some?
    ensures AfterParentLinkClick(items, i, width)[i].hasSubMenu == items[i].hasSubMenu
    ensures AfterParentLinkClick(items, i, width)[i].link.(ariaExpanded := items[i].link.ariaExpanded) == items[i].link
  {
  }

  /** A parent-link click keeps the clicked item's attributes in agreement with its classes. */
  lemma ParentLinkClickKeepsSynced(items: seq<MenuItem>, i: nat, width: int)
    requires i < |items| && Synced(items[i])
    ensures Synced(AfterParentLinkClick(items, i, width)[i])
  {
  }

  /**
   * Items as the markup gives them (none open, no sub-menu active, no toggle,
   * no observer) all agree with their attributes once the page has loaded,
   * whether or not the toggles were created.
   */
  lemma LoadedItemsSynced(items: seq<MenuItem>)
    requires forall i :: 0 <= i < |items| ==>
      !items[i].open && !items[i].subMenuActive && items[i].toggle.None? && !items[i].link.observed
    ensures forall i :: 0 <= i < |items| ==> Synced(HandleParentLinks(items)[i])
    ensures forall i :: 0 <= i < |items| ==> Synced(HandleParentLinks(Rebuild(items))[i])
  {
  }

  // ------------------------------------------------------------------
  // The page
  // ------------------------------------------------------------------

  /**
   * The document as the script sees it.  `touch` is the touch detection made
   * when the script starts; `menuButton` is the `aria-expanded` attribute of
   * the `.menu-toggle` button once it has been created.
   */
  class Page {
    const hasNav: bool
    const touch: bool
    var navLinks: seq<NavLink>
    var menuButton: Option<string>
    var navToggled: bool
    var items: seq<MenuItem>

    /** The page as the markup gives it, before the script runs. */
    constructor (hasNav: bool, touch: bool, navLinks: seq<NavLink>, navToggled: bool, items: seq<MenuItem>)
      requires !hasNav ==> items == []
      ensures this.hasNav == hasNav && this.touch == touch
      ensures this.navLinks == navLinks && this.navToggled == navToggled && this.items == items
      ensures menuButton.None?
    {
      this.hasNav := hasNav;
      this.touch := touch;
      this.navLinks := navLinks;
      this.menuButton := None;
      this.navToggled := navToggled;
      this.items := items;
    }

    /** The handler for the document's ready signal. */
    method OnContentLoaded(path: string, width: int)
      modifies this
      ensures navLinks == MarkActive(old(navLinks), path)
      ensures menuButton == if hasNav then Some("false") else old(menuButton)
      ensures navToggled == old(navToggled)
      ensures items == HandleParentLinks(if touch || width <= Breakpoint then Rebuild(old(items)) else old(items))
    {
      MarkActiveLinks(path);
      SetupMobileMenu();
      SetupSubmenuToggles(width);
      HandleParentLinkPass();
    }

    /** The active-link pass. */
    method MarkActiveLinks(path: string)
      modifies this`navLinks
      ensures navLinks == MarkActive(old(navLinks), path)
    {
      ghost var links := navLinks;
      var i := 0;
      while i < |navLinks|
        invariant 0 <= i <= |navLinks| == |links|
        invariant forall j :: 0 <= j < i ==> navLinks[j] == MarkActive(links, path)[j]
        invariant forall j :: i <= j < |navLinks| ==> navLinks[j] == links[j]
      {
        var link := navLinks[i];
        if MarksActive(link.href, link.dataParent, path) {
          navLinks := navLinks[i := link.(active := true)];
        }
        i := i + 1;
      }
    }

    /** Creates the `.menu-toggle` button, collapsed, when the page has a `.site-navigation`. */
    method SetupMobileMenu()
      modifies this`menuButton
      ensures menuButton == if hasNav then Some("false") else old(menuButton)
    {
      if hasNav {
        menuButton := Some("false");
      }
    }

    /** The `.menu-toggle` click handler: flips `aria-expanded` and the nav's `toggled` class together. */
    method OnMenuButtonClick()
      requires menuButton.Some?
      modifies this`menuButton, this`navToggled
      ensures menuButton == Some(BoolText(!IsTrueText(old(menuButton).value)))
      ensures navToggled == !old(navToggled)
      ensures old(menuButton) == Some(BoolText(old(navToggled))) ==> menuButton == Some(BoolText(navToggled))
    {
      var expanded := IsTrueText(menuButton.value);
      menuButton := Some(BoolText(!expanded));
      navToggled := !navToggled;
    }

    /** One `forEach` pass over the items, in document order. */
    method ForEachItem(f: MenuItem -> MenuItem)
      modifies this`items
      ensures items == MapItems(old(items), f)
    {
      ghost var before := items;
      var i := 0;
      while i < |items|
        invariant 0 <= i <= |items| == |before|
        invariant forall j :: 0 <= j < i ==> items[j] == f(before[j])
        invariant forall j :: i <= j < |items| ==> items[j] == before[j]
      {
        items := items[i := f(items[i])];
        i := i + 1;
      }
    }

    /** Creates one toggle per item when the device is touch-capable or the window is at most the breakpoint wide. */
    method SetupSubmenuToggles(width: int)
      modifies this`items
      ensures items == if touch || width <= Breakpoint then Rebuild(old(items)) else old(items)
    {
      if touch || width <= Breakpoint {
        ForEachItem(AddToggle);
      }
    }

    /** A click on item `i`'s toggle button. */
    method OnToggleClick(i: nat)
      requires i < |items| && items[i].toggle.Some?
      modifies this`items
      ensures items == AfterToggleClick(old(items), i)
    {
      var it := items[i];
      var expanded := IsTrueText(it.toggle.value.expanded);
      it := it.(toggle := Some(Toggle(BoolText(!expanded), if expanded then "+" else "-")));
      if it.hasSubMenu {
        it := it.(subMenuActive := !it.subMenuActive);
      }
      it := it.(open := !it.open);
      items := items[i := Mirror(it)];
    }

    /**
     * A click that reaches the document.  In mobile mode (width at most the
     * breakpoint, or a touch device) a click outside the navigation collapses
     * every item; otherwise nothing changes.
     */
    method OnDocumentClick(width: int, insideNav: bool)
      modifies this`items
      ensures items == if (width <= Breakpoint || touch) && !insideNav then CollapseAll(old(items)) else old(items)
    {
      if width <= Breakpoint || touch {
        if !insideNav {
          ForEachItem(RemoveSubMenuActive);
          ForEachItem(RemoveOpen);
          ForEachItem(ResetToggle);
        }
      }
    }

    /**
     * The window's resize handler: above the breakpoint every toggle is torn
     * down; at or below it, the toggles are rebuilt when none exist.
     */
    method OnResize(width: int)
      modifies this`items
      ensures width > Breakpoint ==> items == TearDown(old(items))
      ensures width <= Breakpoint && ToggleCount(old(items)) == 0 ==> items == Rebuild(old(items))
      ensures width <= Breakpoint && ToggleCount(old(items)) != 0 ==> items == old(items)
    {
      if width > Breakpoint {
        ForEachItem(RemoveSubMenuActive);
        ForEachItem(RemoveOpen);
        ForEachItem(RemoveToggle);
      } else if ToggleCount(items) == 0 {
        SetupSubmenuToggles(width);
      }
    }

    /** The parent-link pass: classifies each item's link and normalises the parent links. */
    method HandleParentLinkPass()
      modifies this`items
      ensures items == HandleParentLinks(old(items))
    {
      ForEachItem(HandleParentLink);
    }

    /** A click on item `i`'s link. */
    method OnParentLinkClick(i: nat, width: int)
      requires i < |items|
      modifies this`items
      ensures items == AfterParentLinkClick(old(items), i, width)
    {
      if items[i].link.observed && width <= Breakpoint {
        if items[i].toggle.Some? {
          OnToggleClick(i);
        } else if items[i].hasSubMenu {
          items := items[i := FlipClasses(items[i])];
        }
      }
    }
  }

  /**
   * On a touch device the ready handler creates a toggle for every item even
   * above the breakpoint, but the resize handler tests the width alone: the
   * first resize event above the breakpoint removes every toggle again, and
   * the page is left without any while it stays that wide.
   */
  method TouchDeviceLosesToggles(items: seq<MenuItem>, path: string, width: int) returns (loaded: nat, resized: nat)
    requires width > Breakpoint
    ensures loaded == |items| && resized == 0
  {
    var page := new Page(true, true, [], false, items);
    page.OnContentLoaded(path, width);
    ToggleCountFull(page.items);
    loaded := ToggleCount(page.items);
    TearDownRemovesToggles(page.items);
    page.OnResize(width);
    resized := ToggleCount(page.items);
  }
}
