/** The mobile-menu state machine: `toggleMobileMenu` and the listeners that
    call it (toggle click, link click, Escape, resize, click outside). */
module Menu {
  import opened Wrappers
  import opened Page

  /** Write every attribute the toggle writes, for the given open flag. */
  function Render(p: Page, open: bool): (q: Page)
    requires HasControls(p)
    ensures HasControls(q) && q.menuOpen == open && Reflects(q)
    ensures q.header == p.header && q.scrolled == p.scrolled
    ensures q.menu.value.links == p.menu.value.links
  {
    p.(menuOpen := open,
       menu := Some(p.menu.value.(isActive := open, ariaHidden := Some(AriaBool(!open)))),
       toggle := Some(p.toggle.value.(ariaExpanded := AriaBool(open), icon := if open then CloseIcon else MenuIcon)),
       body := Body(open, if open then "hidden" else ""))
  }

  /** `toggleMobileMenu(forceClose)`: close when forced or open, open
      otherwise; nothing at all when the toggle or the menu is missing. */
  function ToggleMobileMenu(p: Page, forceClose: bool): (q: Page)
    ensures !HasControls(p) ==> q == p
    ensures HasControls(q) == HasControls(p)
    ensures HasControls(p) ==> q.menuOpen == !(forceClose || p.menuOpen) && Reflects(q)
    ensures forceClose ==> !q.menuOpen || q == p
    ensures q.header == p.header && q.scrolled == p.scrolled
    ensures q.menu.Some? ==> q.menu.value.links == p.menu.value.links
    ensures WellFormed(p) ==> WellFormed(q)
  {
    if !HasControls(p) then p
    else if forceClose || p.menuOpen then Render(p, false)
    else Render(p, true)
  }

  /** On a well-formed page, `toggleMobileMenu(true)` leaves the menu closed. */
  lemma ForceCloseCloses(p: Page)
    requires WellFormed(p)
    ensures !ToggleMobileMenu(p, true).menuOpen
  {
  }

  /** Forcing the menu closed twice is the same as once. */
  lemma ForceCloseIdempotent(p: Page)
    ensures ToggleMobileMenu(ToggleMobileMenu(p, true), true) == ToggleMobileMenu(p, true)
  {
  }

  /** Closing a closed well-formed menu rewrites every attribute to the value
      it already has. */
  lemma ForceCloseOnClosedIsNoop(p: Page)
    requires WellFormed(p) && !p.menuOpen
    ensures ToggleMobileMenu(p, true) == p
  {
  }

  /** Two plain toggles restore the page exactly. */
  lemma ToggleTwiceIsIdentity(p: Page)
    requires WellFormed(p)
    ensures ToggleMobileMenu(ToggleMobileMenu(p, false), false) == p
  {
  }

  /** The widest window still treated as mobile: the resize handler closes
      the menu only for widths above it. */
  const MobileMaxWidth: int := 768

  /** Where a click lands: on the toggle button's own box, on the icon inside
      it (the `<span class="icon">` or its SVG, which fill the button's content
      box), inside the mobile menu (on a `.nav-link` or not), or anywhere else. */
  datatype Target = OnToggleButton | OnToggleIcon | InMenu(isNavLink: bool) | Elsewhere

  /** The target lies inside the toggle button or the mobile menu, as it did
      when the click landed. */
  predicate InsideControls(t: Target) {
    !t.Elsewhere?
  }

  /** The mobile menu's own click listener: a click on one of its nav links
      forces the menu closed. */
  function OnMenuClick(p: Page, isNavLink: bool): (q: Page)
    ensures q.menuOpen ==> p.menuOpen
    ensures !isNavLink ==> q == p
    ensures WellFormed(p) ==> WellFormed(q) && (q.menuOpen <==> p.menuOpen && !isNavLink)
  {
    if isNavLink then ToggleMobileMenu(p, true) else p
  }

  /** The document `keydown` listener. */
  function OnKeydown(p: Page, key: string): (q: Page)
    ensures q.menuOpen ==> p.menuOpen
    ensures key != "Escape" || !p.menuOpen ==> q == p
    ensures WellFormed(p) ==> WellFormed(q) && (q.menuOpen <==> p.menuOpen && key != "Escape")
  {
    if key == "Escape" && p.menuOpen then ToggleMobileMenu(p, true) else p
  }

  /** The debounced `resize` callback, given the settled window width. */
  function OnResizeSettled(p: Page, innerWidth: int): (q: Page)
    ensures q.menuOpen ==> p.menuOpen
    ensures innerWidth <= MobileMaxWidth || !p.menuOpen ==> q == p
    ensures WellFormed(p) ==> WellFormed(q) && (q.menuOpen <==> p.menuOpen && innerWidth <= MobileMaxWidth)
  {
    if innerWidth > MobileMaxWidth && p.menuOpen then ToggleMobileMenu(p, true) else p
  }

  /** The document `click` listener, given whether `mobileMenu.contains` or
      `toggle.contains` holds of the target when it runs: an open menu closes
      on a click outside both. */
  function OnDocumentClick(p: Page, insideControls: bool): (q: Page)
    ensures q.menuOpen ==> p.menuOpen
    ensures insideControls || !p.menuOpen ==> q == p
    ensures WellFormed(p) ==> WellFormed(q) && (q.menuOpen <==> p.menuOpen && insideControls)
  {
    if p.menuOpen && p.menu.Some? && p.toggle.Some? && !insideControls then ToggleMobileMenu(p, true)
    else p
  }

  /** The target's own listener: the toggle button's, or the mobile menu's. */
  function TargetListener(p: Page, t: Target): (q: Page)
    ensures WellFormed(p) ==> WellFormed(q)
    ensures q.menuOpen && !p.menuOpen ==> t.OnToggleButton? || t.OnToggleIcon?
    ensures t.Elsewhere? ==> q == p
    ensures q.header == p.header && q.scrolled == p.scrolled
  {
    match t
    case OnToggleButton => if p.toggle.Some? then ToggleMobileMenu(p, false) else p
    case OnToggleIcon => if p.toggle.Some? then ToggleMobileMenu(p, false) else p
    case InMenu(isNavLink) => if p.menu.Some? then OnMenuClick(p, isNavLink) else p
    case Elsewhere => p
  }

  /** Whether the document listener still finds the target inside the
      controls. Once the toggle listener has run `toggleMobileMenu`, the
      button's `innerHTML` has been replaced, so a clicked icon is detached
      and `toggle.contains` no longer holds of it. */
  predicate StillInsideControls(p: Page, t: Target) {
    InsideControls(t) && !(t.OnToggleIcon? && HasControls(p))
  }

  /** One click as the script handles it: first the target's own listener,
      then the document's, which tests containment on the page as the first
      listener left it. */
  function Click(p: Page, t: Target): (q: Page)
    ensures WellFormed(p) ==> WellFormed(q)
    ensures q.menuOpen && !p.menuOpen ==> t.OnToggleButton?
    ensures q.header == p.header && q.scrolled == p.scrolled
  {
    OnDocumentClick(TargetListener(p, t), StillInsideControls(p, t))
  }

  /** As written, a click on the toggle's icon can never leave the menu open:
      opening detaches the icon and the document listener closes the menu
      again at once. */
  lemma IconClickAlwaysCloses(p: Page)
    requires WellFormed(p) && HasControls(p)
    ensures !Click(p, OnToggleIcon).menuOpen
  {
  }

  /** As written, a click on the button's own box flips the menu. */
  lemma ClickOnButtonFlips(p: Page)
    requires WellFormed(p) && HasControls(p)
    ensures Click(p, OnToggleButton).menuOpen == !p.menuOpen
  {
  }

  /** One click as evidently intended: containment is judged by where the
      click landed, before the toggle rewrites its icon. */
  function ClickIntended(p: Page, t: Target): (q: Page)
    ensures WellFormed(p) ==> WellFormed(q)
    ensures q.menuOpen && !p.menuOpen ==> t.OnToggleButton? || t.OnToggleIcon?
    ensures q.header == p.header && q.scrolled == p.scrolled
  {
    OnDocumentClick(TargetListener(p, t), InsideControls(t))
  }

  /** With containment judged where the click landed, any click on the toggle,
      button or icon, flips the menu. */
  lemma ClickOnToggleFlips(p: Page, t: Target)
    requires WellFormed(p) && HasControls(p)
    requires t.OnToggleButton? || t.OnToggleIcon?
    ensures ClickIntended(p, t).menuOpen == !p.menuOpen
  {
  }

  /** Any click outside both controls closes the menu; a click on a menu link
      closes it. */
  lemma ClickCloses(p: Page, t: Target)
    requires WellFormed(p)
    requires t == Elsewhere || t == InMenu(true)
    ensures !Click(p, t).menuOpen
  {
  }

  /** Other clicks inside the menu change nothing. */
  lemma ClickInsideMenuOffLinkKeepsState(p: Page)
    ensures Click(p, InMenu(false)) == p
  {
  }
}
