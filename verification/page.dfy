/** The part of the document the header script reads and writes, the
    script's configuration, and the invariant that ties the visible
    attributes to the script's `state` object. */
module Page {
  import opened Wrappers
  import opened Paths
  import opened Nav

  datatype Config = Config(
    navLinks: seq<NavLink>,
    scrollThreshold: int,
    enableScrollEffect: bool,
    enableMobileMenu: bool)

  /** The configuration the script ships with. */
  const DefaultConfig: Config := Config(
    [NavLink("menu", "/menu"), NavLink("shop", "/shop"), NavLink("about", "/about"), NavLink("contact", "/contact")],
    50, true, true)

  /** Which SVG the toggle button shows. */
  datatype Icon = MenuIcon | CloseIcon

  /** The `.nav-toggle` button. */
  datatype ToggleButton = ToggleButton(ariaExpanded: string, icon: Icon)

  /** The page's `.mobile-menu` element; `isActive` is its `is-active` class. */
  datatype MenuPanel = MenuPanel(isActive: bool, ariaHidden: Option<string>, links: seq<LinkView>)

  /** `document.body`: its `menu-open` class and inline `overflow` style. */
  datatype Body = Body(menuOpenClass: bool, overflow: string)

  /** The `#site-header` element; `isScrolled` is its `is-scrolled` class. */
  datatype HeaderBar = HeaderBar(isScrolled: bool, links: seq<LinkView>)

  /** The elements, plus the script's `state.mobileMenuOpen` and `state.scrolled`. */
  datatype Page = Page(
    header: Option<HeaderBar>,
    toggle: Option<ToggleButton>,
    menu: Option<MenuPanel>,
    body: Body,
    menuOpen: bool,
    scrolled: bool)

  function AriaBool(b: bool): string {
    if b then "true" else "false"
  }

  /** Both the toggle button and the mobile menu exist. */
  predicate HasControls(p: Page) {
    p.toggle.Some? && p.menu.Some?
  }

  /** Every attribute the menu toggle writes agrees with the open flag. */
  predicate Reflects(p: Page)
    requires HasControls(p)
  {
    var open := p.menuOpen;
    && p.toggle.value.ariaExpanded == AriaBool(open)
    && p.toggle.value.icon == (if open then CloseIcon else MenuIcon)
    && p.menu.value.isActive == open
    && p.menu.value.ariaHidden == Some(AriaBool(!open))
    && p.body.menuOpenClass == open
    && p.body.overflow == (if open then "hidden" else "")
  }

  /** The invariant every reachable page keeps. */
  predicate WellFormed(p: Page) {
    && (p.menuOpen ==> HasControls(p))
    && (HasControls(p) ==> Reflects(p))
    && (p.header.Some? ==> p.header.value.isScrolled == p.scrolled)
  }

  /** The shipped links are prefix-free, so at most one is ever active. */
  lemma DefaultLinksPrefixFree()
    ensures PrefixFree(DefaultConfig.navLinks)
  {
    var links := DefaultConfig.navLinks;
    var hrefs := ["/menu", "/shop", "/about", "/contact"];
    assert forall i :: 0 <= i < 4 ==> links[i].href == hrefs[i];
    assert forall i :: 0 <= i < 4 ==> |hrefs[i]| > 1 && !EndsWithSlash(hrefs[i]);
    assert hrefs[0][1] == 'm' && hrefs[1][1] == 's' && hrefs[2][1] == 'a' && hrefs[3][1] == 'c';
    forall i, j | 0 <= i < |links| && 0 <= j < |links| && i != j
      ensures !StartsWith(Normalize(links[j].href), Normalize(links[i].href))
    {
      assert Normalize(hrefs[i]) == hrefs[i] && Normalize(hrefs[j]) == hrefs[j];
      assert hrefs[i][1] != hrefs[j][1];
    }
  }

  lemma DefaultAtMostOneActive(currentPath: string)
    ensures var r := BuildLinks(currentPath, DefaultConfig.navLinks);
      forall i, j :: 0 <= i < |r| && 0 <= j < |r| && MarkedActive(r[i]) && MarkedActive(r[j]) ==> i == j
  {
    DefaultLinksPrefixFree();
    AtMostOneActive(currentPath, DefaultConfig.navLinks);
  }
}
