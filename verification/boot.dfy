/** Start-up: `buildHeader` (which calls `buildMobileMenu`), then the initial
    `handleScroll`. */
module Boot {
  import opened Wrappers
  import opened Paths
  import opened Nav
  import opened Page
  import opened Scroll

  /** What the page's own markup provides: the `#site-header` placeholder and
      the `.mobile-menu` element. Both are taken to carry none of the classes
      and attributes the script manages. */
  datatype Markup = Markup(hasHeaderSlot: bool, hasMobileMenu: bool)

  /** `buildHeader()`: nothing without the placeholder; the toggle button and
      the mobile menu contents only when the mobile menu is enabled. */
  function BuildHeader(cfg: Config, markup: Markup, currentPath: string): (p: Page)
    ensures p.header.Some? <==> markup.hasHeaderSlot
    ensures p.toggle.Some? <==> markup.hasHeaderSlot && cfg.enableMobileMenu
    ensures p.menu.Some? <==> markup.hasMobileMenu
    ensures HasControls(p) ==> p.menu.value.ariaHidden == Some("true") && p.toggle.value.ariaExpanded == "false"
    ensures p.header.Some? ==> |p.header.value.links| == |cfg.navLinks|
    ensures p.header.Some? ==> forall i :: 0 <= i < |cfg.navLinks| ==>
      (MarkedActive(p.header.value.links[i]) <==> IsActivePath(currentPath, cfg.navLinks[i].href))
    ensures HasControls(p) ==> p.menu.value.links == p.header.value.links
    ensures WellFormed(p) && !p.menuOpen && !p.scrolled
  {
    var links := BuildLinks(currentPath, cfg.navLinks);
    var header := if markup.hasHeaderSlot then Some(HeaderBar(false, links)) else None;
    var built := markup.hasHeaderSlot && cfg.enableMobileMenu;
    var toggle := if built then Some(ToggleButton("false", MenuIcon)) else None;
    var menu :=
      if !markup.hasMobileMenu then None
      else if built then Some(MenuPanel(false, Some("true"), links))
      else Some(MenuPanel(false, None, []));
    Page(header, toggle, menu, Body(false, ""), false, false)
  }

  /** `init()`: build, then apply the current scroll offset. */
  function Init(cfg: Config, markup: Markup, currentPath: string, scrollY: int): (p: Page)
    ensures WellFormed(p) && !p.menuOpen
    ensures p.scrolled <==> cfg.enableScrollEffect && markup.hasHeaderSlot && scrollY > cfg.scrollThreshold
  {
    HandleScroll(cfg, BuildHeader(cfg, markup, currentPath), scrollY)
  }
}
