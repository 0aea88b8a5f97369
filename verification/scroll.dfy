/** The header's scroll effect: `handleScroll` sets the `is-scrolled` class
    once the page has scrolled past the configured threshold. */
module Scroll {
  import opened Wrappers
  import opened Page

  /** `handleScroll()`, given the window's vertical scroll offset. */
  function HandleScroll(cfg: Config, p: Page, scrollY: int): (q: Page)
    ensures !cfg.enableScrollEffect || p.header.None? ==> q == p
    ensures cfg.enableScrollEffect && p.header.Some? ==> q.scrolled == (scrollY > cfg.scrollThreshold)
    ensures q.scrolled == p.scrolled ==> q == p
    ensures q.header.Some? == p.header.Some?
    ensures q.header.Some? ==> q.header.value.links == p.header.value.links
    ensures q.toggle == p.toggle && q.menu == p.menu && q.body == p.body && q.menuOpen == p.menuOpen
    ensures WellFormed(p) ==> WellFormed(q)
  {
    if !cfg.enableScrollEffect || p.header.None? then p
    else
      var scrolled := scrollY > cfg.scrollThreshold;
      if scrolled != p.scrolled then
        p.(scrolled := scrolled, header := Some(p.header.value.(isScrolled := scrolled)))
      else p
  }

  /** A second call at the same offset writes nothing. */
  lemma HandleScrollIdempotent(cfg: Config, p: Page, scrollY: int)
    ensures HandleScroll(cfg, HandleScroll(cfg, p, scrollY), scrollY) == HandleScroll(cfg, p, scrollY)
  {
  }

  /** The comparison is strict: at exactly the threshold the header is not
      yet scrolled, one pixel further it is. */
  lemma ThresholdIsStrict(p: Page)
    requires p.header.Some?
    ensures !HandleScroll(DefaultConfig, p, 50).scrolled
    ensures HandleScroll(DefaultConfig, p, 51).scrolled
  {
  }
}
