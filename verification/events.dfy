/** The browser events the script listens to, applied in sequence. */
module Events {
  import opened Page
  import opened Menu
  import opened Scroll

  /** `Resize` stands for the debounced callback, `Scroll` for the animation
      frame that runs `handleScroll`. */
  datatype Event =
    | ClickOn(target: Target)
    | Keydown(key: string)
    | Resize(innerWidth: int)
    | ScrollTo(scrollY: int)

  function Step(cfg: Config, p: Page, e: Event): (q: Page)
    ensures WellFormed(p) ==> WellFormed(q)
    ensures q.menuOpen && !p.menuOpen ==> e == ClickOn(OnToggleButton)
    ensures e.ScrollTo? ==> q.menuOpen == p.menuOpen && q.toggle == p.toggle && q.menu == p.menu && q.body == p.body
    ensures !e.ScrollTo? ==> q.scrolled == p.scrolled && q.header == p.header
  {
    match e
    case ClickOn(t) => Click(p, t)
    case Keydown(key) => OnKeydown(p, key)
    case Resize(w) => OnResizeSettled(p, w)
    case ScrollTo(y) => HandleScroll(cfg, p, y)
  }

  function Run(cfg: Config, p: Page, events: seq<Event>): Page
    decreases |events|
  {
    if events == [] then p else Run(cfg, Step(cfg, p, events[0]), events[1..])
  }

  /** Every sequence of events keeps the page well formed. */
  lemma {:induction false} RunPreservesWellFormed(cfg: Config, p: Page, events: seq<Event>)
    requires WellFormed(p)
    ensures WellFormed(Run(cfg, p, events))
    decreases |events|
  {
    if events != [] {
      RunPreservesWellFormed(cfg, Step(cfg, p, events[0]), events[1..]);
    }
  }

  /** A closed menu stays closed through any events that include no click on
      the toggle button's own box (a click on its icon does not open it). */
  lemma {:induction false} ClosedWithoutToggleClick(cfg: Config, p: Page, events: seq<Event>)
    requires !p.menuOpen
    requires forall i :: 0 <= i < |events| ==> events[i] != ClickOn(OnToggleButton)
    ensures !Run(cfg, p, events).menuOpen
    decreases |events|
  {
    if events != [] {
      ClosedWithoutToggleClick(cfg, Step(cfg, p, events[0]), events[1..]);
    }
  }

  /** Menu events never move the scroll flag, and scroll events never move
      the menu. */
  lemma {:induction false} ScrollFlagOnlyFromScrollEvents(cfg: Config, p: Page, events: seq<Event>)
    requires forall i :: 0 <= i < |events| ==> !events[i].ScrollTo?
    ensures Run(cfg, p, events).scrolled == p.scrolled
    ensures Run(cfg, p, events).header == p.header
    decreases |events|
  {
    if events != [] {
      ScrollFlagOnlyFromScrollEvents(cfg, Step(cfg, p, events[0]), events[1..]);
    }
  }
}
