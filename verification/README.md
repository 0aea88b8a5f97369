# kc roast co site header, modelled in Dafny

The site's header script (`js/header.js`) injects the navigation bar into
each page, marks the link for the current page as active, drives the mobile
menu, and styles the header once the page has scrolled. This project models
the logic of that script as pure functions over an immutable record of the
few DOM attributes it reads and writes, and proves what the script promises:

- **Active-link detection** (`Paths`): one trailing `/` is stripped from both
  paths (an empty result becomes `/`), then a link is active on an exact match
  or, for any link but the root, when the current path starts with it. The
  match is a plain string prefix, so `/shopping` marks `/shop` active.
- **Link marking** (`Nav`): each rendered link gets the `is-active` class and
  `aria-current="page"` exactly when it is active; with the shipped links at
  most one is ever active.
- **The `data…` key rewrite** of `createElement` (`DataKeys`): a `-` before
  each upper-case letter, then lower-casing; proved equal to a per-character
  reference mapping, idempotent, and inverted by the hyphen-to-camel-case step
  of the `dataset` naming rule applied to the whole name.
- **The mobile menu** (`Page`, `Menu`): `toggleMobileMenu` as a transition on
  the page record, and the click, Escape, resize and outside-click listeners.
  The invariant `WellFormed` says `aria-expanded`, `aria-hidden`, the toggle
  icon, the `is-active` and `menu-open` classes and the body's `overflow` all
  agree with the open flag, and that the menu is only open when both the
  toggle and the menu exist.
- **The scroll flag** (`Scroll`): `scrolled` is `scrollY > threshold`
  (strictly), written only when it changes and never when the effect is off
  or the header is missing.
- **Event sequences and start-up** (`Events`, `Boot`): every sequence of
  events keeps the page well formed, only a click on the toggle button's own
  box opens the menu (a click on its icon is undone at once, see Findings),
  and the page built at load is well formed.

## Model

| member | source | states |
|---|---|---|
| Paths.StripTrailingSlash | js/header.js:100-101 | at most one character, a trailing '/', is removed, and one is removed exactly when the path ends with '/' |
| Paths.Normalize | js/header.js:100-101 | the normalised path is never empty; it is the input, the input less one trailing '/', or '/' for the empty path |
| Paths.NormalizeIgnoresTrailingSlash | js/header.js:100-101 | a path not ending in '/' and the same path with one '/' appended normalise alike ("/shop/" and "/shop", "" and "/") |
| Paths.NormalizeIsRoot | js/header.js:100-101 | a path normalises to '/' exactly when it is "", "/" or "//" |
| Paths.NormalizeNotIdempotent | js/header.js:100-101 | only one slash goes per call: "/shop//" normalises to "/shop/", which normalises again to "/shop" |
| Paths.IsActivePath | js/header.js:99-110 | an exact match of the normalised paths is active, and an active link is always a prefix of the normalised current path |
| Paths.ActiveIff | js/header.js:99-110 | active exactly when the normalised link is a prefix of the normalised current path and, for the root link, the current path is the root |
| Paths.RootLinkActiveOnlyAtRoot | js/header.js:107 | a link normalising to '/' is active exactly on the home page |
| Paths.ChildPageActive | js/header.js:106-107 | a non-root link is active on every path that starts with it |
| Paths.PrefixMatchIsNotSegmentAware | js/header.js:106-107 | "/shop/item", "/shop/" and also "/shopping" make "/shop" active; "/shop" does not make "/" active |
| Paths.PlainLinkActiveIffRawPrefix | js/header.js:99-110 | for a link without trailing '/', like every configured link, active exactly when the raw current path starts with it |
| DataKeys.Hyphenate | js/header.js:124 | the result is one character longer per upper-case letter and unchanged when there is none |
| DataKeys.LowerAll | js/header.js:124 | the result is the input with each letter lower-cased, position by position |
| DataKeys.DataAttributeName | js/header.js:123-124 | the attribute name has no upper-case letter and one extra character per upper-case letter of the key |
| DataKeys.ApplyAttr | js/header.js:118-128 | `className` and `innerHTML` are set as properties, everything else as an attribute; a non-`data` key is kept verbatim, a `data` key becomes its per-character rewrite, a lower-case name still starting with "data" |
| DataKeys.RewriteIsDasherize | js/header.js:124 | hyphenating then lower-casing equals the per-character mapping "upper-case letter to '-' plus its lower-case form" |
| DataKeys.DataAttributeNameIdempotent | js/header.js:123-124 | rewriting an already rewritten name changes nothing |
| DataKeys.DataKeyRoundTrip | js/header.js:123-124 | a `data` key without '-' is recovered from its attribute name by turning each '-' plus lower-case letter back into the upper-case letter |
| Nav.View | js/header.js:164-171 | a link gets the `is-active` class exactly when it is the current page, and `aria-current="page"` exactly then |
| Nav.BuildLinks | js/header.js:162-175 | one rendered link per configured link, same text and href, each marked active exactly when `isActivePath` holds for it |
| Nav.AtMostOneActive | js/header.js:162-175 | when no link is a prefix of another, at most one link is marked active on any page |
| Page.DefaultLinksPrefixFree | js/header.js:21-26 | the shipped links /menu, /shop, /about, /contact are prefix-free |
| Page.DefaultAtMostOneActive | js/header.js:162-171 | with the shipped configuration at most one navigation link is marked active on any page |
| Menu.ToggleMobileMenu | js/header.js:301-336 | without toggle or menu nothing changes; otherwise the menu ends open exactly when it was closed and not forced, all its attributes agree with that, and the header, scroll flag and menu contents are untouched |
| Menu.ForceCloseCloses | js/header.js:307-317 | a forced close always leaves a well-formed menu closed |
| Menu.ForceCloseIdempotent | js/header.js:307-317 | forcing the menu closed twice is the same as once |
| Menu.ForceCloseOnClosedIsNoop | js/header.js:307-317 | a forced close on a closed well-formed page leaves it exactly as it was |
| Menu.ToggleTwiceIsIdentity | js/header.js:301-336 | two plain toggles restore a well-formed page exactly |
| Menu.OnMenuClick | js/header.js:368-375 | a click on a menu nav link closes the menu, any other click inside it changes nothing, and it never opens the menu |
| Menu.OnKeydown | js/header.js:378-383 | Escape closes an open menu; any other key, or Escape on a closed menu, changes nothing |
| Menu.OnResizeSettled | js/header.js:398-406 | a width above 768 closes an open menu; otherwise nothing changes; it never opens the menu |
| Menu.OnDocumentClick | js/header.js:409-420 | a click whose target is, when the listener runs, inside neither menu nor toggle closes an open menu; other clicks change nothing; it never opens the menu |
| Menu.TargetListener | js/header.js:362-375 | the toggle's or the menu's own listener keeps the page well formed, can open the menu only for a click on the toggle, and does nothing for a click elsewhere |
| Menu.Click | js/header.js:360-420 | a click, with the document listener testing containment after the toggle has rewritten its icon, keeps the page well formed, can open the menu only when it lands on the button's own box, and never touches the header or scroll flag |
| Menu.IconClickAlwaysCloses | js/header.js:409-417 | as written, a click on the toggle's icon leaves the menu closed, even when it was closed: opening detaches the icon and the document listener closes again |
| Menu.ClickOnButtonFlips | js/header.js:362-365 | as written, a click on the toggle button's own box flips the menu |
| Menu.ClickIntended | js/header.js:360-420 | with containment judged where the click landed, a click keeps the page well formed, can open the menu only when it lands on the toggle, and never touches the header or scroll flag |
| Menu.ClickOnToggleFlips | js/header.js:362-365 | with containment judged where the click landed, any click on the toggle, button box or icon, flips the menu |
| Menu.ClickCloses | js/header.js:409-420 | a click outside both controls, or on a menu nav link, leaves the menu closed |
| Menu.ClickInsideMenuOffLinkKeepsState | js/header.js:369-375 | a click inside the menu but not on a nav link changes nothing |
| Scroll.HandleScroll | js/header.js:342-354 | disabled effect or missing header change nothing; otherwise the flag becomes `scrollY > threshold`; nothing is written when the flag is unchanged; the menu is untouched |
| Scroll.HandleScrollIdempotent | js/header.js:350-353 | a second call at the same offset writes nothing |
| Scroll.ThresholdIsStrict | js/header.js:348 | with the shipped threshold of 50, offset 50 is not scrolled and offset 51 is |
| Events.Step | js/header.js:360-421 | every event keeps the page well formed, only a click on the toggle button's own box opens the menu, scroll events leave the menu alone and other events leave the scroll flag alone |
| Events.RunPreservesWellFormed | js/header.js:360-421 | any sequence of events keeps the page well formed |
| Events.ClosedWithoutToggleClick | js/header.js:360-421 | a closed menu stays closed through any events without a click on the toggle button's own box |
| Events.ScrollFlagOnlyFromScrollEvents | js/header.js:386-395 | events other than scrolling never change the scroll flag or the header |
| Boot.BuildHeader | js/header.js:145-295 | the header, toggle and menu exist as the markup and configuration allow, start with `aria-expanded="false"` and `aria-hidden="true"`, mark links as `isActivePath` says, and form a well-formed closed page |
| Boot.Init | js/header.js:427-440 | the page after start-up is well formed, the menu is closed, and it is scrolled exactly when the effect is on, the header exists and the offset passes the threshold |

## Left out

- `js/footer.js` is the site stylesheet and holds no behaviour; `js/header copy.js` is an older variant of the header and is not part of this model.
- Markup assembly in `buildHeader`/`buildMobileMenu` (element nesting, social links, SVG icon strings, site name, `target`/`rel` attributes) is reduced to the records above: the nav links with their active marking, the toggle's initial attributes and the menu's `aria-hidden`.
- `createElement`'s child appending is not modelled; only its attribute dispatch is.
- DataKeys.LowerAll: lower-cases the ASCII letters A-Z only, whereas `toLowerCase` also folds non-ASCII letters; every key the script passes is ASCII.
- Timing is abstracted: the `requestAnimationFrame` scroll throttle, the 100 ms resize debounce and the delayed focus of the first menu link are left out; `Resize` stands for the debounced callback firing and `ScrollTo` for one animation frame.
- Focus moves (the first menu link on opening, the toggle on Escape) are not modelled, because they change no attribute the script reads.
- Scroll.HandleScroll: takes the scroll offset as an integer, whereas `window.scrollY` may be fractional.
- The page's own markup is assumed not to carry the classes and attributes the script manages (`is-active`, `is-scrolled`, `menu-open`, an inline `overflow`) when the script starts.
- Element presence is fixed for the page's lifetime, so listeners bound at start-up and elements queried on each event see the same elements.
- `e.target.matches('.nav-link')` and `contains(e.target)` are reduced to the `Target` a click lands on; the only change to the tree the model tracks between listeners is the toggle's icon being replaced, which detaches an icon target.
- `state.currentPath` is read once from `window.location.pathname`; it is a parameter here.
- The `window.KCHeader` API (`getState`, `updateConfig`) and the `document.readyState` branch of `init` are host glue.

## Findings

| source | as written | input that shows it | evidently intended | confidence | as-written member | corrected member |
|---|---|---|---|---|---|---|
| js/header.js:409-417 | the document click listener tests `toggle.contains(e.target)` after the toggle's own listener has replaced the button's `innerHTML` (js/header.js:324), so a clicked icon is detached and counts as outside | a well-formed page with the menu closed; click on the toggle's icon (it fills the button's content box, js/footer.js:287-291) | the click that opens the menu is not treated as a click outside it, so the menu stays open | not executed; high, from event bubbling and `Node.contains` on a detached node | Menu.IconClickAlwaysCloses | Menu.ClickOnToggleFlips |

`Menu.Click` models the listeners as written and `Menu.ClickIntended` judges
containment where the click landed. The event traces in `Events` follow the
script as written. `Events.RunPreservesWellFormed` and
`Events.ScrollFlagOnlyFromScrollEvents` hold under either click. The opening
clause of `Events.Step` and `Events.ClosedWithoutToggleClick` hold only for the
as-written click: under the intended click, a click on the toggle's icon also
opens a closed menu.
