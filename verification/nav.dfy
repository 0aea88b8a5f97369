/** The navigation links rendered in the header bar and in the mobile menu,
    with the active-page marking `buildHeader` and `buildMobileMenu` apply. */
module Nav {
  import opened Wrappers
  import opened Paths

  datatype NavLink = NavLink(text: string, href: string)

  /** A rendered `<a>`: its class list and its `aria-current` attribute. */
  datatype LinkView = LinkView(text: string, href: string, className: string, ariaCurrent: Option<string>)

  const PlainClass: string := "nav-link"
  const ActiveClass: string := "nav-link is-active"

  predicate MarkedActive(v: LinkView) {
    v.className == ActiveClass
  }

  function View(currentPath: string, link: NavLink): (v: LinkView)
    ensures v.text == link.text && v.href == link.href
    ensures MarkedActive(v) <==> IsActivePath(currentPath, link.href)
    ensures !MarkedActive(v) ==> v.className == PlainClass && v.ariaCurrent == None
    ensures MarkedActive(v) ==> v.ariaCurrent == Some("page")
  {
    if IsActivePath(currentPath, link.href) then
      LinkView(link.text, link.href, ActiveClass, Some("page"))
    else
      LinkView(link.text, link.href, PlainClass, None)
  }

  /** One rendered link per configured link, in order; a link is marked active
      (class and `aria-current`) exactly when it is the current page. */
  function BuildLinks(currentPath: string, links: seq<NavLink>): (r: seq<LinkView>)
    ensures |r| == |links|
    ensures forall i :: 0 <= i < |links| ==> r[i].text == links[i].text && r[i].href == links[i].href
    ensures forall i :: 0 <= i < |links| ==> (MarkedActive(r[i]) <==> IsActivePath(currentPath, links[i].href))
    ensures forall i :: 0 <= i < |links| ==> (r[i].ariaCurrent == Some("page") <==> MarkedActive(r[i]))
    ensures forall i :: 0 <= i < |links| ==> (r[i].ariaCurrent == None <==> !MarkedActive(r[i]))
  {
    if links == [] then [] else [View(currentPath, links[0])] + BuildLinks(currentPath, links[1..])
  }

  /** No configured link is, after normalisation, a prefix of another. */
  predicate PrefixFree(links: seq<NavLink>) {
    forall i, j :: 0 <= i < |links| && 0 <= j < |links| && i != j ==>
      !StartsWith(Normalize(links[j].href), Normalize(links[i].href))
  }

  /** With prefix-free links at most one link is marked active on any page. */
  lemma AtMostOneActive(currentPath: string, links: seq<NavLink>)
    requires PrefixFree(links)
    ensures var r := BuildLinks(currentPath, links);
      forall i, j :: 0 <= i < |r| && 0 <= j < |r| && MarkedActive(r[i]) && MarkedActive(r[j]) ==> i == j
  {
    var r := BuildLinks(currentPath, links);
    forall i, j | 0 <= i < |r| && 0 <= j < |r| && MarkedActive(r[i]) && MarkedActive(r[j])
      ensures i == j
    {
      var current := Normalize(currentPath);
      var a := Normalize(links[i].href);
      var b := Normalize(links[j].href);
      assert StartsWith(current, a) && StartsWith(current, b);
      PrefixesAreComparable(a, b, current);
    }
  }
}
