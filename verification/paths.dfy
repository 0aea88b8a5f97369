/** Active-link detection for the site header: the path normalisation and the
    exact-or-child-page match that decides whether a navigation link is the
    current page. */
module Paths {

  /** `s.startsWith(prefix)`: `prefix` is an initial segment of `s`. */
  predicate StartsWith(s: string, prefix: string) {
    prefix <= s
  }

  predicate EndsWithSlash(s: string) {
    |s| > 0 && s[|s| - 1] == '/'
  }

  /** `s.replace(/\/$/, '')`. Without the multiline flag `$` only matches at
      the very end of the string, so at most one '/' is removed. */
  function StripTrailingSlash(s: string): (r: string)
    ensures r == s || r + "/" == s
    ensures r == s <==> !EndsWithSlash(s)
  {
    if EndsWithSlash(s) then s[..|s| - 1] else s
  }

  /** `s.replace(/\/$/, '') || '/'`: the empty string is falsy, so it becomes
      the root path. */
  function Normalize(s: string): (r: string)
    ensures r != ""
    ensures r == s || r + "/" == s || (s == "" && r == "/")
  {
    var t := StripTrailingSlash(s);
    if t == "" then "/" else t
  }

  /** `isActivePath(href)` with the page's current path made explicit. */
  function IsActivePath(currentPath: string, href: string): (r: bool)
    ensures Normalize(currentPath) == Normalize(href) ==> r
    ensures r ==> StartsWith(Normalize(currentPath), Normalize(href))
  {
    var current := Normalize(currentPath);
    var link := Normalize(href);
    if current == link then true
    else if link != "/" && StartsWith(current, link) then true
    else false
  }

  /** One trailing slash makes no difference: "/shop/" and "/shop" name the
      same page, and so do "" and "/". */
  lemma NormalizeIgnoresTrailingSlash(s: string)
    requires !EndsWithSlash(s)
    ensures Normalize(s + "/") == Normalize(s)
  {
  }

  /** Exactly the paths "", "/" and "//" normalise to the root. */
  lemma NormalizeIsRoot(s: string)
    ensures Normalize(s) == "/" <==> s == "" || s == "/" || s == "//"
  {
  }

  /** Normalisation removes one slash per call, so it is not idempotent. */
  lemma NormalizeNotIdempotent()
    ensures Normalize("/shop//") == "/shop/"
    ensures Normalize(Normalize("/shop//")) == "/shop"
  {
  }

  /** A link is active exactly when its normalised form is a prefix of the
      normalised current path, except that the root link needs an exact
      match. */
  lemma ActiveIff(currentPath: string, href: string)
    ensures IsActivePath(currentPath, href)
        <==> StartsWith(Normalize(currentPath), Normalize(href))
             && (Normalize(href) == "/" ==> Normalize(currentPath) == "/")
  {
  }

  /** The root link is active on the home page and nowhere else. */
  lemma RootLinkActiveOnlyAtRoot(currentPath: string, href: string)
    requires Normalize(href) == "/"
    ensures IsActivePath(currentPath, href) <==> Normalize(currentPath) == "/"
  {
  }

  /** Child pages of a non-root link make it active. */
  lemma ChildPageActive(currentPath: string, href: string)
    requires Normalize(href) != "/"
    requires StartsWith(Normalize(currentPath), Normalize(href))
    ensures IsActivePath(currentPath, href)
  {
  }

  /** The match is a plain string prefix, not a path-segment prefix. */
  lemma PrefixMatchIsNotSegmentAware()
    ensures IsActivePath("/shop/item", "/shop")
    ensures IsActivePath("/shopping", "/shop")
    ensures IsActivePath("/shop/", "/shop")
    ensures !IsActivePath("/shop", "/")
    ensures IsActivePath("", "/")
  {
  }

  /** Two prefixes of the same string are prefixes of one another. */
  lemma PrefixesAreComparable(a: string, b: string, s: string)
    requires a <= s && b <= s
    ensures a <= b || b <= a
  {
  }

  /** For a link written without a trailing slash (every configured link),
      normalising the current path changes nothing: the link is active
      exactly when the raw current path starts with it. */
  lemma PlainLinkActiveIffRawPrefix(currentPath: string, href: string)
    requires href != "" && !EndsWithSlash(href)
    ensures IsActivePath(currentPath, href) <==> StartsWith(currentPath, href)
  {
  }
}
