/**
 * The links of the mobile menu: each navigation entry is classified as
 * external or internal and its href normalised; each product category
 * becomes an internal link under `/categories/`.
 */
module MobileMenu {
  import opened Wrappers
  import opened ContentTypes

  /** The alternatives of the external-link pattern, anchored at the start only. */
  const ExternalPrefixes: seq<string> := ["http", "https", "www"]

  /** The path under which category pages live. */
  const CategoryPrefix: string := "/categories/"

  /** Whether `s` begins with one of `alternatives`: an alternation matched at the start of `s` only. */
  function MatchesAtStart(alternatives: seq<string>, s: string): (r: bool)
    ensures r <==> exists i | 0 <= i < |alternatives| :: alternatives[i] <= s
  {
    if alternatives == [] then false
    else if alternatives[0] <= s then true
    else
      var rest := MatchesAtStart(alternatives[1..], s);
      assert forall i | 1 <= i < |alternatives| :: alternatives[i] == alternatives[1..][i - 1];
      rest
  }

  /** Whether a navigation href counts as external. */
  function IsExternal(href: string): (r: bool)
    ensures r <==> "http" <= href || "https" <= href || "www" <= href
  {
    assert ExternalPrefixes[0] == "http" && ExternalPrefixes[1] == "https" && ExternalPrefixes[2] == "www";
    MatchesAtStart(ExternalPrefixes, href)
  }

  /** The "https" alternative adds nothing: an href is external iff it begins with "http" or "www". */
  lemma ExternalIffHttpOrWww(href: string)
    ensures IsExternal(href) <==> "http" <= href || "www" <= href
  {
  }

  /** Whether an href is rooted, that is begins with '/'. */
  predicate IsRooted(href: string) {
    |href| > 0 && href[0] == '/'
  }

  /** A rooted href is never external. */
  lemma RootedIsInternal(href: string)
    requires IsRooted(href)
    ensures !IsExternal(href)
  {
  }

  /**
   * The href a navigation entry links to: external hrefs as they are,
   * internal ones rooted at '/'.
   */
  function NormalizeHref(href: string): (r: string)
    // At most one '/' is prepended, and only to an internal href that lacks it.
    ensures r == href || r == "/" + href
    ensures r == href <==> IsExternal(href) || IsRooted(href)
    // The classification is kept, and every internal result is rooted.
    ensures IsExternal(r) == IsExternal(href)
    ensures !IsExternal(href) ==> IsRooted(r)
  {
    if IsExternal(href) then href
    else if |href| > 0 && href[0] == '/' then href
    else
      var r := "/" + href;
      RootedIsInternal(r);
      r
  }

  /** Normalising twice gives the same href as normalising once. */
  lemma NormalizeIdempotent(href: string)
    ensures NormalizeHref(NormalizeHref(href)) == NormalizeHref(href)
  {
  }

  /** The empty href becomes the root, and "httpfoo" is external because the pattern is anchored at the start only. */
  lemma NormalizeExamples()
    ensures NormalizeHref("") == "/"
    ensures NormalizeHref("about") == "/about"
    ensures IsExternal("httpfoo") && NormalizeHref("httpfoo") == "httpfoo"
    ensures !IsExternal("/www") && !IsExternal("ftp://x")
  {
    assert "http" <= "httpfoo";
    assert "ftp://x"[0] != "www"[0] && "ftp://x"[0] != "http"[0];
  }

  /** A rendered menu link: its text, its href, and whether it opens as an external link. */
  datatype Link = Link(name: string, href: string, external: bool)

  /** A product category as the menu receives it. */
  datatype Category = Category(id: string, handle: string, name: string)

  /** The links for the navigation entries, in order. */
  function NavigationLinks(items: seq<NavItem>): (links: seq<Link>)
    ensures |links| == |items|
    ensures forall i | 0 <= i < |items| ::
      links[i] == Link(items[i].name, NormalizeHref(items[i].href), IsExternal(items[i].href))
    ensures forall i | 0 <= i < |links| :: links[i].external || IsRooted(links[i].href)
  {
    if items == [] then []
    else
      var item := items[0];
      [Link(item.name, NormalizeHref(item.href), IsExternal(item.href))] + NavigationLinks(items[1..])
  }

  /** Normalising the hrefs of rendered navigation links again changes nothing. */
  lemma NavigationLinksAreNormal(items: seq<NavItem>)
    ensures forall l | l in NavigationLinks(items) :: NormalizeHref(l.href) == l.href
  {
  }

  /** The href of a category page. */
  function CategoryHref(handle: string): (r: string)
    ensures CategoryPrefix <= r && r[|CategoryPrefix|..] == handle
  {
    CategoryPrefix + handle
  }

  /** Distinct handles give distinct category hrefs. */
  lemma CategoryHrefInjective(a: string, b: string)
    requires CategoryHref(a) == CategoryHref(b)
    ensures a == b
  {
  }

  /** A category href is internal and already normal. */
  lemma CategoryHrefIsNormal(handle: string)
    ensures !IsExternal(CategoryHref(handle))
    ensures NormalizeHref(CategoryHref(handle)) == CategoryHref(handle)
  {
    RootedIsInternal(CategoryHref(handle));
  }

  /** The links for the categories, in order; all internal. */
  function CategoryLinks(categories: seq<Category>): (links: seq<Link>)
    ensures |links| == |categories|
    ensures forall i | 0 <= i < |categories| ::
      links[i] == Link(categories[i].name, CategoryHref(categories[i].handle), false)
  {
    if categories == [] then []
    else [Link(categories[0].name, CategoryHref(categories[0].handle), false)] + CategoryLinks(categories[1..])
  }

  /**
   * All links of the open menu: the navigation entries first, then the
   * categories. A missing list renders nothing.
   */
  function MenuLinks(navigation: Option<seq<NavItem>>, categories: Option<seq<Category>>): (links: seq<Link>)
    ensures var nav := navigation.GetOr([]);
            var cats := categories.GetOr([]);
            |links| == |nav| + |cats| &&
            links[..|nav|] == NavigationLinks(nav) &&
            links[|nav|..] == CategoryLinks(cats)
    ensures forall l | l in links :: NormalizeHref(l.href) == l.href
  {
    var nav := NavigationLinks(navigation.GetOr([]));
    var cats := if categories.Some? && |categories.value| > 0 then CategoryLinks(categories.value) else [];
    NavigationLinksAreNormal(navigation.GetOr([]));
    forall l | l in cats ensures NormalizeHref(l.href) == l.href {
      var i :| 0 <= i < |cats| && cats[i] == l;
      CategoryHrefIsNormal(categories.value[i].handle);
    }
    nav + cats
  }
}
