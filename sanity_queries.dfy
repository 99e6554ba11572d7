/**
 * The header and footer queries of the content API, served through the one
 * process-wide TTL cache under the keys "header" and "footer".
 *
 * Each query's producer fetches the document, flattens a logo that carries
 * an asset reference into its URL and an alternative text, and replaces any
 * fetch error by a fixed default document. The fetch itself is external: its
 * outcome is an input. The producers therefore never reject, and a default
 * is cached like any fetched document.
 */
module SanityQueries {
  import opened Wrappers
  import opened ContentTypes
  import opened TtlCache
  import MobileMenu

  /** The alternative text a flattened logo gets when the document has none. */
  const DefaultLogoAlt: string := "Store logo"

  const HeaderKey: string := "header"
  const FooterKey: string := "footer"

  /** JavaScript truthiness of an optional string: present and not empty. */
  predicate Truthy(s: Option<string>) {
    s.Some? && s.value != ""
  }

  /** Whether a document still has a logo with an asset reference. */
  predicate HasLogoAsset<F>(d: Document<F>) {
    d.logo.Some? && d.logo.value.SanityLogo? && d.logo.value.asset.Some?
  }

  /**
   * The logo flattening both producers apply to a fetched document (which
   * is absent when no document exists).
   */
  function FlattenLogo<F>(result: Option<Document<F>>): (r: Option<Document<F>>)
    ensures r.Some? <==> result.Some?
    // Only the logo may change, and no asset reference is left.
    ensures r.Some? ==> r.value.fields == result.value.fields && !HasLogoAsset(r.value)
    // A logo with an asset becomes the asset's URL and a non-empty alternative text.
    ensures result.Some? && HasLogoAsset(result.value) ==>
      var logo := result.value.logo.value;
      && r.value.logo == Some(FlatLogo(logo.asset.value.url, if Truthy(logo.alt) then logo.alt.value else DefaultLogoAlt))
      && r.value.logo.value.flatAlt != ""
    // Any other document is returned untouched.
    ensures result.Some? && !HasLogoAsset(result.value) ==> r == result
  {
    match result
    case None => None
    case Some(d) =>
      if HasLogoAsset(d) then
        var logo := d.logo.value;
        var alt := if Truthy(logo.alt) then logo.alt.value else DefaultLogoAlt;
        Some(d.(logo := Some(FlatLogo(logo.asset.value.url, alt))))
      else result
  }

  /** Flattening an already flattened document changes nothing. */
  lemma FlattenLogoIdempotent<F>(result: Option<Document<F>>)
    ensures FlattenLogo(FlattenLogo(result)) == FlattenLogo(result)
  {
  }

  /** The header served when the fetch fails. */
  function DefaultHeader(): (h: Header)
    ensures h.logo.None?
    ensures h.fields.storeName == Some("Medusa Store")
    ensures h.fields.navigation.Some? && |h.fields.navigation.value| == 4
  {
    Document(None, HeaderFields(
      Some("Medusa Store"),
      None,
      Some([NavItem("首頁", "/"), NavItem("商品", "/store"), NavItem("關於我們", "/about"), NavItem("聯絡我們", "/contact")]),
      None))
  }

  /**
   * The default header names the store "Medusa Store" and has exactly four
   * navigation entries, all internal and already normal.
   */
  lemma DefaultHeaderShape()
    ensures DefaultHeader().fields.storeName == Some("Medusa Store")
    ensures DefaultHeader().fields.navigation.Some? && |DefaultHeader().fields.navigation.value| == 4
    ensures forall item | item in DefaultHeader().fields.navigation.value ::
      !MobileMenu.IsExternal(item.href) && MobileMenu.NormalizeHref(item.href) == item.href
  {
    forall item | item in DefaultHeader().fields.navigation.value
      ensures !MobileMenu.IsExternal(item.href) && MobileMenu.NormalizeHref(item.href) == item.href
    {
      assert MobileMenu.IsRooted(item.href);
      MobileMenu.RootedIsInternal(item.href);
    }
  }

  /** The text that precedes the year in the default copyright line. */
  const CopyrightHead: string := "© "

  /** The footer served when the fetch fails; `year` is the current calendar year as text. */
  function DefaultFooter(year: string): (f: Footer)
    ensures f.logo.None? && f.fields.title.None?
    // Two sections of three links each.
    ensures f.fields.sections.Some? && |f.fields.sections.value| == 2
    ensures forall sec | sec in f.fields.sections.value :: sec.links.Some? && |sec.links.value| == 3
    // The copyright line names the year right after its head.
    ensures f.fields.copyright.Some?
    ensures var c := f.fields.copyright.value;
      |c| >= |CopyrightHead| + |year| && c[..|CopyrightHead|] == CopyrightHead
      && c[|CopyrightHead|..|CopyrightHead| + |year|] == year
  {
    Document(None, FooterFields(
      None,
      None,
      Some([
        FooterSection("商品", Some([
          FooterLink("所有商品", "/store"),
          FooterLink("新品上市", "/collections/new"),
          FooterLink("特價商品", "/collections/sale")])),
        FooterSection("服務", Some([
          FooterLink("配送資訊", "/shipping"),
          FooterLink("退換貨", "/returns"),
          FooterLink("客戶服務", "/support")]))]),
      None,
      None,
      Some(CopyrightHead + year + " Medusa Store. All rights reserved.")))
  }

  /** Every link of the default footer is a site path beginning with '/'. */
  lemma DefaultFooterShape(year: string)
    ensures forall sec, l | sec in DefaultFooter(year).fields.sections.value && l in sec.links.value ::
      MobileMenu.IsRooted(l.url)
  {
  }

  /**
   * A producer of the cache: the fetched document with its logo flattened,
   * or `fallback` when the fetch failed. It never rejects.
   */
  function Produce<F, E>(fetched: Outcome<Option<Document<F>>, E>, fallback: Document<F>): (r: Option<Document<F>>)
    ensures fetched.Failure? ==> r == Some(fallback)
    ensures fetched.Success? ==> r == FlattenLogo(fetched.value)
    // What a successful fetch yields never keeps an asset reference in its logo.
    ensures fetched.Success? && r.Some? ==> !HasLogoAsset(r.value)
  {
    match fetched
    case Success(result) => FlattenLogo(result)
    case Failure(_) => Some(fallback)
  }

  /** A value of the shared cache: a header or a footer. */
  datatype Cached = HeaderValue(header: Option<Header>) | FooterValue(footer: Option<Footer>)

  /** The queries and the one cache they share. */
  class ContentStore {
    const cache: Cache<Cached>

    /**
     * The "header" key holds a header and the "footer" key a footer, each
     * with its logo already flattened.
     */
    ghost predicate Valid()
      reads this, cache
    {
      && (HeaderKey in cache.entries ==>
            var v := cache.entries[HeaderKey].data;
            v.HeaderValue? && (v.header.Some? ==> !HasLogoAsset(v.header.value)))
      && (FooterKey in cache.entries ==>
            var v := cache.entries[FooterKey].data;
            v.FooterValue? && (v.footer.Some? ==> !HasLogoAsset(v.footer.value)))
    }

    constructor ()
      ensures Valid() && fresh(cache) && cache.entries == map[]
    {
      cache := new Cache<Cached>();
    }

    /**
     * The header: from a fresh cache entry, or produced from `fetched` (the
     * fetch started at `now` and finished at `done`) and cached.
     */
    method GetHeader<E>(now: int, fetched: Outcome<Option<Header>, E>, done: int) returns (header: Option<Header>)
      requires Valid()
      modifies cache
      ensures Valid()
      ensures header.Some? ==> !HasLogoAsset(header.value)
      ensures var before := old(cache.entries);
        if HeaderKey in before && IsFresh(before[HeaderKey], now, CacheTtl) then
          header == before[HeaderKey].data.header && cache.entries == before
        else
          header == Produce(fetched, DefaultHeader()) &&
          cache.entries == before[HeaderKey := Entry(HeaderValue(header), done)]
    {
      var produced: Outcome<Cached, E> := Success(HeaderValue(Produce(fetched, DefaultHeader())));
      var r, _ := cache.Get(HeaderKey, now, produced, done, None);
      header := r.value.header;
    }

    /**
     * The footer: from a fresh cache entry, or produced from `fetched` (the
     * default footer naming `year`) and cached.
     */
    method GetFooter<E>(now: int, fetched: Outcome<Option<Footer>, E>, done: int, year: string) returns (footer: Option<Footer>)
      requires Valid()
      modifies cache
      ensures Valid()
      ensures footer.Some? ==> !HasLogoAsset(footer.value)
      ensures var before := old(cache.entries);
        if FooterKey in before && IsFresh(before[FooterKey], now, CacheTtl) then
          footer == before[FooterKey].data.footer && cache.entries == before
        else
          footer == Produce(fetched, DefaultFooter(year)) &&
          cache.entries == before[FooterKey := Entry(FooterValue(footer), done)]
    {
      var produced: Outcome<Cached, E> := Success(FooterValue(Produce(fetched, DefaultFooter(year))));
      var r, _ := cache.Get(FooterKey, now, produced, done, None);
      footer := r.value.footer;
    }
  }
}
