# Storefront content cache and mobile-menu links

This project models two small pieces of logic from a commerce storefront.

**The content cache** (`frontend/src/lib/sanity/queries.ts`). The header and
footer documents come from the content API. They are read through one
process-wide read-through cache with a time-to-live. An entry younger than the
TTL (five minutes by default) is served without fetching. Otherwise the
producer runs. A value it resolves with is stored with the time the producer
finished. A rejection is masked by the key's old entry, however old. It reaches
the caller only when the key has no entry. The header and footer producers
flatten a logo that has an asset reference into `{url, alt}`, with the
alternative text defaulting to "Store logo". They replace any fetch error by a
fixed default document, so they never reject, and a default is cached like a
fetched document.

**The mobile-menu links** (`frontend/src/modules/layout/components/mobile-menu.tsx`).
A navigation href is external when it begins with "http", "https" or "www".
The pattern is anchored at the start only, so "httpfoo" is external. External
hrefs are kept as they are. Internal ones get a leading '/' unless they already
have one. Category links are `/categories/<handle>`.

Files:

- `wrappers.dfy`: `Option` and `Outcome` (how a producer settled).
- `content_types.dfy`: the header and footer documents and their nested records.
- `ttl_cache.dfy`: the cache. It holds `Serve`, the specification of one call
  as a function of the store. It holds `Replay`, the store after a sequence of
  calls. It holds the class `Cache`, whose method `Get` updates its map in place.
- `sanity_queries.dfy`: logo flattening, the default documents, the producers,
  and the class `ContentStore`. Its `GetHeader` and `GetFooter` share one cache.
- `mobile_menu.dfy`: href classification and normalisation, and the link lists.

Inputs that the source takes from the environment are parameters:

- `now` is the clock read for the freshness check (`queries.ts` line 10).
- `done` is the second clock read, taken when the producer finishes (line 15).
- `produced` / `fetched` is how the producer or the content fetch settled.
- `year` is the calendar year in the default footer.

A stored entry is stamped with the time the producer finished (the second
`Date.now()` at `queries.ts` line 15), not the time of the call. The code
demands neither a non-empty key nor a non-negative TTL, so the model does not
either.

## Model

| member | source | states |
|---|---|---|
| `TtlCache.EffectiveTtl` | frontend/src/lib/sanity/queries.ts:6-8 | With no TTL argument the TTL is 300000 ms (5 × 60 × 1000); a given TTL is used as it is |
| `TtlCache.Serve` | frontend/src/lib/sanity/queries.ts:8-24 | A fresh entry is returned with the store unchanged and the producer not consulted; the producer is consulted exactly when there is no fresh entry; a resolved value is returned and stored as `{data, completion time}`; a rejection leaves the store unchanged and yields the old entry's data, or the error when the key has none; errors escape only when the key is absent and the producer rejects; no other key is written and no key is removed |
| `TtlCache.ExpiresExactlyAtTtl` | frontend/src/lib/sanity/queries.ts:10 | Freshness is strict: an entry whose age equals the TTL is expired, one a millisecond younger is fresh |
| `TtlCache.StoredValueServedUntilExpiry` | frontend/src/lib/sanity/queries.ts:9-16 | After a call stores a value at completion time `done`, any later call for that key while `later - done < ttl` returns that value without consulting its producer |
| `TtlCache.ReplayIsolatesKeys` | frontend/src/lib/sanity/queries.ts:15 | Over any sequence of calls, the entry of a key that no call requests is exactly as it was (present or absent alike) |
| `TtlCache.ReplayNeverEvicts` | frontend/src/lib/sanity/queries.ts:5-24 | Over any sequence of calls no key loses its entry: the cache has no eviction |
| `TtlCache.ReplayAppend` | frontend/src/lib/sanity/queries.ts:5-24 | The cache persists across calls: the store after one more call is that call served on the store the earlier calls left |
| `TtlCache.LastStore` | frontend/src/lib/sanity/queries.ts:14-16 | Finds the last call in a sequence that ran its producer for a key and got a value: it stored, and no later call for that key did; none when no call did |
| `TtlCache.ReplayHoldsLatestStore` | frontend/src/lib/sanity/queries.ts:14-16 | After any sequence of calls a key holds the value and completion time of the last call that ran its producer for it and got a value; if no call did, it holds what it held at the start, or nothing |
| `TtlCache.ReplayEntriesComeFromSuccesses` | frontend/src/lib/sanity/queries.ts:14-16 | Every entry after a sequence of calls was there at the start or was stored by a call for that key that ran its producer, which resolved with that data and finished at that timestamp |
| `TtlCache.OneSecondScenario` | frontend/src/lib/sanity/queries.ts:8-24 | TTL 1000: "A" at 0 is served at 500 without the producer; at 1500 "B" replaces it; at 3000 a rejection is masked by the stale "B" |
| `TtlCache.Cache.constructor` | frontend/src/lib/sanity/queries.ts:5 | The cache starts empty |
| `TtlCache.Cache.Get` | frontend/src/lib/sanity/queries.ts:8-24 | The in-place method returns what `Serve` returns on the old map, reports whether the producer was consulted, and leaves the map `Serve` computes (the default TTL when none is passed) |
| `MobileMenu.MatchesAtStart` | frontend/src/modules/layout/components/mobile-menu.tsx:133 | An alternation anchored at the start matches iff one of its alternatives is a prefix of the string |
| `MobileMenu.IsExternal` | frontend/src/modules/layout/components/mobile-menu.tsx:133 | An href is external iff it begins with "http", "https" or "www" |
| `MobileMenu.ExternalIffHttpOrWww` | frontend/src/modules/layout/components/mobile-menu.tsx:133 | The "https" alternative is subsumed: external iff the href begins with "http" or "www" |
| `MobileMenu.RootedIsInternal` | frontend/src/modules/layout/components/mobile-menu.tsx:133-137 | An href that begins with '/' is never external |
| `MobileMenu.NormalizeHref` | frontend/src/modules/layout/components/mobile-menu.tsx:134-138 | The result is the href itself or '/' followed by it; it is unchanged iff the href is external or already begins with '/'; classification is preserved; every internal result begins with '/' |
| `MobileMenu.NormalizeIdempotent` | frontend/src/modules/layout/components/mobile-menu.tsx:133-138 | Normalising twice equals normalising once |
| `MobileMenu.NormalizeExamples` | frontend/src/modules/layout/components/mobile-menu.tsx:133-138 | "" becomes "/", "about" becomes "/about", "httpfoo" is external and kept, "/www" and "ftp://x" are internal |
| `MobileMenu.NavigationLinks` | frontend/src/modules/layout/components/mobile-menu.tsx:132-161 | One link per navigation entry, in order, with the entry's name, the normalised href and the external flag; every link is external or begins with '/' |
| `MobileMenu.NavigationLinksAreNormal` | frontend/src/modules/layout/components/mobile-menu.tsx:132-138 | Every rendered navigation href is a fixed point of normalisation |
| `MobileMenu.CategoryHref` | frontend/src/modules/layout/components/mobile-menu.tsx:174 | A category href is "/categories/" followed by exactly the handle |
| `MobileMenu.CategoryHrefInjective` | frontend/src/modules/layout/components/mobile-menu.tsx:174 | Distinct handles give distinct category hrefs |
| `MobileMenu.CategoryHrefIsNormal` | frontend/src/modules/layout/components/mobile-menu.tsx:174 | A category href is internal and unchanged by normalisation |
| `MobileMenu.CategoryLinks` | frontend/src/modules/layout/components/mobile-menu.tsx:171-180 | One internal link per category, in order, with the category's name and its category href |
| `MobileMenu.MenuLinks` | frontend/src/modules/layout/components/mobile-menu.tsx:132-182 | The menu lists the navigation links, then the category links (none when the list is missing or empty); every href in it is a fixed point of normalisation |
| `SanityQueries.FlattenLogo` | frontend/src/lib/sanity/queries.ts:64-69 | A missing document stays missing; a logo with an asset becomes `{url: asset.url, alt}` with alt the document's alt when truthy, otherwise "Store logo", and never empty; any other document is untouched; other fields never change and no asset reference remains |
| `SanityQueries.FlattenLogoIdempotent` | frontend/src/lib/sanity/queries.ts:137-142 | Flattening a flattened document changes nothing |
| `SanityQueries.DefaultHeader` | frontend/src/lib/sanity/queries.ts:74-82 | The default header has no logo, the store name "Medusa Store" and exactly four navigation entries |
| `SanityQueries.DefaultFooter` | frontend/src/lib/sanity/queries.ts:147-167 | The default footer has no title and no logo, two sections of three links each, and a copyright line that names the given year right after "© " |
| `SanityQueries.DefaultFooterShape` | frontend/src/lib/sanity/queries.ts:148-164 | Every link of the default footer is a site path beginning with '/' |
| `SanityQueries.DefaultHeaderShape` | frontend/src/lib/sanity/queries.ts:74-82 | The default header's store name is "Medusa Store", it has exactly four navigation entries, and every one is internal and already normal for the menu |
| `SanityQueries.Produce` | frontend/src/lib/sanity/queries.ts:62-83 | A producer never rejects: a failed fetch yields the default document, a successful one the flattened result, which has no asset reference left |
| `SanityQueries.ContentStore.constructor` | frontend/src/lib/sanity/queries.ts:5 | The shared cache starts empty |
| `SanityQueries.ContentStore.GetHeader` | frontend/src/lib/sanity/queries.ts:27-85 | With a fresh "header" entry its header is returned and nothing changes; otherwise the produced header (the default on a fetch error) is returned and cached under "header" with the completion time; the "footer" entry keeps its kind; a returned header never has an unflattened logo |
| `SanityQueries.ContentStore.GetFooter` | frontend/src/lib/sanity/queries.ts:87-170 | The same for "footer", with the default footer on a fetch error |

## Left out

- Concurrency: two overlapping calls for an expired or missing key can both run the producer, and the last store wins. The model runs one call at a time.
- A producer that throws synchronously instead of rejecting skips the stale fallback. Both producers here are `async`, so this path is not modelled.
- The content fetch and its query strings run on an external service; their outcome is an input.
- The `console.warn` calls are logging only.
- Times are integers of milliseconds. JavaScript's floating-point `Date.now()` values are not modelled.
- `logoHeight` and `logoWidth` are integers here, not floating-point numbers.
- The year in the default footer's copyright comes from the wall clock. It is a string parameter here.
- The menu's positioning (DOM measurement, observers, timers, resize listeners), its open/close state and the JSX rendering are UI.
- `LocalizedClientLink` adds the country code to internal links. That component is not part of this model; the model stops at the href passed to it.
- `search-bar-client.tsx`, `create-taiwan.ts`, the page-generation route handler, the client, CMS, schema and webhook configuration, and the product page are not part of this model.
