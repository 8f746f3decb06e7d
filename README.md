# Pokédex core in Dafny

This project models the core of a small React Pokédex: a Zustand store for the simulated
session and the captured Pokémon, a service layer over the public PokéAPI, and the logic of
the three pages and the card component that use them.

It has one module per source file, plus three shared modules:

- `AuthStore` (auth_store.dfy) is the store: a `Store` class with the four state fields.
  - Its methods are `login`, `logout`, `capturePokemon` and `releasePokemon`, plus the
    start-up rehydration.
  - Its functions are `isPokemonCaptured` and `partialize`.
  - The list work inside the actions (`some`, append, `filter`, `find`) is written as
    functions on sequences. The store's promises are proved about those functions: one entry
    per id, capture is idempotent, release removes every entry with the id, and the id set
    after any sequence of actions is given by a set-level reference.
- `PokemonApi` (pokemon_api.dfy) is the service. Each `fetch` is a function parameter
  from URL to reply. A reply is a rejected fetch, or an `ok` flag with a body that failed or
  succeeded to decode. Each call is the projection the service performs on those replies,
  error cases included.
- `Home` (home_page.dfy) is the home page.
  - Functions: search mode, the name filter, the search-mode page slice, the page count, the
    pagination conditions and the screen the page picks.
  - A `SearchSession` class holds `searchTerm`, `debouncedSearchTerm`, `currentPage` and the
    cached basic index. Its methods are the input handler, the debounce commit with the page
    reset, the index fetch settling and the three kinds of pagination click.
- `Card` (pokemon_card.dfy) has the type colour table (`getTypeColor`; the detail page
  declares its own copy with the same table and the same grey fallback, so `DetailPage`
  uses `Card.TypeColor` for both), the `#007` id label, the card's link,
  what a card shows, and the capture toggle acting on a `Store`.
- `DetailPage` (pokemon_detail_page.dfy) covers:
  - the id read from the route with `parseInt`;
  - the formatting of the fetched record;
  - the height, weight and stat labels and the three stat summaries;
  - the screen it picks;
  - a `DetailSession` class for the route parameter and the held record, with the capture
    toggle.
- `Favorites` (favorites_page.dfy) has the restricted view, the three summary figures and
  one card per captured Pokémon.
- `Text` (text.dfy) holds the JavaScript string operations the pages rely on:
  - `trim` with the ECMAScript white-space set;
  - `toLowerCase` on ASCII;
  - `includes`, `padStart`, number to decimal string, and decimal `parseInt`.
- `Catalog` (catalog.dfy) holds the `{id, name, image, types}` record shared by the store and
  the service, and the sprite URL.
- `Wrappers` (wrappers.dfy) holds `Option` and `Result`.

The service throws on failure. That becomes a `Result` whose `Err` names the thrown
message. React's re-renders and effects become explicit method calls on the page classes, in
the order the effects run. Observations that the code produces and that a reader may not
expect are stated as lemmas or small scenario methods. Examples:

- `DetailPage.NameRouteDisabled`: a Pokémon name in the detail route disables the query.
- `DetailPage.StaleRecordAfterNavigation`: the detail page keeps showing the previous record
  after such a navigation. The app's own links never go from one detail route to another:
  the header links to `/` and `/favorites`, and the detail page's buttons go back to `/`. So
  only a URL edited by hand reaches this state.
- `PokemonApi.NotFoundDetailStillListed`: a 404 detail reply with a readable body still
  becomes a list item.
- `Home.BlankTermNoResults`: a blank typed term keeps browse mode, yet "no results" can
  show beside the browse pagination. This happens when the browse page has no cards, for
  example while it loads, because a typed term suppresses the spinner. With a loaded browse
  page the grid shows its cards and the message does not appear.

## Model

| member | source | states |
|---|---|---|
| AuthStore.AnyWithId | src/stores/authStore.ts:136-139 | `some(p => p.id === id)` holds exactly when some entry has that id |
| AuthStore.WithoutId | src/stores/authStore.ts:129-134 | the filtered list keeps exactly the entries with another id, is no longer, and holds no entry with the id |
| AuthStore.CaptureAppends | src/stores/authStore.ts:118-127 | capturing an absent id appends the record after the earlier entries |
| AuthStore.CaptureMembership | src/stores/authStore.ts:118-127 | after a capture an id is held iff it was held before or is the captured one |
| AuthStore.CaptureIdempotent | src/stores/authStore.ts:118-127 | capturing the same record twice is capturing it once |
| AuthStore.ReleaseAbsent | src/stores/authStore.ts:129-134 | releasing an id nobody holds leaves the list as it was |
| AuthStore.ReleaseIdempotent | src/stores/authStore.ts:129-134 | releasing twice is releasing once |
| AuthStore.ReleaseDistributes | src/stores/authStore.ts:132 | filtering a concatenation filters each part, so release keeps the order of the others |
| AuthStore.HeldIdIsCaptured | src/stores/authStore.ts:136-139 | an id in the list's id set is reported captured |
| AuthStore.CaptureIds | src/stores/authStore.ts:118-127 | the id set after a capture is the old set plus the new id |
| AuthStore.ReleaseIds | src/stores/authStore.ts:129-134 | the id set after a release is the old set minus the id |
| AuthStore.CapturePreservesDistinct | src/stores/authStore.ts:118-127 | capture never creates two entries with one id |
| AuthStore.ReleasePreservesDistinct | src/stores/authStore.ts:129-134 | release keeps the ids distinct |
| AuthStore.RunTracksIds | src/stores/authStore.ts:118-134 | after any sequence of captures and releases the id set equals a set-only reference run, and ids stay distinct |
| AuthStore.RunIdSetKeeps | src/stores/authStore.ts:118-134 | in the reference run an id stays present while no action releases it |
| AuthStore.CapturedUntilReleased | src/stores/authStore.ts:118-139 | a captured Pokémon is reported captured after any actions that do not release its id |
| AuthStore.FindAccount | src/stores/authStore.ts:86 | a match is found iff some account has that email and password, and it is the first such account |
| AuthStore.RosterLogins | src/stores/authStore.ts:37-68 | a listed email with its password finds its account; a wrong password or an unlisted email finds none |
| AuthStore.Store.constructor | src/stores/authStore.ts:73-77 | signed out, not loading, nothing captured |
| AuthStore.Store.Login | src/stores/authStore.ts:80-106 | success iff the credentials match an account; on success the user is that account without its password, otherwise the session stays as it was; the message follows the outcome; loading ends false; captures untouched |
| AuthStore.Store.Logout | src/stores/authStore.ts:108-115 | signed out, not loading, captured list cleared |
| AuthStore.Store.CapturePokemon | src/stores/authStore.ts:118-127 | the record is appended iff its id is absent, otherwise nothing changes; the id is then held; session fields untouched; distinct ids kept |
| AuthStore.Store.ReleasePokemon | src/stores/authStore.ts:129-134 | every entry with the id goes and the rest keep their order; the id is then not held; session fields untouched |
| AuthStore.Store.IsPokemonCaptured | src/stores/authStore.ts:136-139 | true iff some captured entry has the id |
| AuthStore.Store.Partialize | src/stores/authStore.ts:141-147 | the snapshot holds user, session flag and captured list, not `isLoading` |
| AuthStore.Store.Rehydrate | src/stores/authStore.ts:70-72 | merging a snapshot restores exactly the persisted fields and leaves `isLoading` |
| AuthStore.ReloadKeepsCaptures | src/stores/authStore.ts:141-147 | captures made before a reload are all there after rehydration, and no others |
| Catalog.SpriteUrlInjective | src/services/pokemonApi.ts:92 | distinct ids have distinct sprite URLs |
| PokemonApi.DefaultListUrl | src/services/pokemonApi.ts:77-79 | the default listing asks for `limit=20&offset=0` |
| PokemonApi.BulkListUrl | src/services/pokemonApi.ts:107 | the bulk listing asks for `limit=1302` |
| PokemonApi.Checked | src/services/pokemonApi.ts:63-74 | a reply is accepted iff it arrived, is `ok` and decoded; a non-ok reply gives the call's own error |
| PokemonApi.ReadDetails | src/services/pokemonApi.ts:85-97 | succeeds iff every entry's reply arrived and decoded; then one item per entry in listing order, each built from its own reply |
| PokemonApi.GetPokemonById | src/services/pokemonApi.ts:63-74 | succeeds iff the reply arrived, is ok and decoded, and then returns the decoded body; a rejected fetch gives the network error; a non-ok reply rejects with the not-found message for that id |
| PokemonApi.GetPokemonList | src/services/pokemonApi.ts:77-102 | a non-ok listing rejects; succeeds iff the listing is accepted and every entry's detail reply arrived and decoded; a result has one item per listed entry, in order, built from that entry's detail reply |
| PokemonApi.GetAllPokemonBasic | src/services/pokemonApi.ts:105-125 | fails exactly when the bulk listing check fails; a non-ok listing gives its own error |
| PokemonApi.GetAllPokemon | src/services/pokemonApi.ts:128-153 | a non-ok bulk listing rejects with its own error; succeeds iff the listing is accepted and every entry's detail reply arrived and decoded; a result has one item per listed entry, in order, built from that entry's detail reply |
| PokemonApi.BasicIndexShape | src/services/pokemonApi.ts:114-120 | the basic index keeps the listing's names in order and numbers them 1, 2, 3, ..., so its ids increase |
| PokemonApi.ItemShape | src/services/pokemonApi.ts:89-94 | an item keeps id and name, lists the type names in order, and its image is the sprite for the id |
| PokemonApi.DetailStatusIgnored | src/services/pokemonApi.ts:86-87 | the per-entry fetches do not consult `ok`: replies that agree on arrival and body give the same result |
| PokemonApi.NotFoundDetailStillListed | src/services/pokemonApi.ts:85-97 | a 404 detail reply with a readable body still becomes an item |
| Text.TrimStartSpec | src/pages/HomePage.tsx:40 | dropping leading white space keeps a suffix that starts with a non-white-space character, and drops only white space |
| Text.TrimEndSpec | src/pages/HomePage.tsx:40 | dropping trailing white space keeps a prefix that ends with a non-white-space character, and drops only white space |
| Text.TrimEmptyIff | src/pages/HomePage.tsx:40 | `trim()` is empty iff every character is ECMAScript white space |
| Text.ToLowerIdempotent | src/components/ui/PokemonCard.tsx:52 | lower-casing twice is lower-casing once |
| Text.Contains | src/pages/HomePage.tsx:48 | `includes` holds iff the needle occurs at some position |
| Text.NatToStringRoundTrip | src/components/ui/PokemonCard.tsx:112 | the decimal digits of a number read back as the number |
| Text.IntToStringInjective | src/pages/PokemonDetailPage.tsx:46 | distinct integers give distinct decimal strings |
| Text.PadStart | src/components/ui/PokemonCard.tsx:112 | the result has length max(len, width), ends with the input and starts with fill characters only |
| Text.LeadingZerosValue | src/components/ui/PokemonCard.tsx:112 | leading zeros do not change a digit string's value |
| Text.ParseIntDigitPrefix | src/pages/PokemonDetailPage.tsx:31 | a digit run followed by a non-digit parses to the run's value |
| Text.ParseIntOfIntToString | src/pages/PokemonDetailPage.tsx:31 | `parseInt` reads back any integer's decimal string, negatives included |
| Home.IsSearchingIff | src/pages/HomePage.tsx:40 | search mode is on iff the committed term has a non-white-space character |
| Home.MatchingBasic | src/pages/HomePage.tsx:47-49 | the filter keeps exactly the entries whose lower-cased name contains the lower-cased term, and is no longer than the index |
| Home.MatchingDistributes | src/pages/HomePage.tsx:47-49 | filtering a concatenation filters each part, so matches keep index order |
| Home.MatchingIgnoresCase | src/pages/HomePage.tsx:48 | matching gives the same answer for lower-cased name and term |
| Home.EmptyTermMatchesAll | src/pages/HomePage.tsx:48 | the empty term matches every name |
| Home.FilteredPokemon | src/pages/HomePage.tsx:44-60 | with search on and the index loaded, one card per match in order; otherwise the browse page or nothing |
| Home.FilteredIsExactlyMatches | src/pages/HomePage.tsx:44-60 | a card is in the search results iff it is the card of a matching index entry; such cards have the sprite image and no types |
| Home.PaginatedResults | src/pages/HomePage.tsx:63-69 | in search mode, page `p` holds up to 20 results starting at `20p`, in order, and is empty past the end; browsing shows the list itself |
| Home.PageCount | src/pages/HomePage.tsx:74 | the page count is the least number of 20-card pages that holds all results |
| Home.BrowsePageCount | src/pages/HomePage.tsx:76-77 | browse mode always reports 66 pages |
| Home.FortyFiveResults | src/pages/HomePage.tsx:63-78 | 45 results give 3 pages, the third with 5 cards |
| Home.PageNonEmptyIff | src/pages/HomePage.tsx:63-78 | a search page has cards iff its index is below the page count |
| Home.PagesUpToPrefix | src/pages/HomePage.tsx:63-69 | the first `n` pages in sequence are the first `20n` results |
| Home.PagesCoverResults | src/pages/HomePage.tsx:63-78 | all pages in sequence are exactly the result list |
| Home.PaginationShownIff | src/pages/HomePage.tsx:207 | in both modes the pagination bar shows iff there is more than one page |
| Home.NextPageHasCards | src/pages/HomePage.tsx:242-245 | an enabled next button leads to a page with cards |
| Home.ShouldFetchBasicIff | src/pages/HomePage.tsx:91-95 | the index is requested iff it is not loaded and the committed term has a non-white-space character |
| Home.HomeScreen | src/pages/HomePage.tsx:40-207 | spinner iff the page query loads and nothing is typed; otherwise the error view iff the query of the current mode failed (the index query when searching, the page query when browsing); in the main view the grid is hidden iff the index loads in search mode and shows the page's cards otherwise; the found count shows iff searching and is the number of filtered cards; "no results" iff nothing is filtered and something is typed; the pagination bar iff more than 20 results when searching or more than one page when browsing, i.e. iff there is more than one page |
| Home.BrowseIgnoresIndexFailure | src/pages/HomePage.tsx:41 | while browsing, a failed index fetch changes nothing on screen |
| Home.SearchIgnoresPageFailure | src/pages/HomePage.tsx:41 | while searching with a typed term, a failed page fetch changes nothing on screen |
| Home.BlankTermNoResults | src/pages/HomePage.tsx:194-207 | a blank typed term keeps browse mode and can show the "no results" message beside the pagination bar |
| Home.BrowseUrlReadsBack | src/pages/HomePage.tsx:10-16 | the browse query's URL asks the listing endpoint for 20 entries, and its offset reads back with `parseInt` as `20 * page` |
| Home.BrowseUrlInjective | src/pages/HomePage.tsx:11-16 | different pages request different URLs |
| Home.SearchSession.constructor | src/pages/HomePage.tsx:7-9 | empty terms, page 0, no index |
| Home.SearchSession.HandleSearchChange | src/pages/HomePage.tsx:85-88 | only the raw term changes |
| Home.SearchSession.CommitDebounce | src/pages/HomePage.tsx:30-95 | the raw term is committed; the page goes to 0 iff search mode switched; the index is requested iff the committed term changed, is non-blank and the index is absent; browse pages stay in range |
| Home.SearchSession.BasicIndexSettled | src/pages/HomePage.tsx:21-28 | a fetched index is cached; a failure leaves it absent |
| Home.SearchSession.ClickPrevious | src/pages/HomePage.tsx:209-215 | the page goes down by one iff the bar shows and the button is enabled |
| Home.SearchSession.ClickNext | src/pages/HomePage.tsx:242-248 | the page goes up by one iff the bar shows and the button is enabled; browse pages stay below 66 |
| Home.SearchSession.ClickPageNumber | src/pages/HomePage.tsx:223-239 | the page becomes `i` iff the number buttons are rendered and `i` is one of them |
| Home.ModeSwitchScenario | src/pages/HomePage.tsx:80-95 | committing a term on browse page 3 moves to search page 0 and requests the index |
| Card.TypeColor | src/components/ui/PokemonCard.tsx:31-53 | the table entry for the lower-cased type, or the grey fallback when the type is missing |
| Card.TypeColorIgnoresCase | src/components/ui/PokemonCard.tsx:52 | the colour does not depend on the type name's case |
| Card.TypeColorInPalette | src/components/ui/PokemonCard.tsx:31-53 | every colour returned is one of the table's colours |
| Card.FireColor | src/components/ui/PokemonCard.tsx:52 | "Fire" finds the `fire` entry, red |
| Card.UnknownTypeColor | src/components/ui/PokemonCard.tsx:52 | a type missing from the table, such as "shadow", is grey |
| Card.IdLabelExamples | src/components/ui/PokemonCard.tsx:112 | 7, 25 and 1302 are labelled `#007`, `#025` and `#1302` |
| Card.ZeroPaddingKeepsValue | src/components/ui/PokemonCard.tsx:112 | zero padding keeps a digit string's value |
| Card.IdLabelReadsBack | src/components/ui/PokemonCard.tsx:112 | the label of a non-negative id is `#` and at least three digits that read back as the id |
| Card.IdLabelInjective | src/components/ui/PokemonCard.tsx:112 | distinct non-negative ids have distinct labels |
| Card.View | src/components/ui/PokemonCard.tsx:55-126 | capture button iff signed in; badge iff the id is captured; button title follows the badge; link, id label and one colour per type |
| Card.CaptureThenReleaseRestores | src/components/ui/PokemonCard.tsx:21-29 | capture then release of an absent Pokémon restores the list |
| Card.HandleCaptureClick | src/components/ui/PokemonCard.tsx:21-29 | a captured id is released; any other is captured with the card's fields; the captured state flips; session fields untouched |
| Card.DoubleClick | src/components/ui/PokemonCard.tsx:21-29 | two clicks on an uncaptured card leave the list as it was |
| DetailPage.RouteId | src/pages/PokemonDetailPage.tsx:31 | an absent or empty parameter becomes `"1"`; any other is kept |
| DetailPage.DefaultRoute | src/pages/PokemonDetailPage.tsx:31-38 | without a usable parameter the page asks for Pokémon 1 |
| DetailPage.CardLinkOpensDetail | src/pages/PokemonDetailPage.tsx:31-38 | a card's link parses back to its id, and the query runs iff the id is not 0 |
| DetailPage.DigitRoute | src/pages/PokemonDetailPage.tsx:31 | a parameter starting with digits means the number those digits spell |
| DetailPage.PaddedRoute | src/pages/PokemonDetailPage.tsx:31 | leading zeros, then a number, then anything not starting with a digit, mean that number (`025abc` is Pokémon 25) |
| DetailPage.NameRouteDisabled | src/pages/PokemonDetailPage.tsx:31-38 | a name in the route is `NaN`, so the query stays off |
| DetailPage.StatValue | src/pages/PokemonDetailPage.tsx:52-57 | the base stat of the first entry with the key, or 0 when there is none |
| DetailPage.AbilityNames | src/pages/PokemonDetailPage.tsx:50 | the ability names in source order |
| DetailPage.FormatShape | src/pages/PokemonDetailPage.tsx:40-63 | the page's record keeps id, name, types and abilities in order, uses the sprite URL, and gives height in centimetres |
| DetailPage.MissingAndDuplicateStats | src/pages/PokemonDetailPage.tsx:51-58 | a missing stat is 0 and the first of two `hp` entries wins |
| DetailPage.HeightLabelReadsBack | src/pages/PokemonDetailPage.tsx:218-221 | from one metre the label is metres with one decimal that read back as the decimetre count; below, it is centimetres read back exactly |
| DetailPage.HeightExamples | src/pages/PokemonDetailPage.tsx:218-221 | 7, 17 and 10 decimetres show as `70 cm`, `1.7 m` and `1.0 m` |
| DetailPage.WeightLabelReadsBack | src/pages/PokemonDetailPage.tsx:226 | the kilogram figure reads back as the hectogram count and has a decimal digit only when it is not 0 |
| DetailPage.WeightExamples | src/pages/PokemonDetailPage.tsx:226 | 69, 60 and 9050 hectograms show as `6.9`, `6` and `905` |
| DetailPage.StatValues | src/pages/PokemonDetailPage.tsx:296-302 | `Object.values` of the stats has six entries |
| DetailPage.BaseStatTotalIsSum | src/pages/PokemonDetailPage.tsx:290 | the BST figure is the sum of the six listed values |
| DetailPage.CountAtLeast | src/pages/PokemonDetailPage.tsx:296 | the count is at most the length; it is the length iff all values reach the threshold, and 0 iff none does |
| DetailPage.HighStats | src/pages/PokemonDetailPage.tsx:296 | at most six stats are high |
| DetailPage.CountAtLeastAppend | src/pages/PokemonDetailPage.tsx:296 | counting a concatenation adds the counts of its parts |
| DetailPage.CountAtLeastIsPositions | src/pages/PokemonDetailPage.tsx:296 | the count equals the number of positions whose value reaches the threshold |
| DetailPage.HighStatsCount | src/pages/PokemonDetailPage.tsx:296 | the "Altos" figure is the number of the six stats at least 80: one for each such stat, and the size of the set of their positions |
| DetailPage.Max | src/pages/PokemonDetailPage.tsx:302 | the maximum is at least every entry and is one of them |
| DetailPage.SumAtMostLengthTimesMax | src/pages/PokemonDetailPage.tsx:290-302 | a list sums to at most its length times its maximum |
| DetailPage.SummaryConsistent | src/pages/PokemonDetailPage.tsx:285-307 | BST is at most six times the best stat; some stat is high iff the best is at least 80 |
| DetailPage.StatBarColorIsBand | src/pages/PokemonDetailPage.tsx:265-272 | the colour ladder equals a ten-point band table, and a higher value never gets a lower band |
| DetailPage.StatRows | src/pages/PokemonDetailPage.tsx:253-282 | six rows in insertion order, each with its label, value and bar colour |
| DetailPage.Screen | src/pages/PokemonDetailPage.tsx:82-307 | spinner iff loading; not-found iff not loading and failed or no record; the shown view has the record's name, image, label, types, abilities, height and weight labels, the badge iff the route's id is captured, the button iff signed in, one colour per type from the palette, the six stat rows, and the BST, high-stat count and best stat of the record's stats, with BST at most six times the best |
| DetailPage.ShownHeight | src/pages/PokemonDetailPage.tsx:48 | the height shown for a fetched record is the label of its decimetre count |
| DetailPage.DetailSession.Navigate | src/pages/PokemonDetailPage.tsx:26-31 | the route changes and the held record stays |
| DetailPage.DetailSession.DetailArrived | src/pages/PokemonDetailPage.tsx:40-63 | the held record becomes the formatted fetched record |
| DetailPage.DetailSession.HandleCaptureClick | src/pages/PokemonDetailPage.tsx:67-80 | without a record nothing changes; otherwise the route's id is released if captured, else captured with the record's name, image and types; session fields untouched |
| DetailPage.StaleRecordAfterNavigation | src/pages/PokemonDetailPage.tsx:29-63 | after moving from a number to a name in the route, the query is off and the old record is still shown |
| Favorites.Completion | src/pages/FavoritesPage.tsx:42 | the percentage of 151 rounded to the nearest whole number, and 0 for no captures |
| Favorites.CompletionIsNearest | src/pages/FavoritesPage.tsx:42 | no other whole number is that close |
| Favorites.CompletionBounds | src/pages/FavoritesPage.tsx:42-44 | at most 100 within the first generation, exactly 100 for all 151 |
| Favorites.TypeSet | src/pages/FavoritesPage.tsx:48 | a type is in the set iff some captured entry lists it |
| Favorites.DistinctTypesAtMostSlots | src/pages/FavoritesPage.tsx:48 | the distinct-types figure never exceeds the number of type names on the cards |
| Favorites.TypeSetOfAppend | src/pages/FavoritesPage.tsx:48 | the type set of two lists joined is the union of their sets |
| Favorites.CaptureAddsTypes | src/pages/FavoritesPage.tsx:48 | capturing a new Pokémon adds its types and removes none |
| Favorites.Render | src/pages/FavoritesPage.tsx:8-85 | restricted iff signed out; otherwise the count, the completion, the distinct types, the empty state iff nothing is captured, and one card per captured entry in order |
| Favorites.EveryCardReleases | src/pages/FavoritesPage.tsx:75-83 | every card on the page shows the badge and offers release |

## Left out

- Markup, styling, images' `onError` fallback and scrolling are not modelled. Only what the
  pages compute and the conditions that choose what they render are modelled.
- The router, the layout, the header, the login page and the entry files are not part of
  this model.
- `fetch`, `response.json()` and promise scheduling become function parameters and replies.
  `console.error` logging is left out.
- Which rejection `Promise.all` reports first is left out. `PokemonApi.ReadDetails` reports
  the first failing entry in listing order.
- React Query's caching, stale times, retries and refetching are left out. A query's state is
  passed in as flags or applied by an explicit method call.
- The 300 ms debounce timer is left out. `Home.SearchSession.CommitDebounce` is the timer
  firing, so the raw term changing again before it fires is not modelled.
- The 1 s delay inside `login` is left out, so the intermediate `isLoading = true` state is
  not observable.
- The store's persistence to `localStorage` is modelled only as `partialize` and the
  rehydrating merge. Storage itself and storage errors are left out.
- `Home.SearchSession.CommitDebounce`: the page is reset only when search mode switches on or
  off, as written. A new term within search mode keeps the page number, so it can land past
  the last page. `Home.PageNonEmptyIff` then shows that page as empty.
- The sprite URLs in the fetched detail record are left out because no page reads them.
- `DetailPage.PokemonDetail` keeps the weight in hectograms. `DetailPage.WeightLabel` writes
  the kilogram figure as JavaScript prints `weight / 10`. Exponent notation above 10^21 is
  left out.
- The stat bar width `Math.min(value / 100 * 100, 100)` is floating point and is left out.
- `Favorites.Completion` takes `Math.round(n / 151 * 100)` as exact. This is safe because
  `100n / 151` is never within floating-point error of a half.
- `DetailPage.HeightLabel` takes the decimetre count, which is the page's centimetre value
  divided by ten. `toFixed(1)` on a centimetre value that is not a multiple of ten cannot
  arise and is not modelled.
- `Text.ToLower` folds only ASCII letters. `toLowerCase` on other Unicode letters is not
  modelled.
- `Text.ParseInt` is decimal `parseInt` only. Hexadecimal `0x` prefixes are not modelled,
  and `-0` is the same as `0`.
- `Card.TypeColor`: the source's object lookup also answers for keys inherited from
  `Object.prototype`, such as `constructor`. Those keys are not modelled and fall back to
  grey.
- `DetailPage.DetailSession.HandleCaptureClick`: when the route id is `NaN` but a record is
  still held, the source appends an entry with id `NaN` that can never be released. The
  model does nothing in that case.
- `Home.HomeScreen` and `DetailPage.Screen` describe the screen for given query flags. How
  those flags evolve over time is React Query's and is left out.
