/**
 * The search and pagination logic of src/pages/HomePage.tsx.
 *
 * The memoised lists (`filteredPokemon`, `paginatedResults`, `totalPages`) and the
 * conditions rendered around them are functions. The component state (`searchTerm`,
 * `debouncedSearchTerm`, `currentPage`) and the cached basic index live in the class
 * `SearchSession`, whose methods are the setters and effects that change them.
 */
module Home {
  import opened Wrappers
  import opened Text
  import opened Catalog
  import opened PokemonApi

  /** Page size. */
  const Limit: nat := 20

  /** The fixed catalogue size browse mode assumes. */
  const BrowseTotal: nat := 1302

  // ---------------------------------------------------------------------------
  // Search mode
  // ---------------------------------------------------------------------------

  /** `debouncedSearchTerm.trim().length > 0`. */
  predicate IsSearching(term: string) {
    |Trim(term)| > 0
  }

  /** Search mode is on exactly when the committed term has a non-blank character. */
  lemma IsSearchingIff(term: string)
    ensures IsSearching(term) <==> exists i :: 0 <= i < |term| && !IsJsWhitespace(term[i])
  {
    TrimEmptyIff(term);
  }

  /** `pokemon.name.toLowerCase().includes(term.toLowerCase())`, on the untrimmed term. */
  predicate NameMatches(name: string, term: string) {
    Contains(ToLower(name), ToLower(term))
  }

  /** The basic entries whose names match, in index order. */
  function MatchingBasic(all: seq<BasicInfo>, term: string): (r: seq<BasicInfo>)
    ensures |r| <= |all|
    ensures forall b :: b in r <==> b in all && NameMatches(b.name, term)
  {
    if all == [] then []
    else (if NameMatches(all[0].name, term) then [all[0]] else []) + MatchingBasic(all[1..], term)
  }

  /** The filter keeps the index order: it works on each part of the index separately. */
  lemma {:induction false} MatchingDistributes(a: seq<BasicInfo>, b: seq<BasicInfo>, term: string)
    ensures MatchingBasic(a + b, term) == MatchingBasic(a, term) + MatchingBasic(b, term)
  {
    if a == [] {
      assert a + b == b;
    } else {
      assert (a + b)[1..] == a[1..] + b;
      MatchingDistributes(a[1..], b, term);
    }
  }

  /** Matching ignores ASCII case on both sides. */
  lemma MatchingIgnoresCase(name: string, term: string)
    ensures NameMatches(name, term) == NameMatches(ToLower(name), ToLower(term))
  {
    ToLowerIdempotent(name);
    ToLowerIdempotent(term);
  }

  /** An empty term matches every name. */
  lemma EmptyTermMatchesAll(name: string)
    ensures NameMatches(name, "")
  {
    assert OccursAt(ToLower(name), ToLower(""), 0);
  }

  /** The card record a basic entry becomes: id and name kept, image from the id, types not resolved. */
  function SearchItem(b: BasicInfo): Pokemon {
    Pokemon(b.id, b.name, SpriteUrl(b.id), [])
  }

  /** `filteredPokemon`. */
  function FilteredPokemon(searching: bool, allBasic: Option<seq<BasicInfo>>, paginated: Option<seq<Pokemon>>,
                           term: string): (r: seq<Pokemon>)
    ensures searching && allBasic.Some? ==>
      var m := MatchingBasic(allBasic.value, term);
      |r| == |m| && forall k :: 0 <= k < |r| ==> r[k] == SearchItem(m[k])
    ensures !(searching && allBasic.Some?) ==> r == if paginated.Some? then paginated.value else []
  {
    if searching && allBasic.Some? then
      var m := MatchingBasic(allBasic.value, term);
      seq(|m|, k requires 0 <= k < |m| => SearchItem(m[k]))
    else if paginated.Some? then paginated.value
    else []
  }

  /**
   * In search mode with the index loaded, the filtered list holds exactly the cards of the
   * matching entries: each has an id, name and image of its entry and no types.
   */
  lemma FilteredIsExactlyMatches(all: seq<BasicInfo>, paginated: Option<seq<Pokemon>>, term: string, p: Pokemon)
    ensures p in FilteredPokemon(true, Some(all), paginated, term)
        <==> exists b :: b in all && NameMatches(b.name, term) && p == SearchItem(b)
    ensures p in FilteredPokemon(true, Some(all), paginated, term) ==> p.types == [] && p.image == SpriteUrl(p.id)
  {
    var r := FilteredPokemon(true, Some(all), paginated, term);
    var m := MatchingBasic(all, term);
    if p in r {
      var k :| 0 <= k < |r| && r[k] == p;
      assert m[k] in m;
    }
    if exists b :: b in all && NameMatches(b.name, term) && p == SearchItem(b) {
      var b :| b in all && NameMatches(b.name, term) && p == SearchItem(b);
      var k :| 0 <= k < |m| && m[k] == b;
      assert r[k] == p;
    }
  }

  // ---------------------------------------------------------------------------
  // Pages
  // ---------------------------------------------------------------------------

  function Min(a: int, b: int): int {
    if a <= b then a else b
  }

  /** `filtered.slice(start, start + limit)` for the search results, `filtered` itself when browsing. */
  function PaginatedResults(searching: bool, filtered: seq<Pokemon>, page: nat): (r: seq<Pokemon>)
    ensures searching ==> |r| == if page * Limit >= |filtered| then 0 else Min(Limit, |filtered| - page * Limit)
    ensures searching ==> forall k :: 0 <= k < |r| ==> r[k] == filtered[page * Limit + k]
    ensures !searching ==> r == filtered
  {
    if searching then
      var start := Min(page * Limit, |filtered|);
      var end := Min(page * Limit + Limit, |filtered|);
      filtered[start..end]
    else filtered
  }

  /** `Math.ceil(n / 20)` for a count `n`. */
  function PageCount(n: nat): (pages: nat)
    ensures pages * Limit >= n
    ensures pages == 0 || (pages - 1) * Limit < n
  {
    (n + Limit - 1) / Limit
  }

  /** `totalPages`: pages of search results, or the fixed browse estimate. */
  function TotalPages(searching: bool, filteredCount: nat): nat {
    if searching then PageCount(filteredCount) else PageCount(BrowseTotal)
  }

  /** Browse mode always reports 66 pages. */
  lemma BrowsePageCount(filteredCount: nat)
    ensures TotalPages(false, filteredCount) == 66
  {
  }

  /** 45 search results make three pages, and the third has exactly five cards. */
  lemma FortyFiveResults(filtered: seq<Pokemon>)
    requires |filtered| == 45
    ensures TotalPages(true, |filtered|) == 3
    ensures |PaginatedResults(true, filtered, 2)| == 5
  {
  }

  /** A search page has cards exactly when its index is below the page count. */
  lemma PageNonEmptyIff(filtered: seq<Pokemon>, page: nat)
    ensures PaginatedResults(true, filtered, page) != [] <==> page < TotalPages(true, |filtered|)
  {
    var n := TotalPages(true, |filtered|);
    if page < n {
      assert page <= n - 1;
      assert page * Limit <= (n - 1) * Limit;
    } else {
      assert page * Limit >= n * Limit;
    }
  }

  /** The first `n` search pages, one after the other. */
  function PagesUpTo(filtered: seq<Pokemon>, n: nat): seq<Pokemon> {
    if n == 0 then [] else PagesUpTo(filtered, n - 1) + PaginatedResults(true, filtered, n - 1)
  }

  lemma {:induction false} PagesUpToPrefix(filtered: seq<Pokemon>, n: nat)
    ensures PagesUpTo(filtered, n) == filtered[..Min(n * Limit, |filtered|)]
  {
    if n > 0 {
      PagesUpToPrefix(filtered, n - 1);
      var a := Min((n - 1) * Limit, |filtered|);
      var b := Min(n * Limit, |filtered|);
      var page := PaginatedResults(true, filtered, n - 1);
      assert page == filtered[a..b];
      assert filtered[..a] + filtered[a..b] == filtered[..b];
    }
  }

  /** Walking through every search page shows each result once, in order: the pages partition the list. */
  lemma PagesCoverResults(filtered: seq<Pokemon>)
    ensures PagesUpTo(filtered, TotalPages(true, |filtered|)) == filtered
  {
    PagesUpToPrefix(filtered, TotalPages(true, |filtered|));
    assert filtered[..|filtered|] == filtered;
  }

  // ---------------------------------------------------------------------------
  // Pagination controls
  // ---------------------------------------------------------------------------

  /** `disabled={currentPage === 0}` on the previous-page button. */
  predicate PrevDisabled(page: nat) {
    page == 0
  }

  /** `disabled={currentPage >= totalPages - 1}` on the next-page button. */
  predicate NextDisabled(page: nat, totalPages: nat) {
    page >= totalPages - 1
  }

  /** The pagination bar is rendered. */
  predicate ShowPagination(searching: bool, filteredCount: nat, totalPages: nat) {
    (searching && filteredCount > Limit) || (!searching && totalPages > 1)
  }

  /** The page numbers are listed inside the bar. */
  predicate ShowPageNumbers(totalPages: nat) {
    totalPages <= 10
  }

  /** In both modes the bar is rendered exactly when there is more than one page. */
  lemma PaginationShownIff(searching: bool, filteredCount: nat)
    ensures ShowPagination(searching, filteredCount, TotalPages(searching, filteredCount))
        <==> TotalPages(searching, filteredCount) > 1
  {
  }

  /** An enabled next button, on a page that has cards, leads to a page that also has cards. */
  lemma NextPageHasCards(filtered: seq<Pokemon>, page: nat)
    requires !NextDisabled(page, TotalPages(true, |filtered|))
    ensures PaginatedResults(true, filtered, page + 1) != []
  {
    PageNonEmptyIff(filtered, page + 1);
  }

  /** The basic index is requested when the committed term is non-blank and the index is not loaded. */
  predicate ShouldFetchBasic(debouncedTerm: string, basicLoaded: bool) {
    |Trim(debouncedTerm)| > 0 && !basicLoaded
  }

  lemma ShouldFetchBasicIff(debouncedTerm: string, basicLoaded: bool)
    ensures ShouldFetchBasic(debouncedTerm, basicLoaded)
        <==> !basicLoaded && exists i :: 0 <= i < |debouncedTerm| && !IsJsWhitespace(debouncedTerm[i])
  {
    IsSearchingIff(debouncedTerm);
  }

  // ---------------------------------------------------------------------------
  // What the page renders
  // ---------------------------------------------------------------------------

  /**
   * The three early returns and the main layout. `grid` is `None` while the basic index is
   * loading in search mode (the spinner replaces the grid).
   */
  datatype Screen =
    | Loading
    | LoadError
    | Main(grid: Option<seq<Pokemon>>, foundCount: Option<nat>, noResults: bool, pagination: bool)

  /** The query flags the page reads, as React Query reports them. */
  datatype Queries = Queries(pageLoading: bool, pageFailed: bool, basicLoading: bool, basicFailed: bool)

  function HomeScreen(q: Queries, searchTerm: string, debouncedTerm: string,
                      filtered: seq<Pokemon>, results: seq<Pokemon>, totalPages: nat): (s: Screen)
    ensures s == Loading <==> q.pageLoading && searchTerm == ""
    ensures s.Main? ==> (s.grid.None? <==> q.basicLoading && IsSearching(debouncedTerm))
    ensures s.Main? && s.grid.Some? ==> s.grid.value == results
    ensures s.Main? ==> (s.foundCount.Some? <==> IsSearching(debouncedTerm))
    ensures s.Main? && s.foundCount.Some? ==> s.foundCount.value == |filtered|
    ensures s == LoadError <==>
      !(q.pageLoading && searchTerm == "") && (if IsSearching(debouncedTerm) then q.basicFailed else q.pageFailed)
    ensures s.Main? ==> (s.noResults <==> |filtered| == 0 && searchTerm != "")
    ensures s.Main? ==> (s.pagination <==> if IsSearching(debouncedTerm) then |filtered| > Limit else totalPages > 1)
    ensures s.Main? && totalPages == TotalPages(IsSearching(debouncedTerm), |filtered|) ==> (s.pagination <==> totalPages > 1)
  {
    var searching := IsSearching(debouncedTerm);
    if q.pageLoading && searchTerm == "" then Loading
    else if (if searching then q.basicFailed else q.pageFailed) then LoadError
    else Main(if q.basicLoading && searching then None else Some(results),
              if searching then Some(|filtered|) else None,
              |filtered| == 0 && searchTerm != "",
              ShowPagination(searching, |filtered|, totalPages))
  }

  /** The error screen follows the mode: browsing is unaffected by a failed index fetch. */
  lemma BrowseIgnoresIndexFailure(q: Queries, searchTerm: string, debouncedTerm: string,
                                  filtered: seq<Pokemon>, results: seq<Pokemon>, totalPages: nat)
    requires !IsSearching(debouncedTerm)
    ensures HomeScreen(q.(basicFailed := true), searchTerm, debouncedTerm, filtered, results, totalPages)
         == HomeScreen(q.(basicFailed := false), searchTerm, debouncedTerm, filtered, results, totalPages)
  {
  }

  /** ... and searching is unaffected by a failed page fetch once the user has typed. */
  lemma SearchIgnoresPageFailure(q: Queries, searchTerm: string, debouncedTerm: string,
                                 filtered: seq<Pokemon>, results: seq<Pokemon>, totalPages: nat)
    requires IsSearching(debouncedTerm) && searchTerm != ""
    ensures HomeScreen(q.(pageFailed := true), searchTerm, debouncedTerm, filtered, results, totalPages)
         == HomeScreen(q.(pageFailed := false), searchTerm, debouncedTerm, filtered, results, totalPages)
  {
  }

  /**
   * A typed but blank term keeps browse mode while the "no results" message can still show:
   * with spaces typed and an empty page list, both appear at once.
   */
  lemma BlankTermNoResults()
    ensures var s := HomeScreen(Queries(false, false, false, false), "  ", "  ", [], [], 66);
      s.Main? && s.foundCount.None? && s.noResults && s.pagination
  {
    assert !IsSearching("  ") by {
      TrimEmptyIff("  ");
    }
  }

  // ---------------------------------------------------------------------------
  // The component state
  // ---------------------------------------------------------------------------

  /** The number of pages browse mode offers, `TotalPages(false, _)` as `BrowsePageCount` shows. */
  const BrowsePages: nat := 66

  /** What every browse-query URL starts with: the listing endpoint asking for twenty entries. */
  function BrowseUrlPrefix(): string {
    BaseUrl + "/pokemon?limit=20&offset="
  }

  /** The listing URL the browse query requests on page `page`: `getPokemonList(limit, page * limit)`. */
  function BrowseUrl(page: nat): string {
    ListUrl(Limit, page * Limit)
  }

  /**
   * The browse query asks the listing endpoint for twenty entries, and the offset its URL
   * carries reads back as `20 * page`.
   */
  lemma BrowseUrlReadsBack(page: nat)
    ensures |BrowseUrlPrefix()| <= |BrowseUrl(page)| && BrowseUrl(page)[..|BrowseUrlPrefix()|] == BrowseUrlPrefix()
    ensures ParseInt(BrowseUrl(page)[|BrowseUrlPrefix()|..]) == Some(page * Limit)
  {
    var offset := IntToString(page * Limit);
    BrowseListUrl(page * Limit);
    ParseIntOfIntToString(page * Limit);
    assert (BrowseUrlPrefix() + offset)[|BrowseUrlPrefix()|..] == offset;
  }

  lemma BrowseListUrl(offset: int)
    ensures ListUrl(Limit, offset) == BrowseUrlPrefix() + IntToString(offset)
  {
    var o := IntToString(offset);
    assert IntToString(20) == "20" by {
      assert NatToString(2) == "2";
    }
    assert "/pokemon?limit=" + "20" + "&offset=" == "/pokemon?limit=20&offset=";
  }

  /** Different pages ask for different URLs, so React Query keeps their results apart. */
  lemma {:induction false} BrowseUrlInjective(p: nat, q: nat)
    requires BrowseUrl(p) == BrowseUrl(q)
    ensures p == q
  {
    var k := |BrowseUrlPrefix()|;
    BrowseUrlReadsBack(p);
    BrowseUrlReadsBack(q);
    assert BrowseUrl(p)[k..] == BrowseUrl(q)[k..];
  }

  /** A next-page click that the bar allows keeps a browse page among the browse pages. */
  lemma NextStaysInBrowse(searching: bool, count: nat, page: nat)
    requires !NextDisabled(page, TotalPages(searching, count))
    ensures !searching ==> page + 1 < BrowsePages
  {
    BrowsePageCount(count);
  }

  class SearchSession {
    var searchTerm: string
    var debouncedSearchTerm: string
    var currentPage: nat
    var allPokemonBasic: Option<seq<BasicInfo>>

    /** In browse mode the page is always one of the 66 browse pages. */
    ghost predicate Valid()
      reads this
    {
      !IsSearching(debouncedSearchTerm) ==> currentPage < BrowsePages
    }

    constructor ()
      ensures searchTerm == "" && debouncedSearchTerm == "" && currentPage == 0 && allPokemonBasic == None
      ensures Valid()
    {
      searchTerm, debouncedSearchTerm, currentPage, allPokemonBasic := "", "", 0, None;
    }

    function Searching(): bool
      reads this
    {
      IsSearching(debouncedSearchTerm)
    }

    /** `filteredPokemon`, given the current browse page the page query holds (if any). */
    function Filtered(paginated: Option<seq<Pokemon>>): seq<Pokemon>
      reads this
    {
      FilteredPokemon(Searching(), allPokemonBasic, paginated, debouncedSearchTerm)
    }

    /** `totalPages`. */
    function Pages(paginated: Option<seq<Pokemon>>): nat
      reads this
    {
      TotalPages(Searching(), |Filtered(paginated)|)
    }

    /** The cards the grid renders. */
    function Results(paginated: Option<seq<Pokemon>>): seq<Pokemon>
      reads this
    {
      PaginatedResults(Searching(), Filtered(paginated), currentPage)
    }

    /** `handleSearchChange`: only the raw term changes. */
    method HandleSearchChange(raw: string)
      modifies this
      ensures searchTerm == raw
      ensures debouncedSearchTerm == old(debouncedSearchTerm) && currentPage == old(currentPage)
      ensures allPokemonBasic == old(allPokemonBasic)
      ensures old(Valid()) ==> Valid()
    {
      searchTerm := raw;
    }

    /**
     * The debounce timer fires: the raw term is committed, the page goes back to 0 when search
     * mode switches on or off, and the basic index is requested when the committed term changed,
     * is non-blank, and the index is not loaded.
     */
    method CommitDebounce() returns (fetchBasic: bool)
      modifies this
      ensures debouncedSearchTerm == old(searchTerm) && searchTerm == old(searchTerm)
      ensures currentPage == if IsSearching(old(searchTerm)) != IsSearching(old(debouncedSearchTerm)) then 0 else old(currentPage)
      ensures fetchBasic == (old(searchTerm) != old(debouncedSearchTerm) && ShouldFetchBasic(old(searchTerm), old(allPokemonBasic).Some?))
      ensures allPokemonBasic == old(allPokemonBasic)
      ensures old(Valid()) ==> Valid()
    {
      var wasSearching := IsSearching(debouncedSearchTerm);
      var changed := searchTerm != debouncedSearchTerm;
      debouncedSearchTerm := searchTerm;
      if IsSearching(debouncedSearchTerm) != wasSearching {
        currentPage := 0;
      }
      fetchBasic := changed && ShouldFetchBasic(debouncedSearchTerm, allPokemonBasic.Some?);
    }

    /** The basic index query settles: a result is cached, a failure leaves the index absent. */
    method BasicIndexSettled(r: Result<seq<BasicInfo>, ApiError>)
      modifies this
      ensures allPokemonBasic == if r.Ok? then Some(r.value) else old(allPokemonBasic)
      ensures searchTerm == old(searchTerm) && debouncedSearchTerm == old(debouncedSearchTerm)
      ensures currentPage == old(currentPage)
      ensures old(Valid()) ==> Valid()
    {
      if r.Ok? {
        allPokemonBasic := Some(r.value);
      }
    }

    /** A click on the previous-page button; a hidden bar or a disabled button does nothing. */
    method ClickPrevious(paginated: Option<seq<Pokemon>>)
      modifies this
      ensures var enabled := old(ShowPagination(Searching(), |Filtered(paginated)|, Pages(paginated)) && !PrevDisabled(currentPage));
        currentPage == if enabled then old(currentPage) - 1 else old(currentPage)
      ensures searchTerm == old(searchTerm) && debouncedSearchTerm == old(debouncedSearchTerm)
      ensures allPokemonBasic == old(allPokemonBasic)
      ensures old(Valid()) ==> Valid()
    {
      var searching := Searching();
      if ShowPagination(searching, |Filtered(paginated)|, Pages(paginated)) && !PrevDisabled(currentPage) {
        currentPage := currentPage - 1;
        assert Searching() == searching;
      }
    }

    /** A click on the next-page button; a hidden bar or a disabled button does nothing. */
    method ClickNext(paginated: Option<seq<Pokemon>>)
      modifies this
      ensures var enabled := old(ShowPagination(Searching(), |Filtered(paginated)|, Pages(paginated))
                                 && !NextDisabled(currentPage, Pages(paginated)));
        currentPage == if enabled then old(currentPage) + 1 else old(currentPage)
      ensures searchTerm == old(searchTerm) && debouncedSearchTerm == old(debouncedSearchTerm)
      ensures allPokemonBasic == old(allPokemonBasic)
      ensures old(Valid()) ==> Valid()
    {
      var searching, count, pages := Searching(), |Filtered(paginated)|, Pages(paginated);
      if ShowPagination(searching, count, pages) && !NextDisabled(currentPage, pages) {
        NextStaysInBrowse(searching, count, currentPage);
        currentPage := currentPage + 1;
        assert Searching() == searching;
      }
    }

    /** A click on page number `i`; the numbers exist only in a visible bar of at most ten pages. */
    method ClickPageNumber(i: nat, paginated: Option<seq<Pokemon>>)
      modifies this
      ensures var rendered := old(ShowPagination(Searching(), |Filtered(paginated)|, Pages(paginated))
                                  && ShowPageNumbers(Pages(paginated)) && i < Pages(paginated));
        currentPage == if rendered then i else old(currentPage)
      ensures searchTerm == old(searchTerm) && debouncedSearchTerm == old(debouncedSearchTerm)
      ensures allPokemonBasic == old(allPokemonBasic)
      ensures old(Valid()) ==> Valid()
    {
      var searching, count, pages := Searching(), |Filtered(paginated)|, Pages(paginated);
      if ShowPagination(searching, count, pages) && ShowPageNumbers(pages) && i < pages {
        BrowsePageCount(count);
        currentPage := i;
        assert Searching() == searching;
      }
    }
  }

  /**
   * Browsing on page 3 and committing a non-blank term switches to search mode on page 0,
   * and the basic index is requested because it is not loaded yet.
   */
  method ModeSwitchScenario() returns (page: nat, fetched: bool)
    ensures page == 0 && fetched
  {
    var s := new SearchSession();
    s.ClickNext(None);
    s.ClickNext(None);
    s.ClickNext(None);
    assert s.currentPage == 3;
    s.HandleSearchChange("pika");
    assert IsSearching("pika") by {
      assert "pika"[0] == 'p';
      IsSearchingIff("pika");
    }
    fetched := s.CommitDebounce();
    page := s.currentPage;
  }
}
