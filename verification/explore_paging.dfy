/** The explore pager of `SourceShowViewModel`: the page-key arithmetic of
    `KindShowPagingSource`, its set of books already seen, and the guards on
    which source gets a pager. */
module ExplorePaging {
  import opened Wrappers
  import opened Entities

  /** What the explore fetch of one page answers. */
  datatype PageFetch = Books(books: seq<SearchBook>) | FetchError(timeout: bool)

  /** Why a load ended in `LoadResult.Error`. */
  datatype LoadError = NoExploreUrl | Fetching(timeout: bool)

  /** `LoadResult`: a page with its neighbours' keys, or an error. */
  datatype LoadResult = Page(data: seq<SearchBook>, prevKey: Option<int>, nextKey: Option<int>) | Error(cause: LoadError)

  /** The view model's state: the explore url, the source shown (if any), and
      every book returned so far. */
  datatype Explorer = Explorer(exploreUrl: Option<string>, source: Option<BookSource>, seen: set<SearchBook>)

  /** The result of one load, with the state after it. */
  datatype Loaded = Loaded(st: Explorer, result: LoadResult)

  /** All books of the page were returned before. */
  predicate AllSeen(books: seq<SearchBook>, seen: set<SearchBook>) {
    forall i :: 0 <= i < |books| ==> books[i] in seen
  }

  function ToSet(books: seq<SearchBook>): (r: set<SearchBook>)
    ensures forall b :: b in r <==> b in books
  {
    set b | b in books
  }

  /** The empty page that ends paging in both directions. */
  const EndPage: LoadResult := Page([], None, None)

  /** `load`: a missing key is page 1. An empty page, or one whose books were all
      seen before, ends paging. Otherwise the books join the seen set and the page
      links to page - 1 (none before page 1) and page + 1. A missing explore url
      or a failing fetch is an error result. `fetch` answers the fetch of a page. */
  function Load(st: Explorer, key: Option<int>, fetch: (string, int) -> PageFetch): (r: Loaded)
    ensures st.seen <= r.st.seen
    ensures r.st.(seen := st.seen) == st
    ensures st.exploreUrl.None? ==> r == Loaded(st, Error(NoExploreUrl))
    ensures r.result.Error? ==> r.st == st
    ensures r.result.Page? && r.result.data != [] ==>
              && r.result.nextKey == Some(key.GetOr(1) + 1)
              && (r.result.prevKey.None? <==> key.GetOr(1) == 1)
              && (r.result.prevKey.Some? ==> r.result.prevKey.value == key.GetOr(1) - 1)
              && r.st.seen == st.seen + ToSet(r.result.data)
              && !AllSeen(r.result.data, st.seen)
    ensures r.result.Page? && r.result.data == [] ==> r.result == EndPage && r.st == st
    ensures st.exploreUrl.Some? && fetch(st.exploreUrl.value, key.GetOr(1)).FetchError? ==>
              r == Loaded(st, Error(Fetching(fetch(st.exploreUrl.value, key.GetOr(1)).timeout)))
    ensures st.exploreUrl.Some? && fetch(st.exploreUrl.value, key.GetOr(1)).Books? ==>
              var books := fetch(st.exploreUrl.value, key.GetOr(1)).books;
              && r.result.Page?
              && (AllSeen(books, st.seen) <==> r.result.data == [])
              && (!AllSeen(books, st.seen) ==> r.result.data == books)
  {
    var page := key.GetOr(1);
    match st.exploreUrl
    case None => Loaded(st, Error(NoExploreUrl))
    case Some(url) =>
      match fetch(url, page)
      case FetchError(timeout) => Loaded(st, Error(Fetching(timeout)))
      case Books(books) =>
        if |books| == 0 || AllSeen(books, st.seen) then Loaded(st, EndPage)
        else
          Loaded(st.(seen := st.seen + ToSet(books)),
                 Page(books, if page == 1 then None else Some(page - 1), Some(page + 1)))
  }

  /** A missing key loads exactly what key 1 loads. */
  lemma MissingKeyIsPageOne(st: Explorer, fetch: (string, int) -> PageFetch)
    ensures Load(st, None, fetch) == Load(st, Some(1), fetch)
  {
  }

  /** An empty fetch, or one of books all seen already, ends paging and leaves
      the seen set as it was. */
  lemma SeenPageEndsPaging(st: Explorer, key: Option<int>, fetch: (string, int) -> PageFetch)
    requires st.exploreUrl.Some?
    requires fetch(st.exploreUrl.value, key.GetOr(1)).Books?
    requires AllSeen(fetch(st.exploreUrl.value, key.GetOr(1)).books, st.seen)
    ensures Load(st, key, fetch) == Loaded(st, EndPage)
  {
  }

  /** The page keys a `PagingState` keeps for one loaded page. */
  datatype PageKeys = PageKeys(prevKey: Option<int>, nextKey: Option<int>)

  /** `getRefreshKey`: no anchor, or no page near it, gives none; otherwise the
      anchor page's previous key plus one, or failing that its next key minus one.
      `closestPage` answers `closestPageToPosition`. */
  function RefreshKey(anchor: Option<int>, closestPage: int -> Option<PageKeys>): (k: Option<int>)
    ensures anchor.None? ==> k.None?
    ensures anchor.Some? && closestPage(anchor.value).None? ==> k.None?
    ensures k.Some? ==> anchor.Some? && closestPage(anchor.value).Some?
  {
    match anchor
    case None => None
    case Some(position) =>
      match closestPage(position)
      case None => None
      case Some(p) =>
        if p.prevKey.Some? then Some(p.prevKey.value + 1)
        else if p.nextKey.Some? then Some(p.nextKey.value - 1)
        else None
  }

  /** Refreshing at a page the pager loaded reloads that same page number. */
  lemma RefreshReloadsAnchorPage(st: Explorer, key: Option<int>, fetch: (string, int) -> PageFetch,
                                 anchor: int, closestPage: int -> Option<PageKeys>)
    requires Load(st, key, fetch).result.Page? && Load(st, key, fetch).result.data != []
    requires var p := Load(st, key, fetch).result;
             closestPage(anchor) == Some(PageKeys(p.prevKey, p.nextKey))
    ensures RefreshKey(Some(anchor), closestPage) == Some(key.GetOr(1))
  {
  }

  /** `bookFlow`: a source gets a pager only when its url is not empty. */
  function PagerSource(source: BookSource): (r: Option<BookSource>)
    ensures r.Some? <==> |source.url| > 0
    ensures r.Some? ==> r.value == source
  {
    if |source.url| > 0 then Some(source) else None
  }

  /** After `setUrls` with an explore url and a stored source, a load asks the
      fetch for that url and never reports a missing explore url, and the source
      gets a pager exactly when its own url is not empty. */
  lemma SetUrlsThenLoad(st: Explorer, sourceUrl: string, exploreUrl: string, db: map<string, BookSource>,
                        key: Option<int>, fetch: (string, int) -> PageFetch)
    requires sourceUrl in db
    ensures var st' := SetUrls(st, sourceUrl, Some(exploreUrl), db);
            && Load(st', key, fetch).result != Error(NoExploreUrl)
            && (fetch(exploreUrl, key.GetOr(1)).Books? ==> Load(st', key, fetch).result.Page?)
            && (PagerSource(st'.source.value).Some? <==> |db[sourceUrl].url| > 0)
  {
  }

  /** `setUrls`: the explore url is always taken; the source is looked up, and
      replaces the one shown, only when the explore url is not null. */
  function SetUrls(st: Explorer, sourceUrl: string, exploreUrl: Option<string>, db: map<string, BookSource>): (r: Explorer)
    ensures r.exploreUrl == exploreUrl && r.seen == st.seen
    ensures exploreUrl.None? || sourceUrl !in db ==> r.source == st.source
    ensures exploreUrl.Some? && sourceUrl in db ==> r.source == Some(db[sourceUrl])
  {
    var st1 := st.(exploreUrl := exploreUrl);
    if exploreUrl.Some? && sourceUrl in db then st1.(source := Some(db[sourceUrl])) else st1
  }
}
