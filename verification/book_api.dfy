/** The book endpoints of the web API (`BookController`): the sorted bookshelf,
    chapter images with the controller's one-book cache, the chapter list and
    chapter content. The databases are maps; content processing, image loading
    and network fetches are parameters. */
module BookApi {
  import opened Wrappers
  import opened Text
  import opened Sorting
  import opened Entities
  import opened Api

  /** The fields of a shelf book the endpoints read. */
  datatype Book = Book(
    name: string,
    bookUrl: string,
    origin: string,
    latestChapterTime: int,
    order: int,
    durChapterTime: int)

  /** An exception a handler does not catch: it ends the request without a `ReturnData`. */
  datatype Uncaught = NumberFormat | UninitializedBook

  /** What a handler produces: an answer, or an uncaught exception. */
  datatype Outcome<+T> = Answer(reply: Reply<T>) | Crash(cause: Uncaught)

  // ---------------------------------------------------------------- bookshelf

  /** The comparator of each `bookshelfSort` mode; `nameCmp` is `cnCompare`. */
  function ShelfComparator(mode: int, nameCmp: (string, string) -> int): (Book, Book) -> int {
    if mode == 1 then Reversed(By(CompareInts, (b: Book) => b.latestChapterTime))
    else if mode == 2 then By(nameCmp, (b: Book) => b.name)
    else if mode == 3 then By(CompareInts, (b: Book) => b.order)
    else Reversed(By(CompareInts, (b: Book) => b.durChapterTime))
  }

  /** `bookshelf`: an empty shelf is an error; otherwise the books sorted by the mode. */
  function Bookshelf(books: seq<Book>, mode: int, nameCmp: (string, string) -> int): (r: Reply<seq<Book>>)
    ensures r.ErrorMsg? <==> |books| == 0
    ensures r.ErrorMsg? ==> r.msg == NoBooksAddedYet
    ensures r.Data? ==> multiset(r.value) == multiset(books)
  {
    if |books| == 0 then ErrorMsg(NoBooksAddedYet)
    else Data(SortedWith(ShelfComparator(mode, nameCmp), books))
  }

  /** The order mode `mode` promises between an earlier book `a` and a later book `b`. */
  predicate ShelfOrder(mode: int, nameCmp: (string, string) -> int, a: Book, b: Book) {
    if mode == 1 then a.latestChapterTime >= b.latestChapterTime
    else if mode == 2 then nameCmp(a.name, b.name) <= 0
    else if mode == 3 then a.order <= b.order
    else a.durChapterTime >= b.durChapterTime
  }

  lemma ShelfComparatorValid(mode: int, nameCmp: (string, string) -> int)
    requires ValidComparator(nameCmp)
    ensures ValidComparator(ShelfComparator(mode, nameCmp))
  {
    NaturalOrdersValid();
    ByValid(CompareInts, (b: Book) => b.latestChapterTime);
    ReversedValid(By(CompareInts, (b: Book) => b.latestChapterTime));
    ByValid(nameCmp, (b: Book) => b.name);
    ByValid(CompareInts, (b: Book) => b.order);
    ByValid(CompareInts, (b: Book) => b.durChapterTime);
    ReversedValid(By(CompareInts, (b: Book) => b.durChapterTime));
  }

  /** A pair the mode's comparator does not swap is in the mode's order. */
  lemma ShelfPairOrder(mode: int, nameCmp: (string, string) -> int, a: Book, b: Book)
    requires ShelfComparator(mode, nameCmp)(a, b) <= 0
    ensures ShelfOrder(mode, nameCmp, a, b)
  {
    assert Reversed(By(CompareInts, (b: Book) => b.latestChapterTime))(a, b)
        == -CompareInts(a.latestChapterTime, b.latestChapterTime);
    assert By(nameCmp, (b: Book) => b.name)(a, b) == nameCmp(a.name, b.name);
    assert By(CompareInts, (b: Book) => b.order)(a, b) == CompareInts(a.order, b.order);
    assert Reversed(By(CompareInts, (b: Book) => b.durChapterTime))(a, b)
        == -CompareInts(a.durChapterTime, b.durChapterTime);
  }

  /** Every mode answers a non-empty shelf with all its books, newest update
      first (1), by name (2), by manual order (3) or most recently read first
      (any other value). */
  lemma BookshelfOrder(books: seq<Book>, mode: int, nameCmp: (string, string) -> int)
    requires ValidComparator(nameCmp)
    requires |books| > 0
    ensures var r := Bookshelf(books, mode, nameCmp);
      && r.Data?
      && multiset(r.value) == multiset(books)
      && forall i, j :: 0 <= i < j < |r.value| ==> ShelfOrder(mode, nameCmp, r.value[i], r.value[j])
  {
    var cmp := ShelfComparator(mode, nameCmp);
    ShelfComparatorValid(mode, nameCmp);
    SortedWithIsSorted(cmp, books);
    var s := SortedWith(cmp, books);
    forall i, j | 0 <= i < j < |s| ensures ShelfOrder(mode, nameCmp, s[i], s[j]) {
      ShelfPairOrder(mode, nameCmp, s[i], s[j]);
    }
  }

  // ---------------------------------------------------------------- images

  /** The controller's fields: the url of the last book an image was served for,
      that book (`lateinit`: `None` until first loaded) and its source. */
  datatype ImgCache = ImgCache(bookUrl: string, book: Option<Book>, source: Option<BookSource>)

  /** The state before any request. */
  const FreshCache := ImgCache("", None, None)

  /** What `getImg` hands to the image provider. */
  datatype ImageRequest = ImageRequest(book: Book, src: string, width: int, source: Option<BookSource>)

  /** The default image width. */
  const DefaultWidth := 640

  /** `width`: absent means the default; present, it must parse as an `Int`. */
  function Width(params: map<string, seq<string>>): (r: Option<int>)
    ensures FirstParam(params, "width").None? ==> r == Some(DefaultWidth)
    ensures FirstParam(params, "width").Some? ==> r == ParseInt(FirstParam(params, "width").value)
  {
    match FirstParam(params, "width")
    case None => Some(DefaultWidth)
    case Some(w) => ParseInt(w)
  }

  function SourceOf(sources: map<string, BookSource>, origin: string): Option<BookSource> {
    if origin in sources then Some(sources[origin]) else None
  }

  /** `getImg`. A missing url is reported before a missing path; an unparsable
      width escapes as an exception. A url other than the cached one is looked
      up (unknown: error, cache untouched) and replaces the cache; the cached url
      itself is served from the cache without a lookup, which on the first call
      with an empty url finds no book at all. */
  function GetImg(cache: ImgCache, params: map<string, seq<string>>,
                  books: map<string, Book>, sources: map<string, BookSource>): (r: (ImgCache, Outcome<ImageRequest>))
    ensures FirstParam(params, "url").None? ==> r == (cache, Answer(ErrorMsg(BookUrlNull)))
    ensures FirstParam(params, "url").Some? && FirstParam(params, "path").None? ==>
              r == (cache, Answer(ErrorMsg(ImageUrlEmpty)))
    ensures r.1.Crash? && r.1.cause == NumberFormat <==>
              FirstParam(params, "url").Some? && FirstParam(params, "path").Some? && Width(params).None?
    ensures r.1.Answer? && r.1.reply.ErrorMsg? && r.1.reply.msg == BookUrlInvalid <==>
              && FirstParam(params, "url").Some? && FirstParam(params, "path").Some? && Width(params).Some?
              && FirstParam(params, "url").value != cache.bookUrl && FirstParam(params, "url").value !in books
    ensures r.1.Answer? && r.1.reply.Data? ==>
              var url := FirstParam(params, "url").value;
              && r.0.bookUrl == url
              && r.0.book == Some(r.1.reply.value.book)
              && r.1.reply.value.src == FirstParam(params, "path").value
              && r.1.reply.value.width == Width(params).value
              && (url != cache.bookUrl ==>
                    r.1.reply.value.book == books[url] && r.1.reply.value.source == SourceOf(sources, books[url].origin))
              && (url == cache.bookUrl ==> r.0 == cache)
    ensures r.0 != cache ==> r.1.Answer? && r.1.reply.Data?
    ensures r.1 == Answer(ErrorMsg(BookUrlNull)) <==> FirstParam(params, "url").None?
    ensures r.1 == Answer(ErrorMsg(ImageUrlEmpty)) <==>
              FirstParam(params, "url").Some? && FirstParam(params, "path").None?
    ensures r.1.Answer? && r.1.reply.Data? <==>
              && FirstParam(params, "url").Some? && FirstParam(params, "path").Some? && Width(params).Some?
              && var url := FirstParam(params, "url").value;
                 if url == cache.bookUrl then cache.book.Some? else url in books
    ensures r.1 == Crash(UninitializedBook) <==>
              && FirstParam(params, "url").Some? && FirstParam(params, "path").Some? && Width(params).Some?
              && FirstParam(params, "url").value == cache.bookUrl && cache.book.None?
    ensures r.1.Answer? && r.1.reply.Data? && FirstParam(params, "url").value == cache.bookUrl ==>
              r.1.reply.value == ImageRequest(cache.book.value, FirstParam(params, "path").value,
                                              Width(params).value, cache.source)
  {
    match FirstParam(params, "url")
    case None => (cache, Answer(ErrorMsg(BookUrlNull)))
    case Some(url) =>
      match FirstParam(params, "path")
      case None => (cache, Answer(ErrorMsg(ImageUrlEmpty)))
      case Some(src) =>
        match Width(params)
        case None => (cache, Crash(NumberFormat))
        case Some(width) =>
          if cache.bookUrl != url && url !in books then (cache, Answer(ErrorMsg(BookUrlInvalid)))
          else
            var next :=
              if cache.bookUrl != url then ImgCache(url, Some(books[url]), SourceOf(sources, books[url].origin))
              else cache;
            match next.book
            case None => (next, Crash(UninitializedBook))
            case Some(book) => (next, Answer(Data(ImageRequest(book, src, width, next.source))))
  }

  /** A cache whose book is loaded unless it has never served a url. */
  predicate CacheLoaded(cache: ImgCache) {
    cache.book.None? ==> cache.bookUrl == ""
  }

  /** `getImg` keeps the cache loaded, and the uninitialized-book exception
      happens exactly for an empty url before any book was loaded. */
  lemma GetImgKeepsCacheLoaded(cache: ImgCache, params: map<string, seq<string>>,
                               books: map<string, Book>, sources: map<string, BookSource>)
    requires CacheLoaded(cache)
    ensures CacheLoaded(GetImg(cache, params, books, sources).0)
    ensures GetImg(cache, params, books, sources).1 == Crash(UninitializedBook) <==>
              && FirstParam(params, "url") == Some("") && FirstParam(params, "path").Some?
              && Width(params).Some? && cache.book.None?
  {
  }

  /** Repeating a served request serves it again from the cache, whatever the
      databases hold by then: a book changed or deleted after it was cached is
      still the one served. */
  lemma GetImgServesCachedBook(cache: ImgCache, params: map<string, seq<string>>,
                               books: map<string, Book>, sources: map<string, BookSource>,
                               books': map<string, Book>, sources': map<string, BookSource>)
    requires GetImg(cache, params, books, sources).1.Answer?
    requires GetImg(cache, params, books, sources).1.reply.Data?
    ensures var (c1, o1) := GetImg(cache, params, books, sources);
            GetImg(c1, params, books', sources') == (c1, o1)
  {
  }

  // ---------------------------------------------------------------- chapters

  /** A stored table-of-contents entry of a book. */
  datatype BookChapter = BookChapter(index: int, title: string, url: string)

  /** `getChapterList`: an empty or missing url is an error; an empty stored list
      falls through to `refreshToc`, whose reply is given as `refreshed`. */
  function GetChapterList(params: map<string, seq<string>>, stored: map<string, seq<BookChapter>>,
                          refreshed: Reply<seq<BookChapter>>): (r: Reply<seq<BookChapter>>)
    ensures IsNullOrEmpty(FirstParam(params, "url")) ==> r == ErrorMsg(ParameterUrlEmpty)
    ensures !IsNullOrEmpty(FirstParam(params, "url")) ==>
              var url := FirstParam(params, "url").value;
              if url in stored && |stored[url]| > 0 then r == Data(stored[url]) else r == refreshed
    ensures r.Data? && |r.value| == 0 ==> r == refreshed
  {
    var url := FirstParam(params, "url");
    if IsNullOrEmpty(url) then ErrorMsg(ParameterUrlEmpty)
    else
      var list := if url.value in stored then stored[url.value] else [];
      if |list| == 0 then refreshed else Data(list)
  }

  /** The refresh's reply matters exactly when no chapters are stored for the
      book: with two different replies, the answers agree iff the stored list is
      non-empty, and otherwise each answer is its own reply. */
  lemma ChapterListStoredWins(params: map<string, seq<string>>, stored: map<string, seq<BookChapter>>,
                              r1: Reply<seq<BookChapter>>, r2: Reply<seq<BookChapter>>)
    requires !IsNullOrEmpty(FirstParam(params, "url")) && r1 != r2
    ensures var url := FirstParam(params, "url").value;
            GetChapterList(params, stored, r1) == GetChapterList(params, stored, r2)
            <==> url in stored && |stored[url]| > 0
    ensures var url := FirstParam(params, "url").value;
            !(url in stored && |stored[url]| > 0) ==> GetChapterList(params, stored, r1) == r1
  {
  }

  // ---------------------------------------------------------------- content

  /** How many times the content handler re-reads a chapter that is not there yet. */
  const MaxWait := 30

  /** The reference for the chapter poll: the first of reads `from`..`MaxWait`
      that finds the chapter, or the last read's `None`. */
  function FirstFound<C>(polls: nat -> Option<C>, from: nat): Option<C>
    requires from <= MaxWait
    decreases MaxWait - from
  {
    if polls(from).Some? || from == MaxWait then polls(from) else FirstFound(polls, from + 1)
  }

  /** The poll of `getBookContent`: read, then while nothing is found re-read up
      to `MaxWait` times. `polls(k)` is what the `k`-th read returns. */
  method PollChapter<C>(polls: nat -> Option<C>) returns (chapter: Option<C>, wait: nat)
    ensures chapter == FirstFound(polls, 0)
    ensures wait <= MaxWait && chapter == polls(wait)
    ensures forall k :: 0 <= k < wait ==> polls(k).None?
    ensures chapter.None? ==> wait == MaxWait
  {
    chapter, wait := polls(0), 0;
    while chapter.None? && wait < MaxWait
      invariant wait <= MaxWait && chapter == polls(wait)
      invariant forall k :: 0 <= k < wait ==> polls(k).None?
      invariant FirstFound(polls, 0) == FirstFound(polls, wait)
    {
      wait := wait + 1;
      chapter := polls(wait);
    }
  }

  /** A content download: the text, or the stack trace of what it threw. */
  datatype Download = Downloaded(text: string) | DownloadFailed(trace: string)

  /** The services `getBookContent` consults besides the databases: the poll
      polls of `(url, index)`, the local content cache, the content processor
      and the network download. */
  datatype ContentWorld = ContentWorld(
    books: map<string, Book>,
    sources: map<string, BookSource>,
    polls: (string, int) -> nat -> Option<BookChapter>,
    cached: (Book, BookChapter) -> Option<string>,
    process: (Book, BookChapter, string) -> string,
    download: (BookSource, Book, BookChapter) -> Download)

  /** The reply once the book and the chapter are both found: cached content
      wins; otherwise the source must exist and the download decides. */
  function ServeContent(w: ContentWorld, book: Book, chapter: BookChapter): (r: Reply<string>)
    ensures w.cached(book, chapter).Some? ==> r == Data(w.process(book, chapter, w.cached(book, chapter).value))
    ensures w.cached(book, chapter).None? && book.origin !in w.sources ==> r == ErrorMsg(SourceNotFound)
    ensures w.cached(book, chapter).None? && book.origin in w.sources ==>
              match w.download(w.sources[book.origin], book, chapter)
              case Downloaded(t) => r == Data(w.process(book, chapter, t))
              case DownloadFailed(trace) => r == ErrorMsg(StackTrace(trace))
  {
    match w.cached(book, chapter)
    case Some(c) => Data(w.process(book, chapter, c))
    case None =>
      if book.origin !in w.sources then ErrorMsg(SourceNotFound)
      else
        match w.download(w.sources[book.origin], book, chapter)
        case Downloaded(t) => Data(w.process(book, chapter, t))
        case DownloadFailed(trace) => ErrorMsg(StackTrace(trace))
  }

  /** `getBookContent`. The index is parsed before anything is checked, so a
      malformed index escapes as an exception even when the url is missing;
      then a missing url, then a missing index are errors. The book is looked up
      and the chapter polled; either missing is "not found". */
  method GetBookContent(params: map<string, seq<string>>, w: ContentWorld) returns (r: Outcome<string>)
    ensures var idx := FirstParam(params, "index");
      idx.Some? && ParseInt(idx.value).None? ==> r == Crash(NumberFormat)
    ensures var idx := FirstParam(params, "index");
      (idx.None? || ParseInt(idx.value).Some?) && IsNullOrEmpty(FirstParam(params, "url")) ==>
        r == Answer(ErrorMsg(ParameterUrlEmpty))
    ensures !IsNullOrEmpty(FirstParam(params, "url")) && FirstParam(params, "index").None? ==>
              r == Answer(ErrorMsg(IndexParameterEmpty))
    ensures var url, idx := FirstParam(params, "url"), FirstParam(params, "index");
      !IsNullOrEmpty(url) && idx.Some? && ParseInt(idx.value).Some? ==>
        var found := FirstFound(w.polls(url.value, ParseInt(idx.value).value), 0);
        if url.value !in w.books || found.None? then r == Answer(ErrorMsg(NotFound))
        else r == Answer(ServeContent(w, w.books[url.value], found.value))
  {
    var idx := FirstParam(params, "index");
    var index: Option<int> := None;
    if idx.Some? {
      var parsed := ParseInt(idx.value);
      if parsed.None? {
        return Crash(NumberFormat);
      }
      index := parsed;
    }
    var url := FirstParam(params, "url");
    if IsNullOrEmpty(url) {
      return Answer(ErrorMsg(ParameterUrlEmpty));
    }
    if index.None? {
      return Answer(ErrorMsg(IndexParameterEmpty));
    }
    var book := if url.value in w.books then Some(w.books[url.value]) else None;
    var chapter, _ := PollChapter(w.polls(url.value, index.value));
    if book.None? || chapter.None? {
      return Answer(ErrorMsg(NotFound));
    }
    r := Answer(ServeContent(w, book.value, chapter.value));
  }
}
