# Book-source checker and web-API handlers of an e-book reader, in Dafny

This project models the parts of the reader app that decide things without
touching the screen. Each of them is a pure function of its inputs once the
outside world is made a parameter.

- **The book-source health check** (`CheckSourceService`). A check resets a
  source's stale diagnostic groups. It then runs an optional search stage and an
  optional discovery stage. Each stage verifies the first book it finds through
  its detail page, its table of contents and one chapter of content. Leftover
  invalid groups become one aggregate failure. A failure that escapes is sorted
  into "check timeout", "js invalid" or "website invalid".
  - Every fetch is an oracle input (`SourceCheck.Oracle`). An outcome is a value
    or a thrown error with its class.
  - The group set is a `set<Label>`.
  - The batch wrapper rejects a start while a run is active. It keeps the
    `originSize` and `finishCount` counters and writes every checked source back.
    It is a sequential state machine (`CheckBatch`).
- **The remote-file list** (`RemoteBookViewModel`). This covers the list the
  data callback keeps, the filter by file name, and the directory-first sorts.
- **The explore pager** (`SourceShowViewModel`). This covers the page-key
  arithmetic, the set of books already seen, and the guards on which source
  gets a pager.
- **The RSS-source endpoints** (`RssSourceController`). This covers the
  validation and filtering of listing, saving, bulk saving, lookup and deletion.
- **The book endpoints** (`BookController`):
  - the bookshelf sort modes;
  - parameter validation and the controller's one-book cache in the image
    handler;
  - the chapter list;
  - the content handler with its bounded chapter poll.
- **The upload-rule dialog** (`DirectLinkUploadConfig`). Its validator accepts a
  rule only when the three text fields are non-blank.

Modules follow the program: `SourceCheck` and `CheckProperties` (one source),
`CheckBatch` (the batch), `RemoteBooks`, `ExplorePaging`, `RssSources`,
`BookApi`, `DirectLinkUpload`. They share the small modules `Wrappers`, `Text`
(blank tests, substring search, Kotlin's `toInt`), `Sorting` (a stable
`sortedWith` and comparator combinators with the `java.util.Comparator`
contract), `Entities` and `Api` (request parameters and `ReturnData`).

Several things become parameters:

- **Databases** are maps.
- **JSON parsing** is a `Body` that is missing, malformed or parsed.
- **Fetches and content processing** are functions passed in.
- **Foreign comparators** (`AlphanumComparator`, `cnCompare`) are passed in as
  parameters. The order lemmas require only that they satisfy the comparator
  contract.
- **Which group names count as invalid** (`getInvalidGroupNames`) is the
  predicate `Config.invalid`, because its code is not part of this model.

Three behaviours of the checker's code are easy to miss, and the model keeps
them:

- **Blank explore url.** A source with blank search and discovery rules gets
  only "search rule empty": a blank `exploreUrl` skips the discovery stage
  without any label, so "discovery rule empty" is not added. The search label
  is added and the check fails only if that label
  counts as invalid (`CheckProperties.BlankRulesLabelSearchOnly`).
- **Empty table of contents.** When the readable table of contents is empty,
  `toc.first()` throws an ordinary exception before the content switch is
  consulted, so the source is labelled "website invalid"
  (`CheckProperties.EmptyTocIsWebsiteInvalid`).
- **Stages that stop early.** When info, category or content checking is off,
  or the source is a file source, `checkBook` returns from inside
  `runCatching`. That also skips `onSuccess`, so such a verification leaves the
  role's labels as they were (`SourceCheck.CheckBook`).

## Model

| member | source | states |
|---|---|---|
| SourceCheck.InvalidGroups | app/src/main/java/io/legado/app/service/CheckSourceService.kt:192 | exactly the groups present that count as invalid |
| SourceCheck.Reset | app/src/main/java/io/legado/app/service/CheckSourceService.kt:155-157 | a label survives iff it was present and is not invalid; the error comment is cleared; no other field changes |
| SourceCheck.TakeReadableIsPrefix | app/src/main/java/io/legado/app/service/CheckSourceService.kt:214-217 | the lazy filter-then-take yields the first n readable chapters of the full filter |
| SourceCheck.ProbeToc | app/src/main/java/io/legado/app/service/CheckSourceService.kt:214-217 | the probed chapters are the first (at most two) chapters that are not volume markers whose url starts with their title; empty iff none is readable |
| SourceCheck.ContentRequest | app/src/main/java/io/legado/app/service/CheckSourceService.kt:218-229 | content is asked for the first chapter, with the second chapter's url as hint, or the first's when there is only one |
| SourceCheck.CheckBook | app/src/main/java/io/legado/app/service/CheckSourceService.kt:201-241 | only the role's toc/content labels can change. A completed content fetch removes both. An early return leaves the source unchanged. Content-empty and toc-empty failures add their label and continue. Every other failure aborts with that failure |
| SourceCheck.SearchStage | app/src/main/java/io/legado/app/service/CheckSourceService.kt:159-173 | off: unchanged. Blank search url: "search rule empty" added. Empty result: "search invalid" added, role labels untouched, no book verified. Non-empty result: both labels cleared and the result is exactly `checkBook` of the first hit. A failed search aborts with its error, carrying the source with only "search rule empty" removed. Only search labels change |
| SourceCheck.FirstKindUrl | app/src/main/java/io/legado/app/service/CheckSourceService.kt:176-178 | a url is found iff some explore kind has a non-blank url, and it is non-blank |
| SourceCheck.FirstKindUrlIsFirst | app/src/main/java/io/legado/app/service/CheckSourceService.kt:176-178 | the url found belongs to the first kind with a non-blank url |
| SourceCheck.DiscoveryStage | app/src/main/java/io/legado/app/service/CheckSourceService.kt:175-191 | off or blank explore url: unchanged, no label. No kind url: "discovery rule empty". Empty result: "discovery invalid" added, role labels untouched. Non-empty result: both labels cleared and the result is exactly `checkBook` of the first hit. A failed fetch aborts with its error, carrying the source with only "discovery rule empty" removed. Only discovery labels change |
| SourceCheck.DoCheckSource | app/src/main/java/io/legado/app/service/CheckSourceService.kt:154-196 | only groups and error comment change; the comment is cleared. A search abort is the check's result, and so is a discovery abort after a passing search; conversely a raised fault comes from one of those. When both stages pass, the check fails iff invalid groups remain, and then with the no-stack-trace failure naming exactly those groups |
| SourceCheck.FaultLabel | app/src/main/java/io/legado/app/service/CheckSourceService.kt:143-147 | the aggregate failure adds no label; a timeout adds "check timeout", a script error "js invalid", any other error "website invalid" unless it is a no-stack-trace error, which adds none |
| SourceCheck.CheckSource | app/src/main/java/io/legado/app/service/CheckSourceService.kt:134-152 | the response time is always recorded. The error comment is set iff the check failed. The groups are the check's groups plus the failure's label. A passing check leaves no invalid group |
| CheckProperties.StaleLabelsCleared | app/src/main/java/io/legado/app/service/CheckSourceService.kt:155-157 | a label neither stage writes, such as a user group, is in the result iff it was present before and is not invalid |
| CheckProperties.NoStagesOnlyReset | app/src/main/java/io/legado/app/service/CheckSourceService.kt:154-196 | with both stages off the check passes and only resets the stale state |
| CheckProperties.BlankSearchUrlMakesNoSearch | app/src/main/java/io/legado/app/service/CheckSourceService.kt:161-172 | a blank search url adds "search rule empty", and the result does not depend on the search answers |
| CheckProperties.BlankRulesLabelSearchOnly | app/src/main/java/io/legado/app/service/CheckSourceService.kt:159-195 | with blank search and explore urls the groups are the reset ones plus "search rule empty" only; the check fails iff that label is invalid |
| CheckProperties.EmptySearchVerifiesNothing | app/src/main/java/io/legado/app/service/CheckSourceService.kt:164-165 | an empty search adds "search invalid", and the result does not depend on the search book's probe |
| CheckProperties.OnlyFirstHitVerified | app/src/main/java/io/legado/app/service/CheckSourceService.kt:166-168 | two searches that agree on their first hit give the same check |
| CheckProperties.DiscoverySkipped | app/src/main/java/io/legado/app/service/CheckSourceService.kt:175 | discovery off or a blank explore url: no discovery call matters and the discovery labels are those left after the reset |
| CheckProperties.VolumeMarkerSkipped | app/src/main/java/io/legado/app/service/CheckSourceService.kt:215 | a leading volume marker is skipped and the content probe reads the next readable chapter |
| CheckProperties.EmptyTocIsWebsiteInvalid | app/src/main/java/io/legado/app/service/CheckSourceService.kt:214-218 | a table of contents with no readable chapter ends the check as "website invalid" with the error comment set |
| CheckProperties.SwallowedFailureStillDiscovers | app/src/main/java/io/legado/app/service/CheckSourceService.kt:230-236 | a content-empty failure of the search probe is labelled and discovery still runs |
| CheckProperties.RethrownFailureSkipsDiscovery | app/src/main/java/io/legado/app/service/CheckSourceService.kt:235 | any other failure of the search probe aborts and the discovery answers do not matter |
| CheckProperties.SearchTimeoutLabelled | app/src/main/java/io/legado/app/service/CheckSourceService.kt:144 | a timed-out search ends with "check timeout", the error comment and the measured response time |
| CheckProperties.DiscoveryTimeoutLabelled | app/src/main/java/io/legado/app/service/CheckSourceService.kt:143-183 | a discovery fetch that times out after a passing search ends with "check timeout", the error comment and the measured response time |
| CheckProperties.DiscoveryScriptErrorLabelled | app/src/main/java/io/legado/app/service/CheckSourceService.kt:143-183 | a script error in the discovery fetch after a passing search ends with "js invalid" and the error comment |
| CheckProperties.CheckBookLocal | app/src/main/java/io/legado/app/service/CheckSourceService.kt:201-241 | a verification depends on the rules, the answers and the role's own labels only |
| CheckProperties.SearchLocal | app/src/main/java/io/legado/app/service/CheckSourceService.kt:159-173 | the search stage depends on the rules, the answers and the search labels only |
| CheckProperties.DiscoveryLocal | app/src/main/java/io/legado/app/service/CheckSourceService.kt:175-191 | the discovery stage depends on the rules, the answers and the discovery labels only |
| CheckProperties.CheckBookIdempotent | app/src/main/java/io/legado/app/service/CheckSourceService.kt:201-241 | a verification repeated on its own continuing result changes nothing |
| CheckProperties.SearchIdempotent | app/src/main/java/io/legado/app/service/CheckSourceService.kt:159-173 | the search stage repeated on its own continuing result changes nothing |
| CheckProperties.DiscoveryIdempotent | app/src/main/java/io/legado/app/service/CheckSourceService.kt:175-191 | the discovery stage repeated on its own continuing result changes nothing |
| CheckProperties.HealthyRunStable | app/src/main/java/io/legado/app/service/CheckSourceService.kt:154-196 | a passing check's result passes again unchanged |
| CheckProperties.HealthyRecheckStable | app/src/main/java/io/legado/app/service/CheckSourceService.kt:134-152 | re-checking a source that passed, with the same answers, gives the same source |
| CheckBatch.Resolve | app/src/main/java/io/legado/app/service/CheckSourceService.kt:106-110 | never more sources than ids, all when every id resolves, none when none does |
| CheckBatch.ResolveAppend | app/src/main/java/io/legado/app/service/CheckSourceService.kt:106-110 | resolving is id by id in order: a concatenation resolves to the concatenated parts, one id to its source or nothing |
| CheckBatch.ResolveMembers | app/src/main/java/io/legado/app/service/CheckSourceService.kt:106-110 | a source is queued iff some id names it |
| CheckBatch.Start | app/src/main/java/io/legado/app/service/CheckSourceService.kt:99-115 | a start while running is rejected with nothing changed; otherwise originSize is the number of ids, finishCount is 0 and the resolved sources are queued |
| CheckBatch.Complete | app/src/main/java/io/legado/app/service/CheckSourceService.kt:116-127 | finishCount goes up by one, the checked source is written to the table under its url, and the progress names it |
| CheckBatch.Stop | app/src/main/java/io/legado/app/service/CheckSourceService.kt:128-130 | the run ends with the counters and the table kept |
| CheckBatch.RunBatch | app/src/main/java/io/legado/app/service/CheckSourceService.kt:99-131 | an accepted batch ends not running, with finishCount equal to the number of resolvable ids and never above the number of ids |
| RemoteBooks.SetItems | app/src/main/java/io/legado/app/ui/book/import/remote/RemoteBookViewModel.kt:42-46 | the list and the emitted list become exactly the given files |
| RemoteBooks.AddItems | app/src/main/java/io/legado/app/ui/book/import/remote/RemoteBookViewModel.kt:48-51 | the earlier items keep their places and the files follow them |
| RemoteBooks.Clear | app/src/main/java/io/legado/app/ui/book/import/remote/RemoteBookViewModel.kt:53-56 | the list empties and an empty list is emitted |
| RemoteBooks.FilterByName | app/src/main/java/io/legado/app/ui/book/import/remote/RemoteBookViewModel.kt:63 | the filtered list is never longer than the list |
| RemoteBooks.FilterByNameMembers | app/src/main/java/io/legado/app/ui/book/import/remote/RemoteBookViewModel.kt:63 | a file is kept iff it is in the list and its name contains the key |
| RemoteBooks.FilterDistributes | app/src/main/java/io/legado/app/ui/book/import/remote/RemoteBookViewModel.kt:63 | filtering keeps list order: it distributes over concatenation |
| RemoteBooks.ScreenAfterCallbacks | app/src/main/java/io/legado/app/ui/book/import/remote/RemoteBookViewModel.kt:42-66 | after `addItems` the screen shows the old matches then the new files' matches; after `setItems` only the new files' matches, whatever came before; after `clear` nothing; `clear` then `addItems` is `setItems` |
| RemoteBooks.Screen | app/src/main/java/io/legado/app/ui/book/import/remote/RemoteBookViewModel.kt:58-66 | a null or blank key emits the whole list; any other key emits the filtered list; the list itself is unchanged |
| RemoteBooks.SortList | app/src/main/java/io/legado/app/ui/book/import/remote/RemoteBookViewModel.kt:72-94 | every sort is a permutation of its input |
| RemoteBooks.ComparatorValid | app/src/main/java/io/legado/app/ui/book/import/remote/RemoteBookViewModel.kt:72-94 | every mode's comparator keeps the comparator contract when the name comparator does |
| RemoteBooks.PairOrder | app/src/main/java/io/legado/app/ui/book/import/remote/RemoteBookViewModel.kt:73-93 | a pair a mode's comparator does not swap has a directory no later than a file, and is in the mode's order inside its group |
| RemoteBooks.SortListOrder | app/src/main/java/io/legado/app/ui/book/import/remote/RemoteBookViewModel.kt:72-94 | every mode and direction gives a permutation with all directories before all files, ordered inside each group by modification time or name, rising or falling |
| Sorting.SortedWith | app/src/main/java/io/legado/app/ui/book/import/remote/RemoteBookViewModel.kt:74 | sortedWith returns a permutation of its input |
| Sorting.SortedWithIsSorted | app/src/main/java/io/legado/app/api/controller/BookController.kt:56-58 | with a valid comparator the result is sorted by it |
| Sorting.CompareBools | app/src/main/java/io/legado/app/ui/book/import/remote/RemoteBookViewModel.kt:80 | compareValues on booleans puts false before true |
| Sorting.CompareInts | app/src/main/java/io/legado/app/ui/book/import/remote/RemoteBookViewModel.kt:90 | compareValues on numbers has the sign of the difference |
| Text.Contains | app/src/main/java/io/legado/app/ui/book/import/remote/RemoteBookViewModel.kt:63 | true iff the key occurs somewhere in the text |
| ExplorePaging.Load | app/src/main/java/io/legado/app/ui/main/source/SourceShowViewModel.kt:56-81 | the seen set never shrinks. A missing url or a failed fetch (timeout included) is an error and changes nothing. A fetched page ends paging iff all its books were seen (an empty one included); otherwise the data is exactly the fetched books, which join the seen set, prevKey is none iff page 1 (else page - 1), and nextKey is page + 1 |
| ExplorePaging.MissingKeyIsPageOne | app/src/main/java/io/legado/app/ui/main/source/SourceShowViewModel.kt:57 | a missing key loads what key 1 loads |
| ExplorePaging.SeenPageEndsPaging | app/src/main/java/io/legado/app/ui/main/source/SourceShowViewModel.kt:62-68 | a page of books all seen before is the end page and changes nothing |
| ExplorePaging.RefreshKey | app/src/main/java/io/legado/app/ui/main/source/SourceShowViewModel.kt:49-54 | no anchor or no page near it gives no key |
| ExplorePaging.RefreshReloadsAnchorPage | app/src/main/java/io/legado/app/ui/main/source/SourceShowViewModel.kt:49-54 | refreshing at a loaded page gives that page's own number back |
| ExplorePaging.PagerSource | app/src/main/java/io/legado/app/ui/main/source/SourceShowViewModel.kt:36 | a source gets a pager iff its url is not empty |
| ExplorePaging.SetUrls | app/src/main/java/io/legado/app/ui/main/source/SourceShowViewModel.kt:42-46 | the explore url is always taken; the source is replaced only for a non-null explore url and a known source |
| ExplorePaging.SetUrlsThenLoad | app/src/main/java/io/legado/app/ui/main/source/SourceShowViewModel.kt:36-81 | after `setUrls` with an explore url and a stored source, a load never reports a missing url, a fetched page is a page, and the source gets a pager iff its url is not empty |
| Api.FirstParam | app/src/main/java/io/legado/app/api/controller/RssSourceController.kt:60 | the first value of a parameter, present iff the parameter has a value |
| RssSources.Sources | app/src/main/java/io/legado/app/api/controller/RssSourceController.kt:17-24 | an empty table is an error, never data; otherwise all sources |
| RssSources.SaveSource | app/src/main/java/io/legado/app/api/controller/RssSourceController.kt:26-40 | missing or unparsable data, or an empty name or url, is an error with nothing inserted; otherwise the source is inserted and the answer is empty-string data |
| RssSources.AcceptedSources | app/src/main/java/io/legado/app/api/controller/RssSourceController.kt:49-55 | the accepted sources all have a non-blank name and url |
| RssSources.AcceptedMembers | app/src/main/java/io/legado/app/api/controller/RssSourceController.kt:49-55 | a source is returned iff it was sent and has a non-blank name and url |
| RssSources.InsertAllKeys | app/src/main/java/io/legado/app/api/controller/RssSourceController.kt:49-55 | inserting a list adds exactly its urls to the table's keys |
| RssSources.InsertAllKeepsOthers | app/src/main/java/io/legado/app/api/controller/RssSourceController.kt:49-55 | inserting a list leaves the entry of every url outside it unchanged |
| RssSources.InsertAllLastWins | app/src/main/java/io/legado/app/api/controller/RssSourceController.kt:49-55 | after inserting a list, a url holds the last source in the list that carries it |
| RssSources.InsertAccepted | app/src/main/java/io/legado/app/api/controller/RssSourceController.kt:49-55 | the loop collects exactly the accepted sources in order and inserts exactly those |
| RssSources.SaveSources | app/src/main/java/io/legado/app/api/controller/RssSourceController.kt:42-57 | missing data, a failed parse or an empty array is an error with nothing inserted; otherwise the accepted sources are inserted and returned |
| RssSources.WhitespaceNameDiffers | app/src/main/java/io/legado/app/api/controller/RssSourceController.kt:32-50 | a whitespace-only name is saved by the single save but skipped by the bulk save |
| RssSources.GetSource | app/src/main/java/io/legado/app/api/controller/RssSourceController.kt:59-68 | an empty or missing url is one error, an unknown url another, a known url its source |
| RssSources.SaveThenGet | app/src/main/java/io/legado/app/api/controller/RssSourceController.kt:26-68 | a source saved with a non-empty name and url is found again by its url |
| RssSources.SaveThenList | app/src/main/java/io/legado/app/api/controller/RssSourceController.kt:17-40 | after a successful single save, the listing is data and holds the saved source |
| RssSources.DeleteSources | app/src/main/java/io/legado/app/api/controller/RssSourceController.kt:70-78 | missing data is one error, an unparsable body a format error; otherwise the parsed sources are deleted and the answer is the executed message |
| RssSources.DeleteThenGet | app/src/main/java/io/legado/app/api/controller/RssSourceController.kt:59-78 | after deleting a parsed list, each of its urls is not found and every other url answers as before |
| BookApi.Bookshelf | app/src/main/java/io/legado/app/api/controller/BookController.kt:47-65 | an empty shelf is the "no books" error and only it; otherwise a permutation of the books |
| BookApi.ShelfComparatorValid | app/src/main/java/io/legado/app/api/controller/BookController.kt:54-62 | every mode's comparator keeps the comparator contract when cnCompare does |
| BookApi.ShelfPairOrder | app/src/main/java/io/legado/app/api/controller/BookController.kt:54-62 | a pair a mode's comparator does not swap is in the mode's order |
| BookApi.BookshelfOrder | app/src/main/java/io/legado/app/api/controller/BookController.kt:54-63 | every mode returns all the books: mode 1 newest update first, 2 by cnCompare, 3 by order rising, any other most recently read first |
| BookApi.Width | app/src/main/java/io/legado/app/api/controller/BookController.kt:106 | an absent width is 640; a present one is what toInt makes of it |
| Text.ParseInt | app/src/main/java/io/legado/app/api/controller/BookController.kt:178 | a parsed number lies in the Int range. A digit string, with or without a sign, parses to its value iff that is in range. An empty text, a lone sign, a bad first character or a non-digit after it does not parse |
| Text.ParseShowInt | app/src/main/java/io/legado/app/api/controller/BookController.kt:178 | an Int written in decimal parses back to itself |
| BookApi.GetImg | app/src/main/java/io/legado/app/api/controller/BookController.kt:100-118 | a missing url is one error, and a present url with a missing path the other; a bad width escapes. A url other than the cached one with no book is an error that leaves the cache untouched. An image is served iff url, path and width are present and the book is known (the cached one, or stored); the cached url with no book loaded crashes. A served image records the url and its book, loaded only when the url differs, and the cached url serves the cached book and source. The cache changes only when an image is served |
| BookApi.GetImgKeepsCacheLoaded | app/src/main/java/io/legado/app/api/controller/BookController.kt:107-115 | a cache that has a book unless it never served a url stays so; the uninitialized-book exception happens exactly for an empty url before any book was loaded |
| BookApi.GetImgServesCachedBook | app/src/main/java/io/legado/app/api/controller/BookController.kt:107-112 | a repeated served request is answered from the cache whatever the databases hold by then |
| BookApi.GetChapterList | app/src/main/java/io/legado/app/api/controller/BookController.kt:160-171 | an empty or missing url is an error; a stored non-empty list is the answer; otherwise the refresh's reply is |
| BookApi.ChapterListStoredWins | app/src/main/java/io/legado/app/api/controller/BookController.kt:160-171 | the refresh's reply changes the answer iff no chapters are stored for the book, and then the answer is that reply |
| BookApi.PollChapter | app/src/main/java/io/legado/app/api/controller/BookController.kt:187-196 | the poll returns the first read that finds the chapter, after at most 30 re-reads, and gives up only after all 30 |
| BookApi.ServeContent | app/src/main/java/io/legado/app/api/controller/BookController.kt:200-223 | cached content wins; otherwise a missing source is an error, a download is processed, a failed download answers its stack trace |
| BookApi.GetBookContent | app/src/main/java/io/legado/app/api/controller/BookController.kt:176-224 | a malformed index escapes before anything else. Then a missing url is an error, then a missing index. A missing book or a chapter never found is "not found". Otherwise the content is served |
| DirectLinkUpload.GetRule | app/src/main/java/io/legado/app/ui/config/DirectLinkUploadConfig.kt:82-100 | succeeds iff upload url, download rule and summary are non-blank; the first blank one is reported; a rule carries the form's four values |
| DirectLinkUpload.UpViewGetRule | app/src/main/java/io/legado/app/ui/config/DirectLinkUploadConfig.kt:75-100 | a rule shown in the form reads back as itself iff its three text fields are non-blank |
| DirectLinkUpload.GetRuleUpView | app/src/main/java/io/legado/app/ui/config/DirectLinkUploadConfig.kt:75-99 | a rule read from the form shows that same form again |
| DirectLinkUpload.Confirm | app/src/main/java/io/legado/app/ui/config/DirectLinkUploadConfig.kt:48-53 | a valid form replaces the stored rule and closes the dialog; an invalid one changes nothing |

## Left out

- Coroutines, the worker pool (`onEachParallel`), `withTimeout` and
  `ensureActive`. The batch checks its sources in order. A timeout is one more
  error class an oracle can answer, and cancellation is not modelled.
- The order in which parallel checks finish. The progress line names the source
  finished last in the sequential order.
- The `Debug` recorder's messages and its start and end of checking; only the
  response time it measures is kept, as an oracle value.
- Notifications, toasts and the event bus.
- `getCheckKeyword` and the search keyword: the search answer is an oracle value
  and does not depend on the keyword.
- `getInvalidGroupNames`, `removeInvalidGroups` and `addErrorComment` have no
  code here. Which labels are invalid is the predicate `Config.invalid`, and the
  error comment is a flag without its text.
- Where the check table resolves the ids: the flow looks each source up lazily
  as it checks; here all ids are resolved when the run starts.
- `refreshToc`, whose reply the chapter list takes as an input.
- Image loading and caching (`ImageProvider`), which receives the `ImageRequest`
  that `BookApi.GetImg` produces.
- `ContentProcessor`, which is the `process` parameter.
- `getCover`, `saveBook` and the other handlers of the book controller are not
  modelled; only `bookshelf`, `getImg`, `getChapterList` and `getBookContent` are.
- `SourceHelp.deleteRssSources` has no code here. `RssSources.DeleteAll` takes
  it to remove each handed-over source by its url, the table's key.
- ExplorePaging.Load: an error leaves the seen set as it was. In the app,
  `books.addAll` runs before the fetched books are inserted into the
  search-book table, so an insert failure or the 30-second timeout firing
  between the two gives an error with the seen set already grown. The insert
  itself (a database write) is not modelled.
- RemoteBooks.Feed: each emission is recorded as a snapshot of the list. The app
  emits the same live list, which the sorting step reads later, so a change
  between an emission and its sort is not modelled.
- ExplorePaging.Load: the seen set compares whole `SearchBook` records. Kotlin's
  `containsAll` uses `SearchBook.equals`, which has no code here; if that compares
  fewer fields, the app ends paging on pages the model still shows.
- The delay between chapter reads.
- The copy, paste, import and test actions of the upload dialog.
- BookApi.BookshelfOrder: does not state that books with equal keys keep their
  stored order. Kotlin's sorts are stable and `Sorting.SortedWith` is too, but
  stability is not proved.
- RemoteBooks.SortListOrder: does not state stability, for the same reason.
- Text.ParseInt: accepts ASCII digits only, while Kotlin's `toInt` also reads
  other Unicode decimal digits.
- ExplorePaging.Load: page keys are unbounded integers, while Kotlin's `Int`
  would wrap after page 2147483647.
- SourceCheck.CheckSource: the final debug message (success, or failure with
  the error's text) is not modelled.
