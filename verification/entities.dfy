/** The records shared by the book-source checker, the explore pager and the
    book API: book sources with their diagnostic groups, books and chapters. */
module Entities {
  import opened Wrappers

  /** Which probe a book verification belongs to: the search result or the discovery result. */
  datatype Role = Search | Discovery

  /** A group label of a book source. The checker writes the diagnostic ones;
      `UserGroup` is any group the user assigned by hand. */
  datatype Label =
    | SearchRuleEmpty        // "search rule empty"
    | SearchInvalid          // "search invalid"
    | DiscoveryRuleEmpty     // "discovery rule empty"
    | DiscoveryInvalid       // "discovery invalid"
    | TocInvalid(role: Role)     // "<role> toc invalid"
    | ContentInvalid(role: Role) // "<role> content invalid"
    | CheckTimeout           // "check timeout"
    | JsInvalid              // "js invalid"
    | WebsiteInvalid         // "website invalid"
    | UserGroup(name: string)

  /** `BookSourceType`: text, audio, image, or a pure file-download source. */
  datatype SourceType = TextSource | AudioSource | ImageSource | FileSource

  /** One discovery category of a source (what `exploreKinds()` yields). */
  datatype ExploreKind = ExploreKind(title: string, url: Option<string>)

  /** A book source: its key `url`, the rule fields the checker consults, and the
      diagnostic state the checker writes (`groups`, `errorComment`, `respondTime`). */
  datatype BookSource = BookSource(
    name: string,
    url: string,
    sourceType: SourceType,
    searchUrl: Option<string>,
    exploreUrl: Option<string>,
    exploreKinds: seq<ExploreKind>,
    groups: set<Label>,
    errorComment: bool,
    respondTime: int)

  /** A table-of-contents entry. */
  datatype Chapter = Chapter(title: string, url: string, isVolume: bool)

  /** A search or discovery hit. */
  datatype SearchBook = SearchBook(name: string, author: string, bookUrl: string, tocUrl: string)
}
