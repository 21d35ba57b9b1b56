/** The health check of one book source (`CheckSourceService.doCheckSource`,
    `checkBook` and the failure classification of `checkSource`).

    Every network fetch is an oracle input: the checker is a pure function of
    the source, the check configuration and the outcomes the fetches report. */
module SourceCheck {
  import opened Wrappers
  import opened Text
  import opened Entities

  /** The class of a thrown error, as far as the checker distinguishes it. */
  datatype Kind =
    | Timeout       // TimeoutCancellationException of the per-source time limit
    | Script        // ScriptException or WrappedException from a rule script
    | ContentEmpty  // ContentEmptyException
    | TocEmpty      // TocEmptyException
    | Other         // anything else (network, parsing, an empty list's first())

  /** A thrown error: its class, and whether it is a `NoStackTraceException`. */
  datatype Thrown = Thrown(kind: Kind, quiet: bool)

  /** The outcome of one fetch: a value, or a thrown error. */
  datatype Fetch<+T> = Done(value: T) | Fail(failure: Thrown)

  /** The outcomes of the fetches made while verifying one probed book:
      the detail page, the table of contents, and the content of a chapter
      (given the chapter and the next-chapter url hint). */
  datatype BookProbe = BookProbe(
    info: Fetch<()>,
    toc: Fetch<seq<Chapter>>,
    content: (Chapter, string) -> Fetch<()>)

  /** Everything the outside world answers during one source check. The discovery
      fetch sees the url of the first explore kind that has one; `respondTime` is
      what the debug recorder measured. */
  datatype Oracle = Oracle(
    search: Fetch<seq<SearchBook>>,
    searchBook: BookProbe,
    explore: string -> Fetch<seq<SearchBook>>,
    exploreBook: BookProbe,
    respondTime: int)

  /** The `CheckSource` switches. `invalid` tells which group names count as
      invalid groups (`getInvalidGroupNames`), whose code is not part of this model. */
  datatype Config = Config(
    checkSearch: bool,
    checkDiscovery: bool,
    checkInfo: bool,
    checkCategory: bool,
    checkContent: bool,
    invalid: Label -> bool)

  /** What escapes `doCheckSource`: a fetch error, or the aggregate
      `NoStackTraceException` naming the invalid groups still present. */
  datatype Fault = Raised(failure: Thrown) | Unhealthy(names: set<Label>)

  /** A stage either lets the check continue or aborts it; either way the source
      carries the labels written so far. */
  datatype Run = Continue(src: BookSource) | Abort(src: BookSource, fault: Fault)

  function AddGroup(s: BookSource, l: Label): BookSource {
    s.(groups := s.groups + {l})
  }

  function RemoveGroups(s: BookSource, ls: set<Label>): BookSource {
    s.(groups := s.groups - ls)
  }

  /** The two labels a book verification of `role` writes. */
  function RoleLabels(role: Role): set<Label> {
    {TocInvalid(role), ContentInvalid(role)}
  }

  const SearchLabels: set<Label> := {SearchRuleEmpty, SearchInvalid} + RoleLabels(Search)
  const DiscoveryLabels: set<Label> := {DiscoveryRuleEmpty, DiscoveryInvalid} + RoleLabels(Discovery)

  /** The groups present that count as invalid. */
  function InvalidGroups(cfg: Config, groups: set<Label>): (bad: set<Label>)
    ensures forall l :: l in bad <==> l in groups && cfg.invalid(l)
  {
    set l | l in groups && cfg.invalid(l)
  }

  /** `removeInvalidGroups()` and `removeErrorComment()`. */
  function Reset(cfg: Config, s: BookSource): (t: BookSource)
    ensures forall l :: l in t.groups <==> l in s.groups && !cfg.invalid(l)
    ensures !t.errorComment
    ensures t.(groups := s.groups, errorComment := s.errorComment) == s
  {
    s.(groups := s.groups - InvalidGroups(cfg, s.groups), errorComment := false)
  }

  /** A chapter the probe may read: not a volume marker whose url starts with its title. */
  predicate Readable(c: Chapter) {
    !(c.isVolume && StartsWith(c.url, c.title))
  }

  /** All readable chapters, in order: the reference for `ProbeToc`. */
  function ReadableChapters(cs: seq<Chapter>): (r: seq<Chapter>)
    ensures forall i :: 0 <= i < |r| ==> Readable(r[i])
    ensures |r| <= |cs|
  {
    if |cs| == 0 then []
    else if Readable(cs[0]) then [cs[0]] + ReadableChapters(cs[1..])
    else ReadableChapters(cs[1..])
  }

  /** The lazy `filter { readable }.take(n)`: stops once `n` chapters are kept. */
  function TakeReadable(cs: seq<Chapter>, n: nat): seq<Chapter> {
    if n == 0 || |cs| == 0 then []
    else if Readable(cs[0]) then [cs[0]] + TakeReadable(cs[1..], n - 1)
    else TakeReadable(cs[1..], n)
  }

  function Min(a: int, b: int): int {
    if a < b then a else b
  }

  /** The lazy take is the first `n` readable chapters. */
  lemma {:induction false} TakeReadableIsPrefix(cs: seq<Chapter>, n: nat)
    ensures TakeReadable(cs, n) == ReadableChapters(cs)[..Min(n, |ReadableChapters(cs)|)]
  {
    if n == 0 || |cs| == 0 {
    } else {
      TakeReadableIsPrefix(cs[1..], if Readable(cs[0]) then n - 1 else n);
    }
  }

  /** The chapters the probe works on: at most two, readable, the first ones of the list. */
  function ProbeToc(cs: seq<Chapter>): (toc: seq<Chapter>)
    ensures toc == ReadableChapters(cs)[..Min(2, |ReadableChapters(cs)|)]
    ensures |toc| <= 2
    ensures |toc| == 0 <==> |ReadableChapters(cs)| == 0
  {
    TakeReadableIsPrefix(cs, 2);
    TakeReadable(cs, 2)
  }

  /** The content fetch's arguments: the first chapter, and as next-chapter hint the
      url of the second chapter, or of the first when there is only one. */
  function ContentRequest(toc: seq<Chapter>): (req: (Chapter, string))
    requires |toc| > 0
    ensures req.0 == toc[0]
    ensures |toc| > 1 ==> req.1 == toc[1].url
    ensures |toc| == 1 ==> req.1 == toc[0].url
  {
    (toc[0], if |toc| > 1 then toc[1].url else toc[0].url)
  }

  /** The error `toc.first()` throws on an empty list: not a no-stack-trace error. */
  const EmptyListFailure: Thrown := Thrown(Other, false)

  /** The error the verification of `book` runs into, if any: each enabled fetch in
      turn, including the empty-list error of an empty probe table of contents. */
  function ProbeFailure(cfg: Config, s: BookSource, book: SearchBook, probe: BookProbe): Option<Thrown> {
    if !cfg.checkInfo then None
    else if IsBlank(book.tocUrl) && probe.info.Fail? then Some(probe.info.failure)
    else if !cfg.checkCategory || s.sourceType == FileSource then None
    else if probe.toc.Fail? then Some(probe.toc.failure)
    else if |ProbeToc(probe.toc.value)| == 0 then Some(EmptyListFailure)
    else if !cfg.checkContent then None
    else
      var req := ContentRequest(ProbeToc(probe.toc.value));
      if probe.content(req.0, req.1).Fail? then Some(probe.content(req.0, req.1).failure) else None
  }

  /** The verification got as far as a completed content fetch. */
  predicate ContentFetched(cfg: Config, s: BookSource, book: SearchBook, probe: BookProbe) {
    && cfg.checkInfo && cfg.checkCategory && s.sourceType != FileSource && cfg.checkContent
    && ProbeFailure(cfg, s, book, probe).None?
  }

  /** `checkBook`: detail, table of contents and content of one probed book.
      Content-empty and toc-empty errors become the role's labels and are
      swallowed; any other error aborts the check. Only a verification that
      completes its content fetch clears the role's labels; one that stops early
      (info, category or content checking off, or a file source) changes nothing. */
  function CheckBook(cfg: Config, s: BookSource, book: SearchBook, probe: BookProbe, role: Role): (r: Run)
    ensures r.src.(groups := s.groups) == s
    ensures r.src.groups - RoleLabels(role) == s.groups - RoleLabels(role)
    ensures ProbeFailure(cfg, s, book, probe).None? && ContentFetched(cfg, s, book, probe) ==>
              r == Continue(RemoveGroups(s, RoleLabels(role)))
    ensures ProbeFailure(cfg, s, book, probe).None? && !ContentFetched(cfg, s, book, probe) ==>
              r == Continue(s)
    ensures ProbeFailure(cfg, s, book, probe).Some? ==>
              var f := ProbeFailure(cfg, s, book, probe).value;
              && (f.kind == ContentEmpty ==> r == Continue(AddGroup(s, ContentInvalid(role))))
              && (f.kind == TocEmpty ==> r == Continue(AddGroup(s, TocInvalid(role))))
              && (f.kind != ContentEmpty && f.kind != TocEmpty ==> r == Abort(s, Raised(f)))
  {
    if !cfg.checkInfo then Continue(s)
    else
      var info := if IsBlank(book.tocUrl) then probe.info else Done(());
      match info
      case Fail(f) => Swallow(s, f, role)
      case Done(_) =>
        if !cfg.checkCategory || s.sourceType == FileSource then Continue(s)
        else
          match probe.toc
          case Fail(f) => Swallow(s, f, role)
          case Done(chapters) =>
            var toc := ProbeToc(chapters);
            if |toc| == 0 then Swallow(s, EmptyListFailure, role)
            else
              var req := ContentRequest(toc);
              if !cfg.checkContent then Continue(s)
              else
                match probe.content(req.0, req.1)
                case Fail(f) => Swallow(s, f, role)
                case Done(_) => Continue(RemoveGroups(s, RoleLabels(role)))
  }

  /** The `onFailure` of `checkBook`: label the two empty-result errors, rethrow the rest. */
  function Swallow(s: BookSource, f: Thrown, role: Role): Run {
    match f.kind
    case ContentEmpty => Continue(AddGroup(s, ContentInvalid(role)))
    case TocEmpty => Continue(AddGroup(s, TocInvalid(role)))
    case _ => Abort(s, Raised(f))
  }

  /** The search stage. A blank search url labels "search rule empty" without
      searching; an empty result labels "search invalid" and verifies nothing; a
      non-empty result clears that label and verifies the first hit only. */
  function SearchStage(cfg: Config, s: BookSource, o: Oracle): (r: Run)
    ensures r.src.(groups := s.groups) == s
    ensures r.src.groups - SearchLabels == s.groups - SearchLabels
    ensures !cfg.checkSearch ==> r == Continue(s)
    ensures cfg.checkSearch && IsNullOrBlank(s.searchUrl) ==> r == Continue(AddGroup(s, SearchRuleEmpty))
    ensures cfg.checkSearch && !IsNullOrBlank(s.searchUrl) ==> SearchRuleEmpty !in r.src.groups
    ensures cfg.checkSearch && !IsNullOrBlank(s.searchUrl) && o.search == Done([]) ==>
              && r.Continue? && SearchInvalid in r.src.groups
              && r.src.groups * RoleLabels(Search) == s.groups * RoleLabels(Search)
    ensures cfg.checkSearch && !IsNullOrBlank(s.searchUrl) && o.search.Done? && |o.search.value| > 0 ==>
              && SearchInvalid !in r.src.groups
              && r == CheckBook(cfg, RemoveGroups(s, {SearchRuleEmpty, SearchInvalid}), o.search.value[0], o.searchBook, Search)
    ensures cfg.checkSearch && !IsNullOrBlank(s.searchUrl) && o.search.Fail? ==>
              r == Abort(RemoveGroups(s, {SearchRuleEmpty}), Raised(o.search.failure))
  {
    if !cfg.checkSearch then Continue(s)
    else if !IsNullOrBlank(s.searchUrl) then
      var s1 := RemoveGroups(s, {SearchRuleEmpty});
      match o.search
      case Fail(f) => Abort(s1, Raised(f))
      case Done(books) =>
        if |books| == 0 then Continue(AddGroup(s1, SearchInvalid))
        else
          assert RemoveGroups(s1, {SearchInvalid}) == RemoveGroups(s, {SearchRuleEmpty, SearchInvalid});
          CheckBook(cfg, RemoveGroups(s1, {SearchInvalid}), books[0], o.searchBook, Search)
    else Continue(AddGroup(s, SearchRuleEmpty))
  }

  /** `exploreKinds().firstOrNull { !it.url.isNullOrBlank() }?.url`. */
  function FirstKindUrl(kinds: seq<ExploreKind>): (url: Option<string>)
    ensures url.Some? <==> exists i :: 0 <= i < |kinds| && !IsNullOrBlank(kinds[i].url)
    ensures url.Some? ==> !IsBlank(url.value)
  {
    if |kinds| == 0 then None
    else if !IsNullOrBlank(kinds[0].url) then kinds[0].url
    else
      assert forall i :: 1 <= i < |kinds| ==> kinds[i] == kinds[1..][i - 1];
      FirstKindUrl(kinds[1..])
  }

  /** The url found is that of the first kind with a non-blank url. */
  lemma {:induction false} FirstKindUrlIsFirst(kinds: seq<ExploreKind>)
    requires FirstKindUrl(kinds).Some?
    ensures exists i :: 0 <= i < |kinds| && kinds[i].url == FirstKindUrl(kinds)
                        && forall j :: 0 <= j < i ==> IsNullOrBlank(kinds[j].url)
  {
    if IsNullOrBlank(kinds[0].url) {
      var rest := kinds[1..];
      FirstKindUrlIsFirst(rest);
      var i :| 0 <= i < |rest| && rest[i].url == FirstKindUrl(rest)
               && forall j :: 0 <= j < i ==> IsNullOrBlank(rest[j].url);
      assert kinds[i + 1] == rest[i];
      forall j | 0 <= j < i + 1 ensures IsNullOrBlank(kinds[j].url) {
        if j > 0 {
          assert kinds[j] == rest[j - 1];
        }
      }
    } else {
      assert kinds[0].url == FirstKindUrl(kinds);
    }
  }

  /** The discovery stage: skipped with no label when discovery checking is off
      or the source has no explore url; "discovery rule empty" when no kind has a
      url; otherwise the same empty / non-empty pattern as search. */
  function DiscoveryStage(cfg: Config, s: BookSource, o: Oracle): (r: Run)
    ensures r.src.(groups := s.groups) == s
    ensures r.src.groups - DiscoveryLabels == s.groups - DiscoveryLabels
    ensures !cfg.checkDiscovery || IsNullOrBlank(s.exploreUrl) ==> r == Continue(s)
    ensures cfg.checkDiscovery && !IsNullOrBlank(s.exploreUrl) && FirstKindUrl(s.exploreKinds).None? ==>
              r == Continue(AddGroup(s, DiscoveryRuleEmpty))
    ensures cfg.checkDiscovery && !IsNullOrBlank(s.exploreUrl) && FirstKindUrl(s.exploreKinds).Some? ==>
              var found := o.explore(FirstKindUrl(s.exploreKinds).value);
              && DiscoveryRuleEmpty !in r.src.groups
              && (found == Done([]) ==>
                    && r.Continue? && DiscoveryInvalid in r.src.groups
                    && r.src.groups * RoleLabels(Discovery) == s.groups * RoleLabels(Discovery))
              && (found.Done? && |found.value| > 0 ==>
                    && DiscoveryInvalid !in r.src.groups
                    && r == CheckBook(cfg, RemoveGroups(s, {DiscoveryRuleEmpty, DiscoveryInvalid}), found.value[0],
                                      o.exploreBook, Discovery))
              && (found.Fail? ==> r == Abort(RemoveGroups(s, {DiscoveryRuleEmpty}), Raised(found.failure)))
  {
    if !cfg.checkDiscovery || IsNullOrBlank(s.exploreUrl) then Continue(s)
    else
      match FirstKindUrl(s.exploreKinds)
      case None => Continue(AddGroup(s, DiscoveryRuleEmpty))
      case Some(url) =>
        var s1 := RemoveGroups(s, {DiscoveryRuleEmpty});
        match o.explore(url)
        case Fail(f) => Abort(s1, Raised(f))
        case Done(books) =>
          if |books| == 0 then Continue(AddGroup(s1, DiscoveryInvalid))
          else
            assert RemoveGroups(s1, {DiscoveryInvalid}) == RemoveGroups(s, {DiscoveryRuleEmpty, DiscoveryInvalid});
            CheckBook(cfg, RemoveGroups(s1, {DiscoveryInvalid}), books[0], o.exploreBook, Discovery)
  }

  /** `doCheckSource`: reset, search stage, discovery stage, then the aggregate
      failure when invalid groups remain. */
  function DoCheckSource(cfg: Config, src: BookSource, o: Oracle): (r: Run)
    ensures r.src.(groups := src.groups, errorComment := src.errorComment) == src
    ensures !r.src.errorComment
    ensures r.Continue? ==> InvalidGroups(cfg, r.src.groups) == {}
    ensures r.Abort? && r.fault.Unhealthy? ==>
              r.fault.names == InvalidGroups(cfg, r.src.groups) && r.fault.names != {}
    ensures var r1 := SearchStage(cfg, Reset(cfg, src), o);
            r1.Abort? ==> r == r1
    ensures var r1 := SearchStage(cfg, Reset(cfg, src), o);
            var r2 := DiscoveryStage(cfg, r1.src, o);
            r1.Continue? && r2.Abort? ==> r == r2
    ensures var r1 := SearchStage(cfg, Reset(cfg, src), o);
            r.Abort? && r.fault.Raised? ==>
              || (r1.Abort? && r == r1)
              || (r1.Continue? && r == DiscoveryStage(cfg, r1.src, o))
    ensures var r1 := SearchStage(cfg, Reset(cfg, src), o);
            var r2 := DiscoveryStage(cfg, r1.src, o);
            r1.Continue? && r2.Continue? ==>
              && r.src == r2.src
              && (r.Abort? <==> InvalidGroups(cfg, r2.src.groups) != {})
              && (r.Abort? ==> r.fault.Unhealthy?)
  {
    var s0 := Reset(cfg, src);
    match SearchStage(cfg, s0, o)
    case Abort(s1, fault) => Abort(s1, fault)
    case Continue(s1) =>
      match DiscoveryStage(cfg, s1, o)
      case Abort(s2, fault) => Abort(s2, fault)
      case Continue(s2) =>
        var bad := InvalidGroups(cfg, s2.groups);
        if bad != {} then Abort(s2, Unhealthy(bad)) else Continue(s2)
  }

  /** The label the top-level handler adds for an escaped fault: timeout, script
      error, or any other error that is not a no-stack-trace one. */
  function FaultLabel(fault: Fault): (l: Option<Label>)
    ensures fault.Unhealthy? ==> l.None?
    ensures fault.Raised? && fault.failure.kind == Timeout ==> l == Some(CheckTimeout)
    ensures fault.Raised? && fault.failure.kind == Script ==> l == Some(JsInvalid)
    ensures fault.Raised? && fault.failure.kind !in {Timeout, Script} ==>
              (l == Some(WebsiteInvalid) <==> !fault.failure.quiet) && (l.None? <==> fault.failure.quiet)
  {
    match fault
    case Unhealthy(_) => None
    case Raised(f) =>
      if f.kind == Timeout then Some(CheckTimeout)
      else if f.kind == Script then Some(JsInvalid)
      else if !f.quiet then Some(WebsiteInvalid)
      else None
  }

  /** `checkSource`: run the check, label an escaped fault, note the error comment
      on failure, and record the measured response time on every path. */
  function CheckSource(cfg: Config, src: BookSource, o: Oracle): (s: BookSource)
    ensures s.respondTime == o.respondTime
    ensures s.(groups := src.groups, errorComment := src.errorComment, respondTime := src.respondTime) == src
    ensures s.errorComment <==> DoCheckSource(cfg, src, o).Abort?
    ensures DoCheckSource(cfg, src, o).Continue? ==> InvalidGroups(cfg, s.groups) == {}
    ensures forall l :: l in s.groups <==>
              l in DoCheckSource(cfg, src, o).src.groups
              || (DoCheckSource(cfg, src, o).Abort? && FaultLabel(DoCheckSource(cfg, src, o).fault) == Some(l))
  {
    var run := DoCheckSource(cfg, src, o);
    var s := match run
      case Continue(t) => t
      case Abort(t, fault) =>
        var labelled := match FaultLabel(fault) case Some(l) => AddGroup(t, l) case None => t;
        labelled.(errorComment := true);
    s.(respondTime := o.respondTime)
  }
}
