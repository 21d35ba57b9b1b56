/** Properties of the source check that relate several runs or several stages. */
module CheckProperties {
  import opened Wrappers
  import opened Text
  import opened Entities
  import opened SourceCheck

  /** The search stage leaves every label outside its own alone. */
  lemma SearchFrame(cfg: Config, s: BookSource, o: Oracle, l: Label)
    requires l !in SearchLabels
    ensures l in SearchStage(cfg, s, o).src.groups <==> l in s.groups
  {
    assert SearchStage(cfg, s, o).src.groups - SearchLabels == s.groups - SearchLabels;
  }

  /** The discovery stage leaves every label outside its own alone. */
  lemma DiscoveryFrame(cfg: Config, s: BookSource, o: Oracle, l: Label)
    requires l !in DiscoveryLabels
    ensures l in DiscoveryStage(cfg, s, o).src.groups <==> l in s.groups
  {
    assert DiscoveryStage(cfg, s, o).src.groups - DiscoveryLabels == s.groups - DiscoveryLabels;
  }

  /** The source a check ends with is the last stage's, whether the check
      passes, aborts in a stage or fails on the aggregate. */
  lemma CheckedSource(cfg: Config, src: BookSource, o: Oracle)
    ensures var r1 := SearchStage(cfg, Reset(cfg, src), o);
            DoCheckSource(cfg, src, o).src == if r1.Continue? then DiscoveryStage(cfg, r1.src, o).src else r1.src
  {
  }

  /** A label outside the two stages' own labels (a user group, say) is in
      the result exactly when it was there before and is not an invalid group:
      stale invalid groups never survive a check, and nothing else is lost. */
  lemma StaleLabelsCleared(cfg: Config, src: BookSource, o: Oracle)
    ensures forall l :: l !in SearchLabels + DiscoveryLabels ==>
              (l in DoCheckSource(cfg, src, o).src.groups <==> l in src.groups && !cfg.invalid(l))
  {
    var s0 := Reset(cfg, src);
    var r1 := SearchStage(cfg, s0, o);
    var last := if r1.Continue? then DiscoveryStage(cfg, r1.src, o).src else r1.src;
    CheckedSource(cfg, src, o);
    forall l | l !in SearchLabels + DiscoveryLabels
      ensures l in last.groups <==> l in src.groups && !cfg.invalid(l)
    {
      SearchFrame(cfg, s0, o, l);
      if r1.Continue? {
        DiscoveryFrame(cfg, r1.src, o, l);
      }
    }
  }

  /** With both stages switched off the check only clears the stale state. */
  lemma NoStagesOnlyReset(cfg: Config, src: BookSource, o: Oracle)
    requires !cfg.checkSearch && !cfg.checkDiscovery
    ensures DoCheckSource(cfg, src, o).src == Reset(cfg, src)
    ensures DoCheckSource(cfg, src, o).Continue?
  {
  }

  /** A blank search url labels "search rule empty" and makes no search call:
      the check does not depend on what searching would have answered. */
  lemma BlankSearchUrlMakesNoSearch(cfg: Config, src: BookSource, o1: Oracle, o2: Oracle)
    requires cfg.checkSearch && IsNullOrBlank(src.searchUrl)
    requires o1.explore == o2.explore && o1.exploreBook == o2.exploreBook
    ensures DoCheckSource(cfg, src, o1) == DoCheckSource(cfg, src, o2)
    ensures SearchRuleEmpty in DoCheckSource(cfg, src, o1).src.groups
  {
    var s1 := SearchStage(cfg, Reset(cfg, src), o1);
    assert s1 == SearchStage(cfg, Reset(cfg, src), o2);
    var d := DiscoveryStage(cfg, s1.src, o1);
    assert d == DiscoveryStage(cfg, s1.src, o2);
  }

  /** A source with a blank search url and a blank explore url gets "search
      rule empty" and nothing else: the discovery stage is skipped, so "discovery
      rule empty" is never added, and whether the check fails depends only on
      whether "search rule empty" counts as an invalid group. */
  lemma BlankRulesLabelSearchOnly(cfg: Config, src: BookSource, o: Oracle)
    requires cfg.checkSearch && IsNullOrBlank(src.searchUrl) && IsNullOrBlank(src.exploreUrl)
    ensures DoCheckSource(cfg, src, o).src.groups == Reset(cfg, src).groups + {SearchRuleEmpty}
    ensures DiscoveryRuleEmpty in DoCheckSource(cfg, src, o).src.groups <==>
              DiscoveryRuleEmpty in src.groups && !cfg.invalid(DiscoveryRuleEmpty)
    ensures DoCheckSource(cfg, src, o).Abort? <==> cfg.invalid(SearchRuleEmpty)
  {
    var s0 := Reset(cfg, src);
    var s1 := AddGroup(s0, SearchRuleEmpty);
    assert SearchStage(cfg, s0, o) == Continue(s1);
    assert DiscoveryStage(cfg, s1, o) == Continue(s1);
    if cfg.invalid(SearchRuleEmpty) {
      assert SearchRuleEmpty in InvalidGroups(cfg, s1.groups);
    } else {
      forall l | l in s1.groups ensures !cfg.invalid(l) {
      }
      assert InvalidGroups(cfg, s1.groups) == {};
    }
  }

  /** An empty search result labels "search invalid" and verifies no book. */
  lemma EmptySearchVerifiesNothing(cfg: Config, src: BookSource, o1: Oracle, o2: Oracle)
    requires cfg.checkSearch && !IsNullOrBlank(src.searchUrl)
    requires o1.search == Done([]) && o1 == o2.(searchBook := o1.searchBook)
    ensures DoCheckSource(cfg, src, o1) == DoCheckSource(cfg, src, o2)
    ensures SearchInvalid in DoCheckSource(cfg, src, o1).src.groups
  {
    var s1 := SearchStage(cfg, Reset(cfg, src), o1);
    assert s1 == SearchStage(cfg, Reset(cfg, src), o2);
    var d := DiscoveryStage(cfg, s1.src, o1);
    assert d == DiscoveryStage(cfg, s1.src, o2);
  }

  /** Only the first search hit is verified: two searches that agree on their
      first hit give the same check. */
  lemma OnlyFirstHitVerified(cfg: Config, src: BookSource, o1: Oracle, o2: Oracle)
    requires o1.search.Done? && o2.search.Done?
    requires |o1.search.value| > 0 && |o2.search.value| > 0
    requires o1.search.value[0] == o2.search.value[0]
    requires o1 == o2.(search := o1.search)
    ensures DoCheckSource(cfg, src, o1) == DoCheckSource(cfg, src, o2)
  {
    var s1 := SearchStage(cfg, Reset(cfg, src), o1);
    assert s1 == SearchStage(cfg, Reset(cfg, src), o2);
    var d := DiscoveryStage(cfg, s1.src, o1);
    assert d == DiscoveryStage(cfg, s1.src, o2);
  }

  /** With discovery checking off, or no explore url, the discovery labels are
      untouched and no discovery call is made. */
  lemma DiscoverySkipped(cfg: Config, src: BookSource, o1: Oracle, o2: Oracle)
    requires !cfg.checkDiscovery || IsNullOrBlank(src.exploreUrl)
    requires o1 == o2.(explore := o1.explore, exploreBook := o1.exploreBook)
    ensures DoCheckSource(cfg, src, o1) == DoCheckSource(cfg, src, o2)
    ensures DoCheckSource(cfg, src, o1).src.groups * DiscoveryLabels == Reset(cfg, src).groups * DiscoveryLabels
  {
    var s1 := SearchStage(cfg, Reset(cfg, src), o1);
    assert s1 == SearchStage(cfg, Reset(cfg, src), o2);
    if s1.Continue? {
      assert DiscoveryStage(cfg, s1.src, o1) == Continue(s1.src);
      assert DiscoveryStage(cfg, s1.src, o2) == Continue(s1.src);
    }
  }

  /** A volume marker in front of a real chapter is skipped: the content probe
      reads the real chapter. */
  lemma VolumeMarkerSkipped(chapters: seq<Chapter>)
    requires |chapters| >= 2
    requires chapters[0].isVolume && StartsWith(chapters[0].url, chapters[0].title)
    requires Readable(chapters[1])
    ensures |ProbeToc(chapters)| > 0 && ContentRequest(ProbeToc(chapters)).0 == chapters[1]
  {
    assert ReadableChapters(chapters) == ReadableChapters(chapters[1..]);
    assert chapters[1..][0] == chapters[1];
  }

  /** A table of contents with no readable chapter ends the check as "website
      invalid", whether or not content checking is on: `toc.first()` throws before
      the content switch is read. */
  lemma EmptyTocIsWebsiteInvalid(cfg: Config, src: BookSource, o: Oracle)
    requires cfg.checkSearch && !IsNullOrBlank(src.searchUrl)
    requires o.search.Done? && |o.search.value| > 0
    requires cfg.checkInfo && cfg.checkCategory && src.sourceType != FileSource
    requires !IsBlank(o.search.value[0].tocUrl) || o.searchBook.info.Done?
    requires o.searchBook.toc.Done? && ReadableChapters(o.searchBook.toc.value) == []
    ensures WebsiteInvalid in CheckSource(cfg, src, o).groups
    ensures CheckSource(cfg, src, o).errorComment
  {
    var s0 := Reset(cfg, src);
    var book := o.search.value[0];
    var s1 := RemoveGroups(RemoveGroups(s0, {SearchRuleEmpty}), {SearchInvalid});
    assert ProbeFailure(cfg, s1, book, o.searchBook) == Some(EmptyListFailure);
    assert SearchStage(cfg, s0, o).Abort?;
    assert DoCheckSource(cfg, src, o).fault == Raised(EmptyListFailure);
  }

  /** A content-empty failure of the search probe is labelled and swallowed:
      discovery still runs and writes its own labels. */
  lemma SwallowedFailureStillDiscovers(cfg: Config, src: BookSource, o: Oracle)
    requires cfg.checkSearch && !IsNullOrBlank(src.searchUrl)
    requires o.search.Done? && |o.search.value| > 0
    requires var s1 := RemoveGroups(Reset(cfg, src), {SearchRuleEmpty, SearchInvalid});
             var f := ProbeFailure(cfg, s1, o.search.value[0], o.searchBook);
             f.Some? && f.value.kind == ContentEmpty
    requires cfg.checkDiscovery && !IsNullOrBlank(src.exploreUrl)
    requires FirstKindUrl(src.exploreKinds).Some? && o.explore(FirstKindUrl(src.exploreKinds).value) == Done([])
    ensures ContentInvalid(Search) in DoCheckSource(cfg, src, o).src.groups
    ensures DiscoveryInvalid in DoCheckSource(cfg, src, o).src.groups
  {
    var s0 := Reset(cfg, src);
    assert RemoveGroups(RemoveGroups(s0, {SearchRuleEmpty}), {SearchInvalid})
        == RemoveGroups(s0, {SearchRuleEmpty, SearchInvalid});
    var r1 := SearchStage(cfg, s0, o);
    assert r1.Continue? && ContentInvalid(Search) in r1.src.groups;
    var r2 := DiscoveryStage(cfg, r1.src, o);
    assert r2.Continue? && DiscoveryInvalid in r2.src.groups;
  }

  /** Any other failure of the search probe aborts the check: discovery is never
      asked, and the failure is what escapes. */
  lemma RethrownFailureSkipsDiscovery(cfg: Config, src: BookSource, o1: Oracle, o2: Oracle)
    requires cfg.checkSearch && !IsNullOrBlank(src.searchUrl)
    requires o1.search.Done? && |o1.search.value| > 0
    requires var s1 := RemoveGroups(Reset(cfg, src), {SearchRuleEmpty, SearchInvalid});
             var f := ProbeFailure(cfg, s1, o1.search.value[0], o1.searchBook);
             f.Some? && f.value.kind != ContentEmpty && f.value.kind != TocEmpty
    requires o1 == o2.(explore := o1.explore, exploreBook := o1.exploreBook)
    ensures DoCheckSource(cfg, src, o1) == DoCheckSource(cfg, src, o2)
    ensures DoCheckSource(cfg, src, o1).Abort? && DoCheckSource(cfg, src, o1).fault.Raised?
  {
    var s0 := Reset(cfg, src);
    assert RemoveGroups(RemoveGroups(s0, {SearchRuleEmpty}), {SearchInvalid})
        == RemoveGroups(s0, {SearchRuleEmpty, SearchInvalid});
    assert SearchStage(cfg, s0, o1).Abort?;
    assert SearchStage(cfg, s0, o1) == SearchStage(cfg, s0, o2);
  }

  /** A search that times out leaves the source labelled "check timeout", with
      an error comment and the measured response time. */
  lemma SearchTimeoutLabelled(cfg: Config, src: BookSource, o: Oracle, quiet: bool)
    requires cfg.checkSearch && !IsNullOrBlank(src.searchUrl)
    requires o.search == Fail(Thrown(Timeout, quiet))
    ensures CheckTimeout in CheckSource(cfg, src, o).groups
    ensures CheckSource(cfg, src, o).errorComment
    ensures CheckSource(cfg, src, o).respondTime == o.respondTime
  {
    assert SearchStage(cfg, Reset(cfg, src), o).Abort?;
  }

  /** A discovery fetch that times out, after a search that passed, leaves the
      source labelled "check timeout", with an error comment and the measured
      response time. */
  lemma DiscoveryTimeoutLabelled(cfg: Config, src: BookSource, o: Oracle, quiet: bool)
    requires SearchStage(cfg, Reset(cfg, src), o).Continue?
    requires var s1 := SearchStage(cfg, Reset(cfg, src), o).src;
             && cfg.checkDiscovery && !IsNullOrBlank(s1.exploreUrl) && FirstKindUrl(s1.exploreKinds).Some?
             && o.explore(FirstKindUrl(s1.exploreKinds).value) == Fail(Thrown(Timeout, quiet))
    ensures CheckTimeout in CheckSource(cfg, src, o).groups
    ensures CheckSource(cfg, src, o).errorComment
    ensures CheckSource(cfg, src, o).respondTime == o.respondTime
  {
  }

  /** A script error in the discovery fetch, after a search that passed, ends
      labelled "js invalid". */
  lemma DiscoveryScriptErrorLabelled(cfg: Config, src: BookSource, o: Oracle, quiet: bool)
    requires SearchStage(cfg, Reset(cfg, src), o).Continue?
    requires var s1 := SearchStage(cfg, Reset(cfg, src), o).src;
             && cfg.checkDiscovery && !IsNullOrBlank(s1.exploreUrl) && FirstKindUrl(s1.exploreKinds).Some?
             && o.explore(FirstKindUrl(s1.exploreKinds).value) == Fail(Thrown(Script, quiet))
    ensures JsInvalid in CheckSource(cfg, src, o).groups
    ensures CheckSource(cfg, src, o).errorComment
  {
  }

  /** The rule fields the stages read. */
  predicate SameRules(u: BookSource, v: BookSource) {
    && u.sourceType == v.sourceType && u.searchUrl == v.searchUrl
    && u.exploreUrl == v.exploreUrl && u.exploreKinds == v.exploreKinds
  }

  /** Two label sets hold the same labels out of `ls`. */
  ghost predicate AgreeOn(a: set<Label>, b: set<Label>, ls: set<Label>) {
    forall l :: l in ls ==> (l in a <==> l in b)
  }

  /** A verification decides from the rules and the answers only; on its own two
      labels it acts the same whatever the other labels are. */
  lemma CheckBookLocal(cfg: Config, u: BookSource, v: BookSource, book: SearchBook, probe: BookProbe, role: Role)
    requires SameRules(u, v) && AgreeOn(u.groups, v.groups, RoleLabels(role))
    ensures CheckBook(cfg, u, book, probe, role).Continue? == CheckBook(cfg, v, book, probe, role).Continue?
    ensures AgreeOn(CheckBook(cfg, u, book, probe, role).src.groups, CheckBook(cfg, v, book, probe, role).src.groups, RoleLabels(role))
  {
    assert ProbeFailure(cfg, u, book, probe) == ProbeFailure(cfg, v, book, probe);
    assert ContentFetched(cfg, u, book, probe) == ContentFetched(cfg, v, book, probe);
  }

  lemma SearchLocal(cfg: Config, u: BookSource, v: BookSource, o: Oracle)
    requires SameRules(u, v) && AgreeOn(u.groups, v.groups, SearchLabels)
    ensures SearchStage(cfg, u, o).Continue? == SearchStage(cfg, v, o).Continue?
    ensures AgreeOn(SearchStage(cfg, u, o).src.groups, SearchStage(cfg, v, o).src.groups, SearchLabels)
  {
    if cfg.checkSearch && !IsNullOrBlank(u.searchUrl) && o.search.Done? && |o.search.value| > 0 {
      var u1 := RemoveGroups(RemoveGroups(u, {SearchRuleEmpty}), {SearchInvalid});
      var v1 := RemoveGroups(RemoveGroups(v, {SearchRuleEmpty}), {SearchInvalid});
      CheckBookLocal(cfg, u1, v1, o.search.value[0], o.searchBook, Search);
    }
  }

  lemma DiscoveryLocal(cfg: Config, u: BookSource, v: BookSource, o: Oracle)
    requires SameRules(u, v) && AgreeOn(u.groups, v.groups, DiscoveryLabels)
    ensures DiscoveryStage(cfg, u, o).Continue? == DiscoveryStage(cfg, v, o).Continue?
    ensures AgreeOn(DiscoveryStage(cfg, u, o).src.groups, DiscoveryStage(cfg, v, o).src.groups, DiscoveryLabels)
  {
    if cfg.checkDiscovery && !IsNullOrBlank(u.exploreUrl) && FirstKindUrl(u.exploreKinds).Some? {
      var found := o.explore(FirstKindUrl(u.exploreKinds).value);
      if found.Done? && |found.value| > 0 {
        var u1 := RemoveGroups(RemoveGroups(u, {DiscoveryRuleEmpty}), {DiscoveryInvalid});
        var v1 := RemoveGroups(RemoveGroups(v, {DiscoveryRuleEmpty}), {DiscoveryInvalid});
        CheckBookLocal(cfg, u1, v1, found.value[0], o.exploreBook, Discovery);
      }
    }
  }

  /** A verification applied to its own continuing result changes nothing more. */
  lemma CheckBookIdempotent(cfg: Config, s: BookSource, book: SearchBook, probe: BookProbe, role: Role)
    requires CheckBook(cfg, s, book, probe, role).Continue?
    ensures CheckBook(cfg, CheckBook(cfg, s, book, probe, role).src, book, probe, role)
         == CheckBook(cfg, s, book, probe, role)
  {
    var s1 := CheckBook(cfg, s, book, probe, role).src;
    assert ProbeFailure(cfg, s, book, probe) == ProbeFailure(cfg, s1, book, probe);
    assert ContentFetched(cfg, s, book, probe) == ContentFetched(cfg, s1, book, probe);
  }

  /** A stage applied to its own continuing result changes nothing more. */
  lemma SearchIdempotent(cfg: Config, s: BookSource, o: Oracle)
    requires SearchStage(cfg, s, o).Continue?
    ensures SearchStage(cfg, SearchStage(cfg, s, o).src, o) == SearchStage(cfg, s, o)
  {
    var s1 := SearchStage(cfg, s, o).src;
    if cfg.checkSearch && !IsNullOrBlank(s.searchUrl) && o.search.Done? && |o.search.value| > 0 {
      var u := RemoveGroups(RemoveGroups(s, {SearchRuleEmpty}), {SearchInvalid});
      var v := RemoveGroups(RemoveGroups(s1, {SearchRuleEmpty}), {SearchInvalid});
      CheckBookIdempotent(cfg, u, o.search.value[0], o.searchBook, Search);
      assert v == s1;
    }
  }

  lemma DiscoveryIdempotent(cfg: Config, s: BookSource, o: Oracle)
    requires DiscoveryStage(cfg, s, o).Continue?
    ensures DiscoveryStage(cfg, DiscoveryStage(cfg, s, o).src, o) == DiscoveryStage(cfg, s, o)
  {
    var s1 := DiscoveryStage(cfg, s, o).src;
    if cfg.checkDiscovery && !IsNullOrBlank(s.exploreUrl) && FirstKindUrl(s.exploreKinds).Some? {
      var found := o.explore(FirstKindUrl(s.exploreKinds).value);
      if found.Done? && |found.value| > 0 {
        var u := RemoveGroups(RemoveGroups(s, {DiscoveryRuleEmpty}), {DiscoveryInvalid});
        var v := RemoveGroups(RemoveGroups(s1, {DiscoveryRuleEmpty}), {DiscoveryInvalid});
        CheckBookIdempotent(cfg, u, found.value[0], o.exploreBook, Discovery);
        assert v == s1;
      }
    }
  }

  /** A source the search stage leaves as it is, and any source with the same
      rules and search labels, is left as it is too. */
  lemma SearchFixpoint(cfg: Config, s: BookSource, t: BookSource, o: Oracle)
    requires SearchStage(cfg, s, o) == Continue(s)
    requires SameRules(s, t) && AgreeOn(s.groups, t.groups, SearchLabels)
    ensures SearchStage(cfg, t, o) == Continue(t)
  {
    SearchLocal(cfg, s, t, o);
    var a := SearchStage(cfg, t, o);
    assert a.src.groups == t.groups by {
      forall l ensures l in a.src.groups <==> l in t.groups {
        if l in SearchLabels {
        }
      }
    }
  }

  lemma DiscoveryFixpoint(cfg: Config, s: BookSource, t: BookSource, o: Oracle)
    requires DiscoveryStage(cfg, s, o) == Continue(s)
    requires SameRules(s, t) && AgreeOn(s.groups, t.groups, DiscoveryLabels)
    ensures DiscoveryStage(cfg, t, o) == Continue(t)
  {
    DiscoveryLocal(cfg, s, t, o);
    var b := DiscoveryStage(cfg, t, o);
    assert b.src.groups == t.groups by {
      forall l ensures l in b.src.groups <==> l in t.groups {
        if l in DiscoveryLabels {
        }
      }
    }
  }

  /** A healthy check's result passes the check again unchanged. */
  lemma HealthyRunStable(cfg: Config, src: BookSource, o: Oracle, t: BookSource)
    requires DoCheckSource(cfg, src, o).Continue?
    requires t == DoCheckSource(cfg, src, o).src.(respondTime := o.respondTime)
    ensures DoCheckSource(cfg, t, o) == Continue(t)
  {
    var s0 := Reset(cfg, src);
    var a := SearchStage(cfg, s0, o);
    assert a.Continue?;
    var s1 := a.src;
    var d := DiscoveryStage(cfg, s1, o);
    assert d.Continue?;
    var s2 := d.src;
    assert t == s2.(respondTime := o.respondTime);
    SearchIdempotent(cfg, s0, o);
    DiscoveryIdempotent(cfg, s1, o);
    assert AgreeOn(s1.groups, t.groups, SearchLabels) by {
      forall l | l in SearchLabels ensures l in s1.groups <==> l in t.groups {
        assert l !in DiscoveryLabels;
      }
    }
    SearchFixpoint(cfg, s1, t, o);
    DiscoveryFixpoint(cfg, s2, t, o);
    assert Reset(cfg, t) == t;
  }

  /** Checking a source whose check succeeded, with the same answers, changes
      nothing: the label set of a healthy source is stable. */
  lemma HealthyRecheckStable(cfg: Config, src: BookSource, o: Oracle)
    requires !CheckSource(cfg, src, o).errorComment
    ensures CheckSource(cfg, CheckSource(cfg, src, o), o) == CheckSource(cfg, src, o)
  {
    var t := CheckSource(cfg, src, o);
    assert t == DoCheckSource(cfg, src, o).src.(respondTime := o.respondTime);
    HealthyRunStable(cfg, src, o, t);
  }
}
