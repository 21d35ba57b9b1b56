/** The RSS source endpoints of the web API (`RssSourceController`), over a
    source table keyed by source url. */
module RssSources {
  import opened Wrappers
  import opened Text
  import opened Api

  datatype RssSource = RssSource(sourceName: string, sourceUrl: string, sourceGroup: string)

  /** The table as listed (`rssSourceDao.all`) and as keyed. */
  type Table = map<string, RssSource>

  /** `insert`: a source replaces any with the same url. */
  function Insert(db: Table, s: RssSource): Table {
    db[s.sourceUrl := s]
  }

  /** `sources`: an empty table is an error, never data. */
  function Sources(all: seq<RssSource>): (r: Reply<seq<RssSource>>)
    ensures r.ErrorMsg? <==> |all| == 0
    ensures r.Data? ==> r.value == all
  {
    if |all| == 0 then ErrorMsg(SourceListEmpty) else Data(all)
  }

  /** `saveSource`: no body, an unparsable body, or an empty name or url is an
      error and inserts nothing; otherwise the source is inserted and the answer
      is empty-string data. Only emptiness is checked: a whitespace name passes. */
  function SaveSource(db: Table, body: Body<RssSource>): (r: (Table, Reply<string>))
    ensures body.Missing? ==> r == (db, ErrorMsg(DataEmpty))
    ensures body.Malformed? ==> r == (db, ErrorMsg(ConvertSourceFailed))
    ensures body.Parsed? && (|body.value.sourceName| == 0 || |body.value.sourceUrl| == 0) ==>
              r == (db, ErrorMsg(SourceNameUrlCannotBeEmpty))
    ensures body.Parsed? && |body.value.sourceName| > 0 && |body.value.sourceUrl| > 0 ==>
              r == (Insert(db, body.value), Data(""))
  {
    match body
    case Missing => (db, ErrorMsg(DataEmpty))
    case Malformed => (db, ErrorMsg(ConvertSourceFailed))
    case Parsed(s) =>
      if |s.sourceName| == 0 || |s.sourceUrl| == 0 then (db, ErrorMsg(SourceNameUrlCannotBeEmpty))
      else (Insert(db, s), Data(""))
  }

  /** A source `saveSources` accepts: name and url both non-blank. */
  predicate Acceptable(s: RssSource) {
    !IsBlank(s.sourceName) && !IsBlank(s.sourceUrl)
  }

  /** The accepted sources, in order: the reference for what `saveSources` returns. */
  function AcceptedSources(list: seq<RssSource>): (r: seq<RssSource>)
    ensures |r| <= |list|
    ensures forall i :: 0 <= i < |r| ==> Acceptable(r[i])
  {
    if |list| == 0 then []
    else
      var rest := AcceptedSources(list[1..]);
      assert forall s :: s in list[1..] ==> s in list;
      if Acceptable(list[0]) then [list[0]] + rest else rest
  }

  /** A source is returned by `saveSources` exactly when it is in the list and
      acceptable. */
  lemma {:induction false} AcceptedMembers(list: seq<RssSource>, s: RssSource)
    ensures s in AcceptedSources(list) <==> s in list && Acceptable(s)
  {
    if |list| > 0 {
      AcceptedMembers(list[1..], s);
      assert list == [list[0]] + list[1..];
    }
  }

  /** The urls of a list of sources. */
  function Urls(list: seq<RssSource>): (r: set<string>)
    ensures forall u :: u in r <==> exists i :: 0 <= i < |list| && list[i].sourceUrl == u
  {
    set i | 0 <= i < |list| :: list[i].sourceUrl
  }

  lemma UrlsSnoc(init: seq<RssSource>, last: RssSource)
    ensures Urls(init + [last]) == Urls(init) + {last.sourceUrl}
  {
    var list := init + [last];
    assert forall i :: 0 <= i < |init| ==> list[i] == init[i];
    assert list[|init|] == last;
  }

  /** The table after inserting `list` in order. */
  function InsertAll(db: Table, list: seq<RssSource>): Table {
    if |list| == 0 then db
    else Insert(InsertAll(db, list[..|list| - 1]), list[|list| - 1])
  }

  lemma InsertAllSnoc(db: Table, init: seq<RssSource>, last: RssSource)
    ensures InsertAll(db, init + [last]) == Insert(InsertAll(db, init), last)
  {
    assert (init + [last])[..|init|] == init;
  }

  /** Inserting a list adds exactly its urls to the keys. */
  lemma {:induction false} InsertAllKeys(db: Table, list: seq<RssSource>)
    ensures InsertAll(db, list).Keys == db.Keys + Urls(list)
  {
    if |list| > 0 {
      var init, last := list[..|list| - 1], list[|list| - 1];
      assert list == init + [last];
      InsertAllKeys(db, init);
      UrlsSnoc(init, last);
    }
  }

  /** Inserting a list leaves the entry of every url not in it alone. */
  lemma {:induction false} InsertAllKeepsOthers(db: Table, list: seq<RssSource>, u: string)
    requires u in db && u !in Urls(list)
    ensures u in InsertAll(db, list) && InsertAll(db, list)[u] == db[u]
  {
    if |list| > 0 {
      var init, last := list[..|list| - 1], list[|list| - 1];
      assert list == init + [last];
      UrlsSnoc(init, last);
      InsertAllKeepsOthers(db, init, u);
    }
  }

  /** After inserting a list, a url holds the last source in the list carrying it. */
  lemma {:induction false} InsertAllLastWins(db: Table, list: seq<RssSource>, i: nat)
    requires i < |list|
    requires forall j :: i < j < |list| ==> list[j].sourceUrl != list[i].sourceUrl
    ensures list[i].sourceUrl in InsertAll(db, list) && InsertAll(db, list)[list[i].sourceUrl] == list[i]
  {
    var init, last := list[..|list| - 1], list[|list| - 1];
    if i < |list| - 1 {
      assert forall j :: i < j < |init| ==> init[j] == list[j];
      InsertAllLastWins(db, init, i);
    }
  }

  /** One step of the `saveSources` loop against the reference list. */
  lemma AcceptedStep(list: seq<RssSource>, k: nat)
    requires k < |list|
    ensures Acceptable(list[k]) ==> AcceptedSources(list[k..]) == [list[k]] + AcceptedSources(list[k + 1..])
    ensures !Acceptable(list[k]) ==> AcceptedSources(list[k..]) == AcceptedSources(list[k + 1..])
  {
    assert list[k..][1..] == list[k + 1..];
  }

  /** The loop of `saveSources`: skip a source with a blank name or url, insert
      and collect every other. */
  method InsertAccepted(db: Table, list: seq<RssSource>) returns (db': Table, ok: seq<RssSource>)
    ensures ok == AcceptedSources(list)
    ensures db' == InsertAll(db, ok)
  {
    db', ok := db, [];
    var k := 0;
    assert list[0..] == list;
    while k < |list|
      invariant 0 <= k <= |list|
      invariant ok + AcceptedSources(list[k..]) == AcceptedSources(list)
      invariant db' == InsertAll(db, ok)
    {
      AcceptedStep(list, k);
      if Acceptable(list[k]) {
        InsertAllSnoc(db, ok, list[k]);
        db' := Insert(db', list[k]);
        ok := ok + [list[k]];
      }
      k := k + 1;
    }
  }

  /** `saveSources`: no body, or a body that does not parse to a non-empty list,
      is an error; otherwise the accepted sources are inserted and returned. */
  method SaveSources(db: Table, body: Body<seq<RssSource>>) returns (db': Table, r: Reply<seq<RssSource>>)
    ensures body.Missing? ==> db' == db && r == ErrorMsg(DataEmpty)
    ensures body.Malformed? || (body.Parsed? && |body.value| == 0) ==> db' == db && r == ErrorMsg(ConvertSourceFailed)
    ensures body.Parsed? && |body.value| > 0 ==>
              && r == Data(AcceptedSources(body.value))
              && db' == InsertAll(db, r.value)
  {
    match body
    case Missing => db', r := db, ErrorMsg(DataEmpty);
    case Malformed => db', r := db, ErrorMsg(ConvertSourceFailed);
    case Parsed(list) =>
      if |list| == 0 {
        db', r := db, ErrorMsg(ConvertSourceFailed);
      } else {
        var ok;
        db', ok := InsertAccepted(db, list);
        r := Data(ok);
      }
  }

  /** A whitespace-only name or url: `saveSource` takes it, `saveSources` skips it. */
  lemma WhitespaceNameDiffers(db: Table, s: RssSource)
    requires |s.sourceName| > 0 && IsBlank(s.sourceName) && |s.sourceUrl| > 0
    ensures SaveSource(db, Parsed(s)).1 == Data("")
    ensures AcceptedSources([s]) == []
  {
  }

  /** `getSource`: an empty or missing url is an error; an unknown url is a
      different, not-found error. */
  function GetSource(db: Table, params: map<string, seq<string>>): (r: Reply<RssSource>)
    ensures IsNullOrEmpty(FirstParam(params, "url")) ==> r == ErrorMsg(ParameterUrlCannotBeEmpty)
    ensures !IsNullOrEmpty(FirstParam(params, "url")) ==>
              var url := FirstParam(params, "url").value;
              && (url !in db ==> r == ErrorMsg(SourceNotFoundCheckUrl))
              && (url in db ==> r == Data(db[url]))
  {
    var url := FirstParam(params, "url");
    if IsNullOrEmpty(url) then ErrorMsg(ParameterUrlCannotBeEmpty)
    else if url.value !in db then ErrorMsg(SourceNotFoundCheckUrl)
    else Data(db[url.value])
  }

  /** What `saveSource` stores, `getSource` finds again under its url. */
  lemma SaveThenGet(db: Table, s: RssSource, params: map<string, seq<string>>)
    requires |s.sourceName| > 0 && |s.sourceUrl| > 0
    requires FirstParam(params, "url") == Some(s.sourceUrl)
    ensures GetSource(SaveSource(db, Parsed(s)).0, params) == Data(s)
  {
  }

  /** After a `saveSource` that succeeds, listing the table (any listing of its
      entries) is data, and the saved source is in it. */
  lemma SaveThenList(db: Table, s: RssSource, all: seq<RssSource>)
    requires |s.sourceName| > 0 && |s.sourceUrl| > 0
    requires forall x :: x in all <==> x in SaveSource(db, Parsed(s)).0.Values
    ensures Sources(all).Data? && s in Sources(all).value
  {
    assert SaveSource(db, Parsed(s)).0[s.sourceUrl] == s;
  }

  /** `deleteSources`: no body is an error, an unparsable one a format error;
      otherwise the parsed sources are handed to the deletion (returned here as
      the second component) and the answer is the "executed" message. */
  function DeleteSources(body: Body<seq<RssSource>>): (r: (Reply<string>, seq<RssSource>))
    ensures body.Missing? ==> r.0 == ErrorMsg(NoDataTransmitted) && r.1 == []
    ensures body.Malformed? ==> r.0 == ErrorMsg(FormatError) && r.1 == []
    ensures body.Parsed? ==> r.0 == Data(ExecutedMessage) && r.1 == body.value
  {
    match body
    case Missing => (ErrorMsg(NoDataTransmitted), [])
    case Malformed => (ErrorMsg(FormatError), [])
    case Parsed(list) => (Data(ExecutedMessage), list)
  }

  /** Stands for the text of the `R.string.executed` resource, which is not part
      of this model. */
  const ExecutedMessage: string := "executed"

  /** The table after the sources handed to deletion are removed, each by its url
      (`SourceHelp.deleteRssSources` is not part of this model; the table's key
      is the source url). */
  function DeleteAll(db: Table, list: seq<RssSource>): (r: Table)
    ensures r.Keys == db.Keys - Urls(list)
    ensures forall u :: u in r ==> r[u] == db[u]
  {
    map u | u in db && u !in Urls(list) :: db[u]
  }

  /** After `deleteSources`, `getSource` finds none of the deleted urls and
      answers every other url as before. */
  lemma DeleteThenGet(db: Table, list: seq<RssSource>, params: map<string, seq<string>>)
    ensures var db' := DeleteAll(db, DeleteSources(Parsed(list)).1);
            var url := FirstParam(params, "url");
            && (!IsNullOrEmpty(url) && url.value in Urls(list) ==>
                  GetSource(db', params) == ErrorMsg(SourceNotFoundCheckUrl))
            && (IsNullOrEmpty(url) || url.value !in Urls(list) ==>
                  GetSource(db', params) == GetSource(db, params))
  {
  }
}
