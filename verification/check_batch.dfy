/** The batch side of `CheckSourceService.check`: one run at a time, the
    `originSize` / `finishCount` counters, and the update of each checked source.
    The parallel worker pool is modelled as checking the resolved sources in order. */
module CheckBatch {
  import opened Wrappers
  import opened Entities
  import opened SourceCheck

  /** The progress line: last finished source's name, finished count, total count. */
  datatype Progress = Progress(lastName: string, done: nat, total: nat)

  /** The service state: whether a run is active, the counters, the sources still
      to check, the source table, and the last progress line shown. */
  datatype Service = Service(
    running: bool,
    originSize: nat,
    finishCount: nat,
    pending: seq<BookSource>,
    db: map<string, BookSource>,
    progress: Progress)

  /** The sources the ids name, in order; ids with no source are skipped. */
  function Resolve(ids: seq<string>, db: map<string, BookSource>): (r: seq<BookSource>)
    ensures |r| <= |ids|
    ensures forall i :: 0 <= i < |r| ==> r[i] in db.Values
    ensures (forall i :: 0 <= i < |ids| ==> ids[i] in db) ==> |r| == |ids|
    ensures (forall i :: 0 <= i < |ids| ==> ids[i] !in db) ==> r == []
  {
    if |ids| == 0 then []
    else
      var rest := Resolve(ids[1..], db);
      assert forall i :: 1 <= i < |ids| ==> ids[i] == ids[1..][i - 1];
      if ids[0] in db then [db[ids[0]]] + rest else rest
  }

  /** Resolving works id by id, keeping the ids' order: resolving a concatenation
      concatenates the resolved parts, and a single id gives its source or nothing. */
  lemma {:induction false} ResolveAppend(a: seq<string>, b: seq<string>, db: map<string, BookSource>)
    ensures Resolve(a + b, db) == Resolve(a, db) + Resolve(b, db)
    ensures |a| == 1 ==> Resolve(a, db) == (if a[0] in db then [db[a[0]]] else [])
  {
    if |a| > 0 {
      var ab := a + b;
      assert ab[0] == a[0] && ab[1..] == a[1..] + b;
      ResolveAppend(a[1..], b, db);
    } else {
      assert a + b == b;
    }
  }

  /** A source is queued exactly when some id names it. */
  lemma {:induction false} ResolveMembers(ids: seq<string>, db: map<string, BookSource>, s: BookSource)
    ensures s in Resolve(ids, db) <==> exists i :: 0 <= i < |ids| && ids[i] in db && db[ids[i]] == s
  {
    if |ids| > 0 {
      ResolveMembers(ids[1..], db, s);
      if exists i :: 0 <= i < |ids| && ids[i] in db && db[ids[i]] == s {
        var i :| 0 <= i < |ids| && ids[i] in db && db[ids[i]] == s;
        if i > 0 {
          assert ids[1..][i - 1] == ids[i];
        }
      }
      if exists i :: 0 <= i < |ids[1..]| && ids[1..][i] in db && db[ids[1..][i]] == s {
        var i :| 0 <= i < |ids[1..]| && ids[1..][i] in db && db[ids[1..][i]] == s;
        assert ids[i + 1] == ids[1..][i];
      }
    }
  }

  /** The bookkeeping every reachable state keeps. */
  ghost predicate Valid(st: Service) {
    && st.finishCount + |st.pending| <= st.originSize
    && (st.running <==> |st.pending| > 0)
    && st.progress.done == st.finishCount
    && st.progress.total == st.originSize
  }

  /** A service that never ran. */
  function Idle(db: map<string, BookSource>): (st: Service)
    ensures Valid(st) && !st.running
  {
    Service(false, 0, 0, [], db, Progress("", 0, 0))
  }

  /** A start request. While a run is active it is rejected and nothing changes;
      otherwise `originSize` becomes the number of ids, `finishCount` restarts at 0,
      and the resolvable sources are queued. */
  function Start(st: Service, ids: seq<string>): (r: (Service, bool))
    requires Valid(st)
    ensures Valid(r.0)
    ensures r.1 <==> !st.running
    ensures st.running ==> r.0 == st
    ensures !st.running ==> && r.0.originSize == |ids| && r.0.finishCount == 0
                            && r.0.pending == Resolve(ids, st.db) && r.0.db == st.db
  {
    if st.running then (st, false)
    else
      var pending := Resolve(ids, st.db);
      (Service(|pending| > 0, |ids|, 0, pending, st.db, Progress("", 0, |ids|)), true)
  }

  /** One source's check completes: `finishCount` goes up by one, the progress line
      names it, and the checked source is written back. The run ends after the last. */
  function Complete(st: Service, cfg: Config, oracle: string -> Oracle): (r: Service)
    requires Valid(st)
    ensures Valid(r)
    ensures r.originSize == st.originSize
    ensures |st.pending| == 0 ==> r == st
    ensures |st.pending| > 0 ==>
              && r.finishCount == st.finishCount + 1
              && r.pending == st.pending[1..]
              && var checked := CheckSource(cfg, st.pending[0], oracle(st.pending[0].url));
                 && r.db == st.db[checked.url := checked]
                 && r.progress.lastName == checked.name
  {
    if |st.pending| == 0 then st
    else
      var src := st.pending[0];
      var checked := CheckSource(cfg, src, oracle(src.url));
      var done := st.finishCount + 1;
      Service(|st.pending| > 1, st.originSize, done, st.pending[1..],
              st.db[checked.url := checked], Progress(checked.name, done, st.originSize))
  }

  /** A stop request ends the run; the counters stay as they are. */
  function Stop(st: Service): (r: Service)
    requires Valid(st)
    ensures Valid(r) && !r.running
    ensures r.finishCount == st.finishCount && r.originSize == st.originSize && r.db == st.db
  {
    st.(running := false, pending := [])
  }

  /** A whole batch: start it and let every queued check complete. When the start
      is accepted, every resolvable id is checked exactly once, so `finishCount`
      ends at the number of resolvable ids, never above the number of ids. */
  method RunBatch(st: Service, ids: seq<string>, cfg: Config, oracle: string -> Oracle)
    returns (r: Service, accepted: bool)
    requires Valid(st)
    ensures Valid(r)
    ensures accepted <==> !st.running
    ensures !accepted ==> r == st
    ensures accepted ==> && !r.running && r.originSize == |ids|
                         && r.finishCount == |Resolve(ids, st.db)| <= |ids|
  {
    var started := Start(st, ids);
    r, accepted := started.0, started.1;
    if !accepted {
      return;
    }
    ghost var total := |r.pending|;
    while |r.pending| > 0
      invariant Valid(r)
      invariant r.originSize == |ids|
      invariant r.finishCount + |r.pending| == total == |Resolve(ids, st.db)|
      decreases |r.pending|
    {
      r := Complete(r, cfg, oracle);
    }
  }
}
