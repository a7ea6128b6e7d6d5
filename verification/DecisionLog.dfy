/** The rolling decision log (agent/Sources/VGEventQueue/EventQueue.swift:212-256): an
    insert-or-replace followed by a trim to the newest rows. */
module DecisionLog {
  import opened Basics
  import opened EventTable
  import opened EventQueue

  datatype Summary = Summary(
    requestId: string, timestampMs: int, action: string, riskLevel: string,
    matchedRuleId: Option<string>, provider: Option<string>, app: Option<string>)

  type Log = map<string, Summary>

  const DECISION_LOG_CAP := 500

  /** `kept` is a newest-`cap` part of `all`: as many rows as fit, and no row left out is newer
      than a row kept. Ties may go either way. */
  ghost predicate IsNewest(cap: nat, all: Log, kept: Log) {
    && kept.Keys <= all.Keys
    && (forall id :: id in kept ==> kept[id] == all[id])
    && |kept| == Min(cap, |all|)
    && (forall d, k :: d in all && d !in kept && k in kept ==> all[d].timestampMs <= all[k].timestampMs)
  }

  /** What SELECT ... ORDER BY ts DESC LIMIT ? may return, as request ids. */
  ghost predicate IsNewestFirst(log: Log, limit: int, ids: seq<string>) {
    && Distinct(ids)
    && (forall i :: 0 <= i < |ids| ==> ids[i] in log)
    && |ids| == LimitedCount(limit, |log|)
    && (forall i, j :: 0 <= i < j < |ids| ==> log[ids[i]].timestampMs >= log[ids[j]].timestampMs)
    && (forall i, u :: 0 <= i < |ids| && u in log && u !in ids ==> log[u].timestampMs <= log[ids[i]].timestampMs)
  }

  /** One logDecision call on a log: insert or replace, then keep a newest part. */
  ghost predicate IsLogged(cap: nat, log: Log, s: Summary, log': Log) {
    IsNewest(cap, log[s.requestId := s], log')
  }

  /** A row already in the log may be replaced by a row older than itself, but not by one
      older than a row that has been dropped. */
  ghost predicate NotBackdated(history: Log, log: Log, s: Summary) {
    s.requestId in log ==> forall d :: d in history && d !in log ==> history[d].timestampMs <= s.timestampMs
  }

  lemma {:induction false} SubsetSize(a: set<string>, b: set<string>)
    requires a <= b
    ensures |a| <= |b| && (|a| == |b| ==> a == b)
    decreases |b|
  {
    if a != b {
      var x :| x in b && x !in a;
      SubsetSize(a, b - {x});
    }
  }

  /** Trimming incrementally keeps agreeing with the newest rows of everything ever logged,
      exactly when the call is not backdated. */
  lemma LogStepIff(cap: nat, history: Log, log: Log, s: Summary, log': Log)
    requires IsNewest(cap, history, log) && IsLogged(cap, log, s, log')
    ensures IsNewest(cap, history[s.requestId := s], log') <==> NotBackdated(history, log, s)
  {
    var id, all, mid := s.requestId, history[s.requestId := s], log[s.requestId := s];
    SizesAgree(cap, history, log, s, log');
    if id in log {
      assert mid.Keys == log.Keys;
      SubsetSize(log'.Keys, mid.Keys);
      assert log'.Keys == log.Keys;
      if NotBackdated(history, log, s) {
        assert IsNewest(cap, all, log');
      } else {
        var d :| d in history && d !in log && history[d].timestampMs > s.timestampMs;
        assert d in all && d !in log' && id in log';
      }
    } else {
      FreshIdStep(cap, history, log, s, log');
    }
  }

  lemma SizesAgree(cap: nat, history: Log, log: Log, s: Summary, log': Log)
    requires IsNewest(cap, history, log) && IsLogged(cap, log, s, log')
    ensures |log'| == Min(cap, |history[s.requestId := s]|)
    ensures |log| < cap ==> log == history
  {
    var id := s.requestId;
    SubsetSize(log.Keys, history.Keys);
    assert log[id := s].Keys == log.Keys + {id} && history[id := s].Keys == history.Keys + {id};
    SubsetSize(history.Keys, history[id := s].Keys);
    SubsetSize(log.Keys, log[id := s].Keys);
  }

  lemma FreshIdStep(cap: nat, history: Log, log: Log, s: Summary, log': Log)
    requires IsNewest(cap, history, log) && IsLogged(cap, log, s, log') && s.requestId !in log
    ensures IsNewest(cap, history[s.requestId := s], log')
  {
    var id, all, mid := s.requestId, history[s.requestId := s], log[s.requestId := s];
    SizesAgree(cap, history, log, s, log');
    forall d, k | d in all && d !in log' && k in log' ensures all[d].timestampMs <= all[k].timestampMs {
      if d !in mid && k == id {
        // d was dropped earlier, so the log was full and this call drops some x, with d <= x <= s
        assert mid.Keys == log.Keys + {id};
        assert |log'| < |mid|;
        assert log'.Keys != mid.Keys;
        var x :| x in mid && x !in log';
        assert history[d].timestampMs <= log[x].timestampMs <= s.timestampMs;
      }
    }
  }

  // ---------------------------------------------------------------- whole runs

  /** Everything logged so far: the last row given for each request id. */
  function Latest(calls: seq<Summary>): Log {
    if calls == [] then map[] else
    Latest(calls[..|calls| - 1])[calls[|calls| - 1].requestId := calls[|calls| - 1]]
  }

  ghost predicate IsLogRun(cap: nat, logs: seq<Log>, calls: seq<Summary>) {
    && |logs| == |calls| + 1
    && logs[0] == map[]
    && forall i :: 0 <= i < |calls| ==> IsLogged(cap, logs[i], calls[i], logs[i + 1])
  }

  ghost predicate NewestAt(cap: nat, logs: seq<Log>, calls: seq<Summary>, i: nat)
    requires i <= |calls| && i < |logs|
  {
    IsNewest(cap, Latest(calls[..i]), logs[i])
  }

  ghost predicate NotBackdatedAt(logs: seq<Log>, calls: seq<Summary>, i: nat)
    requires i < |calls| && i < |logs|
  {
    NotBackdated(Latest(calls[..i]), logs[i], calls[i])
  }

  lemma NewestAtNext(cap: nat, logs: seq<Log>, calls: seq<Summary>, i: nat)
    requires IsLogRun(cap, logs, calls) && i < |calls| && NewestAt(cap, logs, calls, i)
    ensures NewestAt(cap, logs, calls, i + 1) <==> NotBackdatedAt(logs, calls, i)
  {
    assert calls[..i + 1][..i] == calls[..i];
    LogStepIff(cap, Latest(calls[..i]), logs[i], calls[i], logs[i + 1]);
  }

  lemma NewestAtStart(cap: nat, logs: seq<Log>, calls: seq<Summary>)
    requires IsLogRun(cap, logs, calls)
    ensures NewestAt(cap, logs, calls, 0)
  {
    assert calls[..0] == [];
  }

  lemma {:induction false} ChainIff(p: int -> bool, q: int -> bool, n: nat)
    requires p(0) && forall i :: 0 <= i < n && p(i) ==> (p(i + 1) <==> q(i))
    ensures (forall i :: 0 <= i <= n ==> p(i)) <==> (forall i :: 0 <= i < n ==> q(i))
    decreases n
  {
    if n == 0 {
    } else {
      ChainIff(p, q, n - 1);
      assert p(n - 1) ==> (p(n - 1 + 1) <==> q(n - 1));
    }
  }

  /** At every point of a run the log is the newest part of everything logged, exactly when
      no call in it is backdated. */
  lemma IncrementalIsGlobalIff(cap: nat, logs: seq<Log>, calls: seq<Summary>)
    requires IsLogRun(cap, logs, calls)
    ensures (forall i :: 0 <= i <= |calls| ==> NewestAt(cap, logs, calls, i)) <==>
            (forall i :: 0 <= i < |calls| ==> NotBackdatedAt(logs, calls, i))
  {
    var p := (i: int) => 0 <= i <= |calls| < |logs| && NewestAt(cap, logs, calls, i);
    var q := (i: int) => 0 <= i < |calls| < |logs| && NotBackdatedAt(logs, calls, i);
    NewestAtStart(cap, logs, calls);
    forall i | 0 <= i < |calls| && p(i) ensures p(i + 1) <==> q(i) { NewestAtNext(cap, logs, calls, i); }
    ChainIff(p, q, |calls|);
    assert forall i :: 0 <= i <= |calls| ==> (p(i) <==> NewestAt(cap, logs, calls, i));
    assert forall i :: 0 <= i < |calls| ==> (q(i) <==> NotBackdatedAt(logs, calls, i));
  }

  lemma {:induction false} LatestKeys(calls: seq<Summary>)
    ensures forall id :: id in Latest(calls) <==> exists i :: 0 <= i < |calls| && calls[i].requestId == id
  {
    if calls == [] {
    } else {
      var n := |calls| - 1;
      LatestKeys(calls[..n]);
      forall id ensures id in Latest(calls) <==> exists i :: 0 <= i < |calls| && calls[i].requestId == id {
        if id == calls[n].requestId { assert id in Latest(calls); }
        if i :| 0 <= i < |calls[..n]| && calls[..n][i].requestId == id { assert calls[i].requestId == id; }
        if i :| 0 <= i < |calls| && calls[i].requestId == id && i < n { assert calls[..n][i].requestId == id; }
      }
    }
  }

  ghost predicate DistinctIds(calls: seq<Summary>) {
    forall i, j :: 0 <= i < j < |calls| ==> calls[i].requestId != calls[j].requestId
  }

  lemma {:induction false} DistinctCount(calls: seq<Summary>)
    requires DistinctIds(calls)
    ensures |Latest(calls)| == |calls|
  {
    if calls == [] {
    } else {
      var n := |calls| - 1;
      DistinctCount(calls[..n]);
      LatestKeys(calls[..n]);
      assert Latest(calls).Keys == Latest(calls[..n]).Keys + {calls[n].requestId};
    }
  }

  lemma {:induction false} LoggedIsInHistory(cap: nat, logs: seq<Log>, calls: seq<Summary>, i: nat)
    requires IsLogRun(cap, logs, calls) && i <= |calls|
    ensures logs[i].Keys <= Latest(calls[..i]).Keys
    decreases i
  {
    if i == 0 {
    } else {
      LoggedIsInHistory(cap, logs, calls, i - 1);
      assert calls[..i][..i - 1] == calls[..i - 1];
      assert IsLogged(cap, logs[i - 1], calls[i - 1], logs[i - 1 + 1]);
    }
  }

  lemma FreshIsNotBackdated(cap: nat, logs: seq<Log>, calls: seq<Summary>, i: nat)
    requires IsLogRun(cap, logs, calls) && DistinctIds(calls) && i < |calls|
    ensures NotBackdatedAt(logs, calls, i)
  {
    LoggedIsInHistory(cap, logs, calls, i);
    LatestKeys(calls[..i]);
    assert calls[i].requestId !in logs[i];
  }

  /** With distinct request ids, in any timestamp order: min(cap, calls) rows, and every row ever
      dropped is no newer than every row kept. */
  lemma DistinctIdsKeepNewest(cap: nat, logs: seq<Log>, calls: seq<Summary>)
    requires IsLogRun(cap, logs, calls) && DistinctIds(calls)
    ensures |logs[|calls|]| == Min(cap, |calls|)
    ensures IsNewest(cap, Latest(calls), logs[|calls|])
  {
    forall i | 0 <= i < |calls| ensures NotBackdatedAt(logs, calls, i) { FreshIsNotBackdated(cap, logs, calls, i); }
    IncrementalIsGlobalIff(cap, logs, calls);
    assert NewestAt(cap, logs, calls, |calls|);
    assert calls[..|calls|] == calls;
    DistinctCount(calls);
  }

  /** n calls with distinct ids, stamped 1 to n. */
  function Burst(n: nat): seq<Summary> {
    seq(n, i requires 0 <= i < n => Summary(seq(i, _ => 'x'), i + 1, "allow", "low", None, None, None))
  }

  lemma {:induction false} LatestValues(calls: seq<Summary>)
    ensures forall id :: id in Latest(calls) ==> Latest(calls)[id] in calls
  {
    if calls == [] {
    } else {
      LatestValues(calls[..|calls| - 1]);
    }
  }

  lemma BurstFacts(n: nat)
    ensures |Latest(Burst(n))| == n
    ensures forall id :: id in Latest(Burst(n)) ==> Latest(Burst(n))[id].timestampMs >= 1
  {
    var calls := Burst(n);
    assert DistinctIds(calls) by {
      assert forall i :: 0 <= i < n ==> |calls[i].requestId| == i;
    }
    DistinctCount(calls);
    LatestValues(calls);
  }

  lemma OlderThanAllIsBackdated(cap: nat, history: Log, log: Log, s: Summary)
    requires IsNewest(cap, history, log) && |history| > cap && s.requestId in log
    requires forall d :: d in history ==> s.timestampMs < history[d].timestampMs
    ensures !NotBackdated(history, log, s)
  {
    assert log.Keys != history.Keys;
    var d :| d in history && d !in log;
  }

  /** The condition is needed: after 501 calls stamped 1 to 501, replacing any logged row by one
      stamped 0 leaves that row in the log although a newer row was dropped. */
  lemma BackdatedCallLosesNewest(log: Log, s: Summary, log': Log)
    requires IsNewest(DECISION_LOG_CAP, Latest(Burst(501)), log) && s.requestId in log && s.timestampMs == 0
    requires IsLogged(DECISION_LOG_CAP, log, s, log')
    ensures !IsNewest(DECISION_LOG_CAP, Latest(Burst(501))[s.requestId := s], log')
  {
    var history := Latest(Burst(501));
    BurstFacts(501);
    OlderThanAllIsBackdated(DECISION_LOG_CAP, history, log, s);
    LogStepIff(DECISION_LOG_CAP, history, log, s, log');
  }

  // ---------------------------------------------------------------- the calls

  /** The state of an ORDER BY ts DESC scan. */
  ghost predicate IsPartialNewest(log: Log, ids: seq<string>, left: set<string>) {
    && left <= log.Keys
    && Distinct(ids)
    && (forall i :: 0 <= i < |ids| ==> ids[i] in log && ids[i] !in left)
    && (forall u :: u in log && u !in left ==> u in ids)
    && |ids| + |left| == |log|
    && (forall i, j :: 0 <= i < j < |ids| ==> log[ids[i]].timestampMs >= log[ids[j]].timestampMs)
    && (forall i, u :: 0 <= i < |ids| && u in left ==> log[u].timestampMs <= log[ids[i]].timestampMs)
  }

  predicate IsLatestOf(log: Log, left: set<string>, c: string)
    requires left <= log.Keys && c in log
  {
    forall k :: k in left ==> log[k].timestampMs <= log[c].timestampMs
  }

  lemma TakeLatest(log: Log, ids: seq<string>, left: set<string>, c: string)
    requires IsPartialNewest(log, ids, left) && c in left && IsLatestOf(log, left, c)
    ensures IsPartialNewest(log, ids + [c], left - {c})
  {
  }

  lemma {:induction false} LatestExists(log: Log, left: set<string>) returns (c: string)
    requires left != {} && left <= log.Keys
    ensures c in left && IsLatestOf(log, left, c)
    decreases |left|
  {
    c :| c in left;
    if left != {c} {
      assert left - {c} != {};
      var d := LatestExists(log, left - {c});
      if log[d].timestampMs > log[c].timestampMs { c := d; }
    }
  }

  lemma NewestFirstIsNewest(cap: nat, log: Log, ids: seq<string>)
    requires IsNewestFirst(log, cap, ids)
    ensures IsNewest(cap, log, map id | id in log && id in ids :: log[id])
  {
    var kept := map id | id in log && id in ids :: log[id];
    assert kept.Keys == set id | id in ids;
    SeqSetSize(ids);
    forall d, k | d in log && d !in kept && k in kept ensures log[d].timestampMs <= log[k].timestampMs {
      var i :| 0 <= i < |ids| && ids[i] == k;
    }
  }

  lemma {:induction false} SeqSetSize(ids: seq<string>)
    requires Distinct(ids)
    ensures |set id | id in ids| == |ids|
  {
    if ids == [] {
    } else {
      var n := |ids| - 1;
      SeqSetSize(ids[..n]);
      assert (set id | id in ids) == (set id | id in ids[..n]) + {ids[n]};
    }
  }

  class RollingLog {
    var log: Log

    constructor ()
      ensures log == map[]
    {
      log := map[];
    }

    method SelectNewest(limit: int) returns (ids: seq<string>)
      ensures IsNewestFirst(log, limit, ids)
    {
      ids := [];
      var left := log.Keys;
      while left != {} && (limit < 0 || |ids| < limit)
        invariant IsPartialNewest(log, ids, left)
        invariant limit >= 0 ==> |ids| <= limit
        decreases |left|
      {
        ghost var m := LatestExists(log, left);
        var c :| c in left && IsLatestOf(log, left, c);
        TakeLatest(log, ids, left, c);
        ids := ids + [c];
        left := left - {c};
      }
    }

    /** logDecision in its transaction: insert or replace, then delete all but the newest 500. */
    method LogDecision(s: Summary, faultAt: Option<nat>) returns (r: Result<(), QueueError>)
      modifies this
      ensures faultAt.None? ==> r.Ok?
      ensures r.Ok? ==> IsLogged(500, old(log), s, log)
      ensures r.Err? ==> log == old(log)
    {
      var snapshot := log;
      if faultAt == Some(0) { return Err(QueueError.StoreFault); }
      log := log[s.requestId := s];
      var ids := SelectNewest(DECISION_LOG_CAP);
      if faultAt == Some(1) || faultAt == Some(2) {
        log := snapshot;
        return Err(QueueError.StoreFault);
      }
      NewestFirstIsNewest(DECISION_LOG_CAP, log, ids);
      log := map id | id in log && id in ids :: log[id];
      return Ok(());
    }

    /** Newest first, at most `limit`, and nothing left out that is newer than a row returned. */
    method RecentDecisions(limit: int) returns (rows: seq<Summary>)
      ensures exists ids :: IsNewestFirst(log, limit, ids) && |rows| == |ids|
                            && forall i :: 0 <= i < |ids| ==> rows[i] == log[ids[i]]
    {
      var ids := SelectNewest(limit);
      rows := [];
      for i := 0 to |ids|
        invariant |rows| == i && forall k :: 0 <= k < i ==> rows[k] == log[ids[k]]
      {
        rows := rows + [log[ids[i]]];
      }
    }
  }
}
