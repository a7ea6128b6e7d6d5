/** Without new events and store faults, repeated upload runs empty the queue. */
module Drain {
  import opened Basics
  import opened EventTable
  import opened UploadProtocol
  import opened AgentCore

  /** The part of the protocol invariant that speaks of the table alone. */
  ghost predicate Counted(cfg: Config, t: Table) {
    forall id :: id in t ==> 0 <= t[id].attempts <= Cap(cfg) && (t[id].status.Dead? <==> t[id].attempts == Cap(cfg))
  }

  lemma ReachableIsCounted(cfg: Config, states: seq<World>, steps: seq<Step>, i: nat)
    requires IsRun(cfg, states, steps) && i < |states|
    ensures Counted(cfg, states[i].rows)
  {
    RunKeeps(cfg, states, steps, i);
  }

  /** Attempts an owing row has left; finished rows have none. */
  ghost function Left(cfg: Config, t: Table): map<string, nat>
    requires Counted(cfg, t)
  {
    map id | id in t :: if id in Owing(t) then (Cap(cfg) - t[id].attempts) as nat else 0
  }

  /** The sum of the remaining attempts over unfinished events. */
  ghost function Remaining(cfg: Config, t: Table): nat
    requires Counted(cfg, t)
  {
    Sum(Left(cfg, t), t.Keys)
  }

  lemma RemainingBound(cfg: Config, t: Table)
    requires Counted(cfg, t)
    ensures Remaining(cfg, t) <= Cap(cfg) * |t|
  {
    SumBound(Left(cfg, t), t.Keys, Cap(cfg));
  }

  // ---------------------------------------------------------------- the failure branch

  /** A row after one more failure: dead at the cap, waiting otherwise. */
  predicate OnceMoreFailed(cfg: Config, r: Row, r': Row) {
    r'.attempts == r.attempts + 1 && r'.status == if r.attempts + 1 == Cap(cfg) then Dead else Failed
  }

  /** What the failure loop has done to the first ids of the batch. */
  ghost predicate FailedSoFar(cfg: Config, t: Table, t': Table, ids: seq<string>) {
    && t'.Keys == t.Keys
    && (forall id :: id in t && id !in ids ==> t'[id] == t[id])
    && (forall id :: id in ids ==> id in t && OnceMoreFailed(cfg, t[id], t'[id]))
  }

  lemma FailOne(cfg: Config, t: Table, m: Table, ids: seq<string>, x: string, error: string, at: int)
    requires FailedSoFar(cfg, t, m, ids) && x !in ids && x in t && 0 <= t[x].attempts < Cap(cfg)
    ensures var o := MarkFailed(m, x, error, at, cfg.base, cfg.maxAttempts);
            !o.UnknownEvent? && (o.Marked? ==> FailedSoFar(cfg, t, o.table, ids + [x]))
  {
  }

  lemma {:induction false} FailBatchEffect(cfg: Config, t: Table, ids: seq<string>, error: string, at: int)
    requires Distinct(ids) && FailBatch(t, ids, error, at, cfg).Some?
    requires forall id :: id in ids ==> id in t && 0 <= t[id].attempts < Cap(cfg)
    ensures FailedSoFar(cfg, t, FailBatch(t, ids, error, at, cfg).value, ids)
    decreases |ids|
  {
    if ids == [] {
    } else {
      var n := |ids| - 1;
      var front := ids[..n];
      assert ids == front + [ids[n]];
      FailBatchEffect(cfg, t, front, error, at);
      FailOne(cfg, t, FailBatch(t, front, error, at, cfg).value, front, ids[n], error, at);
    }
  }

  // ---------------------------------------------------------------- one run makes progress

  /** Taking each of the ids out of a sum takes at least one per id. */
  lemma {:induction false} SumDrops(f: map<string, nat>, g: map<string, nat>, keys: set<string>, ids: seq<string>)
    requires keys <= f.Keys && keys <= g.Keys && Distinct(ids) && forall id :: id in ids ==> id in keys
    requires forall k :: k in keys && k !in ids ==> g[k] == f[k]
    requires forall id :: id in ids ==> g[id] + 1 <= f[id]
    ensures Sum(g, keys) + |ids| <= Sum(f, keys)
    decreases |ids|
  {
    if ids == [] {
      SumAgrees(f, g, keys);
    } else {
      var n := |ids| - 1;
      var x := ids[n];
      assert ids == ids[..n] + [x] && x !in ids[..n];
      SumRemove(f, keys, x);
      SumRemove(g, keys, x);
      SumDrops(f, g, keys - {x}, ids[..n]);
    }
  }

  lemma FailureProgress(cfg: Config, t: Table, t': Table, ids: seq<string>)
    requires Counted(cfg, t) && Distinct(ids) && FailedSoFar(cfg, t, t', ids)
    requires forall id :: id in ids ==> id in Owing(t)
    ensures Counted(cfg, t') && Remaining(cfg, t') + |ids| <= Remaining(cfg, t)
  {
    var f, g := Left(cfg, t), Left(cfg, t');
    forall id | id in t && id !in ids ensures g[id] == f[id] {}
    SumDrops(f, g, t.Keys, ids);
  }

  lemma SuccessProgress(cfg: Config, t: Table, t': Table, ids: seq<string>)
    requires Counted(cfg, t) && Distinct(ids) && forall id :: id in ids ==> id in Owing(t)
    requires t' == Purge(MarkUploaded(MarkInflight(t, ids), ids))
    ensures Counted(cfg, t') && Remaining(cfg, t') + |ids| <= Remaining(cfg, t)
  {
    var f := Left(cfg, t);
    var g: map<string, nat> := map id | id in t :: if id in ids then 0 else f[id];
    SumDrops(f, g, t.Keys, ids);
    SumSubset(g, t.Keys, t'.Keys);
    LeftAfterSuccess(cfg, t, t', ids);
    SumAgrees(g, Left(cfg, t'), t'.Keys);
  }

  lemma LeftAfterSuccess(cfg: Config, t: Table, t': Table, ids: seq<string>)
    requires Counted(cfg, t) && t' == Purge(MarkUploaded(MarkInflight(t, ids), ids))
    ensures Counted(cfg, t') && t'.Keys <= t.Keys
    ensures forall id :: id in t' ==> id !in ids && Left(cfg, t')[id] == Left(cfg, t)[id]
  {
  }

  lemma {:induction false} SumSubset(f: map<string, nat>, keys: set<string>, sub: set<string>)
    requires keys <= f.Keys && sub <= keys
    ensures Sum(f, sub) <= Sum(f, keys)
    decreases |keys|
  {
    if sub != keys {
      var x :| x in keys && x !in sub;
      SumRemove(f, keys, x);
      SumSubset(f, keys - {x}, sub);
    }
  }

  /** A completed run of a non-empty batch uses up at least one remaining attempt per event in
      it; and a run neither creates nor frees an inflight row. */
  lemma RunMakesProgress(cfg: Config, t: Table, now: int, call: UploadCall, ids: seq<string>, t': Table)
    requires Counted(cfg, t) && CompleteRun(cfg, t, now, call, ids, t')
    ensures Counted(cfg, t') && Remaining(cfg, t') + |ids| <= Remaining(cfg, t)
    ensures WithStatus(t', Inflight) == WithStatus(t, Inflight)
  {
    forall id | id in ids ensures id in Owing(t) && !t[id].status.Inflight? { assert id in ReadyIds(t, now); }
    if ids == [] {
    } else if call.Returned? {
      SuccessProgress(cfg, t, t', ids);
      SuccessKeepsInflight(t, t', ids);
    } else {
      FailureEffect(cfg, t, ids, call.error, now, t');
      FailureProgress(cfg, t, t', ids);
      FailureKeepsInflight(cfg, t, t', ids);
    }
  }

  lemma SuccessKeepsInflight(t: Table, t': Table, ids: seq<string>)
    requires t' == Purge(MarkUploaded(MarkInflight(t, ids), ids))
    requires forall id :: id in ids ==> id in t && !t[id].status.Inflight?
    ensures WithStatus(t', Inflight) == WithStatus(t, Inflight)
  {
  }

  lemma FailureEffect(cfg: Config, t: Table, ids: seq<string>, error: string, at: int, t': Table)
    requires Counted(cfg, t) && Distinct(ids) && forall id :: id in ids ==> id in Owing(t)
    requires FailBatch(MarkInflight(t, ids), ids, error, at, cfg) == Some(t')
    ensures FailedSoFar(cfg, t, t', ids)
  {
    FailBatchEffect(cfg, MarkInflight(t, ids), ids, error, at);
  }

  lemma FailureKeepsInflight(cfg: Config, t: Table, t': Table, ids: seq<string>)
    requires FailedSoFar(cfg, t, t', ids)
    requires forall id :: id in ids ==> id in t && !t[id].status.Inflight?
    ensures WithStatus(t', Inflight) == WithStatus(t, Inflight)
  {
  }

  /** No claimed event of a reachable table overflows when the arithmetic is safe at exponent 16; so
      a thrown upload of a batch then always ends with every event marked and never with a trap. */
  lemma SafeArithmeticNeverTraps(cfg: Config, t: Table, now: int, ids: seq<string>, lost: set<nat>)
    requires Counted(cfg, t) && IsSelection(t, cfg.batchSize, now, ids)
    requires FitsInt64(now) && FitsInt64(cfg.base) && FitsInt64(cfg.maxAttempts)
    requires FitsInt64(cfg.base * 65536) && FitsInt64(now + cfg.base * 65536)
    ensures !SomeOverflow(cfg, t, ids, lost, now)
  {
    NeverTrapsIff(now, cfg.base);
    forall i | 0 <= i < |ids| ensures !OverflowAt(cfg, t, ids, lost, now, i) {
      assert ids[i] in ReadyIds(t, now);
      var attempts: nat := t[ids[i]].attempts;
      assert DelayFits(now, cfg.base, attempts);
    }
  }

  // ---------------------------------------------------------------- a sequence of runs

  datatype UploadRun = UploadRun(now: int, call: UploadCall, ids: seq<string>)

  /** Every row waiting for a retry is due by `now`. */
  predicate AllDue(t: Table, now: int) {
    forall id :: id in t && t[id].nextRetryAt.Some? ==> t[id].nextRetryAt.value <= now
  }

  /** Consecutive completed runs, each started once all scheduled retries are due. */
  ghost predicate AreRuns(cfg: Config, tables: seq<Table>, runs: seq<UploadRun>) {
    && |tables| == |runs| + 1
    && forall i :: 0 <= i < |runs| ==> IsTimelyRun(cfg, tables[i], runs[i], tables[i + 1])
  }

  ghost predicate IsTimelyRun(cfg: Config, t: Table, run: UploadRun, t': Table) {
    AllDue(t, run.now) && CompleteRun(cfg, t, run.now, run.call, run.ids, t')
  }

  lemma TimelyRunClaims(cfg: Config, t: Table, run: UploadRun, t': Table)
    requires IsTimelyRun(cfg, t, run, t') && cfg.batchSize != 0
    requires WithStatus(t, Inflight) == {} && Owing(t) != {}
    ensures run.ids != []
  {
    var id :| id in Owing(t);
    assert id !in WithStatus(t, Inflight);
    assert id in ReadyIds(t, run.now);
    assert |ReadyIds(t, run.now)| >= 1;
  }

  lemma NothingOwingNothingClaimed(cfg: Config, t: Table, now: int, ids: seq<string>)
    requires IsSelection(t, cfg.batchSize, now, ids) && Owing(t) == {}
    ensures ids == []
  {
    assert ReadyIds(t, now) <= Owing(t);
  }

  lemma OwingHasAttemptsLeft(cfg: Config, t: Table)
    requires Counted(cfg, t) && Owing(t) != {}
    ensures Remaining(cfg, t) >= 1
  {
    var x :| x in Owing(t);
    SumRemove(Left(cfg, t), t.Keys, x);
  }

  lemma {:induction false} RunsUseUpAttempts(cfg: Config, tables: seq<Table>, runs: seq<UploadRun>, i: nat)
    requires AreRuns(cfg, tables, runs) && i <= |runs| && Counted(cfg, tables[0])
    requires cfg.batchSize != 0 && WithStatus(tables[0], Inflight) == {}
    ensures Counted(cfg, tables[i]) && WithStatus(tables[i], Inflight) == {}
    ensures Owing(tables[i]) == {} || Remaining(cfg, tables[i]) + i <= Remaining(cfg, tables[0])
    decreases i
  {
    if i == 0 {
    } else {
      RunsUseUpAttempts(cfg, tables, runs, i - 1);
      var t, run, t' := tables[i - 1], runs[i - 1], tables[i - 1 + 1];
      assert IsTimelyRun(cfg, t, run, t');
      RunMakesProgress(cfg, t, run.now, run.call, run.ids, t');
      if Owing(t) != {} {
        TimelyRunClaims(cfg, t, run, t');
      } else {
        NothingOwingNothingClaimed(cfg, t, run.now, run.ids);
      }
    }
  }

  lemma {:induction false} StrandedStay(cfg: Config, tables: seq<Table>, runs: seq<UploadRun>, i: nat)
    requires AreRuns(cfg, tables, runs) && i <= |runs| && Counted(cfg, tables[0])
    ensures Counted(cfg, tables[i]) && WithStatus(tables[i], Inflight) == WithStatus(tables[0], Inflight)
    decreases i
  {
    if i == 0 {
    } else {
      StrandedStay(cfg, tables, runs, i - 1);
      assert IsTimelyRun(cfg, tables[i - 1], runs[i - 1], tables[i - 1 + 1]);
      RunMakesProgress(cfg, tables[i - 1], runs[i - 1].now, runs[i - 1].call, runs[i - 1].ids, tables[i - 1 + 1]);
    }
  }

  /** After as many runs as there are attempts left (at most events x cap), nothing is owing,
      exactly when no row was stranded inflight to begin with: nothing reclaims those. */
  lemma QueueDrainsIff(cfg: Config, tables: seq<Table>, runs: seq<UploadRun>)
    requires AreRuns(cfg, tables, runs) && Counted(cfg, tables[0]) && cfg.batchSize != 0
    requires |runs| >= Remaining(cfg, tables[0])
    ensures Remaining(cfg, tables[0]) <= Cap(cfg) * |tables[0]|
    ensures Owing(tables[|runs|]) == {} <==> WithStatus(tables[0], Inflight) == {}
  {
    RemainingBound(cfg, tables[0]);
    var n := |runs|;
    StrandedStay(cfg, tables, runs, n);
    if WithStatus(tables[0], Inflight) == {} {
      RunsUseUpAttempts(cfg, tables, runs, n);
      if Owing(tables[n]) != {} { OwingHasAttemptsLeft(cfg, tables[n]); }
    } else {
      var x :| x in WithStatus(tables[0], Inflight);
      assert x in WithStatus(tables[n], Inflight);
      assert x in Owing(tables[n]);
    }
  }

  // ---------------------------------------------------------------- stranded rows do occur

  lemma OnlyRowIsSelected(cfg: Config, e: AuditEvent, signature: string, now: int)
    requires cfg.batchSize != 0
    ensures IsSelection(map[e.eventId := FreshRow(e, signature)], cfg.batchSize, now, [e.eventId])
  {
    var t: Table := map[e.eventId := FreshRow(e, signature)];
    assert ReadyIds(t, now) == {e.eventId};
  }

  /** The state after each prefix of the steps, if every step is enabled in turn. */
  lemma {:induction false} RunOf(cfg: Config, steps: seq<Step>, s: World) returns (states: seq<World>)
    requires Exec(cfg, Start, steps) == Some(s)
    ensures IsRun(cfg, states, steps) && states[|steps|] == s
    decreases |steps|
  {
    if steps == [] {
      states := [Start];
    } else {
      var n := |steps| - 1;
      var front := RunOf(cfg, steps[..n], Exec(cfg, Start, steps[..n]).value);
      states := front + [s];
      forall i | 0 <= i < |steps| ensures IsStep(cfg, states[i], steps[i], states[i + 1]) {
        if i < n { assert IsStep(cfg, front[i], steps[..n][i], front[i + 1]); }
      }
    }
  }

  lemma ClaimedOnce(cfg: Config, e: AuditEvent, now: int) returns (steps: seq<Step>, s: World)
    requires cfg.batchSize != 0
    ensures Exec(cfg, Start, steps) == Some(s) && s.workers == map[0 := Claimed([e.eventId], now)]
    ensures s.rows.Keys == {e.eventId} && s.rows[e.eventId].status.Inflight?
    ensures forall i :: 0 <= i < |steps| ==> !steps[i].Crash?
  {
    var a, b := Enqueue(e, ""), Claim(0, now, [e.eventId]);
    assert Enabled(cfg, Start, a);
    ExecNext(cfg, Start, [], Start, a);
    var s1 := Apply(cfg, Start, a);
    OnlyRowIsSelected(cfg, e, "", now);
    assert s1.rows == map[e.eventId := FreshRow(e, "")];
    ExecNext(cfg, Start, [] + [a], s1, b);
    steps, s := [] + [a] + [b], Apply(cfg, s1, b);
    assert e.eventId in [e.eventId];
  }

  /** A row is stranded: inflight, with no worker left to mark it. */
  predicate IsStranded(s: World, id: string) {
    s.workers == map[] && id in s.rows && s.rows[id].status.Inflight?
  }

  /** For every event and every usable configuration, a crash after the claim strands it. */
  lemma CrashStrands(cfg: Config, e: AuditEvent, now: int) returns (states: seq<World>, steps: seq<Step>)
    requires cfg.batchSize != 0
    ensures IsRun(cfg, states, steps) && IsStranded(states[|steps|], e.eventId)
  {
    var before, s := ClaimedOnce(cfg, e, now);
    ExecNext(cfg, Start, before, s, Crash);
    steps := before + [Crash];
    states := RunOf(cfg, steps, Apply(cfg, s, Crash));
  }

  /** And so does, without any crash, a markUploaded whose transaction is lost after a successful upload. */
  lemma LostMarkStrands(cfg: Config, e: AuditEvent, now: int) returns (states: seq<World>, steps: seq<Step>)
    requires cfg.batchSize != 0
    ensures IsRun(cfg, states, steps) && IsStranded(states[|steps|], e.eventId)
    ensures forall i :: 0 <= i < |steps| ==> !steps[i].Crash?
  {
    var before, s := ClaimedOnce(cfg, e, now);
    var a, b, c, d := BeginUpload(0), UploadReturned(0), LoseUploaded(0), LosePurge(0);
    ExecNext(cfg, Start, before, s, a);
    var s1 := Apply(cfg, s, a);
    ExecNext(cfg, Start, before + [a], s1, b);
    var s2 := Apply(cfg, s1, b);
    ExecNext(cfg, Start, before + [a] + [b], s2, c);
    var s3 := Apply(cfg, s2, c);
    ExecNext(cfg, Start, before + [a] + [b] + [c], s3, d);
    steps := before + [a] + [b] + [c] + [d];
    states := RunOf(cfg, steps, Apply(cfg, s3, d));
  }
}
