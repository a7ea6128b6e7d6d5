/** runUploadOnce as the actor executes it (agent/Sources/VGAgentCore/AgentCore.swift:121-158),
    and the proof that each execution, with any store faults, is a run of the protocol. */
module AgentCore {
  import opened Basics
  import opened EventTable
  import opened EventQueue
  import opened UploadProtocol

  datatype UploadCall = Returned(accepted: int, rejected: int) | Threw(error: string)

  /** Which store calls throw: the claim's and markUploaded's statement, the purge, and the
      positions in the batch whose markFailed is lost. */
  datatype Faults = Faults(claim: Option<nat>, uploaded: Option<nat>, purge: bool, failed: set<nat>)

  const NoFaults := Faults(None, None, false, {})

  datatype RunReport = NoBatch | Succeeded(accepted: int, rejected: int) | UploadFailed | CrashedByTrap

  /** The protocol state after a sequence of steps, if each is enabled in turn. */
  ghost function Exec(cfg: Config, s: World, steps: seq<Step>): Option<World>
    decreases |steps|
  {
    if steps == [] then Some(s) else
    var n := |steps| - 1;
    match Exec(cfg, s, steps[..n])
    case None => None
    case Some(m) => if Enabled(cfg, m, steps[n]) then Some(Apply(cfg, m, steps[n])) else None
  }

  predicate IsOwn(step: Step, w: int) {
    match step
    case Enqueue(_, _) => false
    case StoreFault => false
    case Crash => false
    case _ => step.w == w
  }

  /** How often a batch is handed to the upload client. */
  function Sends(steps: seq<Step>): nat {
    if steps == [] then 0 else
    Sends(steps[..|steps| - 1]) + (if steps[|steps| - 1].BeginUpload? then 1 else 0)
  }

  /** Steps of worker w alone, with that many upload calls. */
  ghost predicate IsTrace(steps: seq<Step>, w: int, sends: nat) {
    (forall i :: 0 <= i < |steps| ==> IsOwn(steps[i], w)) && Sends(steps) == sends
  }

  /** The same, cut short by a crash. */
  ghost predicate IsCrashedTrace(steps: seq<Step>, w: int, sends: nat) {
    steps != [] && steps[|steps| - 1].Crash? && IsTrace(steps[..|steps| - 1], w, sends)
  }

  lemma TraceNext(steps: seq<Step>, w: int, sends: nat, step: Step)
    requires IsTrace(steps, w, sends)
    ensures IsOwn(step, w) ==> IsTrace(steps + [step], w, sends + if step.BeginUpload? then 1 else 0)
    ensures step.Crash? ==> IsCrashedTrace(steps + [step], w, sends)
  {
    assert (steps + [step])[..|steps|] == steps;
  }

  lemma ExecNext(cfg: Config, s: World, steps: seq<Step>, m: World, step: Step)
    requires Exec(cfg, s, steps) == Some(m) && Enabled(cfg, m, step)
    ensures Exec(cfg, s, steps + [step]) == Some(Apply(cfg, m, step))
  {
    assert (steps + [step])[..|steps|] == steps;
  }

  /** The failure branch's loop without faults: markFailed on each id in turn. */
  function FailBatch(t: Table, ids: seq<string>, error: string, at: int, cfg: Config): Option<Table>
    decreases |ids|
  {
    if ids == [] then Some(t) else
    var n := |ids| - 1;
    match FailBatch(t, ids[..n], error, at, cfg)
    case None => None
    case Some(m) =>
      match MarkFailed(m, ids[n], error, at, cfg.base, cfg.maxAttempts)
      case UnknownEvent => Some(m)
      case Trapped => None
      case Marked(t', _) => Some(t')
  }

  /** Some event of the batch, at a position whose mark is not lost, overflows when marked failed. */
  ghost predicate SomeOverflow(cfg: Config, t: Table, ids: seq<string>, lost: set<nat>, now: int) {
    exists i :: 0 <= i < |ids| && OverflowAt(cfg, t, ids, lost, now, i)
  }

  predicate OverflowAt(cfg: Config, t: Table, ids: seq<string>, lost: set<nat>, now: int, i: nat)
    requires i < |ids|
  {
    i !in lost && ids[i] in t && Overflows(t[ids[i]], now, cfg.base, cfg.maxAttempts)
  }

  /** Exactly the first n positions whose mark is not lost have failed once more; nothing else changed. */
  ghost predicate MarkedUpTo(cfg: Config, t: Table, t': Table, ids: seq<string>, n: nat, lost: set<nat>,
                             error: string, now: int) {
    && t'.Keys == t.Keys
    && (forall id :: id in t && id !in ids ==> t'[id] == t[id])
    && (forall i :: 0 <= i < |ids| && ids[i] in t ==>
          t'[ids[i]] == if i < n && i !in lost then FailedRow(t[ids[i]], error, now, cfg.base, cfg.maxAttempts)
                        else t[ids[i]])
  }

  /** Claiming does not change which events overflow. */
  lemma InflightOverflow(cfg: Config, t: Table, ids: seq<string>, lost: set<nat>, now: int)
    ensures SomeOverflow(cfg, MarkInflight(t, ids), ids, lost, now) <==> SomeOverflow(cfg, t, ids, lost, now)
  {
    var t1 := MarkInflight(t, ids);
    forall i | 0 <= i < |ids|
      ensures OverflowAt(cfg, t1, ids, lost, now, i) <==> OverflowAt(cfg, t, ids, lost, now, i)
    {
    }
  }

  ghost predicate NoneBefore(cfg: Config, t: Table, ids: seq<string>, lost: set<nat>, now: int, n: nat)
    requires n <= |ids|
  {
    forall i :: 0 <= i < n ==> !OverflowAt(cfg, t, ids, lost, now, i)
  }

  lemma TrappedAt(cfg: Config, t: Table, t': Table, ids: seq<string>, lost: set<nat>, error: string, now: int, k: nat)
    requires k < |ids| && OverflowAt(cfg, t, ids, lost, now, k) && NoneBefore(cfg, t, ids, lost, now, k)
    requires MarkedUpTo(cfg, t, t', ids, k, lost, error, now)
    ensures IsTrapTable(cfg, t, t', ids, lost, error, now) && SomeOverflow(cfg, t, ids, lost, now)
  {
    assert IsTrapAt(cfg, t, t', ids, lost, error, now, k);
  }

  /** A trap at position k: the marks before it were made, the first overflow is there. */
  ghost predicate IsTrapTable(cfg: Config, t: Table, t': Table, ids: seq<string>, lost: set<nat>,
                              error: string, now: int) {
    exists k :: 0 <= k < |ids| && IsTrapAt(cfg, t, t', ids, lost, error, now, k)
  }

  ghost predicate IsTrapAt(cfg: Config, t: Table, t': Table, ids: seq<string>, lost: set<nat>,
                           error: string, now: int, k: nat)
    requires k < |ids|
  {
    && OverflowAt(cfg, t, ids, lost, now, k)
    && NoneBefore(cfg, t, ids, lost, now, k)
    && MarkedUpTo(cfg, t, t', ids, k, lost, error, now)
  }

  /** A worker in its failure branch, before position i. */
  ghost predicate IsFailing(cfg: Config, s: World, w: int, ids: seq<string>, now: int, i: nat,
                            steps: seq<Step>, m: World) {
    && Exec(cfg, s, steps) == Some(m) && IsTrace(steps, w, 1)
    && w !in s.workers && m.workers == s.workers[w := Failing(ids, now, i)]
  }

  /** The failure loop before position i, over a table that was t when it began. */
  ghost predicate InLoop(cfg: Config, s: World, w: int, t: Table, ids: seq<string>, lost: set<nat>,
                         error: string, now: int, i: nat, steps: seq<Step>, m: World) {
    && i <= |ids|
    && IsFailing(cfg, s, w, ids, now, i, steps, m)
    && MarkedUpTo(cfg, t, m.rows, ids, i, lost, error, now)
    && NoneBefore(cfg, t, ids, lost, now, i)
  }

  /** Marks without losses or overflows are what FailBatch computes. */
  lemma {:induction false} FailBatchIsMarked(cfg: Config, t: Table, ids: seq<string>, n: nat, error: string, now: int)
    requires Distinct(ids) && n <= |ids| && (forall id :: id in ids ==> id in t)
    requires forall i :: 0 <= i < n ==> !OverflowAt(cfg, t, ids, {}, now, i)
    ensures FailBatch(t, ids[..n], error, now, cfg).Some?
    ensures MarkedUpTo(cfg, t, FailBatch(t, ids[..n], error, now, cfg).value, ids, n, {}, error, now)
    decreases n
  {
    if n == 0 {
    } else {
      FailBatchIsMarked(cfg, t, ids, n - 1, error, now);
      assert ids[..n][..n - 1] == ids[..n - 1] && ids[..n][n - 1] == ids[n - 1];
      MarkNext(cfg, t, FailBatch(t, ids[..n - 1], error, now, cfg).value, ids, n - 1, {}, error, now);
    }
  }

  lemma MarkedIsUnique(cfg: Config, t: Table, a: Table, b: Table, ids: seq<string>, n: nat, lost: set<nat>,
      error: string, now: int)
    requires MarkedUpTo(cfg, t, a, ids, n, lost, error, now) && MarkedUpTo(cfg, t, b, ids, n, lost, error, now)
    ensures a == b
  {
    forall id | id in t ensures a[id] == b[id] {
      if id in ids { var i :| 0 <= i < |ids| && ids[i] == id; }
    }
  }

  lemma FailBatchIs(cfg: Config, t: Table, t': Table, ids: seq<string>, error: string, now: int)
    requires Distinct(ids) && (forall id :: id in ids ==> id in t)
    requires !SomeOverflow(cfg, t, ids, {}, now) && MarkedUpTo(cfg, t, t', ids, |ids|, {}, error, now)
    ensures FailBatch(t, ids, error, now, cfg) == Some(t')
  {
    FailBatchIsMarked(cfg, t, ids, |ids|, error, now);
    assert ids[..|ids|] == ids;
    MarkedIsUnique(cfg, t, t', FailBatch(t, ids, error, now, cfg).value, ids, |ids|, {}, error, now);
  }

  lemma MarkNext(cfg: Config, t: Table, m: Table, ids: seq<string>, i: nat, lost: set<nat>, error: string, now: int)
    requires Distinct(ids) && i < |ids| && (forall id :: id in ids ==> id in t)
    requires MarkedUpTo(cfg, t, m, ids, i, lost, error, now)
    ensures var o := MarkFailed(m, ids[i], error, now, cfg.base, cfg.maxAttempts);
      && !o.UnknownEvent?
      && (i !in lost ==> (o.Trapped? <==> OverflowAt(cfg, t, ids, lost, now, i)))
      && (i in lost ==> MarkedUpTo(cfg, t, m, ids, i + 1, lost, error, now))
      && (i !in lost && o.Marked? ==> MarkedUpTo(cfg, t, o.table, ids, i + 1, lost, error, now))
  {
    assert m[ids[i]] == t[ids[i]];
  }

  /** What one uninterrupted, fault-free runUploadOnce does to the table. */
  ghost predicate CompleteRun(cfg: Config, t: Table, now: int, call: UploadCall, ids: seq<string>, t': Table) {
    && IsSelection(t, cfg.batchSize, now, ids)
    && if ids == [] then t' == t
       else match call {
         case Returned(_, _) => t' == Purge(MarkUploaded(MarkInflight(t, ids), ids))
         case Threw(error) => FailBatch(MarkInflight(t, ids), ids, error, now, cfg) == Some(t')
       }
  }

  /** One enabled step of worker w after a trace of its own. */
  lemma OwnStep(cfg: Config, s: World, before: seq<Step>, m: World, w: int, sends: nat, step: Step)
    requires Exec(cfg, s, before) == Some(m) && IsTrace(before, w, sends) && Enabled(cfg, m, step) && IsOwn(step, w)
    ensures Exec(cfg, s, before + [step]) == Some(Apply(cfg, m, step))
    ensures IsTrace(before + [step], w, sends + if step.BeginUpload? then 1 else 0)
  {
    ExecNext(cfg, s, before, m, step);
    TraceNext(before, w, sends, step);
  }

  lemma ClaimStep(cfg: Config, s: World, w: int, now: int, ids: seq<string>) returns (steps: seq<Step>, m: World)
    requires w !in s.workers && IsSelection(s.rows, cfg.batchSize, now, ids) && ids != []
    ensures Exec(cfg, s, steps) == Some(m) && m.rows == MarkInflight(s.rows, ids) && IsTrace(steps, w, 0)
    ensures m.workers == s.workers[w := Claimed(ids, now)]
  {
    OwnStep(cfg, s, [], s, w, 0, Claim(w, now, ids));
    steps, m := [] + [Claim(w, now, ids)], Apply(cfg, s, Claim(w, now, ids));
  }

  lemma SendStep(cfg: Config, s: World, before: seq<Step>, m: World, w: int, ids: seq<string>, now: int)
    returns (steps: seq<Step>, m': World)
    requires Exec(cfg, s, before) == Some(m) && IsTrace(before, w, 0)
    requires m.workers == s.workers[w := Claimed(ids, now)]
    ensures Exec(cfg, s, steps) == Some(m') && m'.rows == m.rows && IsTrace(steps, w, 1)
    ensures m'.workers == s.workers[w := Uploading(ids, now)]
  {
    OwnStep(cfg, s, before, m, w, 0, BeginUpload(w));
    steps, m' := before + [BeginUpload(w)], Apply(cfg, m, BeginUpload(w));
  }

  lemma ResultStep(cfg: Config, s: World, before: seq<Step>, m: World, w: int, ids: seq<string>, now: int,
      returned: bool)
    returns (steps: seq<Step>, m': World)
    requires Exec(cfg, s, before) == Some(m) && IsTrace(before, w, 1)
    requires m.workers == s.workers[w := Uploading(ids, now)]
    ensures Exec(cfg, s, steps) == Some(m') && m'.rows == m.rows && IsTrace(steps, w, 1)
    ensures m'.workers == s.workers[w := if returned then Acked(ids) else Failing(ids, now, 0)]
  {
    var end := if returned then UploadReturned(w) else UploadThrew(w);
    OwnStep(cfg, s, before, m, w, 1, end);
    steps, m' := before + [end], Apply(cfg, m, end);
  }

  /** Claim, upload call and its result, seen from the protocol. */
  lemma OpeningSteps(cfg: Config, s: World, w: int, now: int, ids: seq<string>, returned: bool)
    returns (steps: seq<Step>, m: World)
    requires w !in s.workers && IsSelection(s.rows, cfg.batchSize, now, ids) && ids != []
    ensures Exec(cfg, s, steps) == Some(m) && m.rows == MarkInflight(s.rows, ids)
    ensures m.workers == s.workers[w := if returned then Acked(ids) else Failing(ids, now, 0)]
    ensures IsTrace(steps, w, 1)
  {
    steps, m := ClaimStep(cfg, s, w, now, ids);
    steps, m := SendStep(cfg, s, steps, m, w, ids, now);
    steps, m := ResultStep(cfg, s, steps, m, w, ids, now, returned);
  }

  /** The steps of the success branch, seen from the protocol. */
  lemma SuccessSteps(cfg: Config, s: World, before: seq<Step>, m: World, w: int, ids: seq<string>, marked: bool,
      purged: bool)
    returns (steps: seq<Step>)
    requires Exec(cfg, s, before) == Some(m) && w !in s.workers && m.workers == s.workers[w := Acked(ids)]
    requires IsTrace(before, w, 1)
    ensures IsTrace(steps, w, 1)
    ensures Exec(cfg, s, steps).Some? && Exec(cfg, s, steps).value.workers == s.workers
    ensures var t := if marked then MarkUploaded(m.rows, ids) else m.rows;
            Exec(cfg, s, steps).value.rows == if purged then Purge(t) else t
  {
    var mark := if marked then CommitUploaded(w) else LoseUploaded(w);
    var purge := if purged then CommitPurge(w) else LosePurge(w);
    ExecNext(cfg, s, before, m, mark);
    var m2 := Apply(cfg, m, mark);
    ExecNext(cfg, s, before + [mark], m2, purge);
    steps := before + [mark] + [purge];
    TraceNext(before, w, 1, mark);
    TraceNext(before + [mark], w, 1, purge);
    assert m2.workers - {w} == s.workers;
  }

  /** One markFailed of the failure branch, seen from the protocol. */
  lemma FailureStep(cfg: Config, s: World, before: seq<Step>, m: World, w: int, ids: seq<string>, now: int, i: nat,
                    error: string, lost: bool) returns (steps: seq<Step>, m': World)
    requires IsFailing(cfg, s, w, ids, now, i, before, m)
    requires i < |ids| && (!lost ==> !MarkFailed(m.rows, ids[i], error, now, cfg.base, cfg.maxAttempts).Trapped?)
    ensures IsFailing(cfg, s, w, ids, now, i + 1, steps, m')
    ensures var o := MarkFailed(m.rows, ids[i], error, now, cfg.base, cfg.maxAttempts);
            m'.rows == if !lost && o.Marked? then o.table else m.rows
  {
    var step := if lost then LoseFailed(w) else CommitFailed(w, error);
    FailureApplied(cfg, m, w, ids, now, i, error, lost);
    ExecNext(cfg, s, before, m, step);
    TraceNext(before, w, 1, step);
    steps, m' := before + [step], Apply(cfg, m, step);
    assert s.workers[w := Failing(ids, now, i)][w := Failing(ids, now, i + 1)] ==
           s.workers[w := Failing(ids, now, i + 1)];
  }

  lemma FailureApplied(cfg: Config, m: World, w: int, ids: seq<string>, now: int, i: nat, error: string, lost: bool)
    requires w in m.workers && m.workers[w] == Failing(ids, now, i) && i < |ids|
    requires !lost ==> !MarkFailed(m.rows, ids[i], error, now, cfg.base, cfg.maxAttempts).Trapped?
    ensures var step := if lost then LoseFailed(w) else CommitFailed(w, error);
      var o := MarkFailed(m.rows, ids[i], error, now, cfg.base, cfg.maxAttempts);
      && Enabled(cfg, m, step)
      && Apply(cfg, m, step).workers == m.workers[w := Failing(ids, now, i + 1)]
      && Apply(cfg, m, step).rows == if !lost && o.Marked? then o.table else m.rows
  {
  }

  lemma LastSteps(cfg: Config, s: World, before: seq<Step>, m: World, w: int, ids: seq<string>, now: int)
    requires IsFailing(cfg, s, w, ids, now, |ids|, before, m)
    ensures Exec(cfg, s, before + [Finish(w)]) == Some(m.(workers := s.workers))
    ensures IsTrace(before + [Finish(w)], w, 1)
  {
    ExecNext(cfg, s, before, m, Finish(w));
    TraceNext(before, w, 1, Finish(w));
    assert m.workers - {w} == s.workers;
  }

  lemma CrashSteps(cfg: Config, s: World, w: int, before: seq<Step>, m: World) returns (steps: seq<Step>)
    requires Exec(cfg, s, before) == Some(m) && IsTrace(before, w, 1)
    ensures Exec(cfg, s, steps) == Some(m.(workers := map[])) && IsCrashedTrace(steps, w, 1)
  {
    ExecNext(cfg, s, before, m, Crash);
    TraceNext(before, w, 1, Crash);
    steps := before + [Crash];
  }

  class Agent {
    const cfg: Config
    const queue: Queue
    var lastUploadOutcome: Option<string>

    constructor (cfg: Config, queue: Queue)
      ensures this.cfg == cfg && this.queue == queue && lastUploadOutcome == None
    {
      this.cfg := cfg;
      this.queue := queue;
      lastUploadOutcome := None;
    }

    /** The success branch: markUploaded, then purgeUploaded, each swallowing a store fault. */
    method FinishSuccess(ids: seq<string>, faults: Faults, ghost s: World, ghost w: int, ghost before: seq<Step>,
        ghost m: World)
      returns (ghost steps: seq<Step>)
      requires Exec(cfg, s, before) == Some(m) && m.rows == queue.rows && w !in s.workers
      requires m.workers == s.workers[w := Acked(ids)] && IsTrace(before, w, 1)
      modifies queue
      ensures IsTrace(steps, w, 1)
      ensures Exec(cfg, s, steps).Some?
      ensures Exec(cfg, s, steps).value.rows == queue.rows && Exec(cfg, s, steps).value.workers == s.workers
      ensures var lost := faults.uploaded.Some? && faults.uploaded.value <= |ids|;
        var t := if lost then old(queue.rows) else MarkUploaded(old(queue.rows), ids);
        queue.rows == if faults.purge then t else Purge(t)
    {
      var marked := queue.MarkUploadedIds(ids, faults.uploaded);
      var purged := queue.PurgeUploaded(faults.purge);
      steps := SuccessSteps(cfg, s, before, m, w, ids, marked.Ok?, purged.Ok?);
    }

    /** One iteration of the failure branch: markFailed on the i-th event, swallowing its error. */
    method FailOne(ids: seq<string>, error: string, now: int, i: nat, faults: Faults, ghost t: Table,
                   ghost s: World, ghost w: int, ghost before: seq<Step>, ghost m: World)
      returns (trapped: bool, ghost steps: seq<Step>, ghost m': World)
      requires i < |ids| && Distinct(ids) && (forall id :: id in ids ==> id in t)
      requires InLoop(cfg, s, w, t, ids, faults.failed, error, now, i, before, m) && m.rows == queue.rows
      modifies queue
      ensures trapped <==> OverflowAt(cfg, t, ids, faults.failed, now, i)
      ensures trapped ==> queue.rows == old(queue.rows)
      ensures !trapped ==> m'.rows == queue.rows
      ensures !trapped ==> InLoop(cfg, s, w, t, ids, faults.failed, error, now, i + 1, steps, m')
    {
      MarkNext(cfg, t, queue.rows, ids, i, faults.failed, error, now);
      var r := queue.MarkFailedId(ids[i], error, now, cfg.base, cfg.maxAttempts, i in faults.failed);
      if r == Err(ArithmeticTrap) { return true, before, m; }
      steps, m' := FailureStep(cfg, s, before, m, w, ids, now, i, error, i in faults.failed);
      trapped := false;
    }

    /** The loop of the failure branch, up to its end or the first trap at position k. */
    method FailEach(ids: seq<string>, error: string, now: int, faults: Faults, ghost t: Table,
                    ghost s: World, ghost w: int, ghost before: seq<Step>, ghost m: World)
      returns (trapped: bool, ghost k: nat, ghost steps: seq<Step>, ghost m': World)
      requires Distinct(ids) && (forall id :: id in ids ==> id in t)
      requires InLoop(cfg, s, w, t, ids, faults.failed, error, now, 0, before, m) && m.rows == queue.rows
      modifies queue
      ensures k <= |ids| && InLoop(cfg, s, w, t, ids, faults.failed, error, now, k, steps, m') && m'.rows == queue.rows
      ensures if trapped then k < |ids| && OverflowAt(cfg, t, ids, faults.failed, now, k) else k == |ids|
    {
      steps, m' := before, m;
      for i := 0 to |ids|
        invariant InLoop(cfg, s, w, t, ids, faults.failed, error, now, i, steps, m') && m'.rows == queue.rows
      {
        ghost var steps', next;
        trapped, steps', next := FailOne(ids, error, now, i, faults, t, s, w, steps, m');
        k := i;
        if trapped { return; }
        steps, m' := steps', next;
      }
      trapped, k := false, |ids|;
    }

    /** The failure branch: markFailed for every event of the batch, each swallowing its error. It traps
        exactly when some mark that is not lost overflows, at the first such; otherwise exactly the
        marks that are not lost are made. */
    method FinishFailure(ids: seq<string>, error: string, now: int, faults: Faults,
                         ghost s: World, ghost w: int, ghost before: seq<Step>, ghost m: World)
      returns (trapped: bool, ghost steps: seq<Step>)
      requires IsFailing(cfg, s, w, ids, now, 0, before, m) && m.rows == queue.rows
      requires Distinct(ids) && forall id :: id in ids ==> id in queue.rows
      modifies queue
      ensures trapped <==> SomeOverflow(cfg, old(queue.rows), ids, faults.failed, now)
      ensures !trapped ==> MarkedUpTo(cfg, old(queue.rows), queue.rows, ids, |ids|, faults.failed, error, now)
      ensures trapped ==> IsTrapTable(cfg, old(queue.rows), queue.rows, ids, faults.failed, error, now)
      ensures if trapped then IsCrashedTrace(steps, w, 1) else IsTrace(steps, w, 1)
      ensures Exec(cfg, s, steps).Some? && Exec(cfg, s, steps).value.rows == queue.rows
      ensures Exec(cfg, s, steps).value.workers == if trapped then map[] else s.workers
    {
      ghost var t, k, cur := queue.rows, 0, m;
      trapped, k, steps, cur := FailEach(ids, error, now, faults, t, s, w, before, m);
      if trapped {
        TrappedAt(cfg, t, queue.rows, ids, faults.failed, error, now, k);
        steps := CrashSteps(cfg, s, w, steps, cur);
      } else {
        LastSteps(cfg, s, steps, cur, w, ids, now);
        steps := steps + [Finish(w)];
      }
    }

    /** One upload attempt. Whatever throws, what it does to the store is what some sequence of worker
        w's own protocol steps does, its batch is sent exactly once, and w is gone afterwards; a trap
        ends the sequence with a crash. */
    method RunUploadOnce(now: int, call: UploadCall, faults: Faults, ghost s: World, ghost w: int)
      returns (r: RunReport, ghost ids: seq<string>, ghost steps: seq<Step>)
      requires s.rows == queue.rows && w !in s.workers
      modifies this, queue
      ensures Exec(cfg, s, steps).Some? && Exec(cfg, s, steps).value.rows == queue.rows
      ensures !r.CrashedByTrap? ==> Exec(cfg, s, steps).value.workers == s.workers
      ensures !r.CrashedByTrap? ==> IsTrace(steps, w, if ids == [] then 0 else 1)
      ensures r.CrashedByTrap? ==> ids != [] && IsCrashedTrace(steps, w, 1)
      ensures faults.claim.None? || ids != [] ==> IsSelection(old(queue.rows), cfg.batchSize, now, ids)
      ensures r.NoBatch? <==> ids == []
      ensures r.Succeeded? <==> ids != [] && call.Returned?
      ensures r.CrashedByTrap? <==>
        ids != [] && call.Threw? && SomeOverflow(cfg, old(queue.rows), ids, faults.failed, now)
      ensures r.NoBatch? ==> queue.rows == old(queue.rows) && lastUploadOutcome == old(lastUploadOutcome)
      ensures r.Succeeded? ==> call == Returned(r.accepted, r.rejected) && lastUploadOutcome == Some("success")
      ensures r.UploadFailed? ==> call.Threw? && lastUploadOutcome == Some("failure")
      ensures r.Succeeded? ==>
        var t := MarkInflight(old(queue.rows), ids);
        var lost := faults.uploaded.Some? && faults.uploaded.value <= |ids|;
        var t' := if lost then t else MarkUploaded(t, ids);
        queue.rows == if faults.purge then t' else Purge(t')
      ensures r.CrashedByTrap? ==>
        IsTrapTable(cfg, MarkInflight(old(queue.rows), ids), queue.rows, ids, faults.failed, call.error, now)
      ensures r.UploadFailed? ==>
        MarkedUpTo(cfg, MarkInflight(old(queue.rows), ids), queue.rows, ids, |ids|, faults.failed, call.error, now)
      ensures faults == NoFaults && !r.CrashedByTrap? ==>
                CompleteRun(cfg, old(queue.rows), now, call, ids, queue.rows) && (r.NoBatch? <==> ids == [])
    {
      var claim := queue.ClaimBatch(cfg.batchSize, now, faults.claim);
      steps, ids := [], [];
      if claim.Err? { return NoBatch, ids, steps; }
      var batch := claim.value;
      ids := IdsOf(batch);
      if |batch| == 0 {
        assert MarkInflight(s.rows, ids) == s.rows;
        return NoBatch, ids, steps;
      }
      ghost var m;
      SelectedArePresent(s.rows, cfg.batchSize, now, ids);
      InflightOverflow(cfg, s.rows, ids, faults.failed, now);
      steps, m := OpeningSteps(cfg, s, w, now, ids, call.Returned?);
      match call {
        case Returned(accepted, rejected) =>
          steps := FinishSuccess(IdsOf(batch), faults, s, w, steps, m);
          lastUploadOutcome := Some("success");
          r := Succeeded(accepted, rejected);
        case Threw(error) =>
          var trapped;
          trapped, steps := FinishFailure(IdsOf(batch), error, now, faults, s, w, steps, m);
          if trapped { return CrashedByTrap, ids, steps; }
          if faults == NoFaults { FailBatchIs(cfg, MarkInflight(s.rows, ids), queue.rows, ids, error, now); }
          lastUploadOutcome := Some("failure");
          r := UploadFailed;
      }
    }
  }
}
