/** What every run of the upload protocol guarantees. */
module UploadTheorems {
  import opened Basics
  import opened EventTable
  import opened UploadProtocol
  import Decimal

  /** In every state of every run, the parts of two workers' batches that are not marked yet
      are disjoint sets of inflight rows: no event is ever in two uploads at once. */
  lemma NoEventInTwoUploads(cfg: Config, states: seq<World>, steps: seq<Step>, i: nat, v: int, w: int, id: string)
    requires IsRun(cfg, states, steps) && i < |states|
    requires v in states[i].workers && w in states[i].workers && v != w
    requires id in Unmarked(states[i].workers[v])
    ensures id !in Unmarked(states[i].workers[w])
    ensures id in states[i].rows && states[i].rows[id].status.Inflight?
  {
    RunKeeps(cfg, states, steps, i);
    assert WorkerOk(states[i].rows, states[i].ledger, states[i].workers[v]);
  }

  /** The claim ledger of every event ever enqueued, in every state of every run. */
  lemma LedgerOfEveryRun(cfg: Config, states: seq<World>, steps: seq<Step>, i: nat, id: string)
    requires IsRun(cfg, states, steps) && i < |states| && id in states[i].ledger
    ensures var s, e := states[i], states[i].ledger[id];
      && e.sends <= e.claims <= Cap(cfg)
      && e.acks <= 1
      && (id in s.rows <==> id !in s.purged)
      && (id in s.rows ==>
            var r := s.rows[id];
            && e.claims == r.attempts + (if r.status.Inflight? || r.status.Uploaded? then 1 else 0)
            && (r.status.Dead? <==> r.attempts == Cap(cfg)))
      && (id in s.purged || (id in s.rows && s.rows[id].status.Uploaded?) ==> e.acks == 1)
      && (id in s.rows && s.rows[id].status.Dead? ==> e.acks == 0)
  {
    RunKeeps(cfg, states, steps, i);
    var s := states[i];
    if id in s.rows { assert RowOk(cfg, s.rows[id], s.ledger[id]); }
    if id in s.purged { assert PurgedOk(cfg, s.ledger[id]); }
  }

  lemma EnqueuedStep(cfg: Config, s: World, step: Step, id: string)
    requires Enabled(cfg, s, step) && id in s.ledger
    ensures var s' := Apply(cfg, s, step);
      id in s'.ledger && s'.ledger[id].event == s.ledger[id].event && s'.ledger[id].signature == s.ledger[id].signature
  {
  }

  lemma {:induction false} EnqueuedStays(
      cfg: Config, states: seq<World>, steps: seq<Step>, i: nat, j: nat, id: string)
    requires IsRun(cfg, states, steps) && i <= j < |states| && id in states[i].ledger
    ensures id in states[j].ledger && states[j].ledger[id].event == states[i].ledger[id].event
    ensures states[j].ledger[id].signature == states[i].ledger[id].signature
    decreases j
  {
    if i == j {
    } else {
      EnqueuedStays(cfg, states, steps, i, j - 1, id);
      assert IsStep(cfg, states[j - 1], steps[j - 1], states[j - 1 + 1]);
      EnqueuedStep(cfg, states[j - 1], steps[j - 1], id);
    }
  }

  /** What a claim hands to the upload client is what was enqueued: as long as an event's row exists,
      it reads as its id, type, decimal timestamp, payload and signature. */
  lemma ClaimedIsWhatWasEnqueued(cfg: Config, states: seq<World>, steps: seq<Step>, i: nat, j: nat)
    requires IsRun(cfg, states, steps) && i < j < |states| && steps[i].Enqueue?
    ensures var e := steps[i].event;
      e.eventId in states[j].rows ==>
        AsQueued(e.eventId, states[j].rows[e.eventId]) ==
        QueuedEvent(e.eventId, e.kind, Decimal.Print(e.timestampMs), e.payload, steps[i].signature)
  {
    var e := steps[i].event;
    assert IsStep(cfg, states[i], steps[i], states[i + 1]);
    EnqueuedStays(cfg, states, steps, i + 1, j, e.eventId);
    RunKeeps(cfg, states, steps, j);
    if e.eventId in states[j].rows {
      assert RowOk(cfg, states[j].rows[e.eventId], states[j].ledger[e.eventId]);
    }
  }

  predicate Finished(s: World, id: string) {
    id in s.purged || (id in s.rows && (s.rows[id].status.Uploaded? || s.rows[id].status.Dead?))
  }

  /** Acknowledged or dead. */
  predicate Over(s: World, id: string) {
    id in s.ledger && (s.ledger[id].acks == 1 || (id in s.rows && s.rows[id].status.Dead?))
  }

  lemma FinishedIsOver(cfg: Config, s: World, id: string)
    requires Inv(cfg, s) && Finished(s, id)
    ensures Over(s, id)
  {
    if id in s.rows { assert RowOk(cfg, s.rows[id], s.ledger[id]); } else { assert PurgedOk(cfg, s.ledger[id]); }
  }

  /** Only a worker whose upload succeeded still holds an event that is over. */
  lemma OverIsNotHeld(cfg: Config, s: World, w: int, id: string)
    requires Inv(cfg, s) && Over(s, id) && w in s.workers && !s.workers[w].Acked?
    ensures id !in Unmarked(s.workers[w])
  {
    assert WorkerOk(s.rows, s.ledger, s.workers[w]);
  }

  lemma OverIsNotReady(cfg: Config, s: World, now: int, id: string)
    requires Inv(cfg, s) && Over(s, id)
    ensures id !in ReadyIds(s.rows, now)
  {
    if id in s.rows { assert RowOk(cfg, s.rows[id], s.ledger[id]); }
  }

  lemma OverKeepsEntry(cfg: Config, s: World, step: Step, id: string)
    requires Inv(cfg, s) && Enabled(cfg, s, step) && Over(s, id)
    ensures var s' := Apply(cfg, s, step); id in s'.ledger && s'.ledger[id] == s.ledger[id]
  {
    match step {
      case Claim(_, now, ids) => OverIsNotReady(cfg, s, now, id);
      case BeginUpload(w) => OverIsNotHeld(cfg, s, w, id);
      case UploadReturned(w) => OverIsNotHeld(cfg, s, w, id);
      case CommitFailed(w, _) =>
        OverIsNotHeld(cfg, s, w, id);
        FailingMovesOn(s.rows, s.ledger, s.workers[w]);
      case _ =>
    }
  }

  lemma FinishedKeepsRow(cfg: Config, s: World, step: Step, id: string)
    requires Inv(cfg, s) && Enabled(cfg, s, step) && Over(s, id) && Finished(s, id)
    ensures var s' := Apply(cfg, s, step);
      Finished(s', id) && (id in s.rows && s.rows[id].status.Dead? ==> id in s'.rows && s'.rows[id] == s.rows[id])
  {
    match step {
      case Claim(_, now, ids) => OverIsNotReady(cfg, s, now, id);
      case CommitUploaded(w) => FinishedIsNotHeld(cfg, s, w, id);
      case CommitFailed(w, _) =>
        FinishedIsNotHeld(cfg, s, w, id);
        FailingMovesOn(s.rows, s.ledger, s.workers[w]);
      case _ =>
    }
  }

  lemma FinishedIsNotHeld(cfg: Config, s: World, w: int, id: string)
    requires Inv(cfg, s) && Finished(s, id) && w in s.workers
    ensures id !in Unmarked(s.workers[w])
  {
    assert WorkerOk(s.rows, s.ledger, s.workers[w]);
  }

  lemma OverAtNext(cfg: Config, states: seq<World>, steps: seq<Step>, j: nat, id: string)
    requires IsRun(cfg, states, steps) && j < |steps| && Over(states[j], id)
    ensures Over(states[j + 1], id) && states[j + 1].ledger[id] == states[j].ledger[id]
  {
    RunKeeps(cfg, states, steps, j);
    assert IsStep(cfg, states[j], steps[j], states[j + 1]);
    OverKeepsEntry(cfg, states[j], steps[j], id);
    if states[j].ledger[id].acks != 1 { FinishedKeepsRow(cfg, states[j], steps[j], id); }
  }

  lemma FinishedAtNext(cfg: Config, states: seq<World>, steps: seq<Step>, j: nat, id: string)
    requires IsRun(cfg, states, steps) && j < |steps| && Finished(states[j], id)
    ensures var s, s' := states[j], states[j + 1];
      Finished(s', id) && (id in s.rows && s.rows[id].status.Dead? ==> id in s'.rows && s'.rows[id] == s.rows[id])
  {
    RunKeeps(cfg, states, steps, j);
    assert IsStep(cfg, states[j], steps[j], states[j + 1]);
    FinishedIsOver(cfg, states[j], id);
    FinishedKeepsRow(cfg, states[j], steps[j], id);
  }

  /** Once an upload of it was seen to succeed, or it died, an event is never claimed, sent or
      rescheduled again, however the run goes on: not even when marking it was lost and its row
      stays inflight. */
  lemma {:induction false} OverForever(
      cfg: Config, states: seq<World>, steps: seq<Step>, i: nat, j: nat, id: string)
    requires IsRun(cfg, states, steps) && i <= j < |states| && Over(states[i], id)
    ensures Over(states[j], id) && states[j].ledger[id] == states[i].ledger[id]
    decreases j
  {
    if i == j {
    } else {
      OverForever(cfg, states, steps, i, j - 1, id);
      OverAtNext(cfg, states, steps, j - 1, id);
    }
  }

  lemma FinishedAtIsOver(cfg: Config, states: seq<World>, steps: seq<Step>, i: nat, id: string)
    requires IsRun(cfg, states, steps) && i < |states| && Finished(states[i], id)
    ensures Over(states[i], id)
  {
    RunKeeps(cfg, states, steps, i);
    FinishedIsOver(cfg, states[i], id);
  }

  /** An uploaded, purged or dead event stays so, its ledger never changes again, and a dead row
      never changes. */
  lemma {:induction false} FinishedForever(
      cfg: Config, states: seq<World>, steps: seq<Step>, i: nat, j: nat, id: string)
    requires IsRun(cfg, states, steps) && i <= j < |states| && Finished(states[i], id)
    ensures Finished(states[j], id)
    ensures id in states[i].ledger && id in states[j].ledger && states[j].ledger[id] == states[i].ledger[id]
    ensures id in states[i].rows && states[i].rows[id].status.Dead? ==>
              id in states[j].rows && states[j].rows[id] == states[i].rows[id]
    decreases j
  {
    FinishedAtIsOver(cfg, states, steps, i, id);
    OverForever(cfg, states, steps, i, j, id);
    if i < j {
      FinishedForever(cfg, states, steps, i, j - 1, id);
      FinishedAtNext(cfg, states, steps, j - 1, id);
    }
  }

  /** Conservation: every event ever enqueued is owing, dead, uploaded or purged, and only
      acknowledged events are purged. */
  lemma Conservation(cfg: Config, states: seq<World>, steps: seq<Step>, i: nat)
    requires IsRun(cfg, states, steps) && i < |states|
    ensures var s := states[i];
      && |s.ledger| == |Owing(s.rows)| + |WithStatus(s.rows, Dead)| + |WithStatus(s.rows, Uploaded)| + |s.purged|
      && (forall id :: id in s.purged ==> id in s.ledger && s.ledger[id].acks == 1)
  {
    RunKeeps(cfg, states, steps, i);
    var s := states[i];
    TableSize(s.rows);
    assert |s.ledger.Keys| == |s.rows.Keys| + |s.purged|;
  }

  /** Every retry scheduled for an event is due exactly base x 2^min(k,16) after the clock at its
      (k+1)-th failure, the first included; no failure comes before the retry then waiting was due;
      a claim of the event is never before its last retry is due, nor, with a base that is not
      negative, before any earlier one; and with a positive base the due times strictly increase,
      whatever the clock does between claims. */
  lemma BackoffOfEveryRun(cfg: Config, states: seq<World>, steps: seq<Step>, i: nat, id: string)
    requires IsRun(cfg, states, steps) && i < |states| && id in states[i].ledger
    ensures var retries := states[i].ledger[id].retries;
      && (forall k :: 0 <= k < |retries| ==> retries[k].due == retries[k].at + RetryDelay(cfg.base, k))
      && (forall k :: 1 <= k < |retries| ==> retries[k - 1].due <= retries[k].at)
      && (cfg.base > 0 ==> forall a, b :: 0 <= a < b < |retries| ==> retries[a].due < retries[b].due)
      && (i < |steps| && steps[i].Claim? && id in steps[i].ids ==>
            && (retries != [] ==> retries[|retries| - 1].due <= steps[i].now)
            && (cfg.base >= 0 ==> forall k :: 0 <= k < |retries| ==>
                  steps[i].now >= retries[k].at + RetryDelay(cfg.base, k)))
  {
    var retries := states[i].ledger[id].retries;
    RetriesAreSpaced(cfg, states, steps, i, id);
    forall a, b | cfg.base >= 0 && 0 <= a < b < |retries|
      ensures retries[a].due <= retries[b].due && (cfg.base > 0 ==> retries[a].due < retries[b].due)
    {
      SpacedPair(cfg.base, retries, a, b);
    }
    if i < |steps| && steps[i].Claim? && id in steps[i].ids { ClaimIsDue(cfg, states, steps, i, id); }
  }

  lemma RetriesAreSpaced(cfg: Config, states: seq<World>, steps: seq<Step>, i: nat, id: string)
    requires IsRun(cfg, states, steps) && i < |states| && id in states[i].ledger
    ensures Spaced(cfg.base, states[i].ledger[id].retries)
  {
    RunKeeps(cfg, states, steps, i);
    var s := states[i];
    if id in s.rows { assert RowOk(cfg, s.rows[id], s.ledger[id]); } else { assert PurgedOk(cfg, s.ledger[id]); }
  }

  lemma ClaimIsDue(cfg: Config, states: seq<World>, steps: seq<Step>, i: nat, id: string)
    requires IsRun(cfg, states, steps) && i < |steps| && steps[i].Claim? && id in steps[i].ids
    ensures id in states[i].ledger
    ensures var retries := states[i].ledger[id].retries; retries != [] ==> retries[|retries| - 1].due <= steps[i].now
  {
    RunKeeps(cfg, states, steps, i);
    assert IsStep(cfg, states[i], steps[i], states[i + 1]);
    assert id in ReadyIds(states[i].rows, steps[i].now);
    assert RowOk(cfg, states[i].rows[id], states[i].ledger[id]);
  }

  lemma {:induction false} SpacedPair(base: int, retries: seq<Retry>, a: nat, b: nat)
    requires base >= 0 && Spaced(base, retries) && a < b < |retries|
    ensures retries[a].due <= retries[b].due && (base > 0 ==> retries[a].due < retries[b].due)
    decreases b
  {
    DelayBetween(base, b);
    if a < b - 1 { SpacedPair(base, retries, a, b - 1); }
  }

  // ---------------------------------------------------------------- how many claims a run can make

  ghost function ClaimsOf(l: Ledger): map<string, nat> { map id | id in l :: l[id].claims }

  ghost function TotalClaims(l: Ledger): nat { Sum(ClaimsOf(l), l.Keys) }

  /** Event claims made by the steps of a run, counted one per event per batch. */
  function ClaimsMade(steps: seq<Step>): nat {
    if steps == [] then 0 else
    ClaimsMade(steps[..|steps| - 1]) + (if steps[|steps| - 1].Claim? then |steps[|steps| - 1].ids| else 0)
  }

  lemma CountingOne(l: Ledger, l': Ledger, x: string)
    requires x in l && l' == l[x := l[x].(claims := l[x].claims + 1)]
    ensures TotalClaims(l') == TotalClaims(l) + 1
  {
    var f, g := ClaimsOf(l), ClaimsOf(l');
    assert l'.Keys == l.Keys;
    SumRemove(f, l.Keys, x);
    SumRemove(g, l.Keys, x);
    SumAgrees(f, g, l.Keys - {x});
  }

  lemma {:induction false} CountingAddsOne(l: Ledger, ids: seq<string>)
    requires Distinct(ids) && forall id :: id in ids ==> id in l
    ensures TotalClaims(CountClaims(l, ids)) == TotalClaims(l) + |ids|
    decreases |ids|
  {
    if ids == [] {
      assert CountClaims(l, ids) == l;
    } else {
      var n := |ids| - 1;
      var front, x := ids[..n], ids[n];
      assert ids == front + [x];
      CountingAddsOne(l, front);
      CountingOne(CountClaims(l, front), CountClaims(l, ids), x);
    }
  }

  lemma ClaimsStep(cfg: Config, s: World, step: Step)
    requires Inv(cfg, s) && Enabled(cfg, s, step)
    ensures TotalClaims(Apply(cfg, s, step).ledger) ==
            TotalClaims(s.ledger) + (if step.Claim? then |step.ids| else 0)
  {
    if step.Enqueue? {
      EnqueueClaimsNothing(s.ledger, step.event.eventId, Entry(step.event, step.signature, 0, 0, 0, []));
    } else if step.Claim? {
      forall id | id in step.ids ensures id in s.ledger { assert id in ReadyIds(s.rows, step.now); }
      CountingAddsOne(s.ledger, step.ids);
    } else {
      OtherStepsClaimNothing(cfg, s, step);
    }
  }

  lemma EnqueueClaimsNothing(l: Ledger, id: string, e: Entry)
    requires id !in l && e.claims == 0
    ensures TotalClaims(l[id := e]) == TotalClaims(l)
  {
    var l' := l[id := e];
    SumRemove(ClaimsOf(l'), l'.Keys, id);
    SumAgrees(ClaimsOf(l'), ClaimsOf(l), l.Keys);
    assert l'.Keys - {id} == l.Keys;
  }

  lemma OtherStepsClaimNothing(cfg: Config, s: World, step: Step)
    requires Enabled(cfg, s, step) && !step.Enqueue? && !step.Claim?
    ensures ClaimsOf(Apply(cfg, s, step).ledger) == ClaimsOf(s.ledger)
    ensures Apply(cfg, s, step).ledger.Keys == s.ledger.Keys
  {
  }

  lemma {:induction false} ClaimsAreCounted(cfg: Config, states: seq<World>, steps: seq<Step>, i: nat)
    requires IsRun(cfg, states, steps) && i <= |steps|
    ensures TotalClaims(states[i].ledger) == ClaimsMade(steps[..i])
    decreases i
  {
    if i == 0 {
      assert ClaimsOf(Start.ledger) == map[];
    } else {
      ClaimsAreCounted(cfg, states, steps, i - 1);
      RunKeeps(cfg, states, steps, i - 1);
      assert IsStep(cfg, states[i - 1], steps[i - 1], states[i - 1 + 1]);
      ClaimsStep(cfg, states[i - 1], steps[i - 1]);
      assert steps[..i][..i - 1] == steps[..i - 1];
    }
  }

  /** A whole run claims at most (events enqueued) x (attempt cap) events in all batches together. */
  lemma ClaimsAreBounded(cfg: Config, states: seq<World>, steps: seq<Step>)
    requires IsRun(cfg, states, steps)
    ensures ClaimsMade(steps) <= Cap(cfg) * |states[|steps|].ledger|
  {
    var s := states[|steps|];
    ClaimsAreCounted(cfg, states, steps, |steps|);
    assert steps[..|steps|] == steps;
    forall id | id in s.ledger ensures s.ledger[id].claims <= Cap(cfg) {
      LedgerOfEveryRun(cfg, states, steps, |steps|, id);
    }
    SumBound(ClaimsOf(s.ledger), s.ledger.Keys, Cap(cfg));
  }
}
