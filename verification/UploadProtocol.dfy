/** Any number of runUploadOnce workers interleaved with enqueues, store faults and crashes
    (agent/Sources/VGAgentCore/AgentCore.swift:121-158). Every await is a step boundary and
    every queue call one atomic step on the table; a ledger records what a run has done. */
module UploadProtocol {
  import opened Basics
  import opened EventTable
  import Decimal

  datatype Config = Config(batchSize: int, base: int, maxAttempts: int)

  /** The attempt number at which markFailed gives up. */
  function Cap(cfg: Config): int { Max(1, cfg.maxAttempts) }

  /** Where a worker is between two awaits. `at` is the clock it read on entry. */
  datatype Worker =
    | Claimed(batch: seq<string>, at: int)
    | Uploading(batch: seq<string>, at: int)
    | Acked(batch: seq<string>)
    | Purging
    | Failing(batch: seq<string>, at: int, next: nat)

  /** A retry markFailed scheduled: the clock it was given and the time it wrote. */
  datatype Retry = Retry(at: int, due: int)

  /** What has happened to one event so far: what was enqueued; how often it was claimed, handed
      to the upload client, and in an upload the client saw succeed; and every retry scheduled. */
  datatype Entry = Entry(
    event: AuditEvent, signature: string, claims: nat, sends: nat, acks: nat, retries: seq<Retry>)

  type Ledger = map<string, Entry>

  datatype World = World(rows: Table, workers: map<int, Worker>, ledger: Ledger, purged: set<string>)

  datatype Step =
    | Enqueue(event: AuditEvent, signature: string)
    | StoreFault
    | Claim(w: int, now: int, ids: seq<string>)
    | BeginUpload(w: int)
    | UploadReturned(w: int)
    | UploadThrew(w: int)
    | CommitUploaded(w: int)
    | LoseUploaded(w: int)
    | CommitPurge(w: int)
    | LosePurge(w: int)
    | CommitFailed(w: int, error: string)
    | LoseFailed(w: int)
    | Finish(w: int)
    | Crash

  const Start := World(map[], map[], map[], {})

  function CountClaims(l: Ledger, ids: seq<string>): Ledger {
    map id | id in l :: if id in ids then l[id].(claims := l[id].claims + 1) else l[id]
  }

  function CountSends(l: Ledger, ids: seq<string>): Ledger {
    map id | id in l :: if id in ids then l[id].(sends := l[id].sends + 1) else l[id]
  }

  function CountAcks(l: Ledger, ids: seq<string>): Ledger {
    map id | id in l :: if id in ids then l[id].(acks := l[id].acks + 1) else l[id]
  }

  /** The table after a mark that may have changed nothing. */
  function RowsAfter(rows: Table, o: FailOutcome): Table { if o.Marked? then o.table else rows }

  /** When a step can happen. Event ids are never reused; a mark that would overflow Int64
      traps, which is a Crash. */
  ghost predicate Enabled(cfg: Config, s: World, step: Step) {
    match step
    case Enqueue(e, _) => e.eventId !in s.ledger && e.eventId !in s.rows
    case StoreFault => true
    case Claim(w, now, ids) => w !in s.workers && IsSelection(s.rows, cfg.batchSize, now, ids) && ids != []
    case BeginUpload(w) => w in s.workers && s.workers[w].Claimed?
    case UploadReturned(w) => w in s.workers && s.workers[w].Uploading?
    case UploadThrew(w) => w in s.workers && s.workers[w].Uploading?
    case CommitUploaded(w) => w in s.workers && s.workers[w].Acked?
    case LoseUploaded(w) => w in s.workers && s.workers[w].Acked?
    case CommitPurge(w) => w in s.workers && s.workers[w].Purging?
    case LosePurge(w) => w in s.workers && s.workers[w].Purging?
    case CommitFailed(w, error) => HasNext(s, w) && !FailNext(cfg, s, w, error).Trapped?
    case LoseFailed(w) => HasNext(s, w)
    case Finish(w) => w in s.workers && s.workers[w].Failing? && !HasNext(s, w)
    case Crash => true
  }

  predicate HasNext(s: World, w: int) {
    w in s.workers && s.workers[w].Failing? && s.workers[w].next < |s.workers[w].batch|
  }

  function FailNext(cfg: Config, s: World, w: int, error: string): FailOutcome
    requires HasNext(s, w)
  {
    var k := s.workers[w];
    MarkFailed(s.rows, k.batch[k.next], error, k.at, cfg.base, cfg.maxAttempts)
  }

  /** The ledger after a mark at clock `at`: a scheduled retry is written down. */
  function NoteFailure(l: Ledger, id: string, outcome: FailOutcome, at: int): Ledger {
    if outcome.Marked? && id in outcome.table && outcome.table[id].nextRetryAt.Some? && id in l then
      l[id := l[id].(retries := l[id].retries + [Retry(at, outcome.table[id].nextRetryAt.value)])]
    else l
  }

  ghost function Apply(cfg: Config, s: World, step: Step): World
    requires Enabled(cfg, s, step)
  {
    match step
    case Enqueue(e, signature) =>
      s.(rows := s.rows[e.eventId := FreshRow(e, signature)],
         ledger := s.ledger[e.eventId := Entry(e, signature, 0, 0, 0, [])])
    case StoreFault => s
    case Claim(w, now, ids) =>
      s.(rows := MarkInflight(s.rows, ids), workers := s.workers[w := Claimed(ids, now)],
         ledger := CountClaims(s.ledger, ids))
    case BeginUpload(w) =>
      var k := s.workers[w];
      s.(workers := s.workers[w := Uploading(k.batch, k.at)], ledger := CountSends(s.ledger, k.batch))
    case UploadReturned(w) =>
      var k := s.workers[w];
      s.(workers := s.workers[w := Acked(k.batch)], ledger := CountAcks(s.ledger, k.batch))
    case UploadThrew(w) =>
      var k := s.workers[w];
      s.(workers := s.workers[w := Failing(k.batch, k.at, 0)])
    case CommitUploaded(w) =>
      s.(workers := s.workers[w := Purging], rows := MarkUploaded(s.rows, s.workers[w].batch))
    case LoseUploaded(w) => s.(workers := s.workers[w := Purging])
    case CommitPurge(w) =>
      s.(workers := s.workers - {w}, rows := Purge(s.rows), purged := s.purged + WithStatus(s.rows, Uploaded))
    case LosePurge(w) => s.(workers := s.workers - {w})
    case CommitFailed(w, error) =>
      var k, outcome := s.workers[w], FailNext(cfg, s, w, error);
      s.(workers := s.workers[w := k.(next := k.next + 1)],
         rows := RowsAfter(s.rows, outcome),
         ledger := NoteFailure(s.ledger, k.batch[k.next], outcome, k.at))
    case LoseFailed(w) =>
      var k := s.workers[w];
      s.(workers := s.workers[w := k.(next := k.next + 1)])
    case Finish(w) => s.(workers := s.workers - {w})
    case Crash => s.(workers := map[])
  }

  /** A run: a sequence of states from an empty store, each the result of an enabled step. */
  ghost predicate IsRun(cfg: Config, states: seq<World>, steps: seq<Step>) {
    && |states| == |steps| + 1
    && states[0] == Start
    && forall i :: 0 <= i < |steps| ==> IsStep(cfg, states[i], steps[i], states[i + 1])
  }

  ghost predicate IsStep(cfg: Config, s: World, step: Step, s': World) {
    Enabled(cfg, s, step) && s' == Apply(cfg, s, step)
  }

  // ---------------------------------------------------------------- the invariant

  /** The ids a worker has claimed and not yet marked. */
  function Unmarked(k: Worker): seq<string> {
    match k
    case Purging => []
    case Failing(batch, _, next) => if next <= |batch| then batch[next..] else []
    case _ => k.batch
  }

  /** The k-th retry is due a full (doubling, then saturated) delay after the clock of the failure,
      and no failure after the first came before the retry then scheduled was due. */
  ghost predicate Spaced(base: int, retries: seq<Retry>) {
    && (forall k :: 0 <= k < |retries| ==> retries[k].due == retries[k].at + RetryDelay(base, k))
    && (forall k :: 1 <= k < |retries| ==> retries[k - 1].due <= retries[k].at)
  }

  /** The row still holds what was enqueued. */
  predicate Carries(r: Row, e: Entry) {
    && r.kind == e.event.kind && r.payload == e.event.payload && r.signature == e.signature
    && r.createdAt == Decimal.Print(e.event.timestampMs)
  }

  ghost predicate RowOk(cfg: Config, r: Row, e: Entry) {
    && 0 <= r.attempts <= Cap(cfg)
    && (r.status.Dead? <==> r.attempts == Cap(cfg))
    && e.claims == r.attempts + (if r.status.Inflight? || r.status.Uploaded? then 1 else 0)
    && e.sends <= e.claims
    && e.acks <= 1
    && (r.status.Uploaded? ==> e.acks == 1)
    && (r.status.Pending? || r.status.Failed? || r.status.Dead? ==> e.acks == 0)
    && |e.retries| == (if r.status.Dead? then r.attempts - 1 else r.attempts)
    && (!r.status.Dead? ==> r.nextRetryAt == if e.retries == [] then None else Some(e.retries[|e.retries| - 1].due))
    && Spaced(cfg.base, e.retries)
    && (r.status.Pending? ==> r.attempts == 0)
    && Carries(r, e)
  }

  ghost predicate PurgedOk(cfg: Config, e: Entry) {
    && e.acks == 1
    && 1 <= e.claims <= Cap(cfg)
    && e.sends <= e.claims
    && Spaced(cfg.base, e.retries)
  }

  /** What holds of one event a worker still has to mark. */
  predicate HeldOk(k: Worker, r: Row, e: Entry) {
    && r.status.Inflight?
    && e.acks == (if k.Acked? then 1 else 0)
    && (k.Claimed? ==> e.sends < e.claims)
    && (k.Claimed? || k.Uploading? || k.Failing? ==> r.nextRetryAt.None? || r.nextRetryAt.value <= k.at)
  }

  ghost predicate WorkerOk(rows: Table, l: Ledger, k: Worker) {
    && (!k.Purging? ==> Distinct(k.batch))
    && forall id :: id in Unmarked(k) ==> id in rows && id in l && HeldOk(k, rows[id], l[id])
  }

  ghost predicate DisjointWorkers(workers: map<int, Worker>) {
    forall v, w, id :: v in workers && w in workers && id in Unmarked(workers[v]) && id in Unmarked(workers[w]) ==>
      v == w
  }

  ghost predicate RowsOk(cfg: Config, rows: Table, l: Ledger) {
    forall id :: id in rows ==> id in l && RowOk(cfg, rows[id], l[id])
  }

  ghost predicate AllPurgedOk(cfg: Config, purged: set<string>, l: Ledger) {
    forall id :: id in purged ==> id in l && PurgedOk(cfg, l[id])
  }

  ghost predicate WorkersOk(rows: Table, l: Ledger, workers: map<int, Worker>) {
    forall w :: w in workers ==> WorkerOk(rows, l, workers[w])
  }

  ghost predicate KeysOk(s: World) {
    s.ledger.Keys == s.rows.Keys + s.purged && s.rows.Keys !! s.purged
  }

  ghost predicate Inv(cfg: Config, s: World) {
    && KeysOk(s)
    && RowsOk(cfg, s.rows, s.ledger)
    && AllPurgedOk(cfg, s.purged, s.ledger)
    && WorkersOk(s.rows, s.ledger, s.workers)
    && DisjointWorkers(s.workers)
  }

  // ---------------------------------------------------------------- frames

  /** The rows and entries of the ids a worker holds are as they were. */
  ghost predicate HeldUntouched(rows: Table, l: Ledger, rows': Table, l': Ledger, k: Worker) {
    forall id :: id in Unmarked(k) ==>
      && id in rows && id in rows' && rows'[id] == rows[id]
      && id in l && id in l' && l'[id] == l[id]
  }

  /** A worker's claim survives any change that leaves its unmarked rows alone. */
  lemma WorkerFrame(rows: Table, l: Ledger, rows': Table, l': Ledger, k: Worker)
    requires WorkerOk(rows, l, k) && HeldUntouched(rows, l, rows', l', k)
    ensures WorkerOk(rows', l', k)
  {
  }

  /** The other workers survive a change that touches only ids they do not hold. */
  lemma WorkersFrame(rows: Table, l: Ledger, rows': Table, l': Ledger, workers: map<int, Worker>, w: int, k: Worker)
    requires WorkersOk(rows, l, workers) && WorkerOk(rows', l', k)
    requires forall v :: v in workers && v != w ==> HeldUntouched(rows, l, rows', l', workers[v])
    ensures WorkersOk(rows', l', workers[w := k])
  {
    forall v | v in workers && v != w ensures WorkerOk(rows', l', workers[v]) {
      WorkerFrame(rows, l, rows', l', workers[v]);
    }
  }

  /** What no other worker holds may change: rows and entries of ids held by worker w. */
  lemma OthersUntouched(rows: Table, l: Ledger, rows': Table, l': Ledger, workers: map<int, Worker>, w: int)
    requires WorkersOk(rows, l, workers) && DisjointWorkers(workers) && w in workers
    requires rows'.Keys == rows.Keys && l'.Keys == l.Keys
    requires forall id :: id in rows && id !in Unmarked(workers[w]) ==> rows'[id] == rows[id]
    requires forall id :: id in l && id !in Unmarked(workers[w]) ==> l'[id] == l[id]
    ensures forall v :: v in workers && v != w ==> HeldUntouched(rows, l, rows', l', workers[v])
  {
    forall v | v in workers && v != w ensures HeldUntouched(rows, l, rows', l', workers[v]) {
      assert WorkerOk(rows, l, workers[v]);
    }
  }

  /** Replacing worker w by one that holds no more keeps the claims disjoint. */
  lemma DisjointFrame(workers: map<int, Worker>, w: int, k: Worker)
    requires DisjointWorkers(workers) && w in workers
    requires forall id :: id in Unmarked(k) ==> id in Unmarked(workers[w])
    ensures DisjointWorkers(workers[w := k])
  {
  }

  /** Purged events keep their entries when only held ones change: held ids are in the table. */
  lemma PurgedFrame(cfg: Config, s: World, l': Ledger, w: int)
    requires KeysOk(s) && AllPurgedOk(cfg, s.purged, s.ledger) && w in s.workers
    requires WorkerOk(s.rows, s.ledger, s.workers[w]) && l'.Keys == s.ledger.Keys
    requires forall id :: id in s.ledger && id !in Unmarked(s.workers[w]) ==> l'[id] == s.ledger[id]
    ensures AllPurgedOk(cfg, s.purged, l')
  {
    forall id | id in s.purged ensures id in l' && l'[id] == s.ledger[id] {
      assert id !in s.rows;
    }
  }

  // ---------------------------------------------------------------- preservation, step by step

  lemma EnqueuedRows(cfg: Config, rows: Table, l: Ledger, e: AuditEvent, signature: string)
    requires RowsOk(cfg, rows, l)
    ensures RowsOk(cfg, rows[e.eventId := FreshRow(e, signature)], l[e.eventId := Entry(e, signature, 0, 0, 0, [])])
  {
  }

  lemma EnqueuedWorkers(rows: Table, l: Ledger, workers: map<int, Worker>, id: string, r: Row, e: Entry)
    requires WorkersOk(rows, l, workers) && id !in rows
    ensures WorkersOk(rows[id := r], l[id := e], workers)
  {
    forall w | w in workers ensures WorkerOk(rows[id := r], l[id := e], workers[w]) {
      assert WorkerOk(rows, l, workers[w]);
      WorkerFrame(rows, l, rows[id := r], l[id := e], workers[w]);
    }
  }

  lemma EnqueueKeeps(cfg: Config, s: World, e: AuditEvent, signature: string)
    requires Inv(cfg, s) && e.eventId !in s.ledger && e.eventId !in s.rows
    ensures Inv(cfg, Apply(cfg, s, Enqueue(e, signature)))
  {
    EnqueuedRows(cfg, s.rows, s.ledger, e, signature);
    EnqueuedWorkers(s.rows, s.ledger, s.workers, e.eventId, FreshRow(e, signature), Entry(e, signature, 0, 0, 0, []));
  }

  lemma ClaimedRow(cfg: Config, r: Row, e: Entry, ids: seq<string>, now: int)
    requires RowOk(cfg, r, e) && Ready(r, now)
    ensures var r', e' := r.(status := Inflight), e.(claims := e.claims + 1);
      RowOk(cfg, r', e') && HeldOk(Claimed(ids, now), r', e')
  {
  }

  /** A claim takes ready rows and turns each into a row its worker holds. */
  lemma ClaimRows(cfg: Config, rows: Table, l: Ledger, now: int, ids: seq<string>)
    requires RowsOk(cfg, rows, l) && Distinct(ids) && forall id :: id in ids ==> id in rows && Ready(rows[id], now)
    ensures RowsOk(cfg, MarkInflight(rows, ids), CountClaims(l, ids))
    ensures WorkerOk(MarkInflight(rows, ids), CountClaims(l, ids), Claimed(ids, now))
  {
    var rows', l', k := MarkInflight(rows, ids), CountClaims(l, ids), Claimed(ids, now);
    forall id | id in rows'
      ensures id in l' && RowOk(cfg, rows'[id], l'[id]) && (id in ids ==> HeldOk(k, rows'[id], l'[id]))
    {
      assert RowOk(cfg, rows[id], l[id]);
      if id in ids { ClaimedRow(cfg, rows[id], l[id], ids, now); }
    }
  }

  /** No worker holds a ready row: held rows are inflight. */
  lemma ReadyIsNotHeld(rows: Table, l: Ledger, workers: map<int, Worker>, now: int, ids: seq<string>)
    requires WorkersOk(rows, l, workers) && forall id :: id in ids ==> id in rows && Ready(rows[id], now)
    ensures forall v :: v in workers ==>
      HeldUntouched(rows, l, MarkInflight(rows, ids), CountClaims(l, ids), workers[v])
    ensures forall v, id :: v in workers && id in Unmarked(workers[v]) ==> id !in ids
  {
    forall v, id | v in workers && id in Unmarked(workers[v]) ensures id in rows && id in l && id !in ids {
      assert WorkerOk(rows, l, workers[v]);
    }
  }

  lemma ClaimPurged(cfg: Config, s: World, ids: seq<string>)
    requires KeysOk(s) && AllPurgedOk(cfg, s.purged, s.ledger) && forall id :: id in ids ==> id in s.rows
    ensures AllPurgedOk(cfg, s.purged, CountClaims(s.ledger, ids))
  {
    forall id | id in s.purged ensures id in s.ledger && id !in ids { assert id !in s.rows; }
  }

  lemma ClaimKeeps(cfg: Config, s: World, w: int, now: int, ids: seq<string>)
    requires Inv(cfg, s) && w !in s.workers && IsSelection(s.rows, cfg.batchSize, now, ids)
    ensures Inv(cfg, s.(rows := MarkInflight(s.rows, ids), workers := s.workers[w := Claimed(ids, now)],
                        ledger := CountClaims(s.ledger, ids)))
  {
    var rows', l' := MarkInflight(s.rows, ids), CountClaims(s.ledger, ids);
    forall id | id in ids ensures id in s.rows && Ready(s.rows[id], now) { assert id in ReadyIds(s.rows, now); }
    ClaimRows(cfg, s.rows, s.ledger, now, ids);
    ReadyIsNotHeld(s.rows, s.ledger, s.workers, now, ids);
    ClaimPurged(cfg, s, ids);
    WorkersFrame(s.rows, s.ledger, rows', l', s.workers, w, Claimed(ids, now));
    assert rows'.Keys == s.rows.Keys && l'.Keys == s.ledger.Keys;
  }

  /** Worker w moves to phase k, holding no more than before, and only held entries change. */
  lemma WorkerMoveKeeps(cfg: Config, s: World, w: int, k: Worker, l': Ledger)
    requires Inv(cfg, s) && w in s.workers && l'.Keys == s.ledger.Keys
    requires forall id :: id in s.ledger && id !in Unmarked(s.workers[w]) ==> l'[id] == s.ledger[id]
    requires forall id :: id in Unmarked(k) ==> id in Unmarked(s.workers[w])
    requires WorkerOk(s.rows, l', k) && RowsOk(cfg, s.rows, l')
    ensures Inv(cfg, s.(workers := s.workers[w := k], ledger := l'))
  {
    assert WorkerOk(s.rows, s.ledger, s.workers[w]);
    OthersUntouched(s.rows, s.ledger, s.rows, l', s.workers, w);
    WorkersFrame(s.rows, s.ledger, s.rows, l', s.workers, w, k);
    DisjointFrame(s.workers, w, k);
    PurgedFrame(cfg, s, l', w);
  }

  lemma CountedRow(cfg: Config, k: Worker, r: Row, e: Entry)
    requires RowOk(cfg, r, e) && HeldOk(k, r, e)
    ensures k.Claimed? ==> RowOk(cfg, r, e.(sends := e.sends + 1))
    ensures k.Uploading? ==> RowOk(cfg, r, e.(acks := e.acks + 1))
  {
  }

  /** Counting a send of a claimed batch, or an acknowledgement of an upload. */
  lemma CountedRows(cfg: Config, rows: Table, l: Ledger, k: Worker)
    requires RowsOk(cfg, rows, l) && WorkerOk(rows, l, k)
    ensures k.Claimed? ==> RowsOk(cfg, rows, CountSends(l, k.batch))
    ensures k.Uploading? ==> RowsOk(cfg, rows, CountAcks(l, k.batch))
  {
    forall id | id in rows && id in Unmarked(k)
      ensures k.Claimed? ==> RowOk(cfg, rows[id], l[id].(sends := l[id].sends + 1))
      ensures k.Uploading? ==> RowOk(cfg, rows[id], l[id].(acks := l[id].acks + 1))
    {
      CountedRow(cfg, k, rows[id], l[id]);
    }
  }

  lemma CountedWorker(rows: Table, l: Ledger, k: Worker)
    requires WorkerOk(rows, l, k)
    ensures k.Claimed? ==> WorkerOk(rows, CountSends(l, k.batch), Uploading(k.batch, k.at))
    ensures k.Uploading? ==> WorkerOk(rows, CountAcks(l, k.batch), Acked(k.batch))
  {
  }

  lemma BeginUploadKeeps(cfg: Config, s: World, w: int)
    requires Inv(cfg, s) && w in s.workers && s.workers[w].Claimed?
    ensures var k := s.workers[w];
      Inv(cfg, s.(workers := s.workers[w := Uploading(k.batch, k.at)], ledger := CountSends(s.ledger, k.batch)))
  {
    var k := s.workers[w];
    CountedRows(cfg, s.rows, s.ledger, k);
    CountedWorker(s.rows, s.ledger, k);
    WorkerMoveKeeps(cfg, s, w, Uploading(k.batch, k.at), CountSends(s.ledger, k.batch));
  }

  lemma UploadReturnedKeeps(cfg: Config, s: World, w: int)
    requires Inv(cfg, s) && w in s.workers && s.workers[w].Uploading?
    ensures var k := s.workers[w];
      Inv(cfg, s.(workers := s.workers[w := Acked(k.batch)], ledger := CountAcks(s.ledger, k.batch)))
  {
    var k := s.workers[w];
    CountedRows(cfg, s.rows, s.ledger, k);
    CountedWorker(s.rows, s.ledger, k);
    WorkerMoveKeeps(cfg, s, w, Acked(k.batch), CountAcks(s.ledger, k.batch));
  }

  /** Steps that only move worker w on: the upload threw, or a mark was lost. */
  lemma MovedKeeps(cfg: Config, s: World, w: int, k: Worker)
    requires Inv(cfg, s) && w in s.workers && MayMove(s.workers[w], k)
    ensures Inv(cfg, s.(workers := s.workers[w := k]))
  {
    assert WorkerOk(s.rows, s.ledger, s.workers[w]);
    MovedIsOk(s.rows, s.ledger, s.workers[w], k);
    WorkerMoveKeeps(cfg, s, w, k, s.ledger);
  }

  predicate MayMove(k: Worker, k': Worker) {
    || (k.Uploading? && k' == Failing(k.batch, k.at, 0))
    || (k.Acked? && k' == Purging)
    || (k.Failing? && k.next < |k.batch| && k' == MovedOn(k))
  }

  lemma MovedIsOk(rows: Table, l: Ledger, k: Worker, k': Worker)
    requires WorkerOk(rows, l, k) && MayMove(k, k')
    ensures WorkerOk(rows, l, k') && forall id :: id in Unmarked(k') ==> id in Unmarked(k)
  {
    if k.Failing? { FailingMovesOn(rows, l, k); }
  }

  /** Removing workers never breaks anything: their rows just stay inflight. */
  lemma DropKeeps(cfg: Config, s: World, gone: set<int>)
    requires Inv(cfg, s)
    ensures Inv(cfg, s.(workers := s.workers - gone))
  {
  }

  lemma UploadedRows(cfg: Config, rows: Table, l: Ledger, k: Worker)
    requires RowsOk(cfg, rows, l) && WorkerOk(rows, l, k) && k.Acked?
    ensures RowsOk(cfg, MarkUploaded(rows, k.batch), l)
  {
    var rows' := MarkUploaded(rows, k.batch);
    forall id | id in rows' ensures id in l && RowOk(cfg, rows'[id], l[id]) {
      assert RowOk(cfg, rows[id], l[id]);
      if id in k.batch { assert HeldOk(k, rows[id], l[id]); }
    }
  }

  lemma CommitUploadedKeeps(cfg: Config, s: World, w: int)
    requires Inv(cfg, s) && w in s.workers && s.workers[w].Acked?
    ensures Inv(cfg, s.(workers := s.workers[w := Purging], rows := MarkUploaded(s.rows, s.workers[w].batch)))
  {
    var rows' := MarkUploaded(s.rows, s.workers[w].batch);
    UploadedRows(cfg, s.rows, s.ledger, s.workers[w]);
    OthersUntouched(s.rows, s.ledger, rows', s.ledger, s.workers, w);
    WorkersFrame(s.rows, s.ledger, rows', s.ledger, s.workers, w, Purging);
    DisjointFrame(s.workers, w, Purging);
    assert rows'.Keys == s.rows.Keys;
  }

  /** A purge takes only uploaded rows, which no worker holds and which were acknowledged. */
  lemma PurgeKeeps(cfg: Config, s: World)
    requires Inv(cfg, s)
    ensures Inv(cfg, s.(rows := Purge(s.rows), purged := s.purged + WithStatus(s.rows, Uploaded)))
  {
    var rows', purged' := Purge(s.rows), s.purged + WithStatus(s.rows, Uploaded);
    forall v | v in s.workers ensures WorkerOk(rows', s.ledger, s.workers[v]) {
      assert WorkerOk(s.rows, s.ledger, s.workers[v]);
      WorkerFrame(s.rows, s.ledger, rows', s.ledger, s.workers[v]);
    }
    forall id | id in purged' ensures id in s.ledger && PurgedOk(cfg, s.ledger[id]) {
      if id in s.rows { assert RowOk(cfg, s.rows[id], s.ledger[id]); }
    }
    assert s.rows.Keys == rows'.Keys + WithStatus(s.rows, Uploaded);
  }

  lemma SpacedNext(base: int, retries: seq<Retry>, at: int)
    requires Spaced(base, retries) && (retries == [] || retries[|retries| - 1].due <= at)
    ensures Spaced(base, retries + [Retry(at, at + RetryDelay(base, |retries|))])
  {
  }

  /** One mark on one inflight row: it changes that row and its entry only, and the next retry comes
      a full delay after the clock of the failure. */
  lemma FailureOnRow(cfg: Config, t: Table, l: Ledger, id: string, error: string, at: int)
    requires id in t && id in l && RowOk(cfg, t[id], l[id]) && t[id].status.Inflight? && l[id].acks == 0
    requires t[id].nextRetryAt.None? || t[id].nextRetryAt.value <= at
    requires !MarkFailed(t, id, error, at, cfg.base, cfg.maxAttempts).Trapped?
    ensures var o := MarkFailed(t, id, error, at, cfg.base, cfg.maxAttempts);
      var t', l' := RowsAfter(t, o), NoteFailure(l, id, o, at);
      && id in t' && id in l' && RowOk(cfg, t'[id], l'[id])
      && t' == t[id := t'[id]] && l' == l[id := l'[id]]
  {
    var o := MarkFailed(t, id, error, at, cfg.base, cfg.maxAttempts);
    assert o.Marked?;
    if o.status.Failed? { SpacedNext(cfg.base, l[id].retries, at); }
  }

  function MovedOn(k: Worker): Worker
    requires k.Failing?
  {
    k.(next := k.next + 1)
  }

  /** The worker moves past the marked id and holds the rest as before. */
  lemma FailingMovesOn(rows: Table, l: Ledger, k: Worker)
    requires k.Failing? && k.next < |k.batch| && WorkerOk(rows, l, k)
    ensures var id := k.batch[k.next];
      && id in Unmarked(k) && id !in Unmarked(MovedOn(k))
      && (forall j :: j in Unmarked(MovedOn(k)) ==> j in Unmarked(k))
      && WorkerOk(rows, l, MovedOn(k))
  {
    assert k.batch[k.next..] == [k.batch[k.next]] + k.batch[k.next + 1..];
  }

  /** Worker w marks its next id, changing only that row and entry. */
  lemma MarkOneKeeps(cfg: Config, s: World, w: int, id: string, r: Row, e: Entry)
    requires Inv(cfg, s) && HasNext(s, w) && id == s.workers[w].batch[s.workers[w].next] && id in s.rows
    requires RowOk(cfg, r, e)
    ensures Inv(cfg, s.(rows := s.rows[id := r], ledger := s.ledger[id := e],
                        workers := s.workers[w := MovedOn(s.workers[w])]))
  {
    var k, rows', l' := s.workers[w], s.rows[id := r], s.ledger[id := e];
    assert WorkerOk(s.rows, s.ledger, k);
    FailingMovesOn(s.rows, s.ledger, k);
    assert id in s.ledger;
    WorkerFrame(s.rows, s.ledger, rows', l', MovedOn(k));
    OthersUntouched(s.rows, s.ledger, rows', l', s.workers, w);
    WorkersFrame(s.rows, s.ledger, rows', l', s.workers, w, MovedOn(k));
    DisjointFrame(s.workers, w, MovedOn(k));
    PurgedFrame(cfg, s, l', w);
  }

  lemma NextIsHeld(cfg: Config, s: World, w: int)
    requires RowsOk(cfg, s.rows, s.ledger) && WorkersOk(s.rows, s.ledger, s.workers) && HasNext(s, w)
    ensures var k := s.workers[w]; var id := k.batch[k.next];
      && id in s.rows && id in s.ledger && RowOk(cfg, s.rows[id], s.ledger[id]) && HeldOk(k, s.rows[id], s.ledger[id])
  {
    assert WorkerOk(s.rows, s.ledger, s.workers[w]);
    FailingMovesOn(s.rows, s.ledger, s.workers[w]);
  }

  /** The row and entry a committed failure leaves, in terms of the step's result. */
  lemma CommitFailedEffect(cfg: Config, s: World, w: int, error: string) returns (id: string, r: Row, e: Entry)
    requires RowsOk(cfg, s.rows, s.ledger) && WorkersOk(s.rows, s.ledger, s.workers)
    requires HasNext(s, w) && !FailNext(cfg, s, w, error).Trapped?
    ensures id == s.workers[w].batch[s.workers[w].next] && id in s.rows && RowOk(cfg, r, e)
    ensures Apply(cfg, s, CommitFailed(w, error)) ==
      s.(rows := s.rows[id := r], ledger := s.ledger[id := e], workers := s.workers[w := MovedOn(s.workers[w])])
  {
    NextIsHeld(cfg, s, w);
    var k, o := s.workers[w], FailNext(cfg, s, w, error);
    id := k.batch[k.next];
    FailureOnRow(cfg, s.rows, s.ledger, id, error, k.at);
    r, e := RowsAfter(s.rows, o)[id], NoteFailure(s.ledger, id, o, k.at)[id];
    CommitFailedShape(cfg, s, w, error, o, r, e);
  }

  lemma CommitFailedShape(cfg: Config, s: World, w: int, error: string, o: FailOutcome, r: Row, e: Entry)
    requires HasNext(s, w) && o == FailNext(cfg, s, w, error) && !o.Trapped?
    requires var k := s.workers[w]; var id := k.batch[k.next];
      RowsAfter(s.rows, o) == s.rows[id := r] && NoteFailure(s.ledger, id, o, k.at) == s.ledger[id := e]
    ensures var id := s.workers[w].batch[s.workers[w].next];
      Apply(cfg, s, CommitFailed(w, error)) ==
      s.(rows := s.rows[id := r], ledger := s.ledger[id := e], workers := s.workers[w := MovedOn(s.workers[w])])
  {
  }

  lemma CommitFailedKeeps(cfg: Config, s: World, w: int, error: string)
    requires Inv(cfg, s) && HasNext(s, w) && !FailNext(cfg, s, w, error).Trapped?
    ensures Inv(cfg, Apply(cfg, s, CommitFailed(w, error)))
  {
    var id, r, e := CommitFailedEffect(cfg, s, w, error);
    MarkOneKeeps(cfg, s, w, id, r, e);
  }

  lemma StepKeeps(cfg: Config, s: World, step: Step)
    requires Inv(cfg, s) && Enabled(cfg, s, step)
    ensures Inv(cfg, Apply(cfg, s, step))
  {
    match step
    case Enqueue(e, signature) => EnqueueKeeps(cfg, s, e, signature);
    case StoreFault =>
    case Claim(w, now, ids) => ClaimKeeps(cfg, s, w, now, ids);
    case CommitUploaded(w) => CommitUploadedKeeps(cfg, s, w);
    case CommitPurge(w) =>
      DropKeeps(cfg, s, {w});
      PurgeKeeps(cfg, s.(workers := s.workers - {w}));
    case CommitFailed(w, error) => CommitFailedKeeps(cfg, s, w, error);
    case LosePurge(w) => DropKeeps(cfg, s, {w});
    case Finish(w) => DropKeeps(cfg, s, {w});
    case Crash =>
      DropKeeps(cfg, s, s.workers.Keys);
      assert s.workers - s.workers.Keys == map[];
    case BeginUpload(w) => BeginUploadKeeps(cfg, s, w);
    case UploadReturned(w) => UploadReturnedKeeps(cfg, s, w);
    case UploadThrew(w) => MovedKeeps(cfg, s, w, Failing(s.workers[w].batch, s.workers[w].at, 0));
    case LoseUploaded(w) => MovedKeeps(cfg, s, w, Purging);
    case LoseFailed(w) => MovedKeeps(cfg, s, w, MovedOn(s.workers[w]));
  }

  lemma {:induction false} RunKeeps(cfg: Config, states: seq<World>, steps: seq<Step>, i: nat)
    requires IsRun(cfg, states, steps) && i < |states|
    ensures Inv(cfg, states[i])
  {
    if i == 0 {
    } else {
      RunKeeps(cfg, states, steps, i - 1);
      assert IsStep(cfg, states[i - 1], steps[i - 1], states[i - 1 + 1]);
      StepKeeps(cfg, states[i - 1], steps[i - 1]);
    }
  }
}
