/** The audit_events table and what each queue call does to it
    (agent/Sources/VGEventQueue/EventQueue.swift, Schema.swift). */
module EventTable {
  import opened Basics
  import opened TextOrder
  import Decimal

  datatype Status = Pending | Inflight | Uploaded | Failed | Dead

  datatype Row = Row(
    kind: string, createdAt: string, payload: seq<byte>, signature: string,
    status: Status, attempts: int, nextRetryAt: Option<int>, lastError: Option<string>)

  type Table = map<string, Row>

  datatype AuditEvent = AuditEvent(eventId: string, kind: string, timestampMs: int, payload: seq<byte>)

  datatype QueuedEvent = QueuedEvent(
    eventId: string, kind: string, createdAt: string, payload: seq<byte>, signature: string)

  const INT64_MIN := -0x8000_0000_0000_0000
  const INT64_MAX := 0x7FFF_FFFF_FFFF_FFFF

  predicate FitsInt64(x: int) { INT64_MIN <= x <= INT64_MAX }

  function FreshRow(e: AuditEvent, signature: string): Row {
    Row(e.kind, Decimal.Print(e.timestampMs), e.payload, signature, Pending, 0, None, None)
  }

  predicate Ready(r: Row, now: int) {
    (r.status.Pending? || r.status.Failed?) && (r.nextRetryAt.None? || r.nextRetryAt.value <= now)
  }

  function ReadyIds(t: Table, now: int): set<string> {
    set id | id in t && Ready(t[id], now)
  }

  /** How many rows LIMIT lets through; SQLite reads a negative LIMIT as no limit. */
  function LimitedCount(limit: int, available: nat): nat {
    if limit < 0 then available else Min(limit, available)
  }

  /** What the SELECT of claimBatch may return: ready rows, none twice, in created_at text
      order with ties in any order, as many as LIMIT allows, and none left behind that sorts
      before one taken. */
  ghost predicate IsSelection(t: Table, limit: int, now: int, ids: seq<string>) {
    && Distinct(ids)
    && (forall i :: 0 <= i < |ids| ==> ids[i] in ReadyIds(t, now))
    && |ids| == LimitedCount(limit, |ReadyIds(t, now)|)
    && (forall i, j :: 0 <= i < j < |ids| ==> !TextLess(t[ids[j]].createdAt, t[ids[i]].createdAt))
    && (forall i, u :: 0 <= i < |ids| && u in ReadyIds(t, now) && u !in ids ==>
          !TextLess(t[u].createdAt, t[ids[i]].createdAt))
  }

  predicate SortsFirst(t: Table, left: set<string>, c: string)
    requires left <= t.Keys && c in t
  {
    forall k :: k in left ==> !TextLess(t[k].createdAt, t[c].createdAt)
  }

  lemma FirstExists(t: Table, left: set<string>)
    requires left != {} && left <= t.Keys
    ensures exists c :: c in left && SortsFirst(t, left, c)
  {
    var text := map id | id in t :: t[id].createdAt;
    var m := MinimalExists(left, text);
    assert SortsFirst(t, left, m);
  }

  /** The state of an ORDER BY scan: ids taken so far, ready ids still left. */
  ghost predicate IsPartialSelection(t: Table, now: int, ids: seq<string>, left: set<string>) {
    && left <= ReadyIds(t, now)
    && Distinct(ids)
    && (forall i :: 0 <= i < |ids| ==> ids[i] in ReadyIds(t, now) && ids[i] !in left)
    && (forall u :: u in ReadyIds(t, now) && u !in left ==> u in ids)
    && |ids| + |left| == |ReadyIds(t, now)|
    && (forall i, j :: 0 <= i < j < |ids| ==> !TextLess(t[ids[j]].createdAt, t[ids[i]].createdAt))
    && (forall i, u :: 0 <= i < |ids| && u in left ==> !TextLess(t[u].createdAt, t[ids[i]].createdAt))
  }

  lemma SelectNext(t: Table, now: int, ids: seq<string>, left: set<string>, c: string)
    requires IsPartialSelection(t, now, ids, left)
    requires c in left && SortsFirst(t, left, c)
    ensures IsPartialSelection(t, now, ids + [c], left - {c})
  {
  }

  function IdsOf(events: seq<QueuedEvent>): (ids: seq<string>)
    ensures |ids| == |events|
    ensures forall i :: 0 <= i < |ids| ==> ids[i] == events[i].eventId
  {
    seq(|events|, i requires 0 <= i < |events| => events[i].eventId)
  }

  function AsQueued(id: string, r: Row): QueuedEvent {
    QueuedEvent(id, r.kind, r.createdAt, r.payload, r.signature)
  }

  function MarkInflight(t: Table, ids: seq<string>): Table {
    map id | id in t :: if id in ids then t[id].(status := Inflight) else t[id]
  }

  lemma SelectedArePresent(t: Table, limit: int, now: int, ids: seq<string>)
    requires IsSelection(t, limit, now, ids)
    ensures forall i :: 0 <= i < |ids| ==> ids[i] in t
  {
    assert forall i :: 0 <= i < |ids| ==> ids[i] in ReadyIds(t, now);
  }

  function QueuedRows(t: Table, ids: seq<string>): (events: seq<QueuedEvent>)
    requires forall i :: 0 <= i < |ids| ==> ids[i] in t
    ensures |events| == |ids|
    ensures forall i :: 0 <= i < |ids| ==> events[i] == AsQueued(ids[i], t[ids[i]])
  {
    seq(|ids|, i requires 0 <= i < |ids| => AsQueued(ids[i], t[ids[i]]))
  }

  lemma MarkInflightNext(t: Table, ids: seq<string>, i: nat)
    requires i < |ids| && ids[i] in t
    ensures var m := MarkInflight(t, ids[..i]);
            ids[i] in m && MarkInflight(t, ids[..i + 1]) == m[ids[i] := m[ids[i]].(status := Inflight)]
  {
    assert ids[..i + 1] == ids[..i] + [ids[i]];
  }

  /** UPDATE by primary key: ids that are not in the table change nothing. */
  function MarkUploaded(t: Table, ids: seq<string>): Table {
    map id | id in t :: if id in ids then t[id].(status := Uploaded, lastError := None) else t[id]
  }

  /** base x (1 << min(attempts, 16)): the wait after the (attempts+1)-th failure. Swift's
      shift by a negative amount shifts right, so it would give 0. */
  function RetryDelay(base: int, attempts: int): int {
    if attempts < 0 then 0 else base * Pow2(Min(attempts, 16))
  }

  /** Swift traps when the delay or its sum with the clock leaves Int64. */
  predicate DelayFits(now: int, base: int, attempts: int) {
    FitsInt64(RetryDelay(base, attempts)) && FitsInt64(now + RetryDelay(base, attempts))
  }

  datatype FailOutcome =
    | UnknownEvent
    | Trapped
    | Marked(table: Table, status: Status)

  /** Marking one more failure of this row would leave Int64: the new count, or the new retry time. */
  predicate Overflows(r: Row, now: int, base: int, maxAttempts: int) {
    || !FitsInt64(r.attempts + 1)
    || (r.attempts + 1 < maxAttempts && !DelayFits(now, base, r.attempts))
  }

  /** The row after one more failure: dead at the cap, waiting otherwise. */
  function FailedRow(r: Row, error: string, now: int, base: int, maxAttempts: int): Row {
    var r' := r.(attempts := r.attempts + 1, lastError := Some(error));
    if r.attempts + 1 >= maxAttempts then r'.(status := Dead, nextRetryAt := None)
    else r'.(status := Failed, nextRetryAt := Some(now + RetryDelay(base, r.attempts)))
  }

  function MarkFailed(t: Table, id: string, error: string, now: int, base: int, maxAttempts: int): FailOutcome {
    if id !in t then UnknownEvent
    else if Overflows(t[id], now, base, maxAttempts) then Trapped
    else
      var r := FailedRow(t[id], error, now, base, maxAttempts);
      Marked(t[id := r], r.status)
  }

  function Purge(t: Table): Table {
    map id | id in t && !t[id].status.Uploaded? :: t[id]
  }

  function WithStatus(t: Table, s: Status): set<string> {
    set id | id in t && t[id].status == s
  }

  /** Rows still owing an upload. */
  function Owing(t: Table): set<string> {
    set id | id in t && (t[id].status.Pending? || t[id].status.Inflight? || t[id].status.Failed?)
  }

  /** The table is split by status, so its size is the queue depth plus the finished rows. */
  lemma TableSize(t: Table)
    ensures |t| == |Owing(t)| + |WithStatus(t, Dead)| + |WithStatus(t, Uploaded)|
  {
    var o, d, u := Owing(t), WithStatus(t, Dead), WithStatus(t, Uploaded);
    assert t.Keys == o + d + u;
    assert o !! d && (o + d) !! u;
  }

  /** A row for every id carries the decimal text of its timestamp. */
  ghost predicate IsStamped(t: Table, stamps: map<string, int>) {
    forall id :: id in t ==> id in stamps && t[id].createdAt == Decimal.Print(stamps[id])
  }

  /** Oldest first: positions in time order, and no ready row left behind that is older. */
  ghost predicate IsOldestFirst(t: Table, stamps: map<string, int>, now: int, ids: seq<string>)
    requires IsStamped(t, stamps) && forall id :: id in ids ==> id in t
  {
    && (forall i, j :: 0 <= i < j < |ids| ==> stamps[ids[i]] <= stamps[ids[j]])
    && (forall i, u :: 0 <= i < |ids| && u in ReadyIds(t, now) && u !in ids ==> stamps[ids[i]] <= stamps[u])
  }

  /** What every possible claim being oldest-first means. */
  ghost predicate ClaimsAreOldestFirst(t: Table, stamps: map<string, int>, now: int)
    requires IsStamped(t, stamps)
  {
    forall limit, ids :: IsSelection(t, limit, now, ids) ==>
      (forall id :: id in ids ==> id in t) && IsOldestFirst(t, stamps, now, ids)
  }

  /** The text of every two ready timestamps sorts as the numbers do. */
  ghost predicate ReadySortAsNumbers(t: Table, stamps: map<string, int>, now: int)
    requires IsStamped(t, stamps)
  {
    forall x, y :: x in ReadyIds(t, now) && y in ReadyIds(t, now) && stamps[x] < stamps[y] ==>
      Decimal.SortsAsNumber(stamps[x], stamps[y])
  }

  lemma TextNotBelow(t: Table, stamps: map<string, int>, x: string, y: string)
    requires IsStamped(t, stamps) && x in t && y in t && !TextLess(t[y].createdAt, t[x].createdAt)
    requires stamps[y] < stamps[x] ==> Decimal.SortsAsNumber(stamps[y], stamps[x])
    ensures stamps[x] <= stamps[y]
  {
    if stamps[y] < stamps[x] { Decimal.TextOrderIsTimeOrderIff(stamps[y], stamps[x]); }
  }

  lemma SortedStampsClaimOldest(t: Table, stamps: map<string, int>, now: int, limit: int, ids: seq<string>)
    requires IsStamped(t, stamps) && ReadySortAsNumbers(t, stamps, now) && IsSelection(t, limit, now, ids)
    ensures (forall id :: id in ids ==> id in t) && IsOldestFirst(t, stamps, now, ids)
  {
    forall i | 0 <= i < |ids| ensures ids[i] in ReadyIds(t, now) && ids[i] in t {}
    forall i, j | 0 <= i < j < |ids| ensures stamps[ids[i]] <= stamps[ids[j]] {
      TextNotBelow(t, stamps, ids[i], ids[j]);
    }
    forall i, u | 0 <= i < |ids| && u in ReadyIds(t, now) && u !in ids ensures stamps[ids[i]] <= stamps[u] {
      TextNotBelow(t, stamps, ids[i], u);
    }
  }

  /** Pair by pair: a ready row left unclaimed is older than a claimed one, or a later position of a
      batch older than an earlier one, only when the text of the two timestamps does not sort as the
      numbers do; so never among two timestamps of one width. */
  lemma ClaimIsOldestFirst(t: Table, stamps: map<string, int>, limit: int, now: int, ids: seq<string>, i: nat,
      u: string)
    requires IsSelection(t, limit, now, ids) && IsStamped(t, stamps) && i < |ids| && u in ReadyIds(t, now)
    requires u in ids ==> exists j :: i < j < |ids| && ids[j] == u
    ensures ids[i] in t
    ensures stamps[u] < stamps[ids[i]] ==> !Decimal.SortsAsNumber(stamps[u], stamps[ids[i]])
    ensures 0 <= stamps[u] && 0 <= stamps[ids[i]] && Decimal.Width(stamps[u]) == Decimal.Width(stamps[ids[i]]) ==>
              stamps[ids[i]] <= stamps[u]
  {
    assert ids[i] in ReadyIds(t, now);
    assert !TextLess(t[u].createdAt, t[ids[i]].createdAt);
    if stamps[u] < stamps[ids[i]] { Decimal.TextOrderIsTimeOrderIff(stamps[u], stamps[ids[i]]); }
  }

  /** LIMIT: never more rows than asked for, and fewer only when every ready row was taken. */
  lemma SelectionSize(t: Table, limit: int, now: int, ids: seq<string>)
    requires IsSelection(t, limit, now, ids)
    ensures 0 <= limit ==> |ids| <= limit
    ensures limit < 0 || |ids| < limit ==> forall u :: u in ReadyIds(t, now) ==> u in ids
  {
    if limit < 0 || |ids| < limit {
      var taken := set i | 0 <= i < |ids| :: ids[i];
      DistinctSize(ids, taken);
      SubsetIsWhole(taken, ReadyIds(t, now));
    }
  }

  lemma {:induction false} DistinctSize(ids: seq<string>, taken: set<string>)
    requires Distinct(ids) && taken == set i | 0 <= i < |ids| :: ids[i]
    ensures |taken| == |ids|
    decreases |ids|
  {
    if ids == [] {
    } else {
      var n := |ids| - 1;
      var front := set i | 0 <= i < |ids[..n]| :: ids[..n][i];
      DistinctSize(ids[..n], front);
      assert taken == front + {ids[n]};
    }
  }

  lemma SubsetIsWhole(a: set<string>, b: set<string>)
    requires a <= b && |a| == |b|
    ensures a == b
  {
    assert |b - a| == 0;
  }

  /** Some selection takes every ready row. */
  lemma {:induction false} FullSelection(t: Table, now: int, taken: seq<string>, left: set<string>)
    returns (ids: seq<string>)
    requires IsPartialSelection(t, now, taken, left)
    ensures IsSelection(t, -1, now, ids) && forall u :: u in ReadyIds(t, now) ==> u in ids
    decreases |left|
  {
    if left == {} {
      ids := taken;
    } else {
      FirstExists(t, left);
      var c :| c in left && SortsFirst(t, left, c);
      SelectNext(t, now, taken, left, c);
      ids := FullSelection(t, now, taken + [c], left - {c});
    }
  }

  /** Two ready rows whose text sorts the wrong way round are claimed the wrong way round. */
  lemma WrongPairClaimsNewerFirst(t: Table, stamps: map<string, int>, now: int, x: string, y: string)
    requires IsStamped(t, stamps) && x in ReadyIds(t, now) && y in ReadyIds(t, now)
    requires stamps[x] < stamps[y] && !Decimal.SortsAsNumber(stamps[x], stamps[y])
    ensures !ClaimsAreOldestFirst(t, stamps, now)
  {
    var ids := FullSelection(t, now, [], ReadyIds(t, now));
    Decimal.TextOrderIsTimeOrderIff(stamps[x], stamps[y]);
    LexTotal(Codes(t[x].createdAt), Codes(t[y].createdAt));
    if Codes(t[x].createdAt) == Codes(t[y].createdAt) { CodesInjective(t[x].createdAt, t[y].createdAt); }
    assert TextLess(t[y].createdAt, t[x].createdAt);
    var p :| 0 <= p < |ids| && ids[p] == x;
    var q :| 0 <= q < |ids| && ids[q] == y;
    assert q < p;
    assert stamps[ids[q]] > stamps[ids[p]];
  }

  /** Every claim of every size takes the oldest ready rows, oldest first, if and only if the text
      of every two ready timestamps sorts as the numbers do. */
  lemma ClaimIsOldestFirstIff(t: Table, stamps: map<string, int>, now: int)
    requires IsStamped(t, stamps)
    ensures ClaimsAreOldestFirst(t, stamps, now) <==> ReadySortAsNumbers(t, stamps, now)
  {
    if ReadySortAsNumbers(t, stamps, now) {
      forall limit, ids | IsSelection(t, limit, now, ids)
        ensures (forall id :: id in ids ==> id in t) && IsOldestFirst(t, stamps, now, ids)
      {
        SortedStampsClaimOldest(t, stamps, now, limit, ids);
      }
    } else {
      var x, y :| x in ReadyIds(t, now) && y in ReadyIds(t, now) && stamps[x] < stamps[y]
                  && !Decimal.SortsAsNumber(stamps[x], stamps[y]);
      WrongPairClaimsNewerFirst(t, stamps, now, x, y);
    }
  }

  /** Among ready timestamps of one width every claim is oldest-first. */
  lemma SameWidthClaimsOldestFirst(t: Table, stamps: map<string, int>, now: int, width: nat)
    requires IsStamped(t, stamps)
    requires forall x :: x in ReadyIds(t, now) ==> 0 <= stamps[x] && Decimal.Width(stamps[x]) == width
    ensures ClaimsAreOldestFirst(t, stamps, now)
  {
    forall x, y | x in ReadyIds(t, now) && y in ReadyIds(t, now) && stamps[x] < stamps[y]
      ensures Decimal.SortsAsNumber(stamps[x], stamps[y])
    {
      Decimal.SameWidthSortsAsNumber(stamps[x], stamps[y]);
    }
    ClaimIsOldestFirstIff(t, stamps, now);
  }

  /** The order is not time order in general: of rows stamped 999 and 1000, a batch of one
      takes the newer row. */
  lemma NewerRowCanBeClaimedFirst(e: AuditEvent, f: AuditEvent)
    requires e.eventId != f.eventId && e.timestampMs == 999 && f.timestampMs == 1000
    ensures var t: Table := map[e.eventId := FreshRow(e, ""), f.eventId := FreshRow(f, "")];
            IsSelection(t, 1, 0, [f.eventId]) && !IsSelection(t, 1, 0, [e.eventId])
  {
    var t: Table := map[e.eventId := FreshRow(e, ""), f.eventId := FreshRow(f, "")];
    Decimal.WidthChangeBreaksOrder();
    LexAsymmetric(Codes(Decimal.Print(1000)), Codes(Decimal.Print(999)));
    assert ReadyIds(t, 0) == {e.eventId, f.eventId};
    assert |ReadyIds(t, 0)| == 2;
    assert f.eventId in ReadyIds(t, 0) && f.eventId !in [e.eventId];
    assert [e.eventId][0] == e.eventId;
  }

  /** The arithmetic of markFailed is safe at every attempt number exactly when it is safe at
      the saturated exponent 16. */
  lemma NeverTrapsIff(now: int, base: int)
    requires FitsInt64(now) && FitsInt64(base)
    ensures (forall k: nat :: DelayFits(now, base, k)) <==>
            FitsInt64(base * 65536) && FitsInt64(now + base * 65536)
  {
    Pow2Of16();
    assert RetryDelay(base, 16) == base * 65536;
    if DelayFits(now, base, 16) {
      forall k: nat ensures DelayFits(now, base, k) {
        DelayBetween(base, k);
      }
    }
  }

  lemma Pow2Of16()
    ensures Pow2(16) == 65536
  {
    assert Pow2(2) == 4;
    assert Pow2(4) == 16;
    assert Pow2(6) == 64;
    assert Pow2(8) == 256;
    assert Pow2(10) == 1024;
    assert Pow2(12) == 4096;
    assert Pow2(14) == 16384;
  }

  lemma DelayBetween(base: int, k: nat)
    ensures base >= 0 ==> base <= RetryDelay(base, k) <= RetryDelay(base, 16)
    ensures base < 0 ==> base >= RetryDelay(base, k) >= RetryDelay(base, 16)
  {
    Pow2Monotone(Min(k, 16), 16);
    Scale(base, 1, Pow2(Min(k, 16)));
    Scale(base, Pow2(Min(k, 16)), Pow2(16));
  }

  lemma Scale(c: int, x: nat, y: nat)
    requires x <= y
    ensures c >= 0 ==> c * x <= c * y
    ensures c < 0 ==> c * x >= c * y
  {
    var d := y - x;
    assert c * y == c * x + c * d;
    if c >= 0 { assert c * d >= 0; } else { assert (-c) * d >= 0; }
  }

  lemma Twice(b: int, p: int)
    ensures b * (2 * p) == 2 * (b * p)
  {
  }

  /** The wait doubles with every failure until the exponent saturates, then stays put. */
  lemma DelayDoublesThenSaturates(base: int, k: nat)
    ensures k < 16 ==> RetryDelay(base, k + 1) == 2 * RetryDelay(base, k)
    ensures k >= 16 ==> RetryDelay(base, k) == base * 65536
  {
    if k < 16 {
      var p := Pow2(k);
      assert Pow2(k + 1) == 2 * p;
      Twice(base, p);
    } else {
      Pow2Of16();
    }
  }
}

/** The queue actor: the same calls as methods over a table held in a field. A transaction
    is a snapshot restored on a thrown statement; `faultAt` says which statement throws. */
module EventQueue {
  import opened Basics
  import opened TextOrder
  import opened EventTable
  import Decimal

  datatype QueueError = StoreFault | DuplicateEvent | UnknownEventError | ArithmeticTrap

  class Queue {
    var rows: Table

    constructor ()
      ensures rows == map[]
    {
      rows := map[];
    }

    method Enqueue(e: AuditEvent, signature: string, fault: bool) returns (r: Result<(), QueueError>)
      modifies this
      ensures r.Ok? <==> !fault && e.eventId !in old(rows)
      ensures r.Ok? ==> rows == old(rows)[e.eventId := FreshRow(e, signature)]
      ensures r.Ok? ==>
        rows[e.eventId] == Row(e.kind, Decimal.Print(e.timestampMs), e.payload, signature, Pending, 0, None, None)
      ensures r.Err? ==> rows == old(rows)
    {
      if fault { return Err(StoreFault); }
      if e.eventId in rows { return Err(DuplicateEvent); }
      rows := rows[e.eventId := FreshRow(e, signature)];
      return Ok(());
    }

    /** The SELECT ... ORDER BY created_at LIMIT ? of claimBatch. */
    method SelectReady(limit: int, now: int) returns (ids: seq<string>)
      ensures IsSelection(rows, limit, now, ids)
    {
      ids := [];
      var left := ReadyIds(rows, now);
      while left != {} && (limit < 0 || |ids| < limit)
        invariant IsPartialSelection(rows, now, ids, left)
        invariant limit >= 0 ==> |ids| <= limit
        decreases |left|
      {
        FirstExists(rows, left);
        var c :| c in left && SortsFirst(rows, left, c);
        SelectNext(rows, now, ids, left, c);
        ids := ids + [c];
        left := left - {c};
      }
    }

    /** `for e in events`: the UPDATEs of claimBatch, up to the statement that throws. */
    method MarkEachInflight(ids: seq<string>, faultAt: Option<nat>) returns (ok: bool)
      requires forall i :: 0 <= i < |ids| ==> ids[i] in rows
      requires faultAt.Some? ==> faultAt.value > 0
      modifies this
      ensures ok <==> faultAt.None? || faultAt.value > |ids|
      ensures ok ==> rows == MarkInflight(old(rows), ids)
    {
      ghost var t := rows;
      assert MarkInflight(t, ids[..0]) == t;
      for i := 0 to |ids|
        invariant rows == MarkInflight(t, ids[..i])
        invariant faultAt.Some? ==> faultAt.value > i
      {
        if faultAt == Some(i + 1) { return false; }
        MarkInflightNext(t, ids, i);
        rows := rows[ids[i] := rows[ids[i]].(status := Inflight)];
      }
      assert ids[..|ids|] == ids;
      ok := true;
    }

    method ClaimBatch(limit: int, now: int, faultAt: Option<nat>) returns (r: Result<seq<QueuedEvent>, QueueError>)
      modifies this
      ensures r.Err? <==> faultAt.Some? && faultAt.value <= LimitedCount(limit, |ReadyIds(old(rows), now)|) + 1
      ensures r.Err? ==> rows == old(rows)
      ensures r.Ok? ==>
        var ids := IdsOf(r.value);
        && IsSelection(old(rows), limit, now, ids)
        && rows == MarkInflight(old(rows), ids)
        && (forall i :: 0 <= i < |ids| ==> ids[i] in old(rows))
        && r.value == QueuedRows(old(rows), ids)
    {
      var snapshot := rows;
      if faultAt == Some(0) { return Err(StoreFault); }
      var ids := SelectReady(limit, now);
      SelectedArePresent(rows, limit, now, ids);
      var events := QueuedRows(rows, ids);
      assert IdsOf(events) == ids;
      var ok := MarkEachInflight(ids, faultAt);
      if !ok || faultAt == Some(|events| + 1) {
        rows := snapshot;
        return Err(StoreFault);
      }
      r := Ok(events);
    }

    method MarkUploadedIds(ids: seq<string>, faultAt: Option<nat>) returns (r: Result<(), QueueError>)
      modifies this
      ensures r.Err? <==> faultAt.Some? && faultAt.value <= |ids|
      ensures rows == if r.Ok? then MarkUploaded(old(rows), ids) else old(rows)
      ensures rows.Keys == old(rows).Keys
      ensures r.Ok? ==> forall id :: id in old(rows) ==>
        rows[id] == if id in ids then old(rows)[id].(status := Uploaded, lastError := None) else old(rows)[id]
    {
      var snapshot := rows;
      var i := 0;
      while i < |ids|
        invariant 0 <= i <= |ids|
        invariant rows == MarkUploaded(snapshot, ids[..i])
        invariant faultAt.Some? ==> faultAt.value >= i
      {
        if faultAt == Some(i) {
          rows := snapshot;
          return Err(StoreFault);
        }
        if ids[i] in rows {
          rows := rows[ids[i] := rows[ids[i]].(status := Uploaded, lastError := None)];
        }
        assert ids[..i + 1] == ids[..i] + [ids[i]];
        i := i + 1;
      }
      assert ids[..|ids|] == ids;
      if faultAt == Some(|ids|) {
        rows := snapshot;
        return Err(StoreFault);
      }
      return Ok(());
    }

    method MarkFailedId(id: string, error: string, now: int, base: int, maxAttempts: int, fault: bool)
      returns (r: Result<Status, QueueError>)
      modifies this
      ensures fault ==> r == Err(StoreFault)
      ensures !fault ==> match MarkFailed(old(rows), id, error, now, base, maxAttempts)
        case UnknownEvent => r == Err(UnknownEventError)
        case Trapped => r == Err(ArithmeticTrap)
        case Marked(t, s) => r == Ok(s) && rows == t
      ensures r.Err? ==> rows == old(rows)
      ensures !fault ==> (r == Err(UnknownEventError) <==> id !in old(rows))
      ensures !fault && id in old(rows) ==>
        (r == Err(ArithmeticTrap) <==> Overflows(old(rows)[id], now, base, maxAttempts))
      ensures r.Ok? ==>
        && id in old(rows) && rows == old(rows)[id := rows[id]]
        && var was, next := old(rows)[id], rows[id];
        && next == was.(status := r.value, attempts := was.attempts + 1, lastError := Some(error),
                      nextRetryAt := next.nextRetryAt)
        && (was.attempts + 1 >= maxAttempts ==> r.value == Dead && next.nextRetryAt == None)
        && (was.attempts + 1 < maxAttempts ==> r.value == Failed)
        && (0 <= was.attempts && was.attempts + 1 < maxAttempts ==>
              next.nextRetryAt == Some(now + base * Pow2(Min(was.attempts, 16))))
    {
      if fault { return Err(StoreFault); }
      if id !in rows { return Err(UnknownEventError); }
      var attempts := rows[id].attempts;
      if !FitsInt64(attempts + 1) { return Err(ArithmeticTrap); }
      var newAttempts := attempts + 1;
      if newAttempts >= maxAttempts {
        rows := rows[id := rows[id].(status := Dead, attempts := newAttempts, lastError := Some(error),
                                     nextRetryAt := None)];
        return Ok(Dead);
      }
      var shift := Min(attempts, 16);
      var delay := if shift < 0 then 0 else base * Pow2(shift);
      if !FitsInt64(delay) || !FitsInt64(now + delay) { return Err(ArithmeticTrap); }
      rows := rows[id := rows[id].(status := Failed, attempts := newAttempts, lastError := Some(error),
                                   nextRetryAt := Some(now + delay))];
      return Ok(Failed);
    }

    method QueueDepth() returns (n: nat)
      ensures n + |WithStatus(rows, Dead)| + |WithStatus(rows, Uploaded)| == |rows|
    {
      TableSize(rows);
      n := |Owing(rows)|;
    }

    method PurgeUploaded(fault: bool) returns (r: Result<nat, QueueError>)
      modifies this
      ensures r.Err? <==> fault
      ensures r.Err? ==> rows == old(rows)
      ensures r.Ok? ==> rows == Purge(old(rows)) && |rows| + r.value == |old(rows)|
      ensures r.Ok? ==> Owing(rows) == Owing(old(rows)) && WithStatus(rows, Dead) == WithStatus(old(rows), Dead)
    {
      if fault { return Err(StoreFault); }
      var n := |WithStatus(rows, Uploaded)|;
      TableSize(rows);
      rows := Purge(rows);
      TableSize(rows);
      assert WithStatus(rows, Uploaded) == {};
      assert Owing(rows) == Owing(old(rows)) && WithStatus(rows, Dead) == WithStatus(old(rows), Dead);
      return Ok(n);
    }
  }
}
