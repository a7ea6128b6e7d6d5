/** Retry with full-jitter backoff (connector-sdk/src/resilience/retry.ts). The outcomes of the
    operation, and the jitter, are given per attempt. */
module Retry {
  import opened Basics
  import opened Errors

  /** An attempt that ends the loop at once. */
  predicate Decisive<T>(r: Result<T, Error>, retryable: Error -> bool) {
    r.Ok? || !retryable(r.error)
  }

  /** The 0-based index of the last attempt made, trying from attempt i on. */
  function LastAttempt<T>(outcome: nat -> Result<T, Error>, attempts: nat, retryable: Error -> bool, i: nat): (k: nat)
    requires i < attempts
    ensures i <= k < attempts
    decreases attempts - i
  {
    if Decisive(outcome(i), retryable) || i == attempts - 1 then i
    else LastAttempt(outcome, attempts, retryable, i + 1)
  }

  /** What the whole retried call yields. */
  function RetryResult<T>(outcome: nat -> Result<T, Error>, maxAttempts: int, retryable: Error -> bool)
    : Result<T, Error>
  {
    var attempts := Max(1, maxAttempts);
    var last := outcome(LastAttempt(outcome, attempts, retryable, 0));
    if Decisive(last, retryable) then last else Err(RetryExhaustedError(attempts, last.error))
  }

  lemma {:induction false} AttemptsBeforeLast<T>(outcome: nat -> Result<T, Error>, attempts: nat,
      retryable: Error -> bool, i: nat)
    requires i < attempts
    ensures var k := LastAttempt(outcome, attempts, retryable, i);
      && (forall j :: i <= j < k ==> !Decisive(outcome(j), retryable))
      && (Decisive(outcome(k), retryable) || k == attempts - 1)
    decreases attempts - i
  {
    if !Decisive(outcome(i), retryable) && i != attempts - 1 {
      AttemptsBeforeLast(outcome, attempts, retryable, i + 1);
    }
  }

  /** The result is that of the first attempt that is not a retryable failure, among at most
      max(1, maxAttempts); if there is none, RetryExhausted with the last error. */
  lemma RetryIsFirstDecisive<T>(outcome: nat -> Result<T, Error>, maxAttempts: int, retryable: Error -> bool, k: nat)
    requires k < Max(1, maxAttempts) && forall j :: 0 <= j < k ==> !Decisive(outcome(j), retryable)
    ensures Decisive(outcome(k), retryable) ==> RetryResult(outcome, maxAttempts, retryable) == outcome(k)
    ensures !Decisive(outcome(k), retryable) && k == Max(1, maxAttempts) - 1 ==>
              RetryResult(outcome, maxAttempts, retryable) ==
                  Err(RetryExhaustedError(Max(1, maxAttempts), outcome(k).error))
  {
    AttemptsBeforeLast(outcome, Max(1, maxAttempts), retryable, 0);
  }

  /** An attempt is followed by another if and only if it failed retryably and attempts remain. */
  lemma RetriedIff<T>(outcome: nat -> Result<T, Error>, maxAttempts: int, retryable: Error -> bool, k: nat)
    requires k <= LastAttempt(outcome, Max(1, maxAttempts), retryable, 0)
    ensures k < LastAttempt(outcome, Max(1, maxAttempts), retryable, 0) <==>
              outcome(k).Err? && retryable(outcome(k).error) && k < Max(1, maxAttempts) - 1
  {
    AttemptsBeforeLast(outcome, Max(1, maxAttempts), retryable, 0);
  }

  /** base x 2^attempt. */
  function Grown(attempt: nat, base: real): real { base * Pow2(attempt) as real }

  function DelayCap(attempt: nat, base: real, maxDelay: real): real {
    if Grown(attempt, base) <= maxDelay then Grown(attempt, base) else maxDelay
  }

  function Jittered(cap: real, random: real): int { (random * cap).Floor }

  /** floor(random x min(base x 2^attempt, maxDelay)). */
  function BackoffDelay(attempt: nat, base: real, maxDelay: real, random: real): int {
    Jittered(DelayCap(attempt, base, maxDelay), random)
  }

  lemma Product(a: real, b: real)
    requires a >= 0.0 && b >= 0.0
    ensures a * b >= 0.0 && (a > 0.0 && b > 0.0 ==> a * b > 0.0)
  {
  }

  lemma GrownIsPositive(attempt: nat, base: real)
    requires base >= 0.0
    ensures Grown(attempt, base) >= 0.0 && (base > 0.0 ==> Grown(attempt, base) > 0.0)
  {
    Pow2Monotone(0, attempt);
    Product(base, Pow2(attempt) as real);
  }

  lemma FloorIsBelow(x: real, cap: real)
    requires 0.0 <= x <= cap && (cap > 0.0 ==> x < cap)
    ensures 0 <= x.Floor && x.Floor as real <= cap && (cap > 0.0 ==> x.Floor as real < cap)
  {
    assert x.Floor as real <= x;
  }

  /** Scaling a cap by jitter in [0, 1) stays in [0, cap). */
  lemma ScaledIsBelow(cap: real, random: real)
    requires 0.0 <= random < 1.0 && cap >= 0.0
    ensures 0.0 <= random * cap <= cap && (cap > 0.0 ==> random * cap < cap)
  {
    Product(random, cap);
    Product(1.0 - random, cap);
    assert random * cap + (1.0 - random) * cap == cap;
  }

  lemma JitterRoundsDown(cap: real, random: real)
    ensures Jittered(cap, random) as real <= random * cap < Jittered(cap, random) as real + 1.0
  {
  }

  lemma JitterIsBelowCap(cap: real, random: real)
    requires 0.0 <= random < 1.0 && cap >= 0.0
    ensures 0 <= Jittered(cap, random) && Jittered(cap, random) as real <= cap
    ensures cap > 0.0 ==> Jittered(cap, random) as real < cap
  {
    ScaledIsBelow(cap, random);
    FloorIsBelow(random * cap, cap);
  }

  /** The schedule starts at base and doubles with every attempt. */
  lemma GrownDoubles(attempt: nat, base: real)
    ensures Grown(0, base) == base && Grown(attempt + 1, base) == 2.0 * Grown(attempt, base)
  {
    var p := Pow2(attempt) as real;
    assert Pow2(attempt + 1) as real == 2.0 * p;
    assert base * (2.0 * p) == 2.0 * (base * p);
  }

  /** The wait is the jittered cap rounded down, and in [0, min(base x 2^attempt, maxDelay)), or 0 where
      that is empty. */
  lemma DelayIsBounded(attempt: nat, base: real, maxDelay: real, random: real)
    requires 0.0 <= random < 1.0 && base >= 0.0 && maxDelay >= 0.0
    ensures var delay, grown := BackoffDelay(attempt, base, maxDelay, random), Grown(attempt, base);
      && delay as real <= random * (if grown <= maxDelay then grown else maxDelay) < delay as real + 1.0
      && 0 <= delay && delay as real <= maxDelay && delay as real <= grown
      && (base > 0.0 && maxDelay > 0.0 ==> delay as real < maxDelay && delay as real < grown)
  {
    GrownIsPositive(attempt, base);
    JitterIsBelowCap(DelayCap(attempt, base, maxDelay), random);
    JitterRoundsDown(DelayCap(attempt, base, maxDelay), random);
  }

  lemma SleptMore(i: nat, slept: real, delay: real, maxDelay: real)
    requires delay <= maxDelay
    ensures slept <= i as real * maxDelay ==> slept + delay <= (i + 1) as real * maxDelay
  {
    assert (i + 1) as real * maxDelay == i as real * maxDelay + maxDelay;
  }

  /** withRetry: the loop as written, returning also how many attempts it made and how long it slept. */
  method WithRetry<T>(outcome: nat -> Result<T, Error>, maxAttempts: int, base: real, maxDelay: real,
                      random: nat -> real, retryable: Error -> bool)
    returns (r: Result<T, Error>, made: nat, slept: int)
    ensures r == RetryResult(outcome, maxAttempts, retryable)
    ensures 1 <= made <= Max(1, maxAttempts)
    ensures forall j :: 0 <= j < made - 1 ==> outcome(j).Err? && retryable(outcome(j).error)
    ensures base >= 0.0 && maxDelay >= 0.0 && (forall i :: 0.0 <= random(i) < 1.0) ==>
              0 <= slept && slept as real <= (made - 1) as real * maxDelay
  {
    var attempts := Max(1, maxAttempts);
    slept := 0;
    var i := 0;
    while true
      invariant 0 <= i < attempts
      invariant forall j :: 0 <= j < i ==> outcome(j).Err? && retryable(outcome(j).error)
      invariant base >= 0.0 && maxDelay >= 0.0 && (forall k :: 0.0 <= random(k) < 1.0) ==>
                  0 <= slept && slept as real <= i as real * maxDelay
      decreases attempts - i
    {
      var a := outcome(i);
      RetryIsFirstDecisive(outcome, maxAttempts, retryable, i);
      if a.Ok? || !retryable(a.error) { return a, i + 1, slept; }
      if i == attempts - 1 { return Err(RetryExhaustedError(attempts, a.error)), i + 1, slept; }
      var delay := BackoffDelay(i, base, maxDelay, random(i));
      if base >= 0.0 && maxDelay >= 0.0 && 0.0 <= random(i) < 1.0 {
        DelayIsBounded(i, base, maxDelay, random(i));
        SleptMore(i, slept as real, delay as real, maxDelay);
      }
      slept := slept + delay;
      i := i + 1;
    }
  }
}

/** The per-call deadline (connector-sdk/src/resilience/timeout.ts) over a transport request. */
module Deadline {
  import opened Basics
  import opened Framing
  import opened Json
  import opened Errors
  import opened BridgeTransport

  type CallOutcome = Result<Option<Json>, Error>

  /** One race of an operation against its timer. A non-positive timeout arms no timer. */
  class Race {
    var armed: bool
    var aborted: bool
    var winner: Option<CallOutcome>

    constructor (timeoutMs: int)
      ensures armed == (timeoutMs > 0) && !aborted && winner.None?
    {
      armed, aborted, winner := timeoutMs > 0, false, None;
    }

    /** The operation's promise settles: the race is over if it was not, and the timer is cleared. */
    method OnOperation(r: CallOutcome)
      modifies this
      ensures winner == Some(if old(winner).Some? then old(winner).value else r)
      ensures !armed && aborted == old(aborted)
    {
      if winner.None? { winner := Some(r); }
      armed := false;
    }

    /** The timer fires: reject first, then abort, so that an abort that settles the operation on
        the spot still loses to the deadline. */
    method OnTimer(settledByAbort: Option<CallOutcome>)
      requires armed && winner.None?
      modifies this
      ensures winner == Some(Err(TimeoutError)) && aborted && !armed
    {
      winner := Some(Err(TimeoutError));
      aborted := true;
      if settledByAbort.Some? { OnOperation(settledByAbort.value); }
      armed := false;
    }
  }

  function AsCall(o: Outcome): CallOutcome {
    match o
    case Resolved(v) => Ok(v)
    case Rejected(e) => Err(e)
  }

  /** The result of a timed request in a transport run, seen from outside: `due` is the step at which
      its deadline elapses, if it does. None while the call is still waiting. */
  function CallResult(states: seq<Transport>, id: RequestId, due: Option<nat>): Option<CallOutcome>
    requires states != [] && (due.Some? ==> due.value < |states|)
  {
    match due
    case Some(f) =>
      if id in states[f].settled then Some(AsCall(states[f].settled[id].outcome)) else Some(Err(TimeoutError))
    case None =>
      var last := states[|states| - 1];
      if id in last.settled then Some(AsCall(last.settled[id].outcome)) else None
  }

  /** The result of a call in transport state t: the value or the error its request settled with, else
      the timeout if the deadline has elapsed, else none yet. */
  predicate IsResult(r: Option<CallOutcome>, t: Transport, id: RequestId, elapsed: bool) {
    if id in t.settled then
      match t.settled[id].outcome
      case Resolved(v) => r == Some(Ok(v))
      case Rejected(e) => r == Some(Err(e))
    else r == if elapsed then Some(Err(TimeoutError)) else None
  }

  lemma CallResultMeans(states: seq<Transport>, id: RequestId, due: Option<nat>)
    requires states != [] && (due.Some? ==> due.value < |states|)
    ensures IsResult(CallResult(states, id, due),
                     if due.Some? then states[due.value] else states[|states| - 1], id, due.Some?)
  {
  }

  /** A transport run in which request id is timed: its deadline, if it elapses in the run, aborts it. */
  ghost predicate IsTimedRun(
      parse: Bytes -> Option<Json>, states: seq<Transport>, steps: seq<Step>,
      id: RequestId, timeoutMs: int, due: Option<nat>)
  {
    && IsRun(parse, states, steps)
    && (due.Some? ==> timeoutMs > 0 && due.value < |steps| && steps[due.value] == Abort(id))
  }

  /** What the operation's promise does at step i. */
  function SettledAt(states: seq<Transport>, i: nat, id: RequestId): Option<CallOutcome>
    requires i + 1 < |states|
  {
    if id !in states[i].settled && id in states[i + 1].settled then Some(AsCall(states[i + 1].settled[id].outcome))
    else None
  }

  /** The race after the first n steps of a timed run. */
  ghost predicate RaceInStep(
      race: Race, states: seq<Transport>, n: nat, id: RequestId, timeoutMs: int, due: Option<nat>)
    requires n < |states|
    reads race
  {
    && race.winner == CallResult(states[..n + 1], id, if due.Some? && due.value < n then due else None)
    && race.armed == (timeoutMs > 0 && race.winner.None?)
    && (id in states[n].settled ==> race.winner.Some?)
  }

  /** Once settled at step f, the result seen from outside does not change. */
  lemma ResultIsFixed(parse: Bytes -> Option<Json>, states: seq<Transport>, steps: seq<Step>, n: nat, id: RequestId)
    requires IsRun(parse, states, steps) && n < |steps| && id in states[n].settled
    ensures SettledAt(states, n, id).None?
    ensures CallResult(states[..n + 2], id, None) == CallResult(states[..n + 1], id, None)
  {
    SettledForever(parse, states, steps, n, n + 1, id);
  }

  /** withTimeout driven beside a run of the transport: at each step the timer callback runs if it is
      due and still armed, and the race hears of the operation's promise when that settles. Its winner
      is the result seen from outside. */
  method RunTimed(
      parse: Bytes -> Option<Json>, states: seq<Transport>, steps: seq<Step>,
      id: RequestId, timeoutMs: int, due: Option<nat>)
    returns (winner: Option<CallOutcome>)
    requires IsTimedRun(parse, states, steps, id, timeoutMs, due)
    ensures winner == CallResult(states, id, due)
    ensures IsResult(winner, if due.Some? then states[due.value] else states[|states| - 1], id, due.Some?)
    ensures winner.Some? && winner.value.Ok? ==> IsOwnFirstReply(states[|states| - 1], id, winner.value.value)
  {
    var race := new Race(timeoutMs);
    for n := 0 to |steps|
      invariant RaceInStep(race, states, n, id, timeoutMs, due)
    {
      var settled := SettledAt(states, n, id);
      if id in states[n].settled { ResultIsFixed(parse, states, steps, n, id); }
      if due == Some(n) && race.armed {
        race.OnTimer(settled);
      } else if settled.Some? {
        race.OnOperation(settled.value);
      }
    }
    assert states[..|states|] == states;
    winner := race.winner;
    CallResultMeans(states, id, due);
    if winner.Some? && winner.value.Ok? { SuccessIsOwnReply(parse, states, steps, id, due, winner.value.value); }
  }

  /** v is the result of the first reply to id since the request was issued. */
  ghost predicate IsOwnFirstReply(t: Transport, id: RequestId, v: Option<Json>) {
    && id in t.issued && id in t.settled
    && t.settled[id].at < |t.replies|
    && t.replies[t.settled[id].at] == OkReply(id, v)
    && NoReply(t.replies, t.issued[id], t.settled[id].at, id)
  }

  /** A timed call succeeds only with the result of the first reply carrying its own id. */
  lemma SuccessIsOwnReply(parse: Bytes -> Option<Json>, states: seq<Transport>, steps: seq<Step>, id: RequestId,
      fired: Option<nat>, v: Option<Json>)
    requires IsRun(parse, states, steps) && (fired.Some? ==> fired.value < |states|)
    requires CallResult(states, id, fired) == Some(Ok(v))
    ensures IsOwnFirstReply(states[|states| - 1], id, v)
  {
    var n := |states| - 1;
    if fired.Some? { SettledForever(parse, states, steps, fired.value, n, id); }
    RunKeeps(parse, states, steps, n);
    ResolvedByOwnFirstReply(parse, states, steps, n, id);
  }

  /** Once the deadline has aborted a call, no later event can resolve its request. */
  lemma DeadlineIsFinal(parse: Bytes -> Option<Json>, states: seq<Transport>, steps: seq<Step>, id: RequestId,
      f: nat, j: nat)
    requires IsRun(parse, states, steps) && f < j < |states| && steps[f] == Abort(id) && id in states[f].pending
    ensures id in states[j].settled && id !in states[j].pending
    ensures states[j].settled[id].outcome == Rejected(TransportError)
    ensures CallResult(states, id, Some(f)) == Some(Err(TimeoutError))
  {
    RunKeeps(parse, states, steps, f);
    assert IsStep(parse, states[f], steps[f], states[f + 1]);
    assert id in states[f].pending.Keys;
    SettledForever(parse, states, steps, f + 1, j, id);
    RunKeeps(parse, states, steps, j);
    assert id !in states[j].pending.Keys;
  }
}
