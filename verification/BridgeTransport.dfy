/** The request/reply transport over the helper's stdio
    (connector-sdk/src/transport/xpc-bridge-transport.ts). Event handlers are the steps of a state
    machine; a promise, once settled, ignores later settlements. */
module BridgeTransport {
  import opened Basics
  import opened Framing
  import opened Json
  import opened Errors

  type RequestId = JsString

  datatype Reply =
    | OkReply(id: RequestId, result: Option<Json>)
    | ErrReply(id: RequestId, code: JsString, message: JsString)

  /** parseReplyEnvelope: the two shapes the schema accepts, extra keys ignored. */
  function ParseReply(raw: Json): (r: Option<Reply>) {
    if !raw.Obj? then None else
    var v, id, ok, error :=
      Lookup(raw.fields, Js("v")), Lookup(raw.fields, Js("id")),
      Lookup(raw.fields, Js("ok")), Lookup(raw.fields, Js("error"));
    if v.None? || !v.value.Num? || id.None? || !id.value.Str? || ok.None? then None
    else if ok.value == Bool(true) then Some(OkReply(id.value.s, Lookup(raw.fields, Js("result"))))
    else if ok.value != Bool(false) || error.None? || !error.value.Obj? then None
    else
      var code, message := Lookup(error.value.fields, Js("code")), Lookup(error.value.fields, Js("message"));
      if code.None? || !code.value.Str? || message.None? || !message.value.Str? then None
      else Some(ErrReply(id.value.s, code.value.s, message.value.s))
  }

  /** The well-formed replies among the frames; malformed ones are dropped. */
  function Replies(frames: seq<Json>): seq<Reply> { FilterMap(ParseReply, frames) }

  datatype Outcome = Resolved(result: Option<Json>) | Rejected(error: Error)

  function OutcomeOf(r: Reply): Outcome {
    match r
    case OkReply(_, result) => Resolved(result)
    case ErrReply(_, code, _) => Rejected(FromWire(code))
  }

  /** A settled promise, and how many replies had been dispatched before it settled. */
  datatype Settlement = Settlement(outcome: Outcome, at: nat)

  /** child: the helper process, if this.child is set; `exited` once its exit code is known.
      pending: request id to method. listening: requests whose abort listener is installed.
      issued: every request, with the number of replies dispatched before it. replies: the
      well-formed replies dispatched so far. received: every byte read so far. */
  datatype Transport = Transport(
    child: Option<bool>, buffer: Bytes, pending: map<RequestId, JsString>, listening: set<RequestId>,
    issued: map<RequestId, nat>, settled: map<RequestId, Settlement>,
    replies: seq<Reply>, received: Bytes, corrupt: bool)

  const Idle := Transport(None, [], map[], {}, map[], map[], [], [], false)

  datatype Step =
    | Spawned
    | ExitCodeSet
    | Request(id: RequestId, method_: JsString, fits: bool, aborted: bool)
    | WriteError(id: RequestId)
    | Abort(id: RequestId)
    | Chunk(bytes: Bytes)
    | ChildError
    | Exit
    | Close

  // ---------------------------------------------------------------- what each handler does

  function Settle(t: Transport, id: RequestId, o: Outcome): map<RequestId, Settlement> {
    if id in t.settled then t.settled else t.settled[id := Settlement(o, |t.replies|)]
  }

  /** Deleting the correlation, removing the abort listener and settling the promise. */
  function Finish(t: Transport, id: RequestId, o: Outcome): Transport {
    t.(pending := t.pending - {id}, listening := t.listening - {id}, settled := Settle(t, id, o))
  }

  /** The effect of rejecting the promises of `ids`. */
  function RejectAll(t: Transport, ids: set<RequestId>, e: Error): Transport {
    t.(listening := t.listening - ids,
       settled := map id | id in t.settled.Keys + ids ::
         if id in t.settled then t.settled[id] else Settlement(Rejected(e), |t.replies|))
  }

  function FailAll(t: Transport, e: Error): Transport {
    RejectAll(t, t.pending.Keys, e).(pending := map[])
  }

  lemma RejectNone(t: Transport, e: Error)
    ensures RejectAll(t, {}, e) == t
  {
    assert RejectAll(t, {}, e).settled == t.settled;
  }

  lemma RejectOneMore(t: Transport, ids: set<RequestId>, id: RequestId, e: Error)
    ensures var u := RejectAll(t, ids, e);
            RejectAll(t, ids + {id}, e) == u.(listening := u.listening - {id}, settled := Settle(u, id, Rejected(e)))
  {
    var u := RejectAll(t, ids, e);
    assert RejectAll(t, ids + {id}, e).settled == Settle(u, id, Rejected(e));
    assert RejectAll(t, ids + {id}, e).listening == u.listening - {id};
  }

  function Dispatch(t: Transport, frame: Json): Transport {
    match ParseReply(frame)
    case None => t
    case Some(r) =>
      var t' := if r.id in t.pending then Finish(t, r.id, OutcomeOf(r)) else t;
      t'.(replies := t.replies + [r])
  }

  function DispatchAll(t: Transport, frames: seq<Json>): Transport {
    if frames == [] then t else
    Dispatch(DispatchAll(t, frames[..|frames| - 1]), frames[|frames| - 1])
  }

  function CloseTransport(t: Transport): Transport {
    FailAll(t.(child := None), NotConnectedError)
  }

  function OnStdout(t: Transport, parse: Bytes -> Option<Json>, chunk: Bytes): Transport {
    match Decode(Bridge, parse, t.buffer + chunk)
    case Corrupt(_, left) =>
      CloseTransport(FailAll(t.(buffer := left, received := t.received + chunk, corrupt := true), ValidationError))
    case Frames(frames, rest) =>
      DispatchAll(t.(buffer := rest, received := t.received + chunk), frames)
  }

  function NewRequest(t: Transport, id: RequestId, method_: JsString, fits: bool, aborted: bool): Transport {
    var t' := t.(issued := t.issued[id := |t.replies|]);
    if t.child != Some(false) then t'.(settled := Settle(t', id, Rejected(NotConnectedError)))
    else if !fits then t'.(settled := Settle(t', id, Rejected(ValidationError)))
    else if aborted then Finish(t', id, Rejected(TransportError))
    else t'.(pending := t.pending[id := method_], listening := t.listening + {id})
  }

  predicate Enabled(t: Transport, step: Step) {
    match step
    case Request(id, _, _, _) => id !in t.issued
    case WriteError(id) => id in t.issued
    case _ => true
  }

  function Apply(t: Transport, parse: Bytes -> Option<Json>, step: Step): Transport {
    match step
    case Spawned => t.(child := Some(false))
    case ExitCodeSet => if t.child.Some? then t.(child := Some(true)) else t
    case Request(id, m, fits, aborted) => NewRequest(t, id, m, fits, aborted)
    case WriteError(id) => Finish(t, id, Rejected(TransportError))
    case Abort(id) => if id in t.listening then Finish(t, id, Rejected(TransportError)) else t
    case Chunk(bytes) => OnStdout(t, parse, bytes)
    case ChildError => FailAll(t, TransportError)
    case Exit => FailAll(t.(child := None), TransportError)
    case Close => CloseTransport(t)
  }

  ghost predicate IsRun(parse: Bytes -> Option<Json>, states: seq<Transport>, steps: seq<Step>) {
    && |states| == |steps| + 1
    && states[0] == Idle
    && forall i :: 0 <= i < |steps| ==> IsStep(parse, states[i], steps[i], states[i + 1])
  }

  ghost predicate IsStep(parse: Bytes -> Option<Json>, t: Transport, step: Step, t': Transport) {
    Enabled(t, step) && t' == Apply(t, parse, step)
  }

  // ---------------------------------------------------------------- the invariant

  /** No reply to id among replies[from..to]. */
  ghost predicate NoReply(replies: seq<Reply>, from: nat, to: nat, id: RequestId) {
    forall k :: from <= k < to && k < |replies| ==> replies[k].id != id
  }

  /** A request settled by the first reply with its id, or rejected before any such reply. */
  ghost predicate Explained(replies: seq<Reply>, from: nat, s: Settlement, id: RequestId) {
    && from <= s.at <= |replies|
    && NoReply(replies, from, s.at, id)
    && (s.outcome.Rejected? || (s.at < |replies| && replies[s.at].id == id && s.outcome == OutcomeOf(replies[s.at])))
  }

  ghost predicate Correlated(t: Transport) {
    && t.settled.Keys <= t.issued.Keys
    && t.pending.Keys == t.issued.Keys - t.settled.Keys
    && t.listening == t.pending.Keys
    && (t.child.None? ==> t.pending == map[])
    && (forall id :: id in t.issued ==> t.issued[id] <= |t.replies|)
    && (forall id :: id in t.pending ==> NoReply(t.replies, t.issued[id], |t.replies|, id))
    && (forall id :: id in t.settled ==> Explained(t.replies, t.issued[id], t.settled[id], id))
  }

  /** Until the stream is found corrupt, the replies are those of the bytes received so far,
      wherever the chunk boundaries fell. */
  ghost predicate InStep(t: Transport, parse: Bytes -> Option<Json>) {
    !t.corrupt ==>
      var d := Decode(Bridge, parse, t.received);
      d.Frames? && d.rest == t.buffer && Replies(d.frames) == t.replies
  }

  lemma FinishKeeps(t: Transport, id: RequestId, e: Error)
    requires Correlated(t) && id in t.issued
    ensures Correlated(Finish(t, id, Rejected(e)))
  {
  }

  lemma FailAllKeeps(t: Transport, e: Error)
    requires Correlated(t)
    ensures Correlated(FailAll(t, e)) && FailAll(t, e).pending == map[]
  {
  }

  /** A request that settles before it is sent. */
  lemma RejectedAtOnce(t: Transport, id: RequestId, e: Error)
    requires Correlated(t) && id !in t.issued
    ensures Correlated(t.(issued := t.issued[id := |t.replies|],
                          settled := t.settled[id := Settlement(Rejected(e), |t.replies|)]))
  {
    var t' := t.(issued := t.issued[id := |t.replies|],
        settled := t.settled[id := Settlement(Rejected(e), |t.replies|)]);
    assert t'.pending.Keys == t'.issued.Keys - t'.settled.Keys;
  }

  lemma Sent(t: Transport, id: RequestId, m: JsString)
    requires Correlated(t) && id !in t.issued && t.child.Some?
    ensures Correlated(t.(issued := t.issued[id := |t.replies|], pending := t.pending[id := m],
        listening := t.listening + {id}))
  {
    var t' := t.(issued := t.issued[id := |t.replies|], pending := t.pending[id := m], listening := t.listening + {id});
    assert t'.pending.Keys == t'.issued.Keys - t'.settled.Keys;
  }

  lemma RequestKeeps(t: Transport, id: RequestId, m: JsString, fits: bool, aborted: bool)
    requires Correlated(t) && id !in t.issued
    ensures Correlated(NewRequest(t, id, m, fits, aborted))
  {
    if t.child == Some(false) && fits && !aborted {
      Sent(t, id, m);
    } else {
      var e := if t.child != Some(false) then NotConnectedError else if !fits then ValidationError else TransportError;
      RejectedAtOnce(t, id, e);
      assert id !in t.pending && id !in t.listening;
      assert t.pending - {id} == t.pending && t.listening - {id} == t.listening;
    }
  }

  lemma ExplainedGrows(replies: seq<Reply>, r: Reply, from: nat, s: Settlement, id: RequestId)
    requires Explained(replies, from, s, id)
    ensures Explained(replies + [r], from, s, id)
  {
  }

  lemma NoReplyGrows(replies: seq<Reply>, r: Reply, from: nat, id: RequestId)
    requires NoReply(replies, from, |replies|, id) && r.id != id
    ensures NoReply(replies + [r], from, |replies| + 1, id)
  {
  }

  lemma DispatchKeeps(t: Transport, frame: Json)
    requires Correlated(t)
    ensures Correlated(Dispatch(t, frame))
  {
    if ParseReply(frame).Some? {
      var r, t' := ParseReply(frame).value, Dispatch(t, frame);
      assert t'.pending.Keys == t'.issued.Keys - t'.settled.Keys;
      forall id | id in t'.pending ensures NoReply(t'.replies, t'.issued[id], |t'.replies|, id) {
        NoReplyGrows(t.replies, r, t.issued[id], id);
      }
      forall id | id in t'.settled ensures Explained(t'.replies, t'.issued[id], t'.settled[id], id) {
        if id in t.settled { ExplainedGrows(t.replies, r, t.issued[id], t.settled[id], id); }
      }
    }
  }

  lemma {:induction false} DispatchAllKeeps(t: Transport, frames: seq<Json>)
    requires Correlated(t)
    ensures Correlated(DispatchAll(t, frames))
    decreases |frames|
  {
    if frames == [] {
    } else {
      DispatchAllKeeps(t, frames[..|frames| - 1]);
      DispatchKeeps(DispatchAll(t, frames[..|frames| - 1]), frames[|frames| - 1]);
    }
  }

  lemma StepKeeps(parse: Bytes -> Option<Json>, t: Transport, step: Step)
    requires Correlated(t) && Enabled(t, step)
    ensures Correlated(Apply(t, parse, step))
  {
    match step
    case Spawned =>
    case ExitCodeSet =>
    case Request(id, m, fits, aborted) => RequestKeeps(t, id, m, fits, aborted);
    case WriteError(id) => FinishKeeps(t, id, TransportError);
    case Abort(id) => if id in t.listening { FinishKeeps(t, id, TransportError); }
    case Chunk(bytes) => ChunkKeeps(parse, t, bytes);
    case ChildError => FailAllKeeps(t, TransportError);
    case Exit => DetachKeeps(t, TransportError);
    case Close => DetachKeeps(t, NotConnectedError);
  }

  /** Dropping the child and failing everything in flight. */
  lemma DetachKeeps(t: Transport, e: Error)
    requires Correlated(t)
    ensures Correlated(FailAll(t.(child := None), e))
  {
    FailAllKeeps(t, e);
    assert FailAll(t.(child := None), e) == FailAll(t, e).(child := None);
  }

  lemma ChunkKeeps(parse: Bytes -> Option<Json>, t: Transport, bytes: Bytes)
    requires Correlated(t)
    ensures Correlated(OnStdout(t, parse, bytes))
  {
    match Decode(Bridge, parse, t.buffer + bytes)
    case Corrupt(_, left) =>
      var t' := t.(buffer := left, received := t.received + bytes, corrupt := true);
      FailAllKeeps(t', ValidationError);
      DetachKeeps(FailAll(t', ValidationError), NotConnectedError);
    case Frames(frames, rest) =>
      DispatchAllKeeps(t.(buffer := rest, received := t.received + bytes), frames);
  }

  // ---------------------------------------------------------------- the byte stream

  lemma {:induction false} DispatchAllFrame(t: Transport, frames: seq<Json>)
    ensures var t' := DispatchAll(t, frames);
      && t'.replies == t.replies + Replies(frames)
      && t'.buffer == t.buffer && t'.received == t.received && t'.corrupt == t.corrupt
      && t'.child == t.child && t'.issued == t.issued
    decreases |frames|
  {
    if frames == [] {
    } else {
      DispatchAllFrame(t, frames[..|frames| - 1]);
    }
  }

  lemma ChunkStaysInStep(parse: Bytes -> Option<Json>, t: Transport, bytes: Bytes)
    requires InStep(t, parse)
    ensures InStep(OnStdout(t, parse, bytes), parse)
  {
    var d := Decode(Bridge, parse, t.buffer + bytes);
    if !t.corrupt && d.Frames? {
      var before := Decode(Bridge, parse, t.received);
      DecodeSplit(Bridge, parse, t.received, bytes);
      DispatchAllFrame(t.(buffer := d.rest, received := t.received + bytes), d.frames);
      FilterMapConcat(ParseReply, before.frames, d.frames);
    } else if d.Frames? {
      DispatchAllFrame(t.(buffer := d.rest, received := t.received + bytes), d.frames);
    }
  }

  lemma {:induction false} RunKeeps(parse: Bytes -> Option<Json>, states: seq<Transport>, steps: seq<Step>, i: nat)
    requires IsRun(parse, states, steps) && i < |states|
    ensures Correlated(states[i]) && InStep(states[i], parse)
  {
    if i == 0 {
    } else {
      RunKeeps(parse, states, steps, i - 1);
      assert IsStep(parse, states[i - 1], steps[i - 1], states[i - 1 + 1]);
      StepKeeps(parse, states[i - 1], steps[i - 1]);
      if steps[i - 1].Chunk? { ChunkStaysInStep(parse, states[i - 1], steps[i - 1].bytes); }
    }
  }

  // ---------------------------------------------------------------- what every run guarantees

  /** A resolved request carries the result of the first reply with its own id that came after it
      was issued, and no reply with that id came in between; a request still pending has had no
      reply at all; and every request is either pending or settled, never both. */
  lemma ResolvedByOwnFirstReply(parse: Bytes -> Option<Json>, states: seq<Transport>, steps: seq<Step>, i: nat,
      id: RequestId)
    requires IsRun(parse, states, steps) && i < |states| && id in states[i].issued
    ensures var t := states[i]; var from := t.issued[id];
      && (id in t.pending <==> id !in t.settled)
      && (id in t.pending ==> NoReply(t.replies, from, |t.replies|, id))
      && (id in t.settled && t.settled[id].outcome.Resolved? ==>
            var k := t.settled[id].at;
            && from <= k < |t.replies|
            && t.replies[k] == OkReply(id, t.settled[id].outcome.result)
            && NoReply(t.replies, from, k, id))
  {
    RunKeeps(parse, states, steps, i);
  }

  /** Whether a step, by what it did, ends the conversation with the helper. */
  predicate EndsConversation(t: Transport, parse: Bytes -> Option<Json>, step: Step) {
    || step.Close? || step.Exit? || step.ChildError?
    || (step.Chunk? && Decode(Bridge, parse, t.buffer + step.bytes).Corrupt?)
  }

  /** Nothing hangs: right after a close, an exit, a helper error or a corrupt chunk, and at any
      time with no helper attached, every request issued so far is settled. */
  lemma NothingHangs(parse: Bytes -> Option<Json>, states: seq<Transport>, steps: seq<Step>, i: nat)
    requires IsRun(parse, states, steps) && i < |states|
    requires states[i].child.None? || (i > 0 && EndsConversation(states[i - 1], parse, steps[i - 1]))
    ensures forall id :: id in states[i].issued ==> id in states[i].settled
  {
    if i > 0 { assert IsStep(parse, states[i - 1], steps[i - 1], states[i - 1 + 1]); }
    RunKeeps(parse, states, steps, i);
    var t := states[i];
    forall id | id in t.issued ensures id in t.settled { assert id !in t.pending.Keys; }
  }

  lemma {:induction false} DispatchAllKeepsSettled(t: Transport, frames: seq<Json>, id: RequestId)
    requires Correlated(t) && id in t.settled
    ensures id in DispatchAll(t, frames).settled && DispatchAll(t, frames).settled[id] == t.settled[id]
    decreases |frames|
  {
    if frames == [] {
    } else {
      DispatchAllKeeps(t, frames[..|frames| - 1]);
      DispatchAllKeepsSettled(t, frames[..|frames| - 1], id);
    }
  }

  lemma SettledStep(parse: Bytes -> Option<Json>, t: Transport, step: Step, id: RequestId)
    requires Correlated(t) && Enabled(t, step) && id in t.settled
    ensures var t' := Apply(t, parse, step); id in t'.settled && t'.settled[id] == t.settled[id]
  {
    if step.Chunk? {
      var d := Decode(Bridge, parse, t.buffer + step.bytes);
      if d.Frames? { DispatchAllKeepsSettled(t.(buffer := d.rest, received := t.received + step.bytes), d.frames, id); }
    }
  }

  /** A request settles once: no later reply, abort, write error, exit or close changes how. */
  lemma {:induction false} SettledForever(
      parse: Bytes -> Option<Json>, states: seq<Transport>, steps: seq<Step>, i: nat, j: nat, id: RequestId)
    requires IsRun(parse, states, steps) && i <= j < |states| && id in states[i].settled
    ensures id in states[j].settled && states[j].settled[id] == states[i].settled[id]
    decreases j
  {
    if i == j {
    } else {
      SettledForever(parse, states, steps, i, j - 1, id);
      RunKeeps(parse, states, steps, j - 1);
      assert IsStep(parse, states[j - 1], steps[j - 1], states[j - 1 + 1]);
      SettledStep(parse, states[j - 1], steps[j - 1], id);
    }
  }

  /** The handler of a step calls the resolve or reject of request id. */
  ghost predicate Tries(t: Transport, parse: Bytes -> Option<Json>, step: Step, id: RequestId) {
    match step
    case Request(i, _, fits, aborted) => i == id && (t.child != Some(false) || !fits || aborted)
    case WriteError(i) => i == id
    case Abort(i) => i == id && id in t.listening
    case Chunk(bytes) =>
      (match Decode(Bridge, parse, t.buffer + bytes)
       case Corrupt(_, _) => id in t.pending
       case Frames(frames, rest) =>
         exists n :: 0 <= n < |frames| && TriesAt(t.(buffer := rest, received := t.received + bytes), frames, n, id))
    case ChildError => id in t.pending
    case Exit => id in t.pending
    case Close => id in t.pending
    case _ => false
  }

  /** Dispatching the n-th frame does. */
  ghost predicate TriesAt(t: Transport, frames: seq<Json>, n: int, id: RequestId)
    requires 0 <= n < |frames|
  {
    var reply := ParseReply(frames[n]);
    reply.Some? && reply.value.id == id && id in DispatchAll(t, frames[..n]).pending
  }

  /** In every run, only the write callback ever tries to settle a request that has settled. */
  lemma OnlyWriteErrorsComeLate(
      parse: Bytes -> Option<Json>, states: seq<Transport>, steps: seq<Step>, i: nat, id: RequestId)
    requires IsRun(parse, states, steps) && i < |steps| && id in states[i].settled
    ensures Tries(states[i], parse, steps[i], id) ==> steps[i] == WriteError(id)
  {
    RunKeeps(parse, states, steps, i);
    var t, step := states[i], steps[i];
    assert IsStep(parse, t, step, states[i + 1]);
    assert id !in t.pending.Keys;
    if step.Chunk? {
      var d := Decode(Bridge, parse, t.buffer + step.bytes);
      if d.Frames? {
        var t0 := t.(buffer := d.rest, received := t.received + step.bytes);
        forall n | 0 <= n < |d.frames| ensures !TriesAt(t0, d.frames, n, id) {
          SettledIsNotPending(t0, d.frames[..n], id);
        }
      }
    }
  }

  lemma SettledIsNotPending(t: Transport, frames: seq<Json>, id: RequestId)
    requires Correlated(t) && id in t.settled
    ensures id !in DispatchAll(t, frames).pending
  {
    DispatchAllKeeps(t, frames);
    DispatchAllKeepsSettled(t, frames, id);
    assert id !in DispatchAll(t, frames).pending.Keys;
  }

  /** Every well-formed reply to a request that is still pending settles it, with that reply. */
  lemma ReplySettles(t: Transport, frame: Json, r: Reply)
    requires Correlated(t) && ParseReply(frame) == Some(r) && r.id in t.pending
    ensures var t' := Dispatch(t, frame);
      && r.id in t'.settled && t'.settled[r.id] == Settlement(OutcomeOf(r), |t.replies|)
      && t'.pending == t.pending - {r.id}
      && (forall id :: id in t.settled ==> id in t'.settled && t'.settled[id] == t.settled[id])
  {
    assert r.id in t.pending.Keys;
  }

  // ---------------------------------------------------------------- every request gets its reply

  /** An object with a numeric v and this string id. */
  predicate IsEnvelopeFor(j: Json, id: RequestId) {
    j.Obj? && Lookup(j.fields, Js("id")) == Some(Str(id)) &&
    var v := Lookup(j.fields, Js("v")); v.Some? && v.value.Num?
  }

  /** An ok envelope, with its result property if it has one. */
  predicate IsOkReplyTo(j: Json, id: RequestId, result: Option<Json>) {
    IsEnvelopeFor(j, id) && Lookup(j.fields, Js("ok")) == Some(Bool(true)) && Lookup(j.fields, Js("result")) == result
  }

  /** A failure envelope whose error has this string code and a string message. */
  predicate IsErrReplyTo(j: Json, id: RequestId, code: JsString) {
    IsEnvelopeFor(j, id) && Lookup(j.fields, Js("ok")) == Some(Bool(false)) &&
    var error := Lookup(j.fields, Js("error"));
    error.Some? && error.value.Obj? && Lookup(error.value.fields, Js("code")) == Some(Str(code)) &&
    var message := Lookup(error.value.fields, Js("message")); message.Some? && message.value.Str?
  }

  ghost predicate IsReplyTo(j: Json, id: RequestId) {
    (exists result :: IsOkReplyTo(j, id, result)) || (exists code :: IsErrReplyTo(j, id, code))
  }

  lemma ParsedIsReply(j: Json, id: RequestId)
    ensures ParseReply(j).Some? && ParseReply(j).value.id == id ==> IsReplyTo(j, id)
    ensures forall result :: IsOkReplyTo(j, id, result) ==> ParseReply(j) == Some(OkReply(id, result))
    ensures forall code :: IsErrReplyTo(j, id, code) ==>
      ParseReply(j).Some? && ParseReply(j).value.ErrReply? && ParseReply(j).value.id == id
      && ParseReply(j).value.code == code
  {
    if ParseReply(j).Some? && ParseReply(j).value.id == id {
      match ParseReply(j).value
      case OkReply(_, result) => assert IsOkReplyTo(j, id, result);
      case ErrReply(_, code, _) => assert IsErrReplyTo(j, id, code);
    }
  }

  /** Until a reply to it comes, a request stays pending. */
  lemma {:induction false} StaysPending(t: Transport, frames: seq<Json>, id: RequestId)
    requires id in t.pending && forall k :: 0 <= k < |frames| ==> !IsReplyTo(frames[k], id)
    ensures id in DispatchAll(t, frames).pending
    decreases |frames|
  {
    if frames == [] {
    } else {
      var n := |frames| - 1;
      StaysPending(t, frames[..n], id);
      ParsedIsReply(frames[n], id);
    }
  }

  /** A request settled by the first frames stays settled so. */
  lemma {:induction false} PrefixSettles(t: Transport, frames: seq<Json>, m: nat, id: RequestId)
    requires Correlated(t) && m <= |frames| && id in DispatchAll(t, frames[..m]).settled
    ensures id in DispatchAll(t, frames).settled
    ensures DispatchAll(t, frames).settled[id] == DispatchAll(t, frames[..m]).settled[id]
    decreases |frames|
  {
    if m == |frames| {
      assert frames[..m] == frames;
    } else {
      var n := |frames| - 1;
      assert frames[..n][..m] == frames[..m];
      PrefixSettles(t, frames[..n], m, id);
      DispatchAllKeeps(t, frames[..n]);
      assert id !in DispatchAll(t, frames[..n]).pending.Keys;
    }
  }

  lemma FirstReplySettles(t: Transport, frames: seq<Json>, n: nat, id: RequestId)
    requires Correlated(t) && id in t.pending && n < |frames|
    requires (forall k :: 0 <= k < n ==> !IsReplyTo(frames[k], id)) && IsReplyTo(frames[n], id)
    ensures id in DispatchAll(t, frames).settled && ParseReply(frames[n]).Some?
    ensures DispatchAll(t, frames).settled[id].outcome == OutcomeOf(ParseReply(frames[n]).value)
  {
    var before := DispatchAll(t, frames[..n]);
    StaysPending(t, frames[..n], id);
    DispatchAllKeeps(t, frames[..n]);
    ParsedIsReply(frames[n], id);
    assert id in before.pending.Keys;
    assert frames[..n + 1][..n] == frames[..n];
    assert DispatchAll(t, frames[..n + 1]) == Dispatch(before, frames[n]);
    PrefixSettles(t, frames, n + 1, id);
  }

  /** A pending request whose first reply arrives in a chunk that decodes is settled for good by that
      reply: resolved with its result if it is ok, rejected with the error of its code if not. */
  lemma RequestGetsItsReply(
      parse: Bytes -> Option<Json>, states: seq<Transport>, steps: seq<Step>, i: nat, j: nat,
      frames: seq<Json>, rest: Bytes, n: nat, id: RequestId)
    requires IsRun(parse, states, steps) && i < j < |states| && steps[i].Chunk? && id in states[i].pending
    requires Decode(Bridge, parse, states[i].buffer + steps[i].bytes) == Frames(frames, rest)
    requires n < |frames| && (forall k :: 0 <= k < n ==> !IsReplyTo(frames[k], id)) && IsReplyTo(frames[n], id)
    ensures id in states[j].settled
    ensures forall result :: IsOkReplyTo(frames[n], id, result) ==>
      states[j].settled[id].outcome == Resolved(result)
    ensures forall code :: IsErrReplyTo(frames[n], id, code) ==>
      states[j].settled[id].outcome == Rejected(if code in WIRE_ERRORS then WIRE_ERRORS[code] else RemoteError)
  {
    var t := states[i].(buffer := rest, received := states[i].received + steps[i].bytes);
    RunKeeps(parse, states, steps, i);
    assert IsStep(parse, states[i], steps[i], states[i + 1]);
    FirstReplySettles(t, frames, n, id);
    SettledForever(parse, states, steps, i + 1, j, id);
    ParsedIsReply(frames[n], id);
    if ParseReply(frames[n]).value.ErrReply? { FromWireIsTable(ParseReply(frames[n]).value.code); }
  }

  /** How a request fails without a reply: as a transport failure by a write error, an abort, a helper
      error or an exit; as invalid by a corrupt stream; as not connected by a close. */
  lemma FailuresByStep(parse: Bytes -> Option<Json>, states: seq<Transport>, steps: seq<Step>, k: nat, id: RequestId)
    requires IsRun(parse, states, steps) && k < |steps| && id in states[k].pending
    ensures steps[k] == WriteError(id) || steps[k] == Abort(id) || steps[k].ChildError? || steps[k].Exit? ==>
      id in states[k + 1].settled && states[k + 1].settled[id].outcome == Rejected(TransportError)
    ensures steps[k].Close? ==>
      id in states[k + 1].settled && states[k + 1].settled[id].outcome == Rejected(NotConnectedError)
    ensures steps[k].Chunk? && Decode(Bridge, parse, states[k].buffer + steps[k].bytes).Corrupt? ==>
      id in states[k + 1].settled && states[k + 1].settled[id].outcome == Rejected(ValidationError)
  {
    RunKeeps(parse, states, steps, k);
    assert IsStep(parse, states[k], steps[k], states[k + 1]);
    assert id in states[k].pending.Keys;
  }

  /** A new request is written exactly when the helper is live, its frame fits and it was not aborted;
      otherwise it fails at once, for the first of these reasons. */
  lemma RequestAtOnce(parse: Bytes -> Option<Json>, states: seq<Transport>, steps: seq<Step>, k: nat)
    requires IsRun(parse, states, steps) && k < |steps| && steps[k].Request?
    ensures var t, t', r := states[k], states[k + 1], steps[k];
      && (r.id in t'.pending <==> t.child == Some(false) && r.fits && !r.aborted)
      && (r.id !in t'.pending <==> r.id in t'.settled)
      && (t.child != Some(false) ==> t'.settled[r.id].outcome == Rejected(NotConnectedError))
      && (t.child == Some(false) && !r.fits ==> t'.settled[r.id].outcome == Rejected(ValidationError))
      && (t.child == Some(false) && r.fits && r.aborted ==> t'.settled[r.id].outcome == Rejected(TransportError))
  {
    RunKeeps(parse, states, steps, k);
    assert IsStep(parse, states[k], steps[k], states[k + 1]);
    assert steps[k].id !in states[k].settled.Keys && steps[k].id !in states[k].pending.Keys;
  }

  // ---------------------------------------------------------------- written, and yet "not connected"

  /** A request pending before a step and settled by it. */
  ghost predicate SettledBy(states: seq<Transport>, k: nat, id: RequestId)
    requires k + 1 < |states|
  {
    id in states[k].pending && id in states[k + 1].settled
  }

  lemma {:induction false} SettlingStep(
      parse: Bytes -> Option<Json>, states: seq<Transport>, steps: seq<Step>, i: nat, j: nat, id: RequestId)
    returns (k: nat)
    requires IsRun(parse, states, steps) && i < j < |states| && id in states[i].pending && id in states[j].settled
    ensures i <= k < j && SettledBy(states, k, id)
    decreases j
  {
    StaysIssued(parse, states, steps, i, j - 1, id);
    PendingOrSettled(parse, states, steps, j - 1, id);
    if id in states[j - 1].pending {
      k := j - 1;
    } else {
      k := SettlingStep(parse, states, steps, i, j - 1, id);
    }
  }

  lemma PendingOrSettled(
      parse: Bytes -> Option<Json>, states: seq<Transport>, steps: seq<Step>, i: nat, id: RequestId)
    requires IsRun(parse, states, steps) && i < |states| && id in states[i].issued
    ensures id in states[i].pending <==> id !in states[i].settled
  {
    RunKeeps(parse, states, steps, i);
    assert id in states[i].pending.Keys <==> id !in states[i].settled.Keys;
  }

  lemma {:induction false} StaysIssued(
      parse: Bytes -> Option<Json>, states: seq<Transport>, steps: seq<Step>, i: nat, j: nat, id: RequestId)
    requires IsRun(parse, states, steps) && i <= j < |states| && id in states[i].pending
    ensures id in states[j].issued
    decreases j
  {
    if i == j {
      RunKeeps(parse, states, steps, i);
      assert id in states[i].pending.Keys;
    } else {
      StaysIssued(parse, states, steps, i, j - 1, id);
      assert IsStep(parse, states[j - 1], steps[j - 1], states[j - 1 + 1]);
      IssuedStep(parse, states[j - 1], steps[j - 1], id);
    }
  }

  lemma IssuedStep(parse: Bytes -> Option<Json>, t: Transport, step: Step, id: RequestId)
    requires id in t.issued
    ensures id in Apply(t, parse, step).issued
  {
    if step.Chunk? {
      var d := Decode(Bridge, parse, t.buffer + step.bytes);
      if d.Frames? { DispatchAllFrame(t.(buffer := d.rest, received := t.received + step.bytes), d.frames); }
    }
  }

  /** A reply with the wire code for "not connected" settled the request. */
  ghost predicate RepliedNotConnected(t: Transport, id: RequestId) {
    id in t.settled && t.settled[id].at < |t.replies| &&
    var r := t.replies[t.settled[id].at]; r.ErrReply? && r.id == id && r.code == Js("NOT_CONNECTED")
  }

  lemma WireCodes(code: JsString)
    ensures FromWire(code) == NotConnectedError <==> code == Js("NOT_CONNECTED")
  {
    assert |Js("NOT_CONNECTED")| == 13 && |Js("UNAVAILABLE")| == 11;
  }

  lemma {:induction false} SettledByReply(t: Transport, frames: seq<Json>, id: RequestId)
    requires Correlated(t) && id in t.pending && id in DispatchAll(t, frames).settled
    ensures var t' := DispatchAll(t, frames);
      t'.settled[id].at < |t'.replies| && t'.replies[t'.settled[id].at].id == id
      && t'.settled[id].outcome == OutcomeOf(t'.replies[t'.settled[id].at])
    decreases |frames|
  {
    assert id in t.pending.Keys;
    if frames != [] {
      var n := |frames| - 1;
      var m := DispatchAll(t, frames[..n]);
      DispatchAllKeeps(t, frames[..n]);
      if id in m.settled.Keys {
        SettledByReply(t, frames[..n], id);
        assert id !in m.pending.Keys;
      }
    }
  }

  /** A chunk that settles a request does so by a reply, or the stream was corrupt. */
  lemma ChunkSettles(parse: Bytes -> Option<Json>, t: Transport, bytes: Bytes, id: RequestId)
    requires Correlated(t) && id in t.pending && id in OnStdout(t, parse, bytes).settled
    ensures var t' := OnStdout(t, parse, bytes);
      t'.settled[id].outcome == Rejected(NotConnectedError) <==> RepliedNotConnected(t', id)
  {
    assert id in t.pending.Keys;
    match Decode(Bridge, parse, t.buffer + bytes)
    case Corrupt(_, _) =>
    case Frames(frames, rest) =>
      var t0 := t.(buffer := rest, received := t.received + bytes);
      SettledByReply(t0, frames, id);
      var r := DispatchAll(t0, frames).replies[DispatchAll(t0, frames).settled[id].at];
      if r.ErrReply? { WireCodes(r.code); }
  }

  lemma SettledNotConnectedIff(parse: Bytes -> Option<Json>, t: Transport, step: Step, id: RequestId)
    requires Correlated(t) && Enabled(t, step) && id in t.pending && id in Apply(t, parse, step).settled
    ensures var t' := Apply(t, parse, step);
      t'.settled[id].outcome == Rejected(NotConnectedError) <==> step.Close? || RepliedNotConnected(t', id)
  {
    assert id in t.pending.Keys;
    if step.Chunk? { ChunkSettles(parse, t, step.bytes, id); }
  }

  /** A request that was written, and has settled since, ends in the error that says it never was
      sent if and only if the step that settled it was a close, or a reply saying so. */
  lemma WrittenButNotConnectedIff(
      parse: Bytes -> Option<Json>, states: seq<Transport>, steps: seq<Step>, i: nat, j: nat, id: RequestId)
    returns (k: nat)
    requires IsRun(parse, states, steps) && i < j < |states| && id in states[i].pending && id in states[j].settled
    ensures i <= k < j && SettledBy(states, k, id)
    ensures states[j].settled[id].outcome == Rejected(NotConnectedError) <==>
              steps[k].Close? || RepliedNotConnected(states[k + 1], id)
  {
    k := SettlingStep(parse, states, steps, i, j, id);
    RunKeeps(parse, states, steps, k);
    assert IsStep(parse, states[k], steps[k], states[k + 1]);
    SettledNotConnectedIff(parse, states[k], steps[k], id);
    SettledForever(parse, states, steps, k + 1, j, id);
  }

  /** It happens: connect, write a request, close. */
  lemma WrittenThenClosed(parse: Bytes -> Option<Json>, id: RequestId, method_: JsString)
    returns (states: seq<Transport>, steps: seq<Step>)
    ensures steps == [Spawned, Request(id, method_, true, false), Close] && IsRun(parse, states, steps)
    ensures id in states[2].pending
    ensures id in states[3].settled && states[3].settled[id].outcome == Rejected(NotConnectedError)
  {
    steps := [Spawned, Request(id, method_, true, false), Close];
    var s1 := Apply(Idle, parse, steps[0]);
    var s2 := Apply(s1, parse, steps[1]);
    var s3 := Apply(s2, parse, steps[2]);
    states := [Idle, s1, s2, s3];
    assert IsStep(parse, Idle, steps[0], s1) && IsStep(parse, s1, steps[1], s2) && IsStep(parse, s2, steps[2], s3);
    assert id in s2.pending.Keys;
  }

  // ---------------------------------------------------------------- after an over-long header

  /** The buffer starts with an over-long header. */
  ghost predicate IsStuck(t: Transport, parse: Bytes -> Option<Json>) {
    Decode(Bridge, parse, t.buffer) == Corrupt(TooLong, t.buffer)
  }

  lemma StuckStep(parse: Bytes -> Option<Json>, t: Transport, step: Step)
    requires IsStuck(t, parse)
    ensures IsStuck(Apply(t, parse, step), parse) && Apply(t, parse, step).replies == t.replies
  {
    if step.Chunk? {
      OverlongHeaderIsPermanent(Bridge, parse, t.buffer, step.bytes);
      assert t.buffer + step.bytes + [] == t.buffer + step.bytes;
    }
  }

  lemma {:induction false} StuckForever(
      parse: Bytes -> Option<Json>, states: seq<Transport>, steps: seq<Step>, i: nat, j: nat)
    requires IsRun(parse, states, steps) && i <= j < |states| && IsStuck(states[i], parse)
    ensures IsStuck(states[j], parse) && states[j].replies == states[i].replies
    decreases j
  {
    if i == j {
    } else {
      StuckForever(parse, states, steps, i, j - 1);
      assert IsStep(parse, states[j - 1], steps[j - 1], states[j - 1 + 1]);
      StuckStep(parse, states[j - 1], steps[j - 1]);
    }
  }

  /** The decoder is never reset: after a chunk with an over-long header no reply is dispatched and
      no request resolves any more, not even one issued after a reconnect. */
  lemma NothingResolvesAfterOverlong(
      parse: Bytes -> Option<Json>, states: seq<Transport>, steps: seq<Step>, i: nat, j: nat, id: RequestId)
    requires IsRun(parse, states, steps) && i < j < |states| && steps[i].Chunk?
    requires var d := Decode(Bridge, parse, states[i].buffer + steps[i].bytes); d.Corrupt? && d.error == TooLong
    requires id in states[j].settled && id !in states[i].settled
    ensures states[j].replies == states[i].replies && states[j].settled[id].outcome.Rejected?
  {
    var buf := states[i].buffer + steps[i].bytes;
    var left := Decode(Bridge, parse, buf).left;
    assert IsStep(parse, states[i], steps[i], states[i + 1]);
    OverlongHeaderIsPermanent(Bridge, parse, buf, []);
    assert left + [] == left;
    StuckForever(parse, states, steps, i + 1, j);
    RunKeeps(parse, states, steps, j);
    UnsettledHadNoReply(parse, states, steps, i, j, id);
  }

  /** A request not settled at i settles, if at all, after all replies dispatched by then. */
  lemma {:induction false} UnsettledHadNoReply(
      parse: Bytes -> Option<Json>, states: seq<Transport>, steps: seq<Step>, i: nat, j: nat, id: RequestId)
    requires IsRun(parse, states, steps) && i < j < |states| && id !in states[i].settled && id in states[j].settled
    ensures states[j].settled[id].at >= |states[i].replies|
    decreases j
  {
    assert IsStep(parse, states[j - 1], steps[j - 1], states[j - 1 + 1]);
    if id in states[j - 1].settled {
      UnsettledHadNoReply(parse, states, steps, i, j - 1, id);
      RunKeeps(parse, states, steps, j - 1);
      SettledStep(parse, states[j - 1], steps[j - 1], id);
    } else {
      RepliesGrow(parse, states, steps, i, j - 1);
      SettlesAtEnd(parse, states[j - 1], steps[j - 1], id);
    }
  }

  lemma SettlesAtEnd(parse: Bytes -> Option<Json>, t: Transport, step: Step, id: RequestId)
    requires id !in t.settled && id in Apply(t, parse, step).settled
    ensures Apply(t, parse, step).settled[id].at >= |t.replies|
  {
    if step.Chunk? {
      var d := Decode(Bridge, parse, t.buffer + step.bytes);
      if d.Frames? { DispatchSettlesAtEnd(t.(buffer := d.rest, received := t.received + step.bytes), d.frames, id); }
    }
  }

  lemma {:induction false} DispatchSettlesAtEnd(t: Transport, frames: seq<Json>, id: RequestId)
    requires id !in t.settled && id in DispatchAll(t, frames).settled
    ensures DispatchAll(t, frames).settled[id].at >= |t.replies|
    decreases |frames|
  {
    if frames == [] {
    } else {
      var n := |frames| - 1;
      DispatchAllFrame(t, frames[..n]);
      if id in DispatchAll(t, frames[..n]).settled { DispatchSettlesAtEnd(t, frames[..n], id); }
    }
  }

  lemma {:induction false} RepliesGrow(
      parse: Bytes -> Option<Json>, states: seq<Transport>, steps: seq<Step>, i: nat, j: nat)
    requires IsRun(parse, states, steps) && i <= j < |states|
    ensures |states[i].replies| <= |states[j].replies|
    decreases j
  {
    if i == j {
    } else {
      RepliesGrow(parse, states, steps, i, j - 1);
      assert IsStep(parse, states[j - 1], steps[j - 1], states[j - 1 + 1]);
      RepliesStep(parse, states[j - 1], steps[j - 1]);
    }
  }

  lemma RepliesStep(parse: Bytes -> Option<Json>, t: Transport, step: Step)
    ensures |t.replies| <= |Apply(t, parse, step).replies|
  {
    if step.Chunk? {
      var d := Decode(Bridge, parse, t.buffer + step.bytes);
      if d.Frames? { DispatchAllFrame(t.(buffer := d.rest, received := t.received + step.bytes), d.frames); }
    }
  }

  /** Two uncorrupted transports that read the same bytes dispatched the same replies, however the
      bytes arrived. */
  lemma RepliesDependOnBytesOnly(parse: Bytes -> Option<Json>, states: seq<Transport>, steps: seq<Step>, i: nat,
                                 states': seq<Transport>, steps': seq<Step>, j: nat)
    requires IsRun(parse, states, steps) && i < |states| && IsRun(parse, states', steps') && j < |states'|
    requires states[i].received == states'[j].received && !states[i].corrupt && !states'[j].corrupt
    ensures states[i].replies == states'[j].replies && states[i].buffer == states'[j].buffer
  {
    RunKeeps(parse, states, steps, i);
    RunKeeps(parse, states', steps', j);
  }

  // ---------------------------------------------------------------- the handlers as written

  /** The transport object. `settled` holds the state of the promises it handed out; the ghost
      fields record what the model's history records. */
  class XpcBridge {
    var child: Option<bool>
    const decoder: Decoder<Json>
    var pending: map<RequestId, JsString>
    var listening: set<RequestId>
    var settled: map<RequestId, Settlement>
    var dispatched: nat
    ghost var issued: map<RequestId, nat>
    ghost var replies: seq<Reply>
    ghost var received: Bytes
    ghost var corrupt: bool

    ghost function View(): Transport
      reads this, decoder
    {
      Transport(child, decoder.buffer, pending, listening, issued, settled, replies, received, corrupt)
    }

    ghost predicate Valid()
      reads this, decoder
    {
      decoder.dialect == Bridge && dispatched == |replies|
    }

    constructor (parse: Bytes -> Option<Json>)
      ensures Valid() && View() == Idle && decoder.parse == parse && fresh(decoder)
    {
      decoder := new Decoder(Bridge, parse);
      child, pending, listening, settled, dispatched := None, map[], {}, map[], 0;
      issued, replies, received, corrupt := map[], [], [], false;
    }

    /** A promise's resolve or reject: only the first call counts. */
    method SettlePromise(id: RequestId, o: Outcome)
      requires Valid()
      modifies this`settled
      ensures settled == Settle(old(View()), id, o)
    {
      if id !in settled { settled := settled[id := Settlement(o, dispatched)]; }
    }

    /** The reject callback stored in the pending map. */
    method RejectPending(id: RequestId, e: Error, ghost t: Transport, ghost done: set<RequestId>)
      requires Valid() && View() == RejectAll(t, done, e)
      modifies this`listening, this`settled
      ensures Valid() && View() == RejectAll(t, done + {id}, e)
    {
      RejectOneMore(t, done, id, e);
      SettlePromise(id, Rejected(e));
      listening := listening - {id};
    }

    method RejectEach(e: Error)
      requires Valid()
      modifies this`listening, this`settled
      ensures Valid() && View() == RejectAll(old(View()), pending.Keys, e)
    {
      ghost var t, all := View(), pending.Keys;
      ghost var done: set<RequestId> := {};
      var left := pending.Keys;
      RejectNone(t, e);
      while left != {}
        invariant Valid() && done + left == all
        invariant View() == RejectAll(t, done, e)
        decreases left
      {
        var id :| id in left;
        RejectPending(id, e, t, done);
        left, done := left - {id}, done + {id};
      }
      assert done == all;
    }

    /** failAll: reject every pending promise, which removes its abort listener, then clear. */
    method FailAllPending(e: Error)
      requires Valid()
      modifies this`pending, this`listening, this`settled
      ensures Valid() && View() == FailAll(old(View()), e)
    {
      RejectEach(e);
      pending := map[];
    }

    /** The rest of dispatch, once the id is known to be pending. */
    method SettleWithReply(r: Reply)
      requires Valid() && r.id in pending
      modifies this`pending, this`listening, this`settled
      ensures Valid() && View() == Finish(old(View()), r.id, OutcomeOf(r))
    {
      pending := pending - {r.id};
      listening := listening - {r.id};
      match r {
        case OkReply(id, result) => SettlePromise(id, Resolved(result));
        case ErrReply(id, code, _) => SettlePromise(id, Rejected(FromWire(code)));
      }
    }

    /** dispatch: parse the envelope, look the id up, drop the correlation, settle. */
    method DispatchFrame(frame: Json)
      requires Valid()
      modifies this
      ensures Valid() && View() == Dispatch(old(View()), frame)
    {
      var reply := ParseReply(frame);
      if reply.None? { return; }
      var r := reply.value;
      if r.id in pending { SettleWithReply(r); }
      replies := replies + [r];
      dispatched := dispatched + 1;
    }

    method CloseNow()
      requires Valid()
      modifies this
      ensures Valid() && View() == CloseTransport(old(View()))
    {
      child := None;
      FailAllPending(NotConnectedError);
    }

    method OnExit()
      requires Valid()
      modifies this
      ensures Valid() && View() == FailAll(old(View()).(child := None), TransportError)
    {
      child := None;
      FailAllPending(TransportError);
    }

    /** onStdout: push the chunk; a corrupt stream fails everything and closes, otherwise every
        decoded frame is dispatched in order. */
    method OnStdoutChunk(chunk: Bytes)
      requires Valid()
      modifies this, decoder
      ensures Valid() && View() == OnStdout(old(View()), decoder.parse, chunk)
    {
      received := received + chunk;
      var r := decoder.Push(chunk);
      if r.Err? {
        corrupt := true;
        FailAllPending(ValidationError);
        CloseNow();
        return;
      }
      var frames := r.value;
      ghost var t := View();
      for i := 0 to |frames|
        invariant Valid() && View() == DispatchAll(t, frames[..i])
      {
        assert frames[..i + 1][..i] == frames[..i];
        DispatchFrame(frames[i]);
      }
      assert frames[..|frames|] == frames;
    }

    /** request, up to the write: reject at once when there is no live helper, the frame is too
        long or the signal already fired; otherwise remember the correlation. */
    method StartRequest(id: RequestId, method_: JsString, body: Bytes, aborted: bool) returns (frame: Option<Bytes>)
      requires Valid() && id !in issued
      modifies this
      ensures Valid() && View() == NewRequest(old(View()), id, method_, |body| <= Bridge.cap, aborted)
      ensures frame.Some? <==> old(child) == Some(false) && |body| <= Bridge.cap && !aborted
      ensures frame.Some? ==> Encode(Bridge, body) == Ok(frame.value)
    {
      issued := issued[id := |replies|];
      if child != Some(false) {
        SettlePromise(id, Rejected(NotConnectedError));
        return None;
      }
      var encoded := Encode(Bridge, body);
      if encoded.Err? {
        SettlePromise(id, Rejected(ValidationError));
        return None;
      }
      if aborted {
        pending := pending - {id};
        listening := listening - {id};
        SettlePromise(id, Rejected(TransportError));
        return None;
      }
      listening := listening + {id};
      pending := pending[id := method_];
      return Some(encoded.value);
    }

    /** The write callback, which may run long after the request has settled. */
    method OnWriteError(id: RequestId)
      requires Valid() && id in issued
      modifies this
      ensures Valid() && View() == Apply(old(View()), decoder.parse, WriteError(id))
    {
      pending := pending - {id};
      listening := listening - {id};
      SettlePromise(id, Rejected(TransportError));
    }

    /** The abort listener, which is gone once the request has settled. */
    method OnAbort(id: RequestId)
      requires Valid()
      modifies this
      ensures Valid() && View() == Apply(old(View()), decoder.parse, Abort(id))
    {
      if id in listening {
        listening := listening - {id};
        pending := pending - {id};
        SettlePromise(id, Rejected(TransportError));
      }
    }
  }
}
