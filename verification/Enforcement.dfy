/** The connector client (connector-sdk/src/client/connector-client.ts) and the two enforcement
    points on top of it: the editor's prompt interceptor (ide-connectors/vscode/src/interceptor.ts)
    and the browser's native host (browser-connectors/chrome/native-host/src/handlers.ts). */
module Enforcement {
  import opened Basics
  import opened Json
  import opened Errors
  import opened Framing
  import opened BridgeTransport
  import opened Retry
  import opened Deadline

  datatype Action = Allow | Warn | Block

  datatype Risk = Low | Medium | High | Critical

  /** risk is absent on decisions from older agents. */
  datatype Decision = Decision(requestId: JsString, action: Action, risk: Option<Risk>, reason: JsString)

  datatype ScanResponse = ScanResponse(decision: Decision, fromFallback: bool)

  datatype RetryConfig = RetryConfig(maxAttempts: int, base: real, maxDelay: real)

  /** How the outside world behaves during one scan: what connecting throws, how each timed attempt
      of the two calls ends, and what the decision codec makes of a reply. */
  datatype World = World(
    connect: Option<Error>, hello: nat -> CallOutcome, submit: nat -> CallOutcome,
    decode: Option<Json> -> Option<Decision>, random: nat -> real, freshId: JsString)

  const PROTOCOL_VERSION := 1.0

  /** negotiate: the reply must select a supported protocol and the same schema. */
  predicate Negotiated(raw: Option<Json>) {
    raw.Some? && raw.value.Obj? &&
    var proto, schema, agent :=
      Lookup(raw.value.fields, Js("proto")),
      Lookup(raw.value.fields, Js("schema")),
      Lookup(raw.value.fields, Js("agent"));
    && proto == Some(Num(PROTOCOL_VERSION))
    && schema == Some(Str(Js("vguardrail.event/v1")))
    && agent.Some? && agent.value.Str?
  }

  function Handshake(cfg: RetryConfig, world: World): Result<(), Error> {
    if world.connect.Some? then Err(world.connect.value) else
    match RetryResult(world.hello, cfg.maxAttempts, IsRetryable)
    case Err(e) => Err(e)
    case Ok(raw) => if Negotiated(raw) then Ok(()) else Err(VersionMismatchError)
  }

  /** Attempt k of a call is the first, among those allowed, that is not a failure of the given kind. */
  ghost predicate IsFirstDecisive(
      outcome: nat -> CallOutcome, maxAttempts: int, transportToo: bool, k: nat)
  {
    && k < Max(1, maxAttempts)
    && (forall j :: 0 <= j < k ==> Repeats(outcome(j), transportToo))
    && !Repeats(outcome(k), transportToo)
  }

  /** Not connected; for reads also a transport failure. */
  predicate Repeats(o: CallOutcome, transportToo: bool) {
    o == Err(NotConnectedError) || (transportToo && o == Err(TransportError))
  }

  /** A hello reply that selects protocol 1, the same schema, and names the agent. */
  ghost predicate IsAcceptable(raw: Option<Json>) {
    && raw.Some? && raw.value.Obj?
    && Lookup(raw.value.fields, Js("proto")) == Some(Num(1.0))
    && Lookup(raw.value.fields, Js("schema")) == Some(Str(Js("vguardrail.event/v1")))
    && exists agent :: Lookup(raw.value.fields, Js("agent")) == Some(Str(agent))
  }

  /** Connecting did not throw and the first decisive hello attempt got a reply, acceptable or not. */
  ghost predicate HelloReplied(cfg: RetryConfig, world: World, acceptable: bool) {
    world.connect.None? &&
    exists k :: IsFirstDecisive(world.hello, cfg.maxAttempts, true, k)
                && world.hello(k).Ok? && (IsAcceptable(world.hello(k).value) <==> acceptable)
  }

  lemma DecisiveResult(
      outcome: nat -> CallOutcome, maxAttempts: int, transportToo: bool, retryable: Error -> bool, k: nat)
    requires forall e :: retryable(e) <==> e.NotConnectedError? || (transportToo && e.TransportError?)
    requires IsFirstDecisive(outcome, maxAttempts, transportToo, k)
    ensures RetryResult(outcome, maxAttempts, retryable) == outcome(k)
  {
    RetryIsFirstDecisive(outcome, maxAttempts, retryable, k);
  }

  lemma OkIsDecisive(outcome: nat -> CallOutcome, maxAttempts: int, transportToo: bool, retryable: Error -> bool)
    returns (k: nat)
    requires forall e :: retryable(e) <==> e.NotConnectedError? || (transportToo && e.TransportError?)
    requires RetryResult(outcome, maxAttempts, retryable).Ok?
    ensures IsFirstDecisive(outcome, maxAttempts, transportToo, k) && outcome(k).Ok?
    ensures RetryResult(outcome, maxAttempts, retryable) == outcome(k)
  {
    k := LastAttempt(outcome, Max(1, maxAttempts), retryable, 0);
    AttemptsBeforeLast(outcome, Max(1, maxAttempts), retryable, 0);
  }

  /** A session is negotiated if and only if the agent's hello reply is acceptable; any other reply is a
      version mismatch. */
  lemma HandshakeIff(cfg: RetryConfig, world: World)
    ensures Handshake(cfg, world).Ok? <==> HelloReplied(cfg, world, true)
    ensures HelloReplied(cfg, world, false) ==> Handshake(cfg, world) == Err(VersionMismatchError)
    ensures world.connect.Some? ==> Handshake(cfg, world) == Err(world.connect.value)
  {
    if world.connect.None? {
      forall k | IsFirstDecisive(world.hello, cfg.maxAttempts, true, k)
        ensures RetryResult(world.hello, cfg.maxAttempts, IsRetryable) == world.hello(k)
      {
        DecisiveResult(world.hello, cfg.maxAttempts, true, IsRetryable, k);
      }
      if Handshake(cfg, world).Ok? {
        var k := OkIsDecisive(world.hello, cfg.maxAttempts, true, IsRetryable);
        var agent := Lookup(world.hello(k).value.value.fields, Js("agent"));
        assert agent == Some(Str(agent.value.s));
        assert IsAcceptable(world.hello(k).value);
      }
    }
  }

  function ScanResult(cfg: RetryConfig, connected: bool, world: World): Result<ScanResponse, Error> {
    var session := if connected then Ok(()) else Handshake(cfg, world);
    if session.Err? then Err(session.error) else
    match RetryResult(world.submit, cfg.maxAttempts, IsWriteRetryable)
    case Err(e) => Err(e)
    case Ok(raw) =>
      match world.decode(raw)
      case None => Err(ValidationError)
      case Some(d) => Ok(ScanResponse(d, false))
  }

  /** The engine answered this scan: a session, a submitScan call that got through, and a reply
      that decodes to d. */
  predicate Answered(cfg: RetryConfig, connected: bool, world: World, d: Decision) {
    && (connected || Handshake(cfg, world).Ok?)
    && RetryResult(world.submit, cfg.maxAttempts, IsWriteRetryable).Ok?
    && world.decode(RetryResult(world.submit, cfg.maxAttempts, IsWriteRetryable).value) == Some(d)
  }

  /** The same in terms of attempts: a session, and a submitScan attempt k that got a reply decoding to
      d, every attempt before it having ended as not connected. */
  lemma AnsweredIff(cfg: RetryConfig, connected: bool, world: World, d: Decision)
    ensures Answered(cfg, connected, world, d) <==>
      && (connected || HelloReplied(cfg, world, true))
      && exists k :: IsFirstDecisive(world.submit, cfg.maxAttempts, false, k)
                     && world.submit(k).Ok? && world.decode(world.submit(k).value) == Some(d)
  {
    HandshakeIff(cfg, world);
    forall k | IsFirstDecisive(world.submit, cfg.maxAttempts, false, k)
      ensures RetryResult(world.submit, cfg.maxAttempts, IsWriteRetryable) == world.submit(k)
    {
      DecisiveResult(world.submit, cfg.maxAttempts, false, IsWriteRetryable, k);
    }
    if Answered(cfg, connected, world, d) {
      var k := OkIsDecisive(world.submit, cfg.maxAttempts, false, IsWriteRetryable);
    }
  }

  /** The scan failed with e: no session, or no submitScan call got through, or its reply does not decode. */
  predicate FailedWith(cfg: RetryConfig, connected: bool, world: World, e: Error) {
    if !connected && Handshake(cfg, world).Err? then e == Handshake(cfg, world).error
    else match RetryResult(world.submit, cfg.maxAttempts, IsWriteRetryable)
      case Err(submit) => e == submit
      case Ok(raw) => world.decode(raw).None? && e == ValidationError
  }

  /** A decision made up locally: no finding, high risk. */
  function Synthetic(id: JsString, action: Action): Decision {
    Decision(id, action, Some(High), Js("fallback"))
  }

  class Client {
    const cfg: RetryConfig
    var negotiated: bool

    constructor (cfg: RetryConfig)
      ensures this.cfg == cfg && !negotiated
    {
      this.cfg := cfg;
      negotiated := false;
    }

    method Connect(world: World) returns (r: Result<(), Error>)
      modifies this
      ensures r == if old(negotiated) then Ok(()) else Handshake(cfg, world)
      ensures negotiated <==> r.Ok?
      ensures !old(negotiated) ==> (r.Ok? <==> HelloReplied(cfg, world, true))
      ensures !old(negotiated) && HelloReplied(cfg, world, false) ==> r == Err(VersionMismatchError)
      ensures !old(negotiated) && world.connect.Some? ==> r == Err(world.connect.value)
    {
      HandshakeIff(cfg, world);
      if negotiated { return Ok(()); }
      if world.connect.Some? { return Err(world.connect.value); }
      var hello, _, _ := WithRetry(world.hello, cfg.maxAttempts, cfg.base, cfg.maxDelay, world.random, IsRetryable);
      if hello.Err? { return Err(hello.error); }
      if !Negotiated(hello.value) { return Err(VersionMismatchError); }
      negotiated := true;
      return Ok(());
    }

    method Scan(world: World) returns (r: Result<ScanResponse, Error>)
      modifies this
      ensures forall d :: r == Ok(ScanResponse(d, false)) <==> Answered(cfg, old(negotiated), world, d)
      ensures forall e :: r == Err(e) <==> FailedWith(cfg, old(negotiated), world, e)
      ensures r.Ok? ==> !r.value.fromFallback
      ensures r == ScanResult(cfg, old(negotiated), world)
      ensures negotiated <==> old(negotiated) || Handshake(cfg, world).Ok?
    {
      var session := Connect(world);
      if session.Err? { return Err(session.error); }
      var result, _, _ := WithRetry(world.submit, cfg.maxAttempts, cfg.base, cfg.maxDelay, world.random,
          IsWriteRetryable);
      if result.Err? { return Err(result.error); }
      match world.decode(result.value) {
        case None => return Err(ValidationError);
        case Some(d) => return Ok(ScanResponse(d, false));
      }
    }

    method SafeScan(world: World, fallback: Action) returns (r: Result<ScanResponse, Error>)
      modifies this
      ensures forall d :: r == Ok(ScanResponse(d, false)) <==> Answered(cfg, old(negotiated), world, d)
      ensures r.Ok? && r.value.fromFallback <==>
                exists e :: FailedWith(cfg, old(negotiated), world, e) && IsAvailabilityError(e)
      ensures forall e :: FailedWith(cfg, old(negotiated), world, e) ==>
                (r.Ok? <==> e == TimeoutError || e == NotConnectedError || e == TransportError
                            || e == EngineUnavailableError || e.RetryExhaustedError?)
      ensures r.Ok? && r.value.fromFallback ==>
                r.value.decision == Synthetic(world.freshId, fallback) && r.value.decision.action == fallback
      ensures forall e :: r == Err(e) <==> FailedWith(cfg, old(negotiated), world, e) && !IsAvailabilityError(e)
    {
      r := Scan(world);
      if r.Err? && IsAvailabilityError(r.error) {
        r := Ok(ScanResponse(Synthetic(world.freshId, fallback), true));
      }
    }

    method Close()
      modifies this
      ensures !negotiated
    {
      negotiated := false;
    }
  }

  // ---------------------------------------------------------------- the editor's interceptor

  datatype WarnTier = BlockTier | PromptTier | NoticeTier

  function TierOf(risk: Option<Risk>): WarnTier {
    match risk
    case Some(Critical) => BlockTier
    case Some(High) => BlockTier
    case Some(Low) => NoticeTier
    case _ => PromptTier
  }

  datatype Ack = Ack(requestId: JsString, accepted: bool)

  datatype Verdict = Verdict(allowed: bool, response: ScanResponse)

  /** resolve and resolveWarn: the verdict, and the acknowledgements sent on the way. */
  method ResolveResponse(response: ScanResponse, choice: Option<string>) returns (v: Verdict, acks: seq<Ack>)
    ensures v.response == response
    ensures v.allowed <==> !response.fromFallback && Permissive(response.decision, choice)
    ensures acks == if !response.fromFallback && response.decision.action.Warn?
                    then [Ack(response.decision.requestId, v.allowed)] else []
  {
    var d := response.decision;
    if response.fromFallback { return Verdict(false, response), []; }
    match d.action {
      case Allow => return Verdict(true, response), [];
      case Block => return Verdict(false, response), [];
      case Warn =>
        match TierOf(d.risk) {
          case BlockTier => return Verdict(false, response), [Ack(d.requestId, false)];
          case NoticeTier => return Verdict(true, response), [Ack(d.requestId, true)];
          case PromptTier =>
            var accepted := choice == Some("Proceed");
            return Verdict(accepted, response), [Ack(d.requestId, accepted)];
        }
    }
  }

  /** The decisions that let a prompt through: allow; a low-risk warning; a warning of medium or
      unstated risk that the user chose to override. */
  predicate Permissive(d: Decision, choice: Option<string>) {
    || d.action.Allow?
    || (d.action.Warn? && d.risk == Some(Low))
    || (d.action.Warn? && (d.risk == Some(Medium) || d.risk.None?) && choice == Some("Proceed"))
  }

  /** intercept: a prompt is allowed exactly when the engine answered this very scan with a
      permissive decision; every error, whatever its kind, is a block. */
  method Intercept(client: Client, world: World, choice: Option<string>) returns (v: Verdict, acks: seq<Ack>)
    modifies client
    ensures v.allowed <==>
      exists d :: Answered(client.cfg, old(client.negotiated), world, d) && Permissive(d, choice)
    ensures v.allowed ==> !v.response.fromFallback
    ensures v.allowed ==> Answered(client.cfg, old(client.negotiated), world, v.response.decision)
    ensures !old(client.negotiated) && HelloReplied(client.cfg, world, false) ==> !v.allowed
    ensures acks != [] ==> acks == [Ack(v.response.decision.requestId, v.allowed)] && v.response.decision.action.Warn?
    ensures ScanResult(client.cfg, old(client.negotiated), world).Err? ==>
      !v.allowed && acks == [] && v.response.fromFallback && v.response.decision.action.Block?
  {
    HandshakeIff(client.cfg, world);
    var r := client.SafeScan(world, Block);
    var response := if r.Ok? then r.value else ScanResponse(Synthetic(world.freshId, Block), true);
    v, acks := ResolveResponse(response, choice);
  }

  // ---------------------------------------------------------------- the browser's native host

  /** handleScan: the decision sent back to the extension. */
  method HandleScan(client: Client, world: World) returns (d: Decision)
    modifies client
    ensures !d.action.Block? ==> Answered(client.cfg, old(client.negotiated), world, d)
    ensures forall e :: Answered(client.cfg, old(client.negotiated), world, e) ==> d == e
    ensures !old(client.negotiated) && HelloReplied(client.cfg, world, false) ==> d.action.Block?
  {
    HandshakeIff(client.cfg, world);
    var r := client.SafeScan(world, Block);
    d := if r.Ok? then r.value.decision else Synthetic(world.freshId, Block);
  }

  // ---------------------------------------------------------------- down to the bytes on the wire

  /** For writes every attempt but the last ended in NotConnected. */
  lemma OnlyLastWriteMatters<T>(outcome: nat -> Result<T, Error>, maxAttempts: int, j: nat)
    requires j < LastAttempt(outcome, Max(1, maxAttempts), IsWriteRetryable, 0)
    ensures outcome(j) == Err(NotConnectedError)
  {
    AttemptsBeforeLast(outcome, Max(1, maxAttempts), IsWriteRetryable, 0);
  }

  /** End to end over the real transport: if the attempts of the submitScan call are timed requests
      of one transport run, each with its own id, then a permissive answer is the decoded result of
      the first reply to the last attempt's own id, and every earlier attempt was never connected. */
  lemma AllowedByOwnReply(parse: Bytes -> Option<Json>, states: seq<Transport>, steps: seq<BridgeTransport.Step>,
                          cfg: RetryConfig, connected: bool, world: World,
                          ids: nat -> RequestId, fired: nat -> Option<nat>, d: Decision)
    requires IsRun(parse, states, steps)
    requires forall i :: fired(i).Some? ==> fired(i).value < |states|
    requires forall i :: 0 <= i <= LastAttempt(world.submit, Max(1, cfg.maxAttempts), IsWriteRetryable, 0) ==>
      CallResult(states, ids(i), fired(i)) == Some(world.submit(i))
    requires Answered(cfg, connected, world, d)
    ensures var k := LastAttempt(world.submit, Max(1, cfg.maxAttempts), IsWriteRetryable, 0);
      var last := states[|states| - 1];
      && ids(k) in last.issued && ids(k) in last.settled
      && var at := last.settled[ids(k)].at;
      && at < |last.replies| && last.replies[at].OkReply? && last.replies[at].id == ids(k)
      && world.decode(last.replies[at].result) == Some(d)
      && NoReply(last.replies, last.issued[ids(k)], at, ids(k))
      && forall j :: 0 <= j < k ==> world.submit(j) == Err(NotConnectedError)
  {
    var k := LastAttempt(world.submit, Max(1, cfg.maxAttempts), IsWriteRetryable, 0);
    var v := world.submit(k).value;
    SuccessIsOwnReply(parse, states, steps, ids(k), fired(k), v);
    forall j | 0 <= j < k ensures world.submit(j) == Err(NotConnectedError) {
      OnlyLastWriteMatters(world.submit, cfg.maxAttempts, j);
    }
  }

  /** The documented retry rule is not met: a submit that was written and then hit by a close is
      tried again. In the transport run of connect, request, close, the request was pending, so
      written, and every timed call that ends in this way is followed by another attempt whenever
      more than one is allowed. */
  lemma WrittenScanIsRetried(parse: Bytes -> Option<Json>, id: RequestId, submit: nat -> CallOutcome, maxAttempts: int)
    returns (states: seq<Transport>, steps: seq<BridgeTransport.Step>)
    requires maxAttempts >= 2
    ensures IsRun(parse, states, steps) && |steps| == 3
    ensures id in states[2].pending && CallResult(states, id, None) == Some(Err(NotConnectedError))
    ensures CallResult(states, id, None) == Some(submit(0)) ==>
              LastAttempt(submit, Max(1, maxAttempts), IsWriteRetryable, 0) >= 1
  {
    states, steps := WrittenThenClosed(parse, id, Js("submitScan"));
    RetriedIff(submit, maxAttempts, IsWriteRetryable, 0);
  }
}
