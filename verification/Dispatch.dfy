/**
 * The six-gate dispatch chain of crates/bitty-ai-endpoint/src/lib.rs: `run_gates`, the five
 * dispatch entries, and the two handlers that contact an injected provider or executor. The
 * gate predicates, decoders, tables and result encoders are parameters.
 */
module Dispatch {
  import opened Bytes
  import opened Results
  import Fnv

  const MAX_REQUEST_TIMEOUT_MS := 30_000
  const MAX_TOOL_ARGUMENTS_BYTES := 16 * 1024
  const INVOKE_SCOPE := "ai.invoke"
  const CONTEXT_READ := "ai.context_read"
  const COMPLETE := "ai.provider_complete"
  const TOOL := "ai.tool_dispatch"

  datatype IpcError =
    | NotFound(reason: string)
    | ScopeDenied(scope: string, action: string)
    | Timeout(requestId: nat, timeoutMs: nat)
    | LimitExceeded(field: string, limit: nat, actual: nat)
    | InvalidRequest(reason: string)
    | Denied(code: string, reason: string)
    | Internal(reason: string)
    | BudgetExceeded(limit: nat, actual: nat)
    | TimeoutTooLarge(max: nat, actual: nat)

  datatype Input = Input(name: string, requestId: nat, nowMs: nat, createdAtMs: nat, timeoutMs: nat, params: string)

  datatype Outcome =
    | Refused(error: IpcError)
    | NotWired(name: string, scope: string)
    | Ready(name: string, scope: string, result: string)

  // ---------------------------------------------------------------- gates

  /** What the gates consult: method resolution and grant, consent, deadline, params schema. */
  datatype Gates = Gates(
    authorize: string -> Result<string, IpcError>,
    consentLive: (string, nat) -> bool,
    timeoutRange: nat -> Option<IpcError>,
    deadline: (nat, nat) -> nat,
    params: (string, string) -> Option<IpcError>)

  function RunGates(q: Input, g: Gates): Result<string, IpcError> {
    match g.authorize(q.name)
    case Err(e) => Err(e)
    case Ok(scope) =>
      if !g.consentLive(scope, q.nowMs) then Err(ScopeDenied(scope, q.name))
      else
        match g.timeoutRange(q.timeoutMs)
        case Some(e) => Err(e)
        case None =>
          if q.nowMs >= g.deadline(q.createdAtMs, q.timeoutMs) then Err(Timeout(q.requestId, q.timeoutMs))
          else
            match g.params(q.name, q.params)
            case Some(e) => Err(e)
            case None => Ok(scope)
  }

  /** Every gate lets the request through under `scope`. */
  predicate Admitted(q: Input, g: Gates, scope: string) {
    && g.authorize(q.name) == Ok(scope)
    && g.consentLive(scope, q.nowMs)
    && g.timeoutRange(q.timeoutMs).None?
    && q.nowMs < g.deadline(q.createdAtMs, q.timeoutMs)
    && g.params(q.name, q.params).None?
  }

  lemma {:induction false} GatesAdmitExactly(q: Input, g: Gates, scope: string)
    ensures RunGates(q, g) == Ok(scope) <==> Admitted(q, g, scope)
  {
    match g.authorize(q.name)
    case Err(_) =>
    case Ok(_) =>
  }

  // ---------------------------------------------------------------- ordered checks

  /** The first refusal of a list of checks; a check that passes is `None`. */
  function FirstRefusal(checks: seq<Option<IpcError>>): Option<IpcError> {
    if checks == [] then None else if checks[0].Some? then checks[0] else FirstRefusal(checks[1..])
  }

  function Unless(holds: bool, error: IpcError): Option<IpcError> { if holds then None else Some(error) }

  lemma {:induction false} FirstRefusalStops(checks: seq<Option<IpcError>>, k: nat)
    requires k < |checks| && checks[k].Some?
    requires forall j :: 0 <= j < k ==> checks[j].None?
    ensures FirstRefusal(checks) == checks[k]
  {
    if k > 0 {
      FirstRefusalStops(checks[1..], k - 1);
    }
  }

  lemma {:induction false} NoRefusalExactly(checks: seq<Option<IpcError>>)
    ensures FirstRefusal(checks).None? <==> forall j :: 0 <= j < |checks| ==> checks[j].None?
  {
    if checks == [] {
    } else if checks[0].None? {
      NoRefusalExactly(checks[1..]);
      assert forall j :: 0 < j < |checks| ==> checks[j] == checks[1..][j - 1];
      assert forall j :: 0 <= j < |checks| - 1 ==> checks[1..][j] == checks[j + 1];
    }
  }

  function Answered(q: Input, scope: string, r: Result<string, IpcError>): Outcome {
    match r
    case Ok(result) => Ready(q.name, scope, result)
    case Err(e) => Refused(e)
  }

  // ---------------------------------------------------------------- the pure entries

  datatype Tables = Tables(
    gates: Gates,
    readOnly: (string, string) -> Option<Result<string, IpcError>>,
    contextRead: string -> Result<string, IpcError>)

  predicate LaterPhase(name: string) {
    name == CONTEXT_READ || name == COMPLETE || name == TOOL
  }

  function DispatchBare(q: Input, t: Tables): Outcome {
    match RunGates(q, t.gates)
    case Err(e) => Refused(e)
    case Ok(scope) => NotWired(q.name, scope)
  }

  function DispatchWith(q: Input, t: Tables): Outcome {
    match RunGates(q, t.gates)
    case Err(e) => Refused(e)
    case Ok(scope) =>
      if LaterPhase(q.name) then NotWired(q.name, scope)
      else
        match t.readOnly(q.name, q.params)
        case None => NotWired(q.name, scope)
        case Some(r) => Answered(q, scope, r)
  }

  function DispatchWithContext(q: Input, t: Tables): Outcome {
    if q.name != CONTEXT_READ then DispatchWith(q, t)
    else
      match RunGates(q, t.gates)
      case Err(e) => Refused(e)
      case Ok(scope) => Answered(q, scope, t.contextRead(q.params))
  }

  // ---------------------------------------------------------------- the injected provider

  datatype Message = Message(role: string, content: string, size: nat)

  datatype CompleteParams = CompleteParams(
    provider: string, model: string, messages: seq<Message>, contextRefs: seq<string>, tools: seq<string>,
    budget: nat, timeoutMs: nat, nowMs: nat, samplingDeclared: bool)

  datatype TurnRequest = TurnRequest(
    model: string, messages: seq<Message>, contextRefs: seq<string>, tools: seq<string>,
    budget: nat, timeoutMs: nat, nowMs: nat)

  datatype Turn = Turn(text: string, latencyMs: nat)

  class Provider {
    const id: string
    const answer: (nat, TurnRequest) -> Result<Turn, IpcError>
    var requests: seq<TurnRequest>

    constructor (id: string, answer: (nat, TurnRequest) -> Result<Turn, IpcError>)
      ensures this.id == id && this.answer == answer && requests == []
    {
      this.id := id;
      this.answer := answer;
      requests := [];
    }

    method Complete(r: TurnRequest) returns (turn: Result<Turn, IpcError>)
      modifies this
      ensures requests == old(requests) + [r] && turn == answer(|old(requests)|, r)
    {
      turn := answer(|requests|, r);
      requests := requests + [r];
    }
  }

  datatype CompleteEnv = CompleteEnv(
    decode: string -> Result<CompleteParams, IpcError>,
    scopeValid: string -> bool,
    callerScope: string,
    envelopeError: CompleteParams -> Option<IpcError>,
    deadline: (nat, nat) -> nat,
    lateTurn: (nat, nat) -> IpcError,
    encode: Turn -> Result<string, IpcError>)

  function TotalSize(ms: seq<Message>): nat {
    if ms == [] then 0 else TotalSize(ms[..|ms| - 1]) + ms[|ms| - 1].size
  }

  /** The checks before the provider is called, in order. */
  function CompleteChecks(q: Input, d: CompleteParams, env: CompleteEnv, providerId: string): seq<Option<IpcError>> {
    [Unless(!d.samplingDeclared, InvalidRequest("declared sampling carries no values")),
     Unless(env.scopeValid(env.callerScope) && env.callerScope == "provider/" + d.provider,
            ScopeDenied("provider/" + d.provider, COMPLETE)),
     Unless(providerId == d.provider, NotFound("provider and model reference disagree")),
     Unless(TotalSize(d.messages) <= d.budget, BudgetExceeded(d.budget, TotalSize(d.messages))),
     Unless(0 < d.timeoutMs <= MAX_REQUEST_TIMEOUT_MS, TimeoutTooLarge(MAX_REQUEST_TIMEOUT_MS, d.timeoutMs)),
     env.envelopeError(d),
     Unless(q.nowMs < env.deadline(d.nowMs, d.timeoutMs), Timeout(q.requestId, d.timeoutMs))]
  }

  /** What holds of every request that reaches the provider. */
  predicate MayRequest(q: Input, env: CompleteEnv, providerId: string) {
    && env.decode(q.params).Ok?
    && var d := env.decode(q.params).value;
       && !d.samplingDeclared
       && env.scopeValid(env.callerScope) && env.callerScope == "provider/" + d.provider
       && providerId == d.provider
       && TotalSize(d.messages) <= d.budget
       && 0 < d.timeoutMs <= MAX_REQUEST_TIMEOUT_MS
       && env.envelopeError(d).None?
       && q.nowMs < env.deadline(d.nowMs, d.timeoutMs)
  }

  function RequestOf(d: CompleteParams): TurnRequest {
    TurnRequest(d.model, d.messages, d.contextRefs, d.tools, d.budget, d.timeoutMs, d.nowMs)
  }

  /** The request carries what was decoded, field by field. */
  predicate RequestIs(x: TurnRequest, d: CompleteParams) {
    && x.model == d.model && x.messages == d.messages && x.contextRefs == d.contextRefs && x.tools == d.tools
    && x.budget == d.budget && x.timeoutMs == d.timeoutMs && x.nowMs == d.nowMs
  }

  lemma {:induction false} RequestCarriesTheParams(d: CompleteParams, x: TurnRequest)
    ensures x == RequestOf(d) <==> RequestIs(x, d)
  {
  }

  /** A decoded request is refused by its first failing check, or answered by the provider in time. */
  function CompleteResult(q: Input, env: CompleteEnv, providerId: string, answer: TurnRequest -> Result<Turn, IpcError>)
    : Result<string, IpcError>
  {
    match env.decode(q.params)
    case Err(e) => Err(e)
    case Ok(d) =>
      match FirstRefusal(CompleteChecks(q, d, env, providerId))
      case Some(e) => Err(e)
      case None =>
        match answer(RequestOf(d))
        case Err(e) => Err(e)
        case Ok(turn) =>
          if turn.latencyMs > d.timeoutMs then Err(env.lateTurn(d.timeoutMs, turn.latencyMs)) else env.encode(turn)
  }

  lemma {:induction false} RequestPassesEveryCheck(q: Input, env: CompleteEnv, providerId: string)
    ensures MayRequest(q, env, providerId) <==>
      env.decode(q.params).Ok? && FirstRefusal(CompleteChecks(q, env.decode(q.params).value, env, providerId)).None?
  {
    hide FirstRefusal, TotalSize;
    if env.decode(q.params).Ok? {
      var checks := CompleteChecks(q, env.decode(q.params).value, env, providerId);
      NoRefusalExactly(checks);
      assert (forall j :: 0 <= j < 7 ==> checks[j].None?) <==>
        checks[0].None? && checks[1].None? && checks[2].None? && checks[3].None? && checks[4].None? && checks[5].None?
        && checks[6].None?;
    }
  }

  method SumSizes(ms: seq<Message>) returns (total: nat)
    ensures total == TotalSize(ms)
  {
    total := 0;
    for i := 0 to |ms|
      invariant total == TotalSize(ms[..i])
    {
      assert ms[..i + 1][..i] == ms[..i];
      total := total + ms[i].size;
    }
    assert ms[..|ms|] == ms;
  }

  method HandleComplete(q: Input, env: CompleteEnv, provider: Provider) returns (r: Result<string, IpcError>)
    modifies provider
    ensures var n := |old(provider.requests)|; r == CompleteResult(q, env, provider.id, x => provider.answer(n, x))
    ensures provider.requests == old(provider.requests)
      + (if MayRequest(q, env, provider.id) then [RequestOf(env.decode(q.params).value)] else [])
    ensures MayRequest(q, env, provider.id) ==>
      && |provider.requests| == |old(provider.requests)| + 1
      && RequestIs(provider.requests[|old(provider.requests)|], env.decode(q.params).value)
  {
    hide FirstRefusal, TotalSize;
    var decoded := env.decode(q.params);
    if decoded.Err? {
      return Err(decoded.error);
    }
    var d := decoded.value;
    ghost var checks := CompleteChecks(q, d, env, provider.id);
    if d.samplingDeclared {
      FirstRefusalStops(checks, 0);
      return Err(InvalidRequest("declared sampling carries no values"));
    }
    if !env.scopeValid(env.callerScope) || env.callerScope != "provider/" + d.provider {
      FirstRefusalStops(checks, 1);
      return Err(ScopeDenied("provider/" + d.provider, COMPLETE));
    }
    if provider.id != d.provider {
      FirstRefusalStops(checks, 2);
      return Err(NotFound("provider and model reference disagree"));
    }
    var total := SumSizes(d.messages);
    if total > d.budget {
      FirstRefusalStops(checks, 3);
      return Err(BudgetExceeded(d.budget, total));
    }
    if d.timeoutMs == 0 || d.timeoutMs > MAX_REQUEST_TIMEOUT_MS {
      FirstRefusalStops(checks, 4);
      return Err(TimeoutTooLarge(MAX_REQUEST_TIMEOUT_MS, d.timeoutMs));
    }
    var envelope := env.envelopeError(d);
    if envelope.Some? {
      FirstRefusalStops(checks, 5);
      return Err(envelope.value);
    }
    if q.nowMs >= env.deadline(d.nowMs, d.timeoutMs) {
      FirstRefusalStops(checks, 6);
      return Err(Timeout(q.requestId, d.timeoutMs));
    }
    NoRefusalExactly(checks);
    var turn := provider.Complete(RequestOf(d));
    if turn.Err? {
      return Err(turn.error);
    }
    if turn.value.latencyMs > d.timeoutMs {
      return Err(env.lateTurn(d.timeoutMs, turn.value.latencyMs));
    }
    r := env.encode(turn.value);
  }

  // ---------------------------------------------------------------- the injected executor

  datatype ToolParams = ToolParams(
    tool: string, argsDigest: nat, agentInstance: nat, allowed: Option<seq<string>>, nowMs: nat)

  datatype Execution = Execution(tool: string, arguments: seq<Byte>, nowMs: nat)

  class Executor {
    const effect: (nat, Execution) -> Result<string, IpcError>
    var executions: seq<Execution>

    constructor (effect: (nat, Execution) -> Result<string, IpcError>)
      ensures this.effect == effect && executions == []
    {
      this.effect := effect;
      executions := [];
    }

    /** The effect together with its encoding as a result or a refusal. */
    method Execute(x: Execution) returns (r: Result<string, IpcError>)
      modifies this
      ensures executions == old(executions) + [x] && r == effect(|old(executions)|, x)
    {
      r := effect(|executions|, x);
      executions := executions + [x];
    }
  }

  datatype ToolEnv = ToolEnv(
    decode: string -> Result<ToolParams, IpcError>,
    arguments: seq<Byte>,
    nameValid: string -> bool,
    registry: map<string, string>,
    consent: (string, string, nat, nat) -> Option<IpcError>,
    narrowed: string -> IpcError)

  /** The checks before the executor is called, in order. */
  function ToolChecks(scope: string, d: ToolParams, env: ToolEnv): seq<Option<IpcError>> {
    [Unless(|env.arguments| <= MAX_TOOL_ARGUMENTS_BYTES,
            LimitExceeded("args", MAX_TOOL_ARGUMENTS_BYTES, |env.arguments|)),
     Unless(Fnv.Digest(env.arguments) == d.argsDigest, InvalidRequest("args digest does not match arguments")),
     Unless(scope == INVOKE_SCOPE, Internal("tool dispatch admitted outside ai.invoke")),
     Unless(env.nameValid(d.tool), InvalidRequest("tool name has a bad shape")),
     Unless(d.tool in env.registry, NotFound("unknown tool")),
     if d.tool in env.registry then env.consent(d.tool, env.registry[d.tool], d.agentInstance, d.nowMs) else None,
     Unless(d.allowed.Some? ==> d.tool in d.allowed.value, env.narrowed(d.tool))]
  }

  /** What holds of every execution that reaches the executor. */
  predicate MayExecute(scope: string, q: Input, env: ToolEnv) {
    && env.decode(q.params).Ok?
    && var d := env.decode(q.params).value;
       && |env.arguments| <= MAX_TOOL_ARGUMENTS_BYTES
       && Fnv.Digest(env.arguments) == d.argsDigest
       && scope == INVOKE_SCOPE
       && env.nameValid(d.tool) && d.tool in env.registry
       && env.consent(d.tool, env.registry[d.tool], d.agentInstance, d.nowMs).None?
       && (d.allowed.Some? ==> d.tool in d.allowed.value)
  }

  function ExecutionOf(d: ToolParams, env: ToolEnv): Execution { Execution(d.tool, env.arguments, d.nowMs) }

  /** The execution is of the decoded tool, on the bytes held, at the decoded time. */
  predicate ExecutionIs(x: Execution, d: ToolParams, env: ToolEnv) {
    x.tool == d.tool && x.arguments == env.arguments && x.nowMs == d.nowMs
  }

  lemma {:induction false} ExecutionCarriesTheParams(d: ToolParams, env: ToolEnv, x: Execution)
    ensures x == ExecutionOf(d, env) <==> ExecutionIs(x, d, env)
  {
  }

  /** A decoded call is refused by its first failing check, or answered by the executor. */
  function ToolResult(scope: string, q: Input, env: ToolEnv, effect: Execution -> Result<string, IpcError>)
    : Result<string, IpcError>
  {
    match env.decode(q.params)
    case Err(e) => Err(e)
    case Ok(d) =>
      match FirstRefusal(ToolChecks(scope, d, env))
      case Some(e) => Err(e)
      case None => effect(ExecutionOf(d, env))
  }

  lemma {:induction false} ExecutionPassesEveryCheck(scope: string, q: Input, env: ToolEnv)
    ensures MayExecute(scope, q, env) <==>
      env.decode(q.params).Ok? && FirstRefusal(ToolChecks(scope, env.decode(q.params).value, env)).None?
  {
    hide FirstRefusal, Fnv.Digest;
    if env.decode(q.params).Ok? {
      var checks := ToolChecks(scope, env.decode(q.params).value, env);
      NoRefusalExactly(checks);
      assert (forall j :: 0 <= j < 7 ==> checks[j].None?) <==>
        checks[0].None? && checks[1].None? && checks[2].None? && checks[3].None? && checks[4].None? && checks[5].None?
        && checks[6].None?;
    }
  }

  method HandleToolDispatch(scope: string, q: Input, env: ToolEnv, executor: Executor) returns (r: Result<string, IpcError>)
    modifies executor
    ensures var n := |old(executor.executions)|; r == ToolResult(scope, q, env, x => executor.effect(n, x))
    ensures executor.executions == old(executor.executions)
      + (if MayExecute(scope, q, env) then [ExecutionOf(env.decode(q.params).value, env)] else [])
    ensures MayExecute(scope, q, env) ==>
      && |executor.executions| == |old(executor.executions)| + 1
      && ExecutionIs(executor.executions[|old(executor.executions)|], env.decode(q.params).value, env)
  {
    hide FirstRefusal, Fnv.Digest;
    var decoded := env.decode(q.params);
    if decoded.Err? {
      return Err(decoded.error);
    }
    var d := decoded.value;
    ghost var checks := ToolChecks(scope, d, env);
    if |env.arguments| > MAX_TOOL_ARGUMENTS_BYTES {
      FirstRefusalStops(checks, 0);
      return Err(LimitExceeded("args", MAX_TOOL_ARGUMENTS_BYTES, |env.arguments|));
    }
    var digest := Fnv.Fnv1a64(env.arguments);
    if digest != d.argsDigest {
      FirstRefusalStops(checks, 1);
      return Err(InvalidRequest("args digest does not match arguments"));
    }
    if scope != INVOKE_SCOPE {
      FirstRefusalStops(checks, 2);
      return Err(Internal("tool dispatch admitted outside ai.invoke"));
    }
    if !env.nameValid(d.tool) {
      FirstRefusalStops(checks, 3);
      return Err(InvalidRequest("tool name has a bad shape"));
    }
    if d.tool !in env.registry {
      FirstRefusalStops(checks, 4);
      return Err(NotFound("unknown tool"));
    }
    var denied := env.consent(d.tool, env.registry[d.tool], d.agentInstance, d.nowMs);
    if denied.Some? {
      FirstRefusalStops(checks, 5);
      return Err(denied.value);
    }
    if d.allowed.Some? && d.tool !in d.allowed.value {
      FirstRefusalStops(checks, 6);
      return Err(env.narrowed(d.tool));
    }
    NoRefusalExactly(checks);
    r := executor.Execute(ExecutionOf(d, env));
  }

  // ---------------------------------------------------------------- the contacting entries

  /** The outcome of the completion entry when the provider would answer `answer`. */
  function CompleteOutcome(q: Input, t: Tables, env: CompleteEnv, providerId: string,
                           answer: TurnRequest -> Result<Turn, IpcError>): Outcome
  {
    if q.name != COMPLETE then DispatchWithContext(q, t)
    else
      match RunGates(q, t.gates)
      case Err(e) => Refused(e)
      case Ok(scope) => Answered(q, scope, CompleteResult(q, env, providerId, answer))
  }

  /** The facts behind a request: its own method, all six gates, and everything `MayRequest` says. */
  ghost predicate ReachesProvider(q: Input, t: Tables, env: CompleteEnv, providerId: string) {
    && q.name == COMPLETE
    && (exists scope :: Admitted(q, t.gates, scope))
    && MayRequest(q, env, providerId)
  }

  /** The facts behind an execution: its own method, all six gates under the invoke scope, and `MayExecute`. */
  predicate ReachesExecutor(q: Input, t: Tables, env: ToolEnv) {
    && q.name == TOOL
    && Admitted(q, t.gates, INVOKE_SCOPE)
    && MayExecute(INVOKE_SCOPE, q, env)
  }

  method DispatchWithComplete(q: Input, t: Tables, env: CompleteEnv, provider: Provider) returns (o: Outcome)
    modifies provider
    ensures var n := |old(provider.requests)|; o == CompleteOutcome(q, t, env, provider.id, x => provider.answer(n, x))
    ensures provider.requests == old(provider.requests)
      + (if ReachesProvider(q, t, env, provider.id) then [RequestOf(env.decode(q.params).value)] else [])
  {
    hide RunGates, Admitted, CompleteResult, MayRequest, DispatchWithContext;
    if q.name != COMPLETE {
      return DispatchWithContext(q, t);
    }
    var gates := RunGates(q, t.gates);
    AdmittedSomewhere(q, t.gates);
    if gates.Err? {
      return Refused(gates.error);
    }
    var r := HandleComplete(q, env, provider);
    o := Answered(q, gates.value, r);
  }

  lemma {:induction false} AdmittedSomewhere(q: Input, g: Gates)
    ensures RunGates(q, g).Ok? <==> exists scope :: Admitted(q, g, scope)
  {
    if RunGates(q, g).Ok? {
      GatesAdmitExactly(q, g, RunGates(q, g).value);
    }
    forall scope | Admitted(q, g, scope) ensures RunGates(q, g).Ok? {
      GatesAdmitExactly(q, g, scope);
    }
  }

  function ToolOutcome(q: Input, t: Tables, c: CompleteEnv, providerId: string, answer: TurnRequest -> Result<Turn, IpcError>,
                       env: ToolEnv, effect: Execution -> Result<string, IpcError>): Outcome
  {
    if q.name != TOOL then CompleteOutcome(q, t, c, providerId, answer)
    else
      match RunGates(q, t.gates)
      case Err(e) => Refused(e)
      case Ok(scope) => Answered(q, scope, ToolResult(scope, q, env, effect))
  }

  method DispatchWithTools(q: Input, t: Tables, c: CompleteEnv, provider: Provider, env: ToolEnv, executor: Executor)
    returns (o: Outcome)
    modifies provider, executor
    ensures var n, m := |old(provider.requests)|, |old(executor.executions)|;
      o == ToolOutcome(q, t, c, provider.id, x => provider.answer(n, x), env, x => executor.effect(m, x))
    ensures provider.requests == old(provider.requests)
      + (if ReachesProvider(q, t, c, provider.id) then [RequestOf(c.decode(q.params).value)] else [])
    ensures executor.executions == old(executor.executions)
      + (if ReachesExecutor(q, t, env) then [ExecutionOf(env.decode(q.params).value, env)] else [])
  {
    hide RunGates, Admitted, ToolResult, MayExecute, MayRequest, CompleteOutcome;
    assert COMPLETE != TOOL;
    if q.name != TOOL {
      o := DispatchWithComplete(q, t, c, provider);
      return;
    }
    var gates := RunGates(q, t.gates);
    GatesAdmitExactly(q, t.gates, INVOKE_SCOPE);
    if gates.Err? {
      return Refused(gates.error);
    }
    ExecutesUnderInvoke(gates.value, q, env);
    var r := HandleToolDispatch(gates.value, q, env, executor);
    o := Answered(q, gates.value, r);
  }

  lemma {:induction false} ExecutesUnderInvoke(scope: string, q: Input, env: ToolEnv)
    ensures MayExecute(scope, q, env) ==> scope == INVOKE_SCOPE
  {
  }

  // ---------------------------------------------------------------- across the levels

  /** A gate refusal is the same at every entry and nothing is contacted. */
  lemma {:induction false} GateRefusalsAreUniform(
    q: Input, t: Tables, c: CompleteEnv, providerId: string, answer: TurnRequest -> Result<Turn, IpcError>,
    env: ToolEnv, effect: Execution -> Result<string, IpcError>)
    requires RunGates(q, t.gates).Err?
    ensures DispatchBare(q, t) == DispatchWith(q, t) == DispatchWithContext(q, t)
      == CompleteOutcome(q, t, c, providerId, answer) == ToolOutcome(q, t, c, providerId, answer, env, effect)
      == Refused(RunGates(q, t.gates).error)
    ensures !ReachesProvider(q, t, c, providerId) && !ReachesExecutor(q, t, env)
  {
    AdmittedSomewhere(q, t.gates);
    GatesAdmitExactly(q, t.gates, INVOKE_SCOPE);
    hide RunGates, Admitted, CompleteResult, ToolResult;
  }

  /** Whatever an entry answers, every deeper entry answers the same; only the unwired is taken over. */
  lemma {:induction false} WiredOutcomesPersist(
    q: Input, t: Tables, c: CompleteEnv, providerId: string, answer: TurnRequest -> Result<Turn, IpcError>,
    env: ToolEnv, effect: Execution -> Result<string, IpcError>)
    ensures !DispatchBare(q, t).NotWired? ==> DispatchWith(q, t) == DispatchBare(q, t)
    ensures !DispatchWith(q, t).NotWired? ==> DispatchWithContext(q, t) == DispatchWith(q, t)
    ensures !DispatchWithContext(q, t).NotWired? ==> CompleteOutcome(q, t, c, providerId, answer) == DispatchWithContext(q, t)
    ensures !CompleteOutcome(q, t, c, providerId, answer).NotWired? ==>
      ToolOutcome(q, t, c, providerId, answer, env, effect) == CompleteOutcome(q, t, c, providerId, answer)
    ensures q.name != CONTEXT_READ ==> DispatchWithContext(q, t) == DispatchWith(q, t)
    ensures q.name != COMPLETE ==> CompleteOutcome(q, t, c, providerId, answer) == DispatchWithContext(q, t)
  {
    hide RunGates, CompleteResult, ToolResult;
    assert CONTEXT_READ != COMPLETE && CONTEXT_READ != TOOL;
    assert COMPLETE != TOOL;
  }

  // ---------------------------------------------------------------- which refusal, which answer

  /** The gates in order: the error is that of the first that holds the request back. */
  lemma {:induction false} GateRefusals(q: Input, g: Gates, scope: string)
    ensures g.authorize(q.name).Err? ==> RunGates(q, g) == Err(g.authorize(q.name).error)
    ensures g.authorize(q.name) == Ok(scope) ==>
      var r, range, live := RunGates(q, g), g.timeoutRange(q.timeoutMs), g.consentLive(scope, q.nowMs);
      var due := q.nowMs >= g.deadline(q.createdAtMs, q.timeoutMs);
      && (!live ==> r == Err(ScopeDenied(scope, q.name)))
      && (live && range.Some? ==> r == Err(range.value))
      && (live && range.None? && due ==> r == Err(Timeout(q.requestId, q.timeoutMs)))
      && (live && range.None? && !due && g.params(q.name, q.params).Some? ==> r == Err(g.params(q.name, q.params).value))
  {
    match g.authorize(q.name)
    case Err(_) =>
    case Ok(_) =>
  }

  /** A turn is refused for the first of these that applies. */
  lemma {:induction false} CompletionRefusals(
    q: Input, env: CompleteEnv, providerId: string, answer: TurnRequest -> Result<Turn, IpcError>, d: CompleteParams)
    ensures env.decode(q.params).Err? ==> CompleteResult(q, env, providerId, answer) == Err(env.decode(q.params).error)
    ensures env.decode(q.params) == Ok(d) ==>
      var r, wanted := CompleteResult(q, env, providerId, answer), "provider/" + d.provider;
      var plain := !d.samplingDeclared;
      var mine := plain && env.scopeValid(env.callerScope) && env.callerScope == wanted;
      var named := mine && providerId == d.provider;
      var small := named && TotalSize(d.messages) <= d.budget;
      var prompt := small && 0 < d.timeoutMs <= 30000;
      var fits := prompt && env.envelopeError(d).None?;
      && (!plain ==> r == Err(InvalidRequest("declared sampling carries no values")))
      && (plain && !mine ==> r == Err(ScopeDenied(wanted, "ai.provider_complete")))
      && (mine && !named ==> r == Err(NotFound("provider and model reference disagree")))
      && (named && !small ==> r == Err(BudgetExceeded(d.budget, TotalSize(d.messages))))
      && (small && !prompt ==> r == Err(TimeoutTooLarge(30000, d.timeoutMs)))
      && (prompt && !fits ==> r == Err(env.envelopeError(d).value))
      && (fits && q.nowMs >= env.deadline(d.nowMs, d.timeoutMs) ==> r == Err(Timeout(q.requestId, d.timeoutMs)))
  {
    hide FirstRefusal, TotalSize;
    if env.decode(q.params) == Ok(d) {
      var checks := CompleteChecks(q, d, env, providerId);
      var k := 0;
      while k < 7 && checks[k].None?
        invariant k <= 7 && forall j :: 0 <= j < k ==> checks[j].None?
      {
        k := k + 1;
      }
      TheChecksBefore(checks, k);
      if k < 7 {
        FirstRefusalStops(checks, k);
      }
    }
  }

  lemma {:induction false} TheChecksBefore(checks: seq<Option<IpcError>>, k: nat)
    requires |checks| == 7 && k <= 7 && forall j :: 0 <= j < k ==> checks[j].None?
    ensures (k > 0 ==> checks[0].None?) && (k > 1 ==> checks[1].None?) && (k > 2 ==> checks[2].None?)
      && (k > 3 ==> checks[3].None?) && (k > 4 ==> checks[4].None?) && (k > 5 ==> checks[5].None?) && (k > 6 ==> checks[6].None?)
  {
  }

  /** Once the provider is called: its refusal, a late turn's refusal, or the encoded turn. */
  lemma {:induction false} CompletionAnswers(
    q: Input, env: CompleteEnv, providerId: string, answer: TurnRequest -> Result<Turn, IpcError>, x: TurnRequest)
    requires MayRequest(q, env, providerId) && RequestIs(x, env.decode(q.params).value)
    ensures match answer(x)
      case Err(e) => CompleteResult(q, env, providerId, answer) == Err(e)
      case Ok(turn) =>
        if turn.latencyMs <= x.timeoutMs then CompleteResult(q, env, providerId, answer) == env.encode(turn)
        else CompleteResult(q, env, providerId, answer) == Err(env.lateTurn(x.timeoutMs, turn.latencyMs))
  {
    hide FirstRefusal, CompleteChecks;
    RequestPassesEveryCheck(q, env, providerId);
    RequestCarriesTheParams(env.decode(q.params).value, x);
  }

  /** A tool call is refused for the first of these that applies. */
  lemma {:induction false} ToolRefusals(
    scope: string, q: Input, env: ToolEnv, effect: Execution -> Result<string, IpcError>, d: ToolParams)
    ensures env.decode(q.params).Err? ==> ToolResult(scope, q, env, effect) == Err(env.decode(q.params).error)
    ensures env.decode(q.params) == Ok(d) ==>
      var r, n := ToolResult(scope, q, env, effect), |env.arguments|;
      var small := n <= 16384;
      var same := small && Fnv.Digest(env.arguments) == d.argsDigest;
      var invoked := same && scope == "ai.invoke";
      var shaped := invoked && env.nameValid(d.tool);
      var known := shaped && d.tool in env.registry;
      var consent := if known then env.consent(d.tool, env.registry[d.tool], d.agentInstance, d.nowMs) else None;
      && (!small ==> r == Err(LimitExceeded("args", 16384, n)))
      && (small && !same ==> r == Err(InvalidRequest("args digest does not match arguments")))
      && (same && !invoked ==> r == Err(Internal("tool dispatch admitted outside ai.invoke")))
      && (invoked && !shaped ==> r == Err(InvalidRequest("tool name has a bad shape")))
      && (shaped && !known ==> r == Err(NotFound("unknown tool")))
      && (known && consent.Some? ==> r == Err(consent.value))
      && (known && consent.None? && d.allowed.Some? && d.tool !in d.allowed.value ==> r == Err(env.narrowed(d.tool)))
  {
    hide FirstRefusal, Fnv.Digest;
    if env.decode(q.params) == Ok(d) {
      var checks := ToolChecks(scope, d, env);
      var k := 0;
      while k < 7 && checks[k].None?
        invariant k <= 7 && forall j :: 0 <= j < k ==> checks[j].None?
      {
        k := k + 1;
      }
      TheChecksBefore(checks, k);
      if k < 7 {
        FirstRefusalStops(checks, k);
      }
    }
  }

  /** Once the executor is called, its answer is the result. */
  lemma {:induction false} ToolAnswers(
    scope: string, q: Input, env: ToolEnv, effect: Execution -> Result<string, IpcError>, x: Execution)
    requires MayExecute(scope, q, env) && ExecutionIs(x, env.decode(q.params).value, env)
    ensures ToolResult(scope, q, env, effect) == effect(x)
  {
    hide FirstRefusal, ToolChecks;
    ExecutionPassesEveryCheck(scope, q, env);
    ExecutionCarriesTheParams(env.decode(q.params).value, env, x);
  }

  /** What each entry answers to an admitted request, by the method it names. */
  lemma {:induction false} AdmittedOutcomes(
    q: Input, t: Tables, scope: string, c: CompleteEnv, providerId: string, answer: TurnRequest -> Result<Turn, IpcError>,
    env: ToolEnv, effect: Execution -> Result<string, IpcError>)
    requires Admitted(q, t.gates, scope)
    ensures DispatchBare(q, t) == NotWired(q.name, scope)
    ensures q.name in {"ai.context_read", "ai.provider_complete", "ai.tool_dispatch"} ==>
      DispatchWith(q, t) == NotWired(q.name, scope)
    ensures q.name !in {"ai.context_read", "ai.provider_complete", "ai.tool_dispatch"} ==>
      match t.readOnly(q.name, q.params)
      case None => DispatchWith(q, t) == NotWired(q.name, scope)
      case Some(Ok(result)) => DispatchWith(q, t) == Ready(q.name, scope, result)
      case Some(Err(e)) => DispatchWith(q, t) == Refused(e)
    ensures q.name == "ai.context_read" ==>
      match t.contextRead(q.params)
      case Ok(result) => DispatchWithContext(q, t) == Ready(q.name, scope, result)
      case Err(e) => DispatchWithContext(q, t) == Refused(e)
    ensures q.name == "ai.provider_complete" ==>
      match CompleteResult(q, c, providerId, answer)
      case Ok(result) => CompleteOutcome(q, t, c, providerId, answer) == Ready(q.name, scope, result)
      case Err(e) => CompleteOutcome(q, t, c, providerId, answer) == Refused(e)
    ensures q.name == "ai.tool_dispatch" ==>
      match ToolResult(scope, q, env, effect)
      case Ok(result) => ToolOutcome(q, t, c, providerId, answer, env, effect) == Ready(q.name, scope, result)
      case Err(e) => ToolOutcome(q, t, c, providerId, answer, env, effect) == Refused(e)
  {
    hide RunGates, Admitted, CompleteResult, ToolResult;
    GatesAdmitExactly(q, t.gates, scope);
  }

  /** The size of a conversation is the sum over its messages. */
  lemma {:induction false} SizesAdd(a: seq<Message>, b: seq<Message>)
    ensures TotalSize(a + b) == TotalSize(a) + TotalSize(b)
    ensures forall m :: TotalSize([m]) == m.size
  {
    if b == [] {
      assert a + b == a;
    } else {
      var n := |b| - 1;
      SizesAdd(a, b[..n]);
      assert (a + b)[..|a + b| - 1] == a + b[..n];
    }
  }
}
