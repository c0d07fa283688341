/**
 * Runs of the dispatch chain of crates/bitty-ai-endpoint/src/lib.rs: any sequence of calls, each
 * at any of the five entries and with its own tables, sharing one provider and one executor.
 */
module DispatchRuns {
  import opened Results
  import opened Dispatch

  datatype Entry = Bare | ReadOnly | Context | Completion | Tools

  datatype Call = Call(entry: Entry, q: Input, t: Tables, c: CompleteEnv, env: ToolEnv)

  function Depth(e: Entry): nat {
    match e
    case Bare => 0
    case ReadOnly => 1
    case Context => 2
    case Completion => 3
    case Tools => 4
  }

  // ---------------------------------------------------------------- what one call does

  /** A call that records a request: an entry holding the provider, and every fact behind a request. */
  ghost predicate Requests(call: Call, providerId: string) {
    Depth(call.entry) >= 3 && ReachesProvider(call.q, call.t, call.c, providerId)
  }

  /** A call that records an execution: the entry holding the executor, and every fact behind an execution. */
  ghost predicate Executes(call: Call) {
    call.entry.Tools? && ReachesExecutor(call.q, call.t, call.env)
  }

  function OutcomeOf(call: Call, providerId: string, answer: TurnRequest -> Result<Turn, IpcError>,
                     effect: Execution -> Result<string, IpcError>): Outcome
  {
    match call.entry
    case Bare => DispatchBare(call.q, call.t)
    case ReadOnly => DispatchWith(call.q, call.t)
    case Context => DispatchWithContext(call.q, call.t)
    case Completion => CompleteOutcome(call.q, call.t, call.c, providerId, answer)
    case Tools => ToolOutcome(call.q, call.t, call.c, providerId, answer, call.env, effect)
  }

  /**
   * A completion succeeds exactly when its provider was contacted by this very call and answered
   * within the time asked for; its result is that answer, encoded.
   */
  lemma {:induction false} CompletionsAreTheProviders(
    call: Call, providerId: string, answer: TurnRequest -> Result<Turn, IpcError>,
    effect: Execution -> Result<string, IpcError>, text: string, scope: string)
    requires call.q.name == COMPLETE
    ensures OutcomeOf(call, providerId, answer, effect) == Ready(COMPLETE, scope, text) <==>
      && Requests(call, providerId) && Admitted(call.q, call.t.gates, scope)
      && var d := call.c.decode(call.q.params).value;
         && answer(RequestOf(d)).Ok? && answer(RequestOf(d)).value.latencyMs <= d.timeoutMs
         && call.c.encode(answer(RequestOf(d)).value) == Ok(text)
  {
    AdmittedSomewhere(call.q, call.t.gates);
    GatesAdmitExactly(call.q, call.t.gates, scope);
    RequestPassesEveryCheck(call.q, call.c, providerId);
    hide RunGates, Admitted, CompleteChecks, MayRequest;
    assert COMPLETE != TOOL && COMPLETE != CONTEXT_READ;
  }

  /** A tool call succeeds exactly when its executor was contacted by this very call and said so. */
  lemma {:induction false} ToolResultsAreTheExecutors(
    call: Call, providerId: string, answer: TurnRequest -> Result<Turn, IpcError>,
    effect: Execution -> Result<string, IpcError>, text: string, scope: string)
    requires call.q.name == TOOL
    ensures OutcomeOf(call, providerId, answer, effect) == Ready(TOOL, scope, text) <==>
      && Executes(call) && scope == INVOKE_SCOPE
      && effect(ExecutionOf(call.env.decode(call.q.params).value, call.env)) == Ok(text)
  {
    GatesAdmitExactly(call.q, call.t.gates, scope);
    ExecutionPassesEveryCheck(scope, call.q, call.env);
    ExecutesUnderInvoke(scope, call.q, call.env);
    hide RunGates, Admitted, ToolChecks, MayExecute;
    assert TOOL != COMPLETE && TOOL != CONTEXT_READ;
  }

  lemma {:induction false} OneContactPerCall(call: Call, providerId: string)
    ensures !(Requests(call, providerId) && Executes(call))
  {
    assert COMPLETE != TOOL;
  }

  // ---------------------------------------------------------------- what a run leaves behind

  /** The request a call records, if it reaches the provider. */
  ghost function RequestAt(call: Call, providerId: string): Option<TurnRequest> {
    if Requests(call, providerId) then Some(RequestOf(call.c.decode(call.q.params).value)) else None
  }

  /** The execution a call records, if it reaches the executor. */
  ghost function ExecutionAt(call: Call): Option<Execution> {
    if Executes(call) then Some(ExecutionOf(call.env.decode(call.q.params).value, call.env)) else None
  }

  function Listed<T>(o: Option<T>): seq<T> { if o.Some? then [o.value] else [] }

  /** The requests a run records, one per call that reaches the provider. */
  ghost function Asked(calls: seq<Call>, providerId: string): seq<TurnRequest> {
    if calls == [] then []
    else Asked(calls[..|calls| - 1], providerId) + Listed(RequestAt(calls[|calls| - 1], providerId))
  }

  ghost function Done(calls: seq<Call>): seq<Execution> {
    if calls == [] then [] else Done(calls[..|calls| - 1]) + Listed(ExecutionAt(calls[|calls| - 1]))
  }

  ghost predicate Ascending(p: seq<nat>, n: nat) {
    && (forall j :: 0 <= j < |p| ==> p[j] < n)
    && (forall i, j :: 0 <= i < j < |p| ==> p[i] < p[j])
  }

  /** The request holds, field by field, what the call's params decode to. */
  predicate Carries(x: TurnRequest, call: Call) {
    call.c.decode(call.q.params).Ok? && RequestIs(x, call.c.decode(call.q.params).value)
  }

  /** The execution is of the tool the call's params name, on the call's argument bytes. */
  predicate Runs(x: Execution, call: Call) {
    call.env.decode(call.q.params).Ok? && ExecutionIs(x, call.env.decode(call.q.params).value, call.env)
  }

  lemma {:induction false} ContactsCarry(call: Call, providerId: string)
    ensures RequestAt(call, providerId).Some? ==> Carries(RequestAt(call, providerId).value, call)
    ensures ExecutionAt(call).Some? ==> Runs(ExecutionAt(call).value, call)
  {
    hide Admitted;
  }

  /** Request `j` is that of call `p[j]`, in order, and no other call reaches the provider. */
  ghost predicate RequestsBacked(calls: seq<Call>, providerId: string, requests: seq<TurnRequest>, p: seq<nat>) {
    && |requests| == |p| && Ascending(p, |calls|)
    && (forall j :: 0 <= j < |p| ==> RequestAt(calls[p[j]], providerId) == Some(requests[j]))
    && (forall j :: 0 <= j < |p| ==> Carries(requests[j], calls[p[j]]))
    && (forall i :: 0 <= i < |calls| && RequestAt(calls[i], providerId).Some? ==> i in p)
  }

  /** Execution `j` is that of call `x[j]`, in order, and no other call reaches the executor. */
  ghost predicate ExecutionsBacked(calls: seq<Call>, executions: seq<Execution>, x: seq<nat>) {
    && |executions| == |x| && Ascending(x, |calls|)
    && (forall j :: 0 <= j < |x| ==> ExecutionAt(calls[x[j]]) == Some(executions[j]))
    && (forall j :: 0 <= j < |x| ==> Runs(executions[j], calls[x[j]]))
    && (forall i :: 0 <= i < |calls| && ExecutionAt(calls[i]).Some? ==> i in x)
  }

  lemma {:induction false} RequestsBackedNext(
    calls: seq<Call>, call: Call, providerId: string, requests: seq<TurnRequest>, p: seq<nat>) returns (p': seq<nat>)
    requires RequestsBacked(calls, providerId, requests, p)
    ensures RequestsBacked(calls + [call], providerId, requests + Listed(RequestAt(call, providerId)), p')
  {
    hide RequestAt, Carries;
    ContactsCarry(call, providerId);
    var more := calls + [call];
    if RequestAt(call, providerId).None? {
      assert requests + [] == requests;
      return p;
    }
    p' := p + [|calls|];
    forall i | 0 <= i < |more| && RequestAt(more[i], providerId).Some? ensures i in p' {
      if i < |calls| {
        assert more[i] == calls[i] && i in p;
      } else {
        assert p'[|p|] == i;
      }
    }
  }

  lemma {:induction false} EveryRequestIsBacked(calls: seq<Call>, providerId: string) returns (p: seq<nat>)
    ensures RequestsBacked(calls, providerId, Asked(calls, providerId), p)
  {
    p := [];
    if calls != [] {
      hide RequestAt, RequestsBacked, Listed;
      var n := |calls| - 1;
      p := EveryRequestIsBacked(calls[..n], providerId);
      p := RequestsBackedNext(calls[..n], calls[n], providerId, Asked(calls[..n], providerId), p);
      assert calls == calls[..n] + [calls[n]];
    }
  }

  lemma {:induction false} ExecutionsBackedNext(calls: seq<Call>, call: Call, executions: seq<Execution>, x: seq<nat>)
    returns (x': seq<nat>)
    requires ExecutionsBacked(calls, executions, x)
    ensures ExecutionsBacked(calls + [call], executions + Listed(ExecutionAt(call)), x')
  {
    hide ExecutionAt, Runs;
    ContactsCarry(call, "");
    var more := calls + [call];
    if ExecutionAt(call).None? {
      assert executions + [] == executions;
      return x;
    }
    x' := x + [|calls|];
    forall i | 0 <= i < |more| && ExecutionAt(more[i]).Some? ensures i in x' {
      if i < |calls| {
        assert more[i] == calls[i] && i in x;
      } else {
        assert x'[|x|] == i;
      }
    }
  }

  lemma {:induction false} EveryExecutionIsBacked(calls: seq<Call>) returns (x: seq<nat>)
    ensures ExecutionsBacked(calls, Done(calls), x)
  {
    x := [];
    if calls != [] {
      hide ExecutionAt, ExecutionsBacked, Listed;
      var n := |calls| - 1;
      x := EveryExecutionIsBacked(calls[..n]);
      x := ExecutionsBackedNext(calls[..n], calls[n], Done(calls[..n]), x);
      assert calls == calls[..n] + [calls[n]];
    }
  }

  lemma {:induction false} ContactsAreAtMostCalls(calls: seq<Call>, providerId: string)
    ensures |Asked(calls, providerId)| + |Done(calls)| <= |calls|
  {
    hide Requests, Executes;
    if calls != [] {
      ContactsAreAtMostCalls(calls[..|calls| - 1], providerId);
      OneContactPerCall(calls[|calls| - 1], providerId);
    }
  }

  lemma {:induction false} OneMoreCall(calls: seq<Call>, k: nat, providerId: string)
    requires k < |calls|
    ensures Asked(calls[..k + 1], providerId) == Asked(calls[..k], providerId) + Listed(RequestAt(calls[k], providerId))
    ensures Done(calls[..k + 1]) == Done(calls[..k]) + Listed(ExecutionAt(calls[k]))
  {
    hide RequestAt, ExecutionAt, Listed;
    assert calls[..k + 1][..k] == calls[..k];
  }

  lemma {:induction false} NoCallIsInBoth(calls: seq<Call>, providerId: string, p: seq<nat>, x: seq<nat>)
    requires RequestsBacked(calls, providerId, Asked(calls, providerId), p) && ExecutionsBacked(calls, Done(calls), x)
    ensures |p| + |x| <= |calls| && forall i :: i in p ==> i !in x
  {
    hide Requests, Executes, Asked, Done;
    ContactsAreAtMostCalls(calls, providerId);
    forall i | i in p ensures i !in x {
      OneContactPerCall(calls[i], providerId);
    }
  }

  // ---------------------------------------------------------------- the run theorem

  method OneCall(call: Call, provider: Provider, executor: Executor) returns (o: Outcome)
    modifies provider, executor
    ensures var n, m := |old(provider.requests)|, |old(executor.executions)|;
      o == OutcomeOf(call, provider.id, x => provider.answer(n, x), x => executor.effect(m, x))
    ensures provider.requests == old(provider.requests) + Listed(RequestAt(call, provider.id))
    ensures executor.executions == old(executor.executions) + Listed(ExecutionAt(call))
  {
    hide DispatchBare, DispatchWith, DispatchWithContext, CompleteOutcome, ToolOutcome, ReachesExecutor;
    hide MayRequest, Admitted;
    match call.entry
    case Bare => o := DispatchBare(call.q, call.t);
    case ReadOnly => o := DispatchWith(call.q, call.t);
    case Context => o := DispatchWithContext(call.q, call.t);
    case Completion => o := DispatchWithComplete(call.q, call.t, call.c, provider);
    case Tools => o := DispatchWithTools(call.q, call.t, call.c, provider, call.env, executor);
  }

  /** What call `i` of a run answers, given how often the provider and executor were contacted before it. */
  ghost function OutcomeAt(calls: seq<Call>, i: nat, providerId: string,
                           answer: (nat, TurnRequest) -> Result<Turn, IpcError>, n: nat,
                           effect: (nat, Execution) -> Result<string, IpcError>, m: nat): Outcome
    requires i < |calls|
  {
    var a, b := n + |Asked(calls[..i], providerId)|, m + |Done(calls[..i])|;
    OutcomeOf(calls[i], providerId, x => answer(a, x), x => effect(b, x))
  }

  /**
   * Over any run the recorded requests and executions are, in order, those of exactly the calls
   * that every fact behind a contact holds of; no call contacts both, and no other call contacts
   * either. Each outcome is fixed by its own call and by the contacts before it.
   */
  method AnyRun(calls: seq<Call>, provider: Provider, executor: Executor)
    returns (outcomes: seq<Outcome>, ghost p: seq<nat>, ghost x: seq<nat>)
    modifies provider, executor
    ensures provider.requests == old(provider.requests) + Asked(calls, provider.id)
    ensures executor.executions == old(executor.executions) + Done(calls)
    ensures RequestsBacked(calls, provider.id, Asked(calls, provider.id), p)
    ensures ExecutionsBacked(calls, Done(calls), x)
    ensures |p| + |x| <= |calls| && forall i :: i in p ==> i !in x
    ensures |outcomes| == |calls|
    ensures forall i :: 0 <= i < |calls| ==>
      outcomes[i] == OutcomeAt(calls, i, provider.id, provider.answer, |old(provider.requests)|,
                               executor.effect, |old(executor.executions)|)
  {
    hide RequestAt, ExecutionAt, Asked, Done, Listed, OutcomeOf, RequestsBacked, ExecutionsBacked;
    StartEmpty(calls, provider.id);
    outcomes := [];
    for k := 0 to |calls|
      invariant |outcomes| == k
      invariant provider.requests == old(provider.requests) + Asked(calls[..k], provider.id)
      invariant executor.executions == old(executor.executions) + Done(calls[..k])
      invariant forall i :: 0 <= i < k ==>
        outcomes[i] == OutcomeAt(calls, i, provider.id, provider.answer, |old(provider.requests)|,
                                 executor.effect, |old(executor.executions)|)
    {
      OneMoreCall(calls, k, provider.id);
      var o := OneCall(calls[k], provider, executor);
      outcomes := outcomes + [o];
    }
    assert calls[..|calls|] == calls;
    p := EveryRequestIsBacked(calls, provider.id);
    x := EveryExecutionIsBacked(calls);
    NoCallIsInBoth(calls, provider.id, p, x);
  }

  lemma {:induction false} StartEmpty(calls: seq<Call>, providerId: string)
    ensures Asked(calls[..0], providerId) == [] && Done(calls[..0]) == []
  {
  }

  // ---------------------------------------------------------------- deeper runs

  /** The same call, at the same entry or one that wires more methods. */
  ghost predicate Deeper(a: Call, b: Call) {
    Depth(a.entry) <= Depth(b.entry) && b == a.(entry := b.entry)
  }

  /** Where an entry answers, a deeper one answers the same and contacts the same. */
  lemma {:induction false} DeeperCallAgrees(
    a: Call, b: Call, providerId: string, answer: TurnRequest -> Result<Turn, IpcError>,
    effect: Execution -> Result<string, IpcError>)
    requires Deeper(a, b) && !OutcomeOf(a, providerId, answer, effect).NotWired?
    ensures OutcomeOf(b, providerId, answer, effect) == OutcomeOf(a, providerId, answer, effect)
    ensures RequestAt(a, providerId) == RequestAt(b, providerId) && ExecutionAt(a) == ExecutionAt(b)
  {
    WiredOutcomesPersist(a.q, a.t, a.c, providerId, answer, a.env, effect);
    AdmittedSomewhere(a.q, a.t.gates);
    GatesAdmitExactly(a.q, a.t.gates, INVOKE_SCOPE);
    hide RunGates, Admitted, CompleteResult, ToolResult, MayRequest, MayExecute;
    assert COMPLETE != CONTEXT_READ && TOOL != CONTEXT_READ && COMPLETE != TOOL;
  }

  /**
   * Raising any calls of a run to deeper entries, where every call was answered, changes no
   * outcome and no contact: the run cannot tell how much more was wired.
   */
  lemma {:induction false} DeeperRunsAgree(
    calls: seq<Call>, deeper: seq<Call>, providerId: string,
    answer: (nat, TurnRequest) -> Result<Turn, IpcError>, n: nat,
    effect: (nat, Execution) -> Result<string, IpcError>, m: nat)
    requires |calls| == |deeper| && forall i :: 0 <= i < |calls| ==> Deeper(calls[i], deeper[i])
    requires forall i :: 0 <= i < |calls| ==> !OutcomeAt(calls, i, providerId, answer, n, effect, m).NotWired?
    ensures Asked(calls, providerId) == Asked(deeper, providerId) && Done(calls) == Done(deeper)
    ensures forall i :: 0 <= i < |calls| ==>
      OutcomeAt(deeper, i, providerId, answer, n, effect, m) == OutcomeAt(calls, i, providerId, answer, n, effect, m)
  {
    hide RequestAt, ExecutionAt, Listed, OutcomeAt, Deeper;
    if calls != [] {
      var k := |calls| - 1;
      forall i | 0 <= i < k
        ensures OutcomeAt(calls[..k], i, providerId, answer, n, effect, m) == OutcomeAt(calls, i, providerId, answer, n, effect, m)
        ensures OutcomeAt(deeper[..k], i, providerId, answer, n, effect, m)
             == OutcomeAt(deeper, i, providerId, answer, n, effect, m)
      {
        OutcomeInPrefix(calls, k, i, providerId, answer, n, effect, m);
        OutcomeInPrefix(deeper, k, i, providerId, answer, n, effect, m);
      }
      DeeperRunsAgree(calls[..k], deeper[..k], providerId, answer, n, effect, m);
      DeeperLastAgrees(calls, deeper, k, providerId, answer, n, effect, m);
    }
  }

  lemma {:induction false} OutcomeInPrefix(
    calls: seq<Call>, k: nat, i: nat, providerId: string, answer: (nat, TurnRequest) -> Result<Turn, IpcError>, n: nat,
    effect: (nat, Execution) -> Result<string, IpcError>, m: nat)
    requires i < k <= |calls|
    ensures OutcomeAt(calls[..k], i, providerId, answer, n, effect, m) == OutcomeAt(calls, i, providerId, answer, n, effect, m)
  {
    hide Asked, Done, OutcomeOf;
    assert calls[..k][..i] == calls[..i];
  }

  lemma {:induction false} DeeperLastAgrees(
    calls: seq<Call>, deeper: seq<Call>, k: nat, providerId: string,
    answer: (nat, TurnRequest) -> Result<Turn, IpcError>, n: nat,
    effect: (nat, Execution) -> Result<string, IpcError>, m: nat)
    requires k < |calls| == |deeper| && Deeper(calls[k], deeper[k])
    requires Asked(calls[..k], providerId) == Asked(deeper[..k], providerId) && Done(calls[..k]) == Done(deeper[..k])
    requires !OutcomeAt(calls, k, providerId, answer, n, effect, m).NotWired?
    ensures OutcomeAt(deeper, k, providerId, answer, n, effect, m) == OutcomeAt(calls, k, providerId, answer, n, effect, m)
    ensures RequestAt(calls[k], providerId) == RequestAt(deeper[k], providerId) && ExecutionAt(calls[k]) == ExecutionAt(deeper[k])
  {
    hide RequestAt, ExecutionAt, Asked, Done, OutcomeOf, Deeper;
    var a, b := n + |Asked(calls[..k], providerId)|, m + |Done(calls[..k])|;
    DeeperCallAgrees(calls[k], deeper[k], providerId, x => answer(a, x), x => effect(b, x));
  }
}
