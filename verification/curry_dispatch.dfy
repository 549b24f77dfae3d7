/**
 * The slow-path call dispatcher of the interpreter: given a function, the
 * schema it will have after the call, and the call's defaults mode and tail
 * status, it either curries (returns a new partially applied function),
 * executes the call (directly, by signalling a tail call, or through the
 * looping call optimiser), or executes the call and hands the callable result
 * to a redispatcher (auto-calling a returned function, or eta-expanding an
 * oversaturated call).
 *
 * Everything the dispatcher only forwards is opaque here. The schema queries
 * and the two executors are collaborators whose code is not part of this
 * model: they are given as functions. The redispatcher's completion is passed
 * on unchanged by the dispatcher, so `DoCurry` records the request it is sent
 * and `Execute` asks a given redispatcher for the final completion. Both the
 * direct executor and the redispatcher may complete by throwing the tail-call
 * signal (the callee, or the redispatched call, is itself in tail position);
 * the looping optimiser catches every such signal and always returns.
 */
module CurryDispatch {

  /** The executable entry point a function value refers to. */
  type CallTarget(==)
  /** The lexical scope a function value captured. */
  type Scope(==)
  /** Caller information forwarded to functions that ask for it. */
  type CallerInfo(==)
  /** The ambient (monadic) state threaded through every call. */
  type State(==)
  /** The caller's execution frame, forwarded to the redispatcher. */
  type Frame(==)
  /** Arity and default-argument bookkeeping of a function after a call. */
  type FunctionSchema(==)
  /** Call-site description of one argument (name or position). */
  type CallArgumentInfo(==)
  /** Any runtime value that is neither a function nor an atom constructor. */
  type HostObject(==)

  /** Whether default arguments are used to auto-apply a fully applied result. */
  datatype DefaultsExecutionMode = ExecuteDefaults | IgnoreDefaults {
    predicate IsExecute() { this == ExecuteDefaults }
  }

  /** Whether arguments arrive already evaluated or as suspended thunks; only forwarded. */
  datatype ArgumentsExecutionMode = ExecuteArguments | PreExecuted

  /** Where the call stands with respect to tail position. */
  datatype TailStatus = TailDirect | TailLoop | NotTail

  datatype Value =
    | FunctionValue(fn: Function)
    | ConstructorValue(cons: AtomConstructor)
    | OtherValue(obj: HostObject)

  /** An immutable function value: entry point, scope, schema and the arguments bound so far. */
  datatype Function = Function(
    callTarget: CallTarget,
    scope: Scope,
    schema: FunctionSchema,
    preAppliedArguments: seq<Value>,
    oversaturatedArguments: seq<Value>)

  /** A data constructor; it is callable through its constructor function. */
  datatype AtomConstructor = AtomConstructor(name: string, constructorFunction: Function)

  /** The universal result shape: a value together with the (possibly updated) state. */
  datatype Stateful = Stateful(state: State, value: Value)

  /** What an executor is handed, and what a tail-call signal carries. */
  datatype Call = Call(callee: Function, callerInfo: CallerInfo, state: State, arguments: seq<Value>)

  /** The `FunctionSchema` queries the dispatcher relies on. */
  datatype SchemaQueries = SchemaQueries(
    isFullyApplied: (FunctionSchema, DefaultsExecutionMode) -> bool,
    isFullyAppliedByDefault: FunctionSchema -> bool,
    hasOversaturatedArgs: FunctionSchema -> bool,
    oversaturatedArgumentInfos: FunctionSchema -> seq<CallArgumentInfo>)

  /** What the caller of a call observes: a returned pair, or the tail-call signal thrown. */
  datatype Completion = Returns(result: Stateful) | Throws(signal: Call)

  /**
   * The two executors: `ExecuteCallNode.executeCall`, which runs the callee
   * and lets a tail-call signal from it escape, and
   * `LoopingCallOptimiserNode.executeDispatch`, which catches such signals and
   * always returns.
   */
  datatype Executors = Executors(executeCall: Call -> Completion, executeDispatch: Call -> Stateful)

  /** Which executor ran a call. */
  datatype Executor = DirectCall | LoopingCall

  /** One executor invocation: who ran which call, and how it completed. */
  datatype Execution = Execution(executor: Executor, call: Call, completion: Completion)

  /** The arguments of one `IndirectInvokeCallableNode.execute` request. */
  datatype Redispatch = Redispatch(
    callable: Value,
    frame: Frame,
    state: State,
    arguments: seq<Value>,
    argumentInfos: seq<CallArgumentInfo>,
    defaultsMode: DefaultsExecutionMode,
    argumentsMode: ArgumentsExecutionMode,
    isTail: TailStatus)

  /** The inputs of one dispatch. */
  datatype Request = Request(
    frame: Frame,
    callee: Function,
    callerInfo: CallerInfo,
    state: State,
    arguments: seq<Value>,
    oversaturatedArguments: seq<Value>,
    postApplicationSchema: FunctionSchema,
    defaultsMode: DefaultsExecutionMode,
    argumentsMode: ArgumentsExecutionMode,
    isTail: TailStatus)

  /** What `doCall` did: ran an executor, or raised a tail-call signal instead. */
  datatype CallStep = Ran(execution: Execution) | Signalled(signal: Call)

  /** Everything one dispatch did, collaborator by collaborator. */
  datatype Outcome =
      /** under-applied: a new function value, nothing executed */
    | Curried(result: Stateful)
      /** saturated, tail-looped: the signal raised instead of executing */
    | TailCall(signal: Call)
      /** saturated: the call ran and its completion (a value, or an escaping signal) is passed on as is */
    | Executed(execution: Execution)
      /** saturated: the call ran and its callable answer is auto-called with no arguments */
    | AutoCalled(execution: Execution, redispatch: Redispatch)
      /** oversaturated: the call ran and the extra arguments go to its answer */
    | EtaExpanded(execution: Execution, redispatch: Redispatch)
  {
    predicate HasExecution() { Executed? || AutoCalled? || EtaExpanded? }
    predicate HasRedispatch() { AutoCalled? || EtaExpanded? }
  }

  /** The three top-level branches. */
  datatype Application = UnderApplied | Saturated | Oversaturated

  // ---------------------------------------------------------------------------
  // Reference definitions

  /** The application classifier: the branch is decided by two schema queries alone. */
  function Classify(sq: SchemaQueries, schema: FunctionSchema, mode: DefaultsExecutionMode): Application
  {
    if !sq.isFullyApplied(schema, mode) then UnderApplied
    else if sq.hasOversaturatedArgs(schema) then Oversaturated
    else Saturated
  }

  /** Which top-level branch an outcome belongs to. */
  function BranchOf(o: Outcome): Application
  {
    match o
    case Curried(_) => UnderApplied
    case TailCall(_) => Saturated
    case Executed(_) => Saturated
    case AutoCalled(_, _) => Saturated
    case EtaExpanded(_, _) => Oversaturated
  }

  /** The base call every executor or signal of this dispatch is about. */
  function BaseCall(req: Request): Call
  {
    Call(req.callee, req.callerInfo, req.state, req.arguments)
  }

  /** The execution record tells the truth: its completion is what its executor does with its call. */
  ghost predicate Performed(ex: Executors, e: Execution)
  {
    e.completion == match e.executor
                    case DirectCall => ex.executeCall(e.call)
                    case LoopingCall => Returns(ex.executeDispatch(e.call))
  }

  /** `f` is the partial application the request asks for: same entry point and scope, new schema and arguments. */
  ghost predicate CurriedFrom(f: Function, req: Request)
  {
    && f.callTarget == req.callee.callTarget
    && f.scope == req.callee.scope
    && f.schema == req.postApplicationSchema
    && f.preAppliedArguments == req.arguments
    && f.oversaturatedArguments == req.oversaturatedArguments
  }

  /** A value the dispatcher auto-calls: a function, or a constructor whose constructor function is fully applied. */
  predicate AutoCallable(sq: SchemaQueries, v: Value)
  {
    v.FunctionValue? || (v.ConstructorValue? && sq.isFullyAppliedByDefault(v.cons.constructorFunction.schema))
  }

  /** The redispatch request forwards the executed call's returned answer and the original modes. */
  ghost predicate ForwardsAnswer(req: Request, e: Execution, rd: Redispatch)
  {
    && e.completion.Returns?
    && rd.callable == e.completion.result.value
    && rd.state == e.completion.result.state
    && rd.frame == req.frame
    && rd.defaultsMode == req.defaultsMode
    && rd.argumentsMode == req.argumentsMode
    && rd.isTail == req.isTail
  }

  // ---------------------------------------------------------------------------
  // The dispatcher

  /** Runs one executor on a call and records it. */
  function Run(ex: Executors, executor: Executor, call: Call): (e: Execution)
    ensures Performed(ex, e) && e.executor == executor && e.call == call
  {
    match executor
    case DirectCall => Execution(DirectCall, call, ex.executeCall(call))
    case LoopingCall => Execution(LoopingCall, call, Returns(ex.executeDispatch(call)))
  }

  /** `doCall`: the tail status picks the direct executor, the tail-call signal, or the looping optimiser. */
  function DoCall(ex: Executors, call: Call, isTail: TailStatus): (s: CallStep)
    ensures s.Signalled? <==> isTail == TailLoop
    ensures s.Signalled? ==> s.signal == call
    ensures s.Ran? ==> Performed(ex, s.execution) && s.execution.call == call
    ensures s.Ran? ==> (s.execution.executor == DirectCall <==> isTail == TailDirect)
    ensures s.Ran? && isTail == NotTail ==> s.execution.completion.Returns?
  {
    match isTail
    case TailDirect => Ran(Run(ex, DirectCall, call))
    case TailLoop => Signalled(call)
    case NotTail => Ran(Run(ex, LoopingCall, call))
  }

  /** `doCurry`: the whole dispatch decision, with every collaborator invocation recorded. */
  function DoCurry(sq: SchemaQueries, ex: Executors, req: Request): (o: Outcome)
    ensures BranchOf(o) == Classify(sq, req.postApplicationSchema, req.defaultsMode)
    ensures o.Curried? ==> o.result.state == req.state
    ensures o.Curried? ==> o.result.value.FunctionValue? && CurriedFrom(o.result.value.fn, req)
    ensures o.TailCall? <==> BranchOf(o) == Saturated && req.isTail == TailLoop
    ensures o.TailCall? ==> o.signal == BaseCall(req)
    ensures o.HasExecution() ==> Performed(ex, o.execution) && o.execution.call == BaseCall(req)
    ensures o.HasExecution() ==> (o.execution.executor == DirectCall <==> BranchOf(o) == Saturated && req.isTail == TailDirect)
    ensures o.HasRedispatch() ==> ForwardsAnswer(req, o.execution, o.redispatch)
    ensures o.AutoCalled? ==> o.redispatch.arguments == [] && o.redispatch.argumentInfos == []
    ensures o.EtaExpanded? ==>
              && o.redispatch.arguments == req.oversaturatedArguments
              && o.redispatch.argumentInfos == sq.oversaturatedArgumentInfos(req.postApplicationSchema)
    ensures o.EtaExpanded? ==> o.execution.completion.Returns?
    ensures o.AutoCalled? || o.Executed? ==>
              (o.AutoCalled? <==> && o.execution.completion.Returns?
                                  && req.defaultsMode.IsExecute()
                                  && AutoCallable(sq, o.execution.completion.result.value))
  {
    var schema := req.postApplicationSchema;
    var call := BaseCall(req);
    if sq.isFullyApplied(schema, req.defaultsMode) then
      if !sq.hasOversaturatedArgs(schema) then
        match DoCall(ex, call, req.isTail)
        case Signalled(signal) => TailCall(signal)
        case Ran(e) =>
          if e.completion.Returns? && req.defaultsMode.IsExecute() && AutoCallable(sq, e.completion.result.value) then
            var answer := e.completion.result;
            AutoCalled(e, Redispatch(answer.value, req.frame, answer.state, [], [],
                                     req.defaultsMode, req.argumentsMode, req.isTail))
          else
            Executed(e)
      else
        var answer := ex.executeDispatch(call);
        EtaExpanded(Execution(LoopingCall, call, Returns(answer)),
                    Redispatch(answer.value, req.frame, answer.state,
                               req.oversaturatedArguments, sq.oversaturatedArgumentInfos(schema),
                               req.defaultsMode, req.argumentsMode, req.isTail))
    else
      Curried(Stateful(req.state, FunctionValue(Function(req.callee.callTarget, req.callee.scope, schema,
                                                         req.arguments, req.oversaturatedArguments))))
  }

  /**
   * `execute` as its caller sees it: the tail-call signal is thrown, a signal
   * escaping the direct executor passes through, and a redispatch request is
   * answered by `redispatcher`, whose completion (returned or thrown) is passed
   * on unchanged.
   */
  function Execute(sq: SchemaQueries, ex: Executors, redispatcher: Redispatch -> Completion, req: Request): (c: Completion)
    // a signal escapes exactly when this call signals, the direct executor
    // lets one through, or the redispatched call throws one
    ensures c.Throws? <==>
              || (Classify(sq, req.postApplicationSchema, req.defaultsMode) == Saturated
                  && req.isTail == TailLoop)
              || (Classify(sq, req.postApplicationSchema, req.defaultsMode) == Saturated
                  && req.isTail == TailDirect && ex.executeCall(BaseCall(req)).Throws?)
              || (DoCurry(sq, ex, req).HasRedispatch() && redispatcher(DoCurry(sq, ex, req).redispatch).Throws?)
    ensures Classify(sq, req.postApplicationSchema, req.defaultsMode) == Saturated && req.isTail == TailLoop ==>
              c == Throws(BaseCall(req))
    ensures var o := DoCurry(sq, ex, req);
            o.HasRedispatch() ==> c == redispatcher(o.redispatch)
    ensures var o := DoCurry(sq, ex, req);
            o.Executed? ==> c == o.execution.completion
    ensures Classify(sq, req.postApplicationSchema, req.defaultsMode) == UnderApplied ==>
              c.Returns? && c.result.state == req.state
  {
    match DoCurry(sq, ex, req)
    case Curried(result) => Returns(result)
    case TailCall(signal) => Throws(signal)
    case Executed(e) => e.completion
    case AutoCalled(_, rd) => redispatcher(rd)
    case EtaExpanded(_, rd) => redispatcher(rd)
  }

  // ---------------------------------------------------------------------------
  // Properties of the dispatch

  /**
   * An under-applied call executes nothing: whatever the executors and the
   * redispatcher do, the answer is the curried function with the state unchanged.
   */
  lemma CurryInvokesNothing(sq: SchemaQueries, ex: Executors, ex': Executors,
                            redispatcher: Redispatch -> Completion, redispatcher': Redispatch -> Completion, req: Request)
    requires !sq.isFullyApplied(req.postApplicationSchema, req.defaultsMode)
    ensures DoCurry(sq, ex, req) == DoCurry(sq, ex', req)
    ensures Execute(sq, ex, redispatcher, req) == Execute(sq, ex', redispatcher', req)
    ensures Execute(sq, ex, redispatcher, req)
         == Returns(Stateful(req.state, FunctionValue(Function(req.callee.callTarget, req.callee.scope,
                                                                req.postApplicationSchema, req.arguments,
                                                                req.oversaturatedArguments))))
  {
  }

  /**
   * A saturated call in `TailDirect` position is run by the direct executor
   * alone: the looping optimiser could answer anything without changing the
   * outcome, and a tail-call signal escaping the callee reaches the caller as is.
   */
  lemma TailDirectRunsDirectly(sq: SchemaQueries, ex: Executors, otherDispatch: Call -> Stateful,
                               redispatcher: Redispatch -> Completion, req: Request)
    requires Classify(sq, req.postApplicationSchema, req.defaultsMode) == Saturated
    requires req.isTail == TailDirect
    ensures var o := DoCurry(sq, ex, req);
            && (o.Executed? || o.AutoCalled?)
            && o.execution == Execution(DirectCall, BaseCall(req), ex.executeCall(BaseCall(req)))
            && o == DoCurry(sq, ex.(executeDispatch := otherDispatch), req)
    ensures ex.executeCall(BaseCall(req)).Throws? ==>
              Execute(sq, ex, redispatcher, req) == ex.executeCall(BaseCall(req))
  {
  }

  /**
   * A saturated call in `TailLoop` position executes nothing: it raises the
   * tail-call signal carrying exactly the function, caller info, state and arguments.
   */
  lemma TailLoopSignals(sq: SchemaQueries, ex: Executors, redispatcher: Redispatch -> Completion, req: Request)
    requires Classify(sq, req.postApplicationSchema, req.defaultsMode) == Saturated
    requires req.isTail == TailLoop
    ensures DoCurry(sq, ex, req) == TailCall(Call(req.callee, req.callerInfo, req.state, req.arguments))
    ensures Execute(sq, ex, redispatcher, req) == Throws(Call(req.callee, req.callerInfo, req.state, req.arguments))
  {
  }

  /**
   * A saturated call that is not in tail position goes through the looping
   * optimiser alone: the direct executor could answer anything without changing the outcome.
   */
  lemma NotTailLoops(sq: SchemaQueries, ex: Executors, otherCall: Call -> Completion, req: Request)
    requires Classify(sq, req.postApplicationSchema, req.defaultsMode) == Saturated
    requires req.isTail == NotTail
    ensures var o := DoCurry(sq, ex, req);
            && (o.Executed? || o.AutoCalled?)
            && o.execution == Execution(LoopingCall, BaseCall(req), Returns(ex.executeDispatch(BaseCall(req))))
            && o == DoCurry(sq, ex.(executeCall := otherCall), req)
  {
  }

  /**
   * After a saturated call runs, a callable answer it returned is auto-called
   * with no arguments exactly when the defaults mode asks for it; otherwise
   * the call's completion (its answer, or the signal it let escape) is passed
   * on unchanged.
   */
  lemma AutoCallRule(sq: SchemaQueries, ex: Executors, redispatcher: Redispatch -> Completion, req: Request)
    requires Classify(sq, req.postApplicationSchema, req.defaultsMode) == Saturated
    requires req.isTail != TailLoop
    ensures var o := DoCurry(sq, ex, req);
            var done := o.execution.completion;
            if done.Returns? && req.defaultsMode.IsExecute() && AutoCallable(sq, done.result.value) then
              && o == AutoCalled(o.execution, Redispatch(done.result.value, req.frame, done.result.state, [], [],
                                                         req.defaultsMode, req.argumentsMode, req.isTail))
              && Execute(sq, ex, redispatcher, req) == redispatcher(o.redispatch)
            else
              && o == Executed(o.execution)
              && Execute(sq, ex, redispatcher, req) == done
  {
  }

  /**
   * An oversaturated call's base call is always run by the looping optimiser,
   * whatever the tail status, so it never raises the tail-call signal itself;
   * the tail status only reaches the redispatcher, whose completion (which
   * may be a thrown signal) is the caller's.
   */
  lemma EtaExpansionBaseCallLoops(sq: SchemaQueries, ex: Executors, redispatcher: Redispatch -> Completion,
                                  req: Request, otherTail: TailStatus)
    requires Classify(sq, req.postApplicationSchema, req.defaultsMode) == Oversaturated
    ensures var o := DoCurry(sq, ex, req);
            && o.EtaExpanded?
            && o.execution == Execution(LoopingCall, BaseCall(req), Returns(ex.executeDispatch(BaseCall(req))))
            && DoCurry(sq, ex, req.(isTail := otherTail)).execution == o.execution
            && Execute(sq, ex, redispatcher, req) == redispatcher(o.redispatch)
  {
  }

  /**
   * The redispatcher of an oversaturated call receives the base call's answer
   * and the state that call returned (not the input state), the extra
   * arguments with their call-site descriptions, and the original modes.
   */
  lemma EtaExpansionThreadsState(sq: SchemaQueries, ex: Executors, req: Request)
    requires Classify(sq, req.postApplicationSchema, req.defaultsMode) == Oversaturated
    ensures var answer := ex.executeDispatch(BaseCall(req));
            DoCurry(sq, ex, req).redispatch
              == Redispatch(answer.value, req.frame, answer.state,
                            req.oversaturatedArguments, sq.oversaturatedArgumentInfos(req.postApplicationSchema),
                            req.defaultsMode, req.argumentsMode, req.isTail)
  {
  }

  /**
   * Exactly one top-level branch fires, and which one depends on nothing but
   * `isFullyApplied(defaultsMode)` and `hasOversaturatedArgs()` of the schema.
   */
  lemma BranchDeterminedBySchema(sq: SchemaQueries, sq': SchemaQueries, ex: Executors, ex': Executors,
                                 req: Request, req': Request)
    requires req'.postApplicationSchema == req.postApplicationSchema && req'.defaultsMode == req.defaultsMode
    requires sq'.isFullyApplied(req.postApplicationSchema, req.defaultsMode)
          == sq.isFullyApplied(req.postApplicationSchema, req.defaultsMode)
    requires sq'.hasOversaturatedArgs(req.postApplicationSchema) == sq.hasOversaturatedArgs(req.postApplicationSchema)
    ensures BranchOf(DoCurry(sq, ex, req)) == BranchOf(DoCurry(sq', ex', req'))
    ensures DoCurry(sq, ex, req).Curried? <==> !sq.isFullyApplied(req.postApplicationSchema, req.defaultsMode)
    ensures DoCurry(sq, ex, req).EtaExpanded?
        <==> sq.isFullyApplied(req.postApplicationSchema, req.defaultsMode) && sq.hasOversaturatedArgs(req.postApplicationSchema)
  {
  }
}
