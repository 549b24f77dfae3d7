# Call dispatch, path trie and memoising lookup — a verified Dafny model

This project models three small, sequential pieces of the Enso repository and
proves properties of them:

- **`CurryDispatch`** (`curry_dispatch.dfy`) — the slow-path call dispatcher
  `IndirectCurryNode`. Given a function, the schema it has after the call, a
  defaults mode and a tail status, `doCurry` either curries (returns a new
  function value and runs nothing), runs the call (with the direct executor,
  by raising a tail-call signal, or through the looping call optimiser), or
  runs the call and hands its answer to a redispatcher — with zero arguments
  when a callable answer is auto-called, or with the oversaturated arguments
  when the call is eta-expanded. `DoCurry` returns a tagged `Outcome` that
  records every collaborator invocation: which executor ran which call and how
  it completed, the tail-call signal and what it carries, and the exact request
  sent to the redispatcher. `Execute` is the same dispatch as its caller sees
  it: a returned value+state pair, or a thrown tail-call signal — raised by this
  dispatch, let through by the direct executor, or thrown by the redispatched
  call, which inherits the tail status.
- **`PathTrie`** (`path_trie.dfy`) — the path trie of the CI tooling: a tree of
  children keyed by path component, with a per-node count of the paths that end
  there. `Insert` walks a path creating missing children and bumps the final
  node's count; `Extend` and `FromIter` are folds of `Insert`, and
  `ExtendLoop` / `FromIterLoop` are the loops the source runs.
- **`Maps`** (`maps.dfy`) — `get_or_insert`: return the value cached under a
  key, or call the producer, cache its value on success and propagate its error
  untouched on failure.

`Wrappers` (`wrappers.dfy`) holds the shared `Option` and `Result` types.

Collaborators whose code is not part of this model are parameters:
the `FunctionSchema` queries (`isFullyApplied(mode)`, the no-argument
`isFullyApplied()` used for constructors, `hasOversaturatedArgs`,
`getOversaturatedArguments`) are the fields of `SchemaQueries`;
`ExecuteCallNode.executeCall` and `LoopingCallOptimiserNode.executeDispatch`
are the fields of `Executors`; `IndirectInvokeCallableNode.execute` is the
`redispatcher` argument of `Execute`. The direct executor and the redispatcher
answer with a `Completion`, so either may throw the tail-call signal; the
looping optimiser catches the signal and always returns a value+state pair. Entry points, scopes, caller info, frames,
the ambient state, schemas, argument descriptions and other host objects are
opaque types. In `Maps` the producer is a function from the key to the
`Result` its future finally yields, so the model can say which key it was
called with.

## Model

| member | source | states |
|---|---|---|
| CurryDispatch.DoCurry | engine/runtime/src/main/java/org/enso/interpreter/node/callable/dispatch/IndirectCurryNode.java:58-117 | the branch taken is the classifier's; a curried result keeps the state and carries the same call target and scope with the post-application schema and the given arguments; the dispatch raises a tail-call signal itself exactly for a saturated `TailLoop` call, and the signal carries the base call; every recorded execution is how its executor completed the base call, the direct executor runs exactly for saturated `TailDirect` calls, and the oversaturated base call always returns; a redispatch gets the executed call's returned value and state and the original modes and tail status, with no arguments when auto-calling and the oversaturated arguments and their descriptions when eta-expanding; a saturated call auto-calls exactly when it returned, the defaults mode executes and the answer is a function or a fully applied constructor |
| CurryDispatch.DoCall | engine/runtime/src/main/java/org/enso/interpreter/node/callable/dispatch/IndirectCurryNode.java:119-135 | the tail-call signal is raised exactly for `TailLoop` and carries the call unchanged; otherwise the call is run, by the direct executor exactly when the status is `TailDirect` and by the looping optimiser otherwise, which always returns |
| CurryDispatch.Execute | engine/runtime/src/main/java/org/enso/interpreter/node/callable/dispatch/IndirectCurryNode.java:74-116 | the caller sees a thrown signal exactly when the call is saturated and `TailLoop` (the signal carries the base call), or saturated and `TailDirect` with the direct executor letting a signal through, or redispatched to a call that throws; a redispatched outcome passes on the redispatcher's completion unchanged, a plain execution the executor's completion; an under-applied call returns with the input state |
| CurryDispatch.CurryInvokesNothing | engine/runtime/src/main/java/org/enso/interpreter/node/callable/dispatch/IndirectCurryNode.java:107-116 | when not fully applied, the outcome and the caller's answer do not depend on the executors or the redispatcher, and the answer is the new function (same call target and scope, post-application schema, arguments and oversaturated arguments) with the state unchanged |
| CurryDispatch.TailDirectRunsDirectly | engine/runtime/src/main/java/org/enso/interpreter/node/callable/dispatch/IndirectCurryNode.java:127-129 | a saturated `TailDirect` call is run once by the direct executor with (function, caller info, state, arguments), the looping optimiser's behaviour cannot change the outcome, and a signal the direct executor lets through reaches the caller unchanged |
| CurryDispatch.TailLoopSignals | engine/runtime/src/main/java/org/enso/interpreter/node/callable/dispatch/IndirectCurryNode.java:130-131 | a saturated `TailLoop` call runs nothing and throws the tail-call signal carrying exactly (function, caller info, state, arguments) |
| CurryDispatch.NotTailLoops | engine/runtime/src/main/java/org/enso/interpreter/node/callable/dispatch/IndirectCurryNode.java:132-133 | a saturated call with any other tail status is run once by the looping optimiser with (function, caller info, state, arguments), and the direct executor's behaviour cannot change the outcome |
| CurryDispatch.AutoCallRule | engine/runtime/src/main/java/org/enso/interpreter/node/callable/dispatch/IndirectCurryNode.java:78-93 | after a saturated call runs and returns, a function answer, or a constructor answer whose constructor function's schema is fully applied, is redispatched with the answer's state, empty arguments and descriptions and the original modes and tail status exactly when the defaults mode executes, and the redispatcher's completion is the caller's; otherwise the call's completion (answer or escaping signal) is passed on unchanged |
| CurryDispatch.EtaExpansionBaseCallLoops | engine/runtime/src/main/java/org/enso/interpreter/node/callable/dispatch/IndirectCurryNode.java:94-105 | an oversaturated call's base call is always run by the looping optimiser and returns, its execution is the same for every tail status, and the caller gets the redispatcher's completion (a returned pair or a thrown signal) unchanged |
| CurryDispatch.EtaExpansionThreadsState | engine/runtime/src/main/java/org/enso/interpreter/node/callable/dispatch/IndirectCurryNode.java:95-105 | the redispatcher of an oversaturated call receives the base call's value and returned state (not the input state), the oversaturated arguments, the schema's oversaturated argument descriptions, the frame and the original modes and tail status |
| CurryDispatch.BranchDeterminedBySchema | engine/runtime/src/main/java/org/enso/interpreter/node/callable/dispatch/IndirectCurryNode.java:73-107 | the top-level branch is one of three and is the same for any executors, any other request fields and any schema queries that agree on `isFullyApplied(defaultsMode)` and `hasOversaturatedArgs()`; currying happens iff not fully applied, eta-expansion iff fully applied with oversaturated arguments |
| PathTrie.Empty | build/ci_utils/src/path/trie.rs:5-9 | the default trie is a leaf with count 0 |
| PathTrie.Insert | build/ci_utils/src/path/trie.rs:12-18 | the root's count grows by one only for the empty path; the root's children only gain the path's first component and are untouched by the empty path |
| PathTrie.InsertEmptyPath | build/ci_utils/src/path/trie.rs:13-17 | inserting a path with no components bumps the root's count and every node below the root is unchanged |
| PathTrie.InsertReaches | build/ci_utils/src/path/trie.rs:13-16 | after inserting `p`, a node exists at `q` iff one existed before or `q` is a prefix of `p` |
| PathTrie.InsertCreatesPrefixes | build/ci_utils/src/path/trie.rs:13-16 | after inserting `p`, a node exists along every prefix of `p` |
| PathTrie.InsertElsewhere | build/ci_utils/src/path/trie.rs:14-16 | the subtree at any path that is not a prefix of the inserted one is exactly as before: no existing child is removed or replaced |
| PathTrie.InsertCountAt | build/ci_utils/src/path/trie.rs:17 | inserting `p` adds exactly one to the count at `p` and leaves the count at every other path unchanged |
| PathTrie.InsertCommutes | build/ci_utils/src/path/trie.rs:12-18 | two inserts in either order give equal tries |
| PathTrie.InsertTotal | build/ci_utils/src/path/trie.rs:12-18 | each insert adds exactly one to the sum of all counts |
| PathTrie.IsLeafIffNoChild | build/ci_utils/src/path/trie.rs:20-22 | a node is a leaf iff no one-component path leads to a child |
| PathTrie.ExtendAppend | build/ci_utils/src/path/trie.rs:41-47 | extending by a concatenation is extending by each part in turn |
| PathTrie.ExtendSwapAdjacent | build/ci_utils/src/path/trie.rs:41-47 | swapping two neighbouring paths of the batch builds the same trie |
| PathTrie.ExtendCountAt | build/ci_utils/src/path/trie.rs:41-47 | after extending, the count at every path has grown by the number of times it occurs in the batch |
| PathTrie.ExtendTotal | build/ci_utils/src/path/trie.rs:41-47 | extending adds the batch's length to the sum of all counts |
| PathTrie.ExtendLoop | build/ci_utils/src/path/trie.rs:42-46 | the loop inserting each path in order computes the fold `Extend`, and the count at every path grows by its number of occurrences |
| PathTrie.FromIterLoop | build/ci_utils/src/path/trie.rs:26-30 | building from a batch extends the default trie, and the count at every path is its number of occurrences in the batch |
| PathTrie.FromIterCountAt | build/ci_utils/src/path/trie.rs:25-31 | the count at every path of a trie built from a batch is the path's number of occurrences |
| PathTrie.FromIterTotal | build/ci_utils/src/path/trie.rs:25-31 | the counts of a trie built from a batch sum to the batch's length |
| Maps.GetOrInsert | build/ci_utils/src/extensions/maps.rs:17-23 | a present key returns its cached value without calling the producer and leaves the map alone; an absent key calls the producer with exactly that key, caches and returns its value on success, and on error returns the error with the map unchanged; every success is the value bound to the key afterwards; no other key is added, removed or rebound |
| Maps.GetOrInsertIdempotent | build/ci_utils/src/extensions/maps.rs:17-21 | after a successful call, a second call with the same key returns the same value, leaves the map as it is and does not call the producer |
| Maps.GetOrInsertKeepsCache | build/ci_utils/src/extensions/maps.rs:17-23 | whatever the producer does, every key already cached stays bound to its value |

## Left out

- `LoopingCallOptimiserNode`, `ExecuteCallNode` and `IndirectInvokeCallableNode` are not part of this model: their answers are parameters, so the trampoline that consumes the tail-call signal, the re-dispatch of leftover arguments and the "not invokable" error on a non-callable answer are not modelled; the only trampoline fact shown is what the signal carries (`TailLoopSignals`).
- The `FunctionSchema` arithmetic (arity, defaults, which arguments oversaturate) is not part of this model; its queries are uninterpreted parameters.
- The node-specialisation and caching machinery of the host (specialisation annotations, cached child nodes, uncached generation) has no behaviour of its own and is not modelled; the frame is an opaque value only forwarded to the redispatcher.
- The tail-call exception is modelled as the `Throws` completion, not as an exception that unwinds the native stack. Other faults raised by collaborators (runtime errors, panics) are not modelled: besides the tail-call signal, collaborators are total functions.
- The eta-expansion and currying equivalences (`f(a)(b)` behaving like `f(a, b)`) depend on the redispatcher and the executors, whose code is not part of this model, so they are not stated.
- `PathTrie.Insert`: the count is an unbounded `nat`; the source's `usize` counter would overflow (panic or wrap, depending on build) on the insert after `usize::MAX` inserts of one path (2^64 − 1 on 64-bit targets).
- Path component parsing and normalisation are left out; a path is a sequence of opaque components, and the two `FromIterator`/`Extend` implementations (over `Path` and over `PathBuf`) are one model.
- `Maps.GetOrInsert`: the asynchronous producer is modelled by the `Result` its future yields; the reference returned into the map is modelled as the value itself, and hashing is not modelled.
