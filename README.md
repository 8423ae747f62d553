# compose: function composition by signature matching, in Dafny

The Go package `compose` builds one callable out of a chain of functions:
`New(f0, f1, ..., fn)` checks that the return tuple of each function fits the
parameter list of the next, builds a plan of steps once, and returns a function
that replays the plan on each call. Each function is called on what the previous
one returned. A variadic consumer can be fed in two ways. If the producer returns exactly
the consumer's fixed parameters followed by one value of the slice type, the
call passes that slice straight through as a spread call. Otherwise the
producer's returns from the first variadic position on must all have the
slice's element type, and a *correction* step first collapses them into one
slice.

This project models that engine with reflection abstracted away:

- `types.dfy` (module `Types`):
  - types form a small datatype (`Base(id) | SliceOf(elem)`) compared by structural equality;
  - a signature is parameter types, return types and a variadic flag;
  - the subset type `Signature` carries what reflection guarantees: a variadic signature has at least one parameter, and its last one is a slice;
  - run-time values know their type.
- `plan.dfy` (module `Plan`): the specification functions.
  - the pair check (`VariadicCheck`, `PairCheck`) and the declarative compatibility predicate it is proved against;
  - the plan of an accepted chain (`PlanFor`);
  - the replay of a plan on type tuples (`TypeReplay`) and on value tuples (`Replay`).
- `plan_props.dfy` (module `PlanProps`): the lemmas.
  - the accept/refuse boundaries;
  - the shape of the plan;
  - the central invariant: replaying the plan at the type level from the first function's parameters meets every call with exactly its callee's parameters and ends at the last function's returns;
  - what replay does on values.
- `compose.dfy` (module `Compose`): the imperative operations of `compose.go`.
  - the argument scan;
  - the loop that checks pairs and assembles the step list;
  - the variadic check;
  - the correction, which fills a fresh array;
  - the executor loop.
  Each is proved against the functions of `Plan`.
- `compose_test.dfy` (module `ComposeTests`): the cases of `compose_test.go`.
  - each accepted chain is built with `New` and run with `Invoke`, with the results the tests expect;
  - a refusal of each error kind.

Functions are indices into the argument list. Calling function `i` on a tuple
is an uninterpreted `apply(i, tuple)`, passed as a parameter. The composed
callable is the datatype `Composed`: its parameter types, its return types, its
variadic flag, and the plan.

## Model

| member | source | states |
|---|---|---|
| Compose.New | compose.go:21-34 | Fewer than two arguments give TooFewFunctions whatever they are. Otherwise a non-function argument gives NotAFunction at the first such index. Otherwise the outcome is that of the chain check on the arguments' signatures. It uses the corrected kind check, so a nil argument is reported as a non-function where compose.go:50-51 panics (see Findings). |
| Compose.FuncTypesVals | compose.go:46-58 | Succeeds exactly when every argument is a function, and then returns their signatures in order. Otherwise returns NotAFunction(i) with i the first non-function. It uses the corrected kind check Compose.ProbeArg, so a nil argument is reported where compose.go:50-51 panics (see Findings). |
| Compose.ProbeAsWritten | compose.go:50-51 | The kind check as written panics exactly on a nil argument. It recognises a function exactly when the argument is one. |
| Compose.ProbeArg | compose.go:50-53 | The corrected kind check never panics: nil is one more non-function. It recognises a function exactly when the argument is one. |
| Compose.NilArgumentPanics | compose.go:50-51 | On a nil argument the as-written check panics and the corrected one reports a non-function. |
| Compose.GetInOut | compose.go:99-109 | The two arrays filled index by index hold exactly the signature's parameter and return types. |
| Compose.CheckPair | compose.go:69-86 | The loop body's checks of one pair return exactly Plan.PairCheck: the variadic or arity check, then the positional scan of the fixed parameters. |
| Compose.ScanDecides | compose.go:81-86 | Once the variadic or arity check has let a pair through, the positional scan decides: TypeMismatch at the first differing fixed position, or acceptance with the correction found. |
| Compose.Accepted | compose.go:88-92 | An accepted pair extends the accepted prefix by one and the plan by its correction, if any, followed by its call. |
| Compose.GetInOutCallers | compose.go:60-97 | Succeeds exactly when every adjacent pair is accepted. It then returns function 0's parameters and variadic flag, the last function's returns, and the plan of the whole chain. Otherwise it returns the error of a refused pair all of whose predecessors were accepted. |
| Compose.Refused | compose.go:77-79 | The first refused pair decides the chain's outcome: failure with that pair's error. |
| Compose.CheckVariadic | compose.go:122-148 | The loop-based check returns exactly the variadic decision of `Plan.VariadicCheck`. |
| Plan.VariadicCheck | compose.go:122-139 | No correction iff the exact-match rule holds. TooFewReturns iff it does not hold and more fixed parameters exist than returns. A correction iff every return from position k on has the element type; it then collapses those len(out)-k values into the slice. A VariadicTypeMismatch position p is the first tail offset with another type. Every error carries the consumer's index. |
| Plan.PairCheck | compose.go:71-86 | The check of one producer/consumer pair, in the source's order. A correction is returned only for a variadic consumer. Every error carries the consumer's index and is a pair error. Its acceptance condition and error meanings are stated by PlanProps.PairAccepts and PlanProps.PairErrors. |
| Plan.PlanFor | compose.go:61-92 | The step list of the first n functions: call 0, then for each later function its correction if one is required, then its call. Its shape is stated by PlanProps.PlanEnds, PlanCalls, PlanSpread, PlanCorrectionPlaces and PlanCorrections. |
| Plan.TypeReplay | compose.go:36-41 | The executor on type tuples: each call needs exactly its callee's parameter types, and each correction needs a tail of the fixed length and element type. Its meaning is stated by PlanProps.PlanTypes and CallsMeetParameters. |
| Plan.Replay | compose.go:36-41 | The executor on value tuples, each step's output feeding the next. It can only fail at a correction step. What it computes is stated by PlanProps.ReplayFeeds, ReplayNests and ComposedTyped. |
| Plan.FirstDiff | compose.go:81-86 | The first position where two type lists differ, or the shorter length when none does. |
| Plan.FirstNot | compose.go:134-138 | The first position not holding the element type, or the length when all do. |
| PlanProps.FirstDiffIs | compose.go:81-86 | The index at which the positional scan stops is FirstDiff's value. |
| PlanProps.FirstNotIs | compose.go:134-138 | The index at which the element scan stops is FirstNot's value. |
| PlanProps.PairAccepts | compose.go:71-92 | A pair is accepted iff it is Compatible. A non-variadic consumer needs equal lengths and identical types. A variadic consumer needs its fixed parameters identical to the first returns, and the rest either the slice itself or all of its element type. An accepted pair needs no correction iff the consumer is not variadic or the exact rule holds. |
| PlanProps.PairErrors | compose.go:71-86 | Every refusal carries the consumer's index. ArityMismatch carries the two lengths, which differ, and occurs only for a non-variadic consumer. TypeMismatch carries the first differing fixed position. Variadic errors are the variadic check's own. |
| PlanProps.VariadicArityBoundary | compose.go:127-128 | k fixed parameters and fewer than k returns are refused. Exactly k matching returns are accepted with a correction building an empty slice. |
| PlanProps.SegmentShape | compose.go:88-92 | What an accepted consumer adds to the plan. A non-variadic or exactly matched consumer adds one call. A variadic consumer outside the exact case adds its correction followed by a spread call. |
| PlanProps.SegmentParts | compose.go:88-92 | Each later function contributes one or two steps. The last is its own call. A first step exists iff a correction is required, and is it. |
| PlanProps.PlanEnds | compose.go:61-65 | The plan starts with the call of function 0 and ends with the call of the last function. Its length is between n and 2n-1. |
| PlanProps.PlanCalls | compose.go:61-92 | The plan calls every function exactly once, in chain order. |
| PlanProps.PlanSpread | compose.go:111-116 | Every call step is a spread call exactly when its target is variadic. |
| PlanProps.PlanCorrectionPlaces | compose.go:88-92 | No correction is first or last, and each sits between two calls. |
| PlanProps.PlanCorrections | compose.go:88-92 | The step before the call of function i > 0 is a correction iff that pair requires one, and is that pair's correction. |
| PlanProps.PlanTypes | compose.go:60-97 | For an accepted chain, replaying the plan on types from function 0's parameters succeeds and ends at the last function's returns. |
| PlanProps.PlanTypesStep | compose.go:67-94 | Appending an accepted function's steps carries the type replay from its producer's returns to its own returns. |
| PlanProps.SegmentTypes | compose.go:71-92 | An accepted function's steps take its producer's return types to its own return types. |
| PlanProps.CallsMeetParameters | compose.go:36-41 | In any plan that replays on types, each call step is reached with exactly its callee's parameter types. |
| PlanProps.PlanCallsTyped | compose.go:60-97 | In an accepted chain's plan, every call step is reached with exactly its callee's parameter types. |
| PlanProps.ReplayTyped | compose.go:36-41 | With functions that keep to their signatures, a plan that replays on types also runs on values, and the values have the predicted types. |
| PlanProps.ComposedTyped | compose.go:36-42 | Given values of function 0's parameter types, the composed callable runs to completion. It returns values of the last function's return types. |
| PlanProps.ReplayAppend | compose.go:37-39 | Running p + q is running p, then q on p's result. |
| PlanProps.ReplayStuck | compose.go:37-39 | A replay stuck on a prefix stays stuck. |
| PlanProps.ReplayFeeds | compose.go:88-92 | Running the plan up to function n and then function n's steps calls function n on the producer's output. The output is unchanged, except that outside the exact variadic case the values from k on arrive as one slice, in order. |
| PlanProps.SegmentFeeds | compose.go:140-146 | A function's steps, run on its producer's values, call it on what Feed hands over. |
| PlanProps.ReplayPair | compose.go:36-41 | A two-function chain calls the first function, feeds its returns and calls the second. |
| PlanProps.ReplayNests | compose.go:36-41 | When no pair needs a correction, the composed callable is plain nesting, f(n-1)(...f0(args)). This covers chains without variadic consumers and exact variadic pass-throughs. |
| Compose.Correction | compose.go:140-146 | The corrected tuple is vs[..k] followed by one slice of type sl holding vs[k..]. Its length is k+1, the first k values are unchanged, and the slice holds n values. |
| Compose.Invoke | compose.go:36-41 | The executor loop returns exactly the replay of the plan on the arguments. |
| ComposeTests.NewPair | compose.go:21-34 | Composing two functions gives the chain outcome of their two signatures. |
| ComposeTests.RunPair | compose.go:36-43 | An accepted pair composes to a callable with the producer's parameters, the consumer's returns and the producer's variadic flag. Called on arguments for which the producer returns ws, it returns what the consumer makes of ws as Feed hands it over. |
| ComposeTests.RefusePair | compose.go:77-79 | A refused pair's error is the composition's error. |
| ComposeTests.TestCompose | compose_test.go:9-12 | intToStr then strToInt has signature func(int) int and maps 10 to 10, given their round trip. |
| ComposeTests.TestVariadicMinus | compose_test.go:15-18 | argVardMinusVard then argVard maps "foo" to ("foo minus argVard", 0). |
| ComposeTests.TestVariadicLit | compose_test.go:20-23 | argVardLit then argVard maps ("foo", 7) to ("foo lit argVard", 7). |
| ComposeTests.TestVariadicPlus | compose_test.go:25-28 | argVardPlus then argVard maps ("foo", 8, 9) to ("foo plus argVard", 17). |
| ComposeTests.TestVariadicSlice | compose_test.go:30-33 | argVardSlice then argVard maps ("foo", [10 11 12]) to ("foo slice argVard", 33). |
| ComposeTests.TestEmptyToJustVard | compose_test.go:35-36 | empty then justVard returns an empty int slice. |
| ComposeTests.TestTooFewFunctions | compose.go:22-24 | One function is refused with TooFewFunctions. |
| ComposeTests.TestNotAFunction | compose.go:49-53 | A non-function at position 1 is reported as argument 1. |
| ComposeTests.TestNilArgument | compose.go:49-53 | With the corrected kind check, New(nil, f) reports argument 0 as not a function. The source panics instead (see Findings). |
| ComposeTests.TestArityMismatch | compose.go:74-75 | (string, int) cannot feed func(string): ArityMismatch(1, 2, 1). |
| ComposeTests.TestTypeMismatch | compose.go:81-84 | string cannot feed func(int): TypeMismatch(1, 0). |
| ComposeTests.TestTooFewReturns | compose.go:127-128 | No returns cannot feed func(string, ...int): TooFewReturns(1). |
| ComposeTests.TestVariadicTypeMismatch | compose.go:134-136 | (string, int) cannot feed func(...int): VariadicTypeMismatch(1, 0). |

## Left out

- Must (compose.go:12-18) panics exactly when New returns an error and has no logic of its own. It is not a separate member.
- Reflection is abstracted away: `reflect.TypeOf`/`ValueOf`, `FuncOf`/`MakeFunc`, `.Interface()`, and the caller's type assertion on the result. The composed signature is the `ins`/`outs`/`variadic` of `Composed`.
- The spread flag of a call step is recorded and proved to follow the callee's variadic flag. `apply` receives the whole tuple in both modes, so the model does not distinguish `Call` from `CallSlice`. `reflect`'s own argument checks inside `Call` are not modelled either.
- Compose.GetCaller has no contract of its own. Its selection is stated by PlanProps.PlanSpread.
- The target functions are an uninterpreted `apply`; panics they raise are not modelled. The `strconv` helpers are not modelled: TestCompose takes the round trip of the two conversions as a precondition.
- The error message texts are not modelled; errors are kinds carrying the indices the messages report.
- Slice backing-array aliasing from `append(vs[:ln], sl)` (compose.go:145) is not modelled; tuples are immutable sequences.
- Compose.Invoke: the Go correction fills a slice of the fixed length from `vs[ln:]`. A longer tail makes `sl.Index(i)` panic, and a shorter one leaves zero values. The model returns None for any tail of another length. PlanProps.ComposedTyped shows this cannot happen when the functions keep to their signatures.
- The benchmarks (compose_test.go:86-100) are timing only.
- Concurrency of the returned callable; only a single sequential replay is modelled.

## Findings

| source | as written | input that shows it | evidently intended | confidence | as-written member | corrected member |
|---|---|---|---|---|---|---|
| compose.go:50-51 | `reflect.TypeOf(fn).Kind()` on each argument; `reflect.TypeOf(nil)` is a nil `reflect.Type`, and calling `Kind()` on it panics | `New(nil, f)` | return the error "Argument 0 is not a func" | high, not executed | Compose.ProbeAsWritten, Compose.NilArgumentPanics | Compose.ProbeArg, Compose.FuncTypesVals, Compose.New |
