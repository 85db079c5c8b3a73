# tekton-kueue: admission to quota, verified

tekton-kueue puts Tekton PipelineRuns under Kueue. A mutating webhook suspends every new
PipelineRun, puts it in a queue and lets configured CEL expressions add labels, annotations,
resource requests and a `managedBy` value. A controller then turns the annotations into a Kueue
resource request and starts or stops the run. This project models that path in Dafny, from the
raw configuration to the life of the stored object, and proves what holds along it.

Check everything with `dafny verify dfyconfig.toml`.

## Layout

| file | what it models |
|---|---|
| `Prelude.dfy`, `Traversal.dfy` | nil-able Go string maps; the append-until-error loop |
| `Decimal.dfy` | `strconv.Itoa`, `strconv.Atoi`, 64-bit wrap-around |
| `Json.dfy` | JSON values, JSON Pointers (sections 3 and 4 of RFC 6901), add/remove/replace (sections 4.1 to 4.3 of RFC 6902) |
| `Runs.dfy`, `Requests.dfy` | the PipelineRun, as a value and as a mutable object; mutation requests |
| `Evaluator.dfy`, `Builders.dfy` | CEL results to requests; the CEL functions that build requests; compilation |
| `Mutator.dfy` | applying requests in place; `Mutate`; its errors and counters |
| `FoldTheory.dfy`, `ResourceSums.dfy` | what request lists mean: independent targets, exact sums, reordering |
| `ConfigStore.dfy`, `StoreInterleaving.dfy` | the configuration store, its event histories, its readers and writers |
| `Webhook.dfy` | the defaulter |
| `PatchFilter.dfy`, `PatchRefinement.dfy`, `PatchExistence.dfy` | the patch filter and what it does to documents |
| `Quota.dfy`, `Lifecycle.dfy` | annotations to resource requests; start, stop, pending status |
| `EndToEnd.dfy` | the pieces joined |

Code the repository only calls is a parameter and may be anything: a compiled CEL program is any
function of the snapshot (`Evaluator.Program`), Tekton's defaulting, validation and marshalling are
any functions (`Evaluator.Tekton`), and so are the YAML decoder and the CEL compiler
(`ConfigStore.Loader`) and Kubernetes name rules (`Builders.Naming`). `resource.ParseQuantity` is
any function that reads printed 64-bit ints as themselves (`Quota.ReadsInts`). A Go string is a
sequence of characters, one per byte.

## Findings

- A sum of resource requests that leaves 64 bits is not noticed by the webhook when it is the last
  one: it is stored as a negative annotation (`ResourceSums.OverflowReachesTheAnnotation`). Every
  such annotation is refused by the controller, so no wrong quota is ever requested
  (`EndToEnd.QuotaAcceptsIff`, `EndToEnd.QuotaIsExact`). Past 64 bits the outcome also depends on the
  order of the requests (`ResourceSums.OverflowIsOrderDependent`).
- The patch filter drops a patch that creates `/metadata` or `/spec` as a whole, and with it the
  webhook's own changes. The changes survive if and only if the submitted object has both as objects
  (`PatchRefinement.IntendedSurviveIff`). An object with metadata and without a spec object is the
  failing input: the full list suspends the run, the filtered one leaves it without a status
  (`PatchRefinement.CreatedSpecIsDropped`). An admitted run is stored suspended if and only if it was
  submitted with a spec object (`EndToEnd.StoredSuspendedIff`), and every run admitted without one can
  be stored running (`EndToEnd.SuspensionIsLost`).
- The allowlist compares string prefixes, so it admits every member of `metadata` or `spec` whose
  name merely starts with an allowed one, and nothing else (`PatchFilter.AllowedOnTokens`).
- A store that was never updated makes the defaulter dereference a nil configuration on every
  PipelineRun (`Webhook.DefaultErrorsClassified`).
- `RunWithPodSetsInfo` clears any status; only Kueue's own suspension check keeps a stopped run
  stopped (`Lifecycle.StartNeedsGuard`).
- The comment at internal/cel/mutator.go:48-49 says that a failing evaluation may leave the run
  partially modified. The code is stricter: only a request that fails to apply does
  (`Mutator.MutateFailureAtomicity`).

## Model

| member | source | states |
|---|---|---|
| `EndToEnd.QuotaIsExact` | internal/controller/pipelinerun_controller.go:220-272 | when the annotations of the stored object are accepted, the quantity of every resource with a request after its last plain write is the mathematical sum of a start value, absent or a non-negative int, and those requests; one PipelineRun token |
| `EndToEnd.AcceptedQuantityIsExact` | internal/controller/pipelinerun_controller.go:220-272 | the same for any request list and any annotations it leaves: an accepted quantity is the sum of start value and later requests |
| `EndToEnd.QuotaAcceptsIff` | internal/controller/pipelinerun_controller.go:260-269 | in the stored object the annotation of built requests is accepted if and only if its start value is absent or a non-negative int and start value plus sum fits in 64 bits |
| `EndToEnd.AnnotationAcceptedIff` | internal/controller/pipelinerun_controller.go:260-269 | the same for any request list |
| `EndToEnd.ResourceCallReachesQuota` | internal/cel/compiler.go:143-189 | `resource(key, n)` survives building, conversion, printing, applying, parsing and prefix stripping as (key, n) for every n from 0 to 2^63-1 |
| `EndToEnd.StoredObject` | internal/webhook/v1/pipelinerun_webhook.go:39-53 | after filtering, the stored document has the admitted labels, annotations, pending status and managedBy, and is the submitted document at every other location |
| `EndToEnd.StoredObjectIsReachable` | internal/webhook/v1/pipelinerun_webhook.go:39-53 | for every submitted object with metadata and spec some patch list without enclosing writes produces the defaulted run |
| `EndToEnd.ChangedLocationsAreAllowed` | internal/webhook/v1/pipelinerun_webhook.go:55-63 | every location whose JSON `Default` changes renders to a pointer `isPatchAllowed` accepts, or encloses one |
| `EndToEnd.DefaultKeepsRest` | internal/webhook/v1/pipelinerun_webhook.go:148-181 | admitted or refused, the run is pending afterwards and no other field changes |
| `EndToEnd.StoredReads` | internal/webhook/v1/pipelinerun_webhook.go:71-90 | from the stored object the controllers read pending, the admitted managedBy and exactly the admitted annotations |
| `EndToEnd.StoredSuspendedIff` | internal/webhook/v1/pipelinerun_webhook.go:55-90 | an admitted run with metadata is stored suspended if and only if it was submitted with a spec object, and stored running otherwise |
| `EndToEnd.SuspensionIsLost` | internal/webhook/v1/pipelinerun_webhook.go:55-90 | for every run admitted from an object without a spec object some patch list to the defaulted run, filtered, stores it running |
| `EndToEnd.StoredRunLife` | internal/controller/pipelinerun_controller.go:120-169 | under every interleaving the status of a stored run only moves forward, `Stop` succeeds and the pending mark is written at most once; it starts suspended if and only if it was submitted with a spec object |
| `EndToEnd.AdmissionUnderConcurrency` | internal/webhook/v1/pipelinerun_webhook.go:159-178 | under any schedule of the store, an admission that reads after a commit never dereferences a nil config, fails only as bad request or internal error, and queues what it admits |
| `PatchRefinement.FilterRefinesPatch` | internal/webhook/v1/pipelinerun_webhook.go:71-90 | the filtered list applies whenever the full one does and yields the fully patched document at every allowed location and the original elsewhere |
| `PatchRefinement.IntendedSurviveIff` | internal/webhook/v1/pipelinerun_webhook.go:55-90 | the webhook's changes survive filtering if and only if the submitted object has object-valued metadata and spec |
| `PatchRefinement.CreatedSpecIsDropped` | internal/webhook/v1/pipelinerun_webhook.go:58-63 | failing inputs: on any object with metadata and without a spec object, a list adding labels and a pending spec gives a pending status; filtered it still adds the labels and gives no status |
| `PatchExistence.LocalPatchExists` | internal/webhook/v1/pipelinerun_webhook.go:39-44 | any shaped document can be patched into any other without writing an enclosing location, touching only places that differ |
| `PatchFilter.Compact` | internal/webhook/v1/pipelinerun_webhook.go:77-84 | the read/write loop over one array leaves exactly the allowed patches in their original order |
| `PatchFilter.Response.DropUnintended` | internal/webhook/v1/pipelinerun_webhook.go:71-90 | the response keeps exactly the allowed patches; patch bytes and type are cleared exactly when a non-empty list filters to nothing |
| `PatchFilter.IsPatchAllowed` | internal/webhook/v1/pipelinerun_webhook.go:92-99 | true exactly when some allowed prefix leads the path |
| `PatchFilter.AllowedOnTokens` | internal/webhook/v1/pipelinerun_webhook.go:58-63 | on tokens, the prefix test accepts exactly members of metadata starting with labels or annotations and of spec starting with status or managedBy, escaping included |
| `Webhook.Default` | internal/webhook/v1/pipelinerun_webhook.go:148-181 | run, response and counters of the in-place defaulter are those of `DefaultOutcome`, error paths included |
| `Webhook.RunMutators` | internal/webhook/v1/pipelinerun_webhook.go:166-178 | the mutator loop runs them in turn and stops at the first error |
| `Webhook.MutatorsAreOneFold` | internal/webhook/v1/pipelinerun_webhook.go:166-178 | any number of mutators is one fold over the requests they gather, and fails with the same error |
| `Webhook.MutatorsInTurn` | internal/webhook/v1/pipelinerun_webhook.go:166-178 | one more mutator runs on the run the others left, unless one of them failed |
| `Webhook.AdmittedIff` | internal/webhook/v1/pipelinerun_webhook.go:148-181 | a loaded store admits a run if and only if its mutator's requests can be determined and every annotation, taken alone, accepts them |
| `Webhook.AppliedAreTheItems` | internal/webhook/v1/pipelinerun_webhook.go:159-178 | an admission applies exactly the items the configured programs yield on the defaulted copy of the prepared run, in order |
| `Webhook.AdmissionClosedForm` | internal/webhook/v1/pipelinerun_webhook.go:155-178 | an admitted run is pending; managedBy is the last request's, else the override, else the user's; the queue label is the last request's, else the user's, else the configured one; other labels and annotations likewise |
| `Webhook.AdmittedRunIsQueued` | internal/webhook/v1/pipelinerun_webhook.go:131-135 | an admitted run has a queue label, empty only if the user wrote it empty; managedBy is empty only if the user's was |
| `Webhook.DefaultErrorsClassified` | internal/webhook/v1/pipelinerun_webhook.go:166-178 | a loaded store only ever gives bad-request or internal-error; bad-request if and only if the defaulted copy fails validation or marshalling; a nil dereference if and only if the store was never updated |
| `Mutator.ApplyMutation` | internal/cel/mutator.go:130-181 | one request applied in place: new fields and error are those of `Step`, including a partially applied failure |
| `Mutator.ResourceErrors` | internal/cel/mutator.go:148-163 | which of the three errors a refused sum gives, for every stored and new text |
| `Mutator.CELMutator.Mutate` | internal/cel/mutator.go:56-94 | run, error and counters are those of `MutateOutcome`: evaluation on a fresh defaulted copy, then one fold over the original |
| `Mutator.EvaluatePrograms` | internal/cel/mutator.go:106-117 | all programs against one snapshot, requests concatenated, first error returned, counters recorded |
| `Mutator.RequestsForIff` | internal/cel/mutator.go:61-82 | a mutator without programs asks for nothing; otherwise it succeeds if and only if the defaulted copy validates and marshals and all items of all programs are applicable, and asks for exactly these |
| `Mutator.RequestsAreValid` | internal/cel/evaluator.go:92-98 | only requests that pass `Validate` are applied |
| `Mutator.FoldFailure` | internal/cel/mutator.go:84-90 | a failing fold applied exactly the requests before the failing resource request, up to a nil annotation map made empty |
| `Mutator.MutateFailureAtomicity` | internal/cel/mutator.go:56-94 | a validation or evaluation failure leaves the run untouched; an apply failure leaves the fold of the earlier requests; status and other fields never change |
| `Mutator.MutateErrorsClassified` | internal/cel/mutator.go:56-94 | every error on a run is a ValidationError or an EvaluationError; a ValidationError if and only if the defaulted copy does not validate or marshal |
| `Mutator.MetricConservation` | internal/cel/mutator.go:62-92 | over any sequence of calls, mutation successes plus failures equal evaluation successes plus calls without programs |
| `Mutator.MetricsCountCalls` | internal/cel/mutator.go:62-92 | over any sequence of calls the success counter counts those without an error, the mutation-failure counter those whose requests failed to apply, the evaluation-failure counter the other evaluation errors |
| `FoldTheory.FoldAt` | internal/cel/mutator.go:130-181 | after a successful fold each label and managedBy holds its last write, else its old value, and each annotation is what its own requests make of it |
| `FoldTheory.FoldSucceedsIff` | internal/cel/mutator.go:84-90 | a fold succeeds if and only if every annotation, taken alone, does |
| `FoldTheory.FoldNil` | internal/cel/mutator.go:132-178 | a map is non-nil afterwards exactly when it was before or when something was written to it |
| `FoldTheory.OrderIndependence` | internal/cel/mutator.go:84-90 | two lists in which each target sees the same requests in the same order have the same outcome |
| `FoldTheory.AdjacentCommute` | internal/cel/mutator.go:130-181 | adjacent requests without a common target commute anywhere in a list; multiKueue with a queue targets managedBy and the queue label |
| `FoldTheory.PlainFoldIdempotent` | internal/cel/mutator.go:130-181 | a list without resource requests never fails and applying it twice equals applying it once |
| `ResourceSums.TextRefinesCells` | internal/cel/mutator.go:142-168 | the parse, add, print computation on strings is the wrapping computation on numbers, printed |
| `ResourceSums.SumIsExact` | internal/cel/mutator.go:142-168 | accepted requests that end non-negative are the mathematical sum of base and requests, whatever the request values |
| `ResourceSums.AcceptedIff` | internal/cel/mutator.go:142-168 | built requests end non-negative if and only if the base is absent or a non-negative int and the sum fits in 64 bits |
| `ResourceSums.OverflowReachesTheAnnotation` | internal/cel/mutator.go:164-168 | concrete input on which the webhook stores a wrapped, negative sum |
| `ResourceSums.OverflowIsOrderDependent` | internal/cel/mutator.go:155-168 | concrete amounts refused in one order and accepted in another |
| `ResourceSums.AfterLastPlainWrite` | internal/cel/mutator.go:137-168 | when all requests are accepted, an annotation depends only on its last plain write and what follows |
| `ResourceSums.ResourceReordering` | internal/cel/mutator.go:84-90 | permuting the built requests of a resource after its last plain write changes nothing as long as start value plus total fits in 64 bits, in lists that otherwise keep each target's order |
| `Evaluator.EvaluateProgram` | internal/cel/evaluator.go:54-101 | result and counters of evaluating one program, in the order marshal, evaluate, convert, validate |
| `Evaluator.EvaluateIff` | internal/cel/evaluator.go:54-101 | evaluation succeeds if and only if the snapshot marshals and the program yields a map or list whose items all convert, carry a value (multiKueue excepted) and, for managedBy, the fixed key; it returns exactly the requests of these items, in order |
| `Evaluator.EvaluateAllIff` | internal/cel/mutator.go:106-117 | the same over the concatenated items of every program, in program order |
| `Evaluator.ConvertResult` | internal/cel/evaluator.go:109-159 | the list loops convert a result item by item and stop at the first bad one |
| `Evaluator.FindInvalid` | internal/cel/evaluator.go:92-98 | the validation loop reports the first invalid request |
| `Evaluator.Regrouping` | internal/cel/evaluator.go:149-159 | splitting a list expression in two, or merging two, lists of either kind or single maps, anywhere in the program list, gives the same requests |
| `Builders.BuildConvertRoundTrip` | internal/cel/compiler.go:78-298 | every map a mutation function builds converts back to its request and validates, except exactly the empty-valued annotation, label and priority |
| `Builders.BuildsIff` | internal/cel/compiler.go:78-298 | exactly when each mutation function refuses its arguments |
| `Builders.ConvertSingleIff` | internal/cel/evaluator.go:163-228 | a value converts to a request if and only if it is a map carrying that request's type, non-empty key and value |
| `Requests.FiveTypes` | internal/cel/types.go:14-34 | exactly the five type names are valid and each names its type |
| `Builders.ResourceBuildsIff` | internal/cel/compiler.go:143-178 | a resource call is refused exactly for a bad key or a negative amount |
| `Builders.CompilePrograms` | internal/cel/compiler.go:18-42 | the compile loop returns all programs or the first error |
| `Builders.CompileAllIff` | internal/cel/compiler.go:18-42 | compilation succeeds if and only if the list is non-empty and every expression is non-empty and accepted; programs in order |
| `Decimal.AtoiItoa` | internal/cel/mutator.go:148-168 | every 64-bit int survives printing and parsing |
| `Decimal.PrintedForm` | internal/cel/mutator.go:168 | a printed int is a minus sign exactly if negative and the numeral, in characters 0 to 9 without leading zeros, whose positional value is its absolute value |
| `Decimal.AcceptedForm` | internal/cel/mutator.go:148-157 | a text is read as n if and only if it is an optional sign and a numeral, leading zeros allowed, of positional value n within -2^63 to 2^63-1 |
| `Decimal.WrapIsModular` | internal/cel/mutator.go:164 | the stored sum is in the 64-bit range and differs from the true sum by a multiple of 2^64 |
| `Decimal.WrapIsExactOrNegative` | internal/cel/mutator.go:161-164 | a non-negative int plus any 64-bit int fits or wraps to a negative |
| `ConfigStore.Store.Update` | internal/webhook/v1/config_store.go:53-82 | a loadable configuration replaces both fields, any other leaves both; counters |
| `ConfigStore.LoadIff` | internal/webhook/v1/config_store.go:57-99 | a configuration loads if and only if it decodes, names a queue and compiles, with the first two errors told apart; it becomes its own config and one mutator holding its programs in order |
| `ConfigStore.Reconcile` | internal/controller/configmap_controller.go:40-61 | store and result of one ConfigMap event, error paths included |
| `ConfigStore.LastKnownGood` | internal/webhook/v1/config_store.go:50-53 | after any history the store holds what its last valid event loaded, else what it held |
| `ConfigStore.HistoryKeepsStoreUsable` | internal/webhook/v1/config_store.go:84-89 | a loaded store always names a queue and is never unloaded; it is loaded exactly when some event was valid |
| `StoreInterleaving.NoTornReads` | internal/webhook/v1/config_store.go:44-82 | under every schedule of any number of readers and updaters a returned pair is the empty one or exactly that of one successful update, current at some moment of the call |
| `StoreInterleaving.MutualExclusion` | internal/webhook/v1/config_store.go:31-35 | a writer excludes readers and other writers |
| `StoreInterleaving.FreshReads` | internal/webhook/v1/config_store.go:44-48 | a read never returns anything older than what was committed before it was called |
| `StoreInterleaving.ReadsAreUsable` | internal/webhook/v1/config_store.go:44-48 | a read called after a commit returns a loaded, well-formed pair |
| `StoreInterleaving.InterleavingRefinesHistory` | internal/webhook/v1/config_store.go:50-82 | whenever no writer is active, memory is the committed updates replayed one after another |
| `StoreInterleaving.UpdateGetsThrough` | internal/webhook/v1/config_store.go:53-82 | from any system with the lock free, an idle thread's update ends with memory and commits extended by a loadable configuration, unchanged otherwise, and the lock free again |
| `StoreInterleaving.ReadGetsThrough` | internal/webhook/v1/config_store.go:44-48 | from any system without a writer, an idle thread's read returns the current memory |
| `Quota.ResourcesRequests` | internal/controller/pipelinerun_controller.go:220-236 | for every iteration order the loop fails exactly when some annotation is bad and otherwise returns the request list read off the annotations |
| `Quota.AcceptsIff` | internal/controller/pipelinerun_controller.go:244-272 | annotations are accepted if and only if every request key has a name other than the token's and a non-negative quantity; all other annotations are ignored |
| `Quota.ParseAnnotationMeaning` | internal/controller/pipelinerun_controller.go:244-272 | result and error of every annotation, in the source's order of checks |
| `Quota.RequestListUnique` | internal/controller/pipelinerun_controller.go:220-272 | that list is unique: one token, prefix-stripped names without collisions, non-negative quantities |
| `Quota.IntAnnotation` | internal/controller/pipelinerun_controller.go:244-272 | a printed int is accepted exactly when non-negative and is requested as itself |
| `Lifecycle.ApiObject.Stop` | internal/controller/pipelinerun_controller.go:120-137 | on any genuine, possibly stale read: the object's history takes exactly the `TryStop` step of the run model, and the call succeeds exactly when that step stops the run |
| `Lifecycle.ApiObject.Start` | internal/controller/pipelinerun_controller.go:288-291 | on any genuine read: the history takes exactly the `TryStart` step; written exactly for a run seen suspended in its current version, which then has an empty status and is otherwise unchanged |
| `Lifecycle.ApiObject.ReconcileStatus` | internal/controller/pipelinerun_status_reconciler.go:29-59 | on any genuine read: the history takes exactly the `TryPending` step, and writes exactly when that step marks the run |
| `Lifecycle.ApiObject.LivesMonotonely` | internal/controller/pipelinerun_controller.go:116-169 | whatever calls an object created suspended went through, its versions only move forward and it was stopped and marked pending at most once |
| `Lifecycle.StartAttempt` | internal/controller/pipelinerun_controller.go:288-291 | a start on the current version of a suspended run appends exactly one version, with empty status and the same condition and managedBy; any other start changes nothing |
| `Lifecycle.StopAttempt` | internal/controller/pipelinerun_controller.go:120-137 | a stop succeeds and writes StoppedRunFinally if and only if the current version is pending or running and has no final condition |
| `Lifecycle.PendingAttempt` | internal/controller/pipelinerun_status_reconciler.go:29-71 | the pending condition is written if and only if the current version is selected by the event predicate and has no condition |
| `Lifecycle.ReportIsFinished` | internal/controller/pipelinerun_controller.go:140-154 | after Tekton reports a condition `Finished` gives its message, finished exactly for a final status and success exactly for the two reasons, until Tekton reports again |
| `Lifecycle.LifecycleMonotone` | internal/controller/pipelinerun_controller.go:116-169 | under every interleaving with stale reads the status only moves pending, running, stopped; no write undoes a change to the other field |
| `Lifecycle.StopsAtMostOnce` | internal/controller/pipelinerun_controller.go:120-137 | `Stop` returns true at most once in any run |
| `Lifecycle.StopIsFinal` | internal/controller/pipelinerun_controller.go:120-137 | when `Stop` returns true the run was not done, and every later version is stopped, whatever is attempted |
| `Lifecycle.PendingAtMostOnce` | internal/controller/pipelinerun_status_reconciler.go:29-59 | the reconciler writes at most once in any run and never over a condition |
| `Lifecycle.PendingMarkIsSafe` | internal/controller/pipelinerun_status_reconciler.go:61-71 | its write lands on a run the event predicate admits and makes `Finished` report neither finished nor success |
| `Lifecycle.FinishedSpeaksForTekton` | internal/controller/pipelinerun_controller.go:140-154 | in every run `Finished` reports an end or success only as a condition Tekton reported, with its message, success exactly for reason Succeeded or Completed |
| `Lifecycle.StartNeedsGuard` | internal/controller/pipelinerun_controller.go:288-291 | for every status, cancelled ones included, clearing it keeps the order exactly on pending or running runs |
| `Json.ParseRender` | internal/webhook/v1/pipelinerun_webhook.go:55-63 | a token path survives rendering and parsing (RFC 6901) |
| `Json.RenderParse` | internal/webhook/v1/pipelinerun_webhook.go:55-63 | every pointer that parses is the rendering of its tokens |
| `Json.EscapeByCharacter` | internal/webhook/v1/pipelinerun_webhook.go:55-63 | pointer escaping turns `~` into `~0`, `/` into `~1` and keeps every other character (section 3 of RFC 6901) |

## Left out

- The CEL parser, type checker and evaluator: a compiled program is any function of the snapshot.
- `replace` and other CEL string functions: they only shape the texts that programs return.
- Tekton's `SetDefaults`, `Validate` and `DeepCopy` internals: any function and any predicate on a fresh copy.
- The Kubernetes `Quantity` grammar beyond printed 64-bit ints, and name and label-value rules.
- The JSON diff that produces patches: the results hold for every patch list with the stated properties, and one always exists.
- The other JSON Patch operations (move, copy, test): the diff does not produce them.
- Kueue's generic reconciler and the API server: attempts with stale reads, refused when the version is not current; a start is attempted only on a run seen as suspended.
- User edits of `spec.status` after admission, such as cancelling a run.
- Error texts: errors are kept as classes with their causes, list indexes in conversion errors are dropped.
- Writer preference of Go's RWMutex: it only removes schedules.
- `PodSets`, `IsActive`, `GVK` and the remaining one-line methods: they return constants or forward to Tekton and decide nothing.
- `cmd/main.go`, TLS, flags, logging, `pkg/mutate` and file reading: wiring and I/O.
