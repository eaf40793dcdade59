# Verified model of the task orchestrator

This Dafny project models the parts of the orchestrator whose correctness lies in
interleavings, graph theory and arithmetic bounds, and proves what they promise:

- **The DAG runtime** as a transition system. Every awaited Redis or queue command of the worker,
  the coordinator and the API's root loop is one step, and steps of different processes interleave
  freely. A crashed process is one that takes no further step, so safety statements about all
  traces cover crashes anywhere. On top of it: exactly-once firing, dependency-closed status
  snapshots, failure isolation, no deadlock, bounded runs and one outcome per set of failing nodes.
- **The static graph algorithms**: validation with Kahn layering on the backend, and the
  editor's depth-first search, pre-flight check and handlers, shown to agree with each other.
- **The token bucket**, shown to be the exact and most generous policy for its interval bound.
- **The idempotency protocol**, with the guarantee it gives and the window in which it does not.

Modules, in reading order:

| file | contents |
|---|---|
| `Wrappers`, `Graphs`, `TaskGraph` | shared types; paths and cycles; submitted nodes and the transposed lists |
| `TopologicalSort` | `topologicalLayers`, `buildDependents`, what the layers mean |
| `DagValidation`, `DagEditor`, `DagGraph` | the browser's checks, the editor's state and handlers, the edges the status page draws |
| `DagStore`, `DagProtocol` | the Redis keys of one DAG; the step-by-step runtime |
| `DagCounting`, `DagInvariant` | sums over processes; the invariant of the runtime |
| `DagSafety`, `DagProgress`, `DagConfluence`, `DagHistory` | the theorems about runs: safety, progress, the outcome, and what the attempts of a run produced |
| `DagSnapshot` | reading the state while it runs: the status report and the stop test |
| `DagCoordinator` | the coordinator, the API's `createDag` and the worker's listeners as imperative code, tied to the runtime by refinement lemmas |
| `RateLimiter` | the token-bucket script, its history, expiry and waiting |
| `Idempotency` | requests racing on one key |

`dafny verify dfyconfig.toml` checks the whole project.

## Assumptions

- Every job has one executor at a time and exactly one terminal outcome, after at most three
  attempts; a dead-letter retry gets its three from the queue's default options. A stalled
  job executed a second time is excluded: its late `markActive` could overwrite `completed`.
- Redis keys of a DAG do not expire during its run; ids drawn at random (DAG ids) are new.
- `persist` is one step: the DAG id is new and no job exists before it returns.
- Progress statements assume that nobody crashes; safety statements do not.
- Node ids are not special property names: a result collected under the id `__proto__` would be
  lost, because the source collects results in a plain object.
- An absent `dependsOn` is the empty list, as every reader of it treats it.
- The editor's canvas reports a connection only between nodes it shows, and `addEdge` appends one
  edge when neither end is empty and no equal edge exists. Each handler is one atomic step.
- Numbers are exact; the clock of the rate limiter may run backwards only where a statement says so.

## Where the code and its documentation disagree

- `README.md:172` promises the original response for a repeated key. The response is emitted before
  `complete` has stored it, and nobody waits for that write: a duplicate in between gets a conflict
  (`Idempotency.AnsweredYetConflicting`). It is replayed exactly when the write has happened
  (`Idempotency.ReplayedExactlyWhenStored`). After a handler failure the key stays taken until it
  expires (`Idempotency.FailureBlocksTheKey`).
- The status page stops polling when no node is `active` or `ready`, taking that
  for the end of all progress (`useDagStatus.ts:7-9`, `28-30`). It also holds between a node's `completed` write and the promotion of its dependents
  (`DagSnapshot.TerminalTooEarly`). The test is right exactly when no pending node has all its
  dependencies completed (`DagSnapshot.TerminalIsFinalExactlyWhen`).
- The key list at the head of `dag-coordinator.ts` (lines 8-17) omits the status `active` and the
  hashes `jobIds` and `failures`; the model follows the code.
- The claim "no race, no duplicate, no omission" (`docs/articles/04-dag-workflows.md:119`) holds:
  `DagSafety.ExactlyOnce`, `DagSafety.ZeroIsObservedOnce`, `DagConfluence.AlwaysCompletes`.

## Guarantees with an exact limit

- A node is published as `failed` before its reason is stored, so a report may show the one without
  the other (`DagSnapshot.FailedWithoutReason`). That is so exactly when the failures are read
  between the two writes (`DagSnapshot.ReasonMissingExactlyWhen`).
- If the idempotency key expires, two requests can execute (`Idempotency.ExpiryAllowsTwo`). Over
  every run, at most one executes exactly when no request finds the entry missing after another has
  executed (`Idempotency.AtMostOneExactlyWhen`), and only an expiry can remove it
  (`Idempotency.LossNeedsExpiry`).
- A graph with dangling edges can pass the editor's check and be refused by the backend
  (`DagValidation.DanglingSourceDisagrees`), or the other way round; for each local verdict the
  project says exactly when the backend accepts.
- A lone waiter for a token returns exactly when the limit is at least one
  (`RateLimiter.WaitReturnsExactlyWhen`); among competitors it can be refused every time
  (`RateLimiter.CompetitorsCanStarve`).

## Model

| member | source | states |
|---|---|---|
| TopologicalSort.TopologicalLayers | libs/workflow/src/topological-sort.ts:14-73 | over all inputs: returns layers iff the graph is non-empty, ids are unique, dependencies known and the relation acyclic; the layers are the canonical ones, and a refusal carries the first defect |
| TopologicalSort.CollectIds | libs/workflow/src/topological-sort.ts:19-25 | finds the first id that repeats an earlier one, or returns exactly the set of ids |
| TopologicalSort.CountDependencies | libs/workflow/src/topological-sort.ts:27-48 | refuses the first self-loop or unknown dependency in reading order; otherwise in-degrees are the declared counts and adjacency is the transpose, repeats included |
| TopologicalSort.ExpandNode | libs/workflow/src/topological-sort.ts:59-63 | each child loses one per occurrence; those that reach zero in this layer are collected, each once |
| TopologicalSort.ExpandFrontier | libs/workflow/src/topological-sort.ts:57-65 | after a frontier the in-degrees count the dependencies outside all expanded nodes, and the next frontier is what just became free |
| TopologicalSort.PeelLayers | libs/workflow/src/topological-sort.ts:50-72 | the layering loop terminates with multi-edges and detects a cycle iff there is one |
| TopologicalSort.DiagnosisIsUnique | libs/workflow/src/topological-sort.ts:15-70 | a rejected graph has exactly one right error message, a DAG none |
| TopologicalSort.StuckHasCycle | libs/workflow/src/topological-sort.ts:68-70 | an empty frontier with nodes left over proves a cycle |
| TopologicalSort.BoundedDepthIsAcyclic | libs/workflow/src/topological-sort.ts:68-72 | when every node has been placed there is no cycle |
| TopologicalSort.AncestorsInEarlierLayers | libs/workflow/src/topological-sort.ts:10-13 | an ancestor lies in a strictly earlier layer, so no path joins two nodes of a layer and they can run in parallel |
| TopologicalSort.LayersPartition | libs/workflow/src/topological-sort.ts:50-72 | every node lies in exactly one layer, exactly once |
| TopologicalSort.LayersAreEarliest | libs/workflow/src/topological-sort.ts:10-13 | no schedule that respects the dependencies places a node earlier or uses fewer rounds |
| TopologicalSort.BuildDependents | libs/workflow/src/topological-sort.ts:79-90 | builds the list of dependents of every node |
| TaskGraph.TransposeCount | libs/workflow/src/topological-sort.ts:75-90 | m is listed under d exactly as often as d occurs in the dependencies of m |
| DagValidation.WouldCreateCycle | apps/web/src/lib/dagValidation.ts:15-36 | terminates although the stack can hold a node many times, and answers true iff target reaches source (a self-loop included) |
| DagValidation.RefusalIsExact | apps/web/src/pages/DagEditor.tsx:71-82 | in an acyclic graph an allowed edge keeps it acyclic and a refused one would close a cycle |
| DagValidation.WayBackSurvives | apps/web/src/lib/dagValidation.ts:71-75 | a way back from an edge's target to its source can be cut to one that avoids the edge, so checking without it loses nothing |
| DagValidation.ValidateDag | apps/web/src/lib/dagValidation.ts:66-77 | the pre-flight reports no nodes, or a cycle iff there is one, and otherwise nothing |
| DagValidation.BuildDagPayload | apps/web/src/lib/dagValidation.ts:44-63 | one entry per node, with its payload and task type and, as dependencies, the sources of its incoming edges, in order and with repeats |
| DagValidation.PayloadEdges | apps/web/src/lib/dagValidation.ts:44-63 | the payload carries exactly the edges that end in a node |
| DagValidation.BackendAccepts | apps/web/src/lib/dagValidation.ts:43-63 | exactly which editor graphs the backend accepts, over all inputs |
| DagValidation.PreflightAgreesWithBackend | apps/web/src/lib/dagValidation.ts:65-77 | for unique ids and edges that join nodes, both acyclicity decisions agree |
| DagValidation.PreflightAndSubmit | apps/web/src/lib/dagValidation.ts:65-77 | running both checks on any graph: for each local verdict, exactly when the server returns layers; full agreement, down to the kind of error, when edges join distinctly named nodes |
| DagValidation.PassedIsAcceptedExactlyWhen | apps/web/src/lib/dagValidation.ts:65-77 | a graph that passes the pre-flight is accepted by the backend iff ids are unique and every edge into a node comes from a node |
| DagValidation.BlockedIsAcceptedExactlyWhen | apps/web/src/lib/dagValidation.ts:70-75 | a graph blocked locally for a cycle would be accepted iff, besides that, no cycle passes through a node |
| DagEditor.DecimalReadsBack | apps/web/src/pages/DagEditor.tsx:32 | the counter in a node id reads back as itself, in digits |
| DagEditor.NodeNameInjective | apps/web/src/pages/DagEditor.tsx:31-32 | counter values name pairwise different nodes |
| DagEditor.AddingNodeIsGood | apps/web/src/pages/DagEditor.tsx:63-66 | adding a node keeps unique ids, no dangling or parallel edges and acyclicity |
| DagEditor.ConnectingIsGood | apps/web/src/pages/DagEditor.tsx:68-85 | so does a connection the handler lets through |
| DagEditor.DeletingIsGood | apps/web/src/pages/DagEditor.tsx:88-97 | so does any deletion of nodes that prunes the edges touching them |
| DagEditor.Editor.constructor | apps/web/src/pages/DagEditor.tsx:50-52 | the editor opens on the one node N1 and no edges |
| DagEditor.Editor.AddNode | apps/web/src/pages/DagEditor.tsx:63-66 | appends one node, named and labelled N and the counter, whose id is new |
| DagEditor.Editor.OnConnect | apps/web/src/pages/DagEditor.tsx:68-85 | adds the edge unless an end is missing, it would close a cycle or it exists |
| DagEditor.Editor.DeleteNodes | apps/web/src/pages/DagEditor.tsx:87-97 | removes exactly the deleted nodes and the edges touching one; everything else stays, in order |
| DagEditor.Editor.DeleteEdges | apps/web/src/pages/DagEditor.tsx:198 | removes exactly the chosen edges; the rest stay, in order |
| DagEditor.Editor.Submit | apps/web/src/pages/DagEditor.tsx:113-130 | after any sequence of edits a non-empty graph is accepted by the backend, with canonical layers |
| DagGraph.BuildEdges | apps/web/src/components/DagGraph.tsx:69-82 | draws one arrow per declared dependency |
| DagGraph.DrawingRestoresTheEdges | apps/web/src/components/DagGraph.tsx:69-82 | drawing the submitted payload gives back the editor's edges with multiplicity |
| DagStore.PlanOfOk | libs/workflow/src/dag-coordinator.ts:28-40 | what persist writes for a valid graph: known dependencies and two lists that transpose each other |
| DagStore.RootIdsAre | apps/api/src/workflows/workflows.service.ts:240-242 | the nodes the API enqueues are exactly those without dependencies, each once |
| DagStore.PersistedIsWhole | libs/workflow/src/dag-coordinator.ts:34-39 | the store holds every node as submitted, its number of dependencies, its readiness and who lists it how often, and nothing else |
| DagInvariant.EventKeepsInv | libs/workflow/src/dag-coordinator.ts:70-128 | every single command of every process keeps the invariant that ties counters, claims, statuses, results and job ids together |
| DagInvariant.ReachableInv | apps/worker/src/fair-scheduler.service.ts:194-238 | so every reachable state satisfies it |
| DagSafety.ExactlyOnce | libs/workflow/src/dag-coordinator.ts:108-120 | the counter is never negative, is zero iff every dependency's handler is through with the node, and then exactly one claim on the node exists, before that none; a node never has two jobs |
| DagSafety.CounterIsHistory | libs/workflow/src/dag-coordinator.ts:36-38 | after any run the counter is the declared dependencies, repeats included, minus the DECRs carried out |
| DagSafety.ZeroIsObservedOnce | libs/workflow/src/dag-coordinator.ts:110-112 | over a whole run exactly one DECR returns 0 once all are done, and none before |
| DagSafety.SnapshotIsClosed | libs/workflow/src/dag-coordinator.ts:89-128 | a node that has left pending has all its ancestors completed |
| DagHistory.RunMatchesAttempts | apps/worker/src/fair-scheduler.service.ts:200-238 | where a job stands follows from how its attempts ended: it has made that many, succeeded with what the last returned, or was given up after exactly three that threw, with the last reason |
| DagHistory.ResultIsReturned | libs/workflow/src/dag-coordinator.ts:102-104 | a stored result is the value an attempt of the node's own job returned, and once the node is completed what its job returned is what is stored |
| DagHistory.AncestorsReturned | libs/workflow/src/dag-coordinator.ts:102-117 | whenever a node has a job or is about to get one, every ancestor is completed and its stored result is the value its job returned |
| DagHistory.InputsWereReturned | apps/worker/src/fair-scheduler.service.ts:275-281 | on every attempt the inputs of a running job are exactly those of its declared dependencies, each the value that dependency's job returned, never null |
| DagHistory.FailureIsGivenUp | apps/worker/src/fair-scheduler.service.ts:209-232 | a failed node's job threw on all three attempts, and the stored reason is that of the last |
| DagHistory.LettersConserved | apps/api/src/tasks/tasks.service.ts:113-133 | every job given up leaves one dead letter, in the queue until it is discarded; each discard takes one letter only |
| DagSafety.KeysOnlyAdvance | libs/workflow/src/dag-coordinator.ts:80-128 | a step moves a status at most one place forward and never overwrites a result, job id or reason by another |
| DagSafety.CompletionOrder | libs/workflow/src/dag-coordinator.ts:97-104 | completions follow a linear extension of the DAG |
| DagSafety.FailureBlocksForever | apps/worker/src/fair-scheduler.service.ts:223-232 | after a failure no descendant is ever enqueued or leaves pending, under any continuation including crashes and dead-letter retries |
| DagProgress.StepLowersWork | apps/worker/src/fair-scheduler.service.ts:337-378 | every command of every process lowers the remaining work |
| DagProgress.RunsAreBounded | apps/worker/src/fair-scheduler.service.ts:244-378 | a run has at most the initial work plus a fixed cost per dead-letter retry as its number of commands |
| DagProgress.NoDeadlock | apps/worker/src/fair-scheduler.service.ts:194-238 | while any process is unfinished, some command is enabled, whichever nodes are to fail |
| DagProgress.StuckExactlyWhenQuiet | apps/worker/src/fair-scheduler.service.ts:194-238 | a reachable state has no enabled command iff every process is finished |
| DagConfluence.FinalOutcome | libs/workflow/src/dag-coordinator.ts:97-128 | at the end a node is pending iff a proper ancestor exhausts its attempts, else failed iff it does itself, else completed, and results exist exactly for the completed |
| DagConfluence.Confluence | libs/workflow/src/dag-coordinator.ts:97-128 | any two complete runs with the same failing nodes end in the same statuses |
| DagConfluence.AlwaysCompletes | apps/worker/src/fair-scheduler.service.ts:337-378 | from every state such a run can be completed, and ends in that outcome |
| DagHistory.EveryRunHasAFate | apps/worker/src/fair-scheduler.service.ts:194-238 | every run at all, retries included, is one for the set of nodes whose jobs threw on all attempts |
| DagHistory.EveryCompleteRun | libs/workflow/src/dag-coordinator.ts:97-128 | so every complete run ends with each node pending, failed or completed as that set dictates |
| DagSnapshot.ReportIsConsistent | apps/api/src/workflows/workflows.service.ts:278-291 | with any steps between the reads, the report shows each node's status at the first read and its stored job id, result and reason at the later ones; a node reported completed has its result, one reported active, completed or failed has its job's id, and a reason is only shown for a failed node |
| DagSnapshot.FinalReport | apps/api/src/workflows/workflows.service.ts:273-300 | once a run is over every node is reported as its fate: completed with a result, failed with a reason, or pending with neither and no job |
| DagSnapshot.ReasonMissingExactlyWhen | libs/workflow/src/dag-coordinator.ts:124-128 | a node reported failed lacks its reason iff the failures are read between the two writes of its listener |
| DagSnapshot.TerminalIsFinalExactlyWhen | apps/web/src/lib/useDagStatus.ts:28-30 | when the stop test holds, no later step changes a status iff no pending node has all its dependencies completed |
| DagSnapshot.QuietIsTerminal | apps/web/src/lib/useDagStatus.ts:28-30 | the stop test holds whenever every process is finished, failed nodes included |
| DagSnapshot.PollingStops | apps/web/src/lib/useDagStatus.ts:32-46 | from every state a run can be completed to one where polling stops, with every node in its final status |
| DagSnapshot.TerminalOutsideHandlers | apps/web/src/lib/useDagStatus.ts:28-30 | the stop test is sound whenever no handler is between its completed write and its last enqueue |
| DagSnapshot.MidHandlerMeans | libs/workflow/src/dag-coordinator.ts:104-120 | a job inside that window has its node completed and is not finished; the API's loop inside it still owes an enqueue |
| DagSnapshot.TerminalTooEarly | apps/web/src/lib/useDagStatus.ts:28-30 | inside that window the stop test can hold while a node is still to run |
| DagCoordinator.PropagateMeaning | libs/workflow/src/dag-coordinator.ts:110-120 | a pass over the dependents lowers each counter by its multiplicity and returns, once each, exactly the nodes whose counter it uses up |
| DagCoordinator.CompletionMeaning | libs/workflow/src/dag-coordinator.ts:97-122 | one completion seen from any node: result, status, counter, promotion, and everything left alone |
| DagCoordinator.CompletionIsUninterrupted | apps/worker/src/fair-scheduler.service.ts:337-378 | the imperative completion callback is one of the runtime's interleavings |
| DagCoordinator.GatherIsUninterrupted | apps/worker/src/fair-scheduler.service.ts:273-281 | so is the DAG part of an attempt |
| DagCoordinator.FailureIsUninterrupted | apps/worker/src/fair-scheduler.service.ts:209-232 | so is the listener of a last failure |
| DagCoordinator.CreationIsReachable | apps/api/src/workflows/workflows.service.ts:238-268 | so is the API's root loop, and the roots it enqueues are the first layer, one job each |
| DagCoordinator.Coordinator.Persist | libs/workflow/src/dag-coordinator.ts:28-45 | writes the nodes, transposed lists, counters and initial statuses of the whole graph |
| DagCoordinator.Coordinator.GetResults | libs/workflow/src/dag-coordinator.ts:70-78 | the stored result of each requested node, null where there is none |
| DagCoordinator.Coordinator.MarkCompleteAndFindReady | libs/workflow/src/dag-coordinator.ts:97-122 | its loop computes the store and ready list that CompletionMeaning characterises |
| DagCoordinator.WorkflowsService.CreateDag | apps/api/src/workflows/workflows.service.ts:203-271 | accepts exactly the valid DAGs, leaves no trace of a refused one, and otherwise persists it and enqueues one job per root |
| DagCoordinator.FairScheduler.GatherInputs | apps/worker/src/fair-scheduler.service.ts:272-285 | marks the node active and collects its declared dependencies' results; other jobs touch nothing |
| DagCoordinator.FairScheduler.OnDagNodeCompleted | apps/worker/src/fair-scheduler.service.ts:337-378 | completes the node and enqueues one job per node that became ready; other jobs touch nothing |
| DagCoordinator.FairScheduler.OnFailed | apps/worker/src/fair-scheduler.service.ts:200-232 | only the last attempt has effects: one dead letter, and the node marked failed |
| RateLimiter.Script | libs/cost-governor/src/rate-limiter.service.ts:9-39 | the script's answer and stored bucket, for a missing or existing key |
| RateLimiter.LevelIsTightest | libs/cost-governor/src/rate-limiter.service.ts:25-28 | the incremental level is the minimum over all earlier calls of allowance plus earnings minus grants |
| RateLimiter.GrantedExactlyWhen | libs/cost-governor/src/rate-limiter.service.ts:10-38 | call k is granted iff for every j up to k, the grants in j..k-1 plus one stay within max plus what j..k earned; for any clock |
| RateLimiter.IntervalBound | libs/cost-governor/src/rate-limiter.service.ts:10-38 | any stretch of calls has at most max plus elapsed * max / window grants |
| RateLimiter.MostGenerous | libs/cost-governor/src/rate-limiter.service.ts:30-38 | no other policy that keeps the bound has granted more calls at any point |
| RateLimiter.NothingBelowOne | libs/cost-governor/src/rate-limiter.service.ts:30 | with a limit below one nothing is ever granted |
| RateLimiter.StoredInRange | libs/cost-governor/src/rate-limiter.service.ts:25-37 | stored tokens stay between 0 and max while the clock does not run backwards |
| RateLimiter.InvisibleExactlyWhen | libs/cost-governor/src/rate-limiter.service.ts:33 | a pause after which a dropped bucket cannot be told from a kept one is exactly one of at least a window; the script waits two |
| RateLimiter.ExpiryIsInvisible | libs/cost-governor/src/rate-limiter.service.ts:19-22 | a service whose keys expire after such pauses stores the same buckets as one whose keys never do |
| RateLimiter.ExpiryChangesNoAnswer | libs/cost-governor/src/rate-limiter.service.ts:33 | and gives the same answers, whatever the limit |
| RateLimiter.ProvidersAreIndependent | libs/cost-governor/src/rate-limiter.service.ts:68-82 | in a mixed history each provider sees only its own calls |
| RateLimiter.ConfiguredLimitHolds | libs/cost-governor/src/rate-limiter.service.ts:46-82 | any stretch of calls to a provider is granted at most its configured requests per minute, or 999, plus a sixtieth of that per second elapsed |
| RateLimiter.BurstGrantsTheLimit | libs/cost-governor/src/rate-limiter.service.ts:68-82 | of a burst on an unused provider exactly the first calls up to its limit are granted |
| RateLimiter.RateLimiterService.Acquire | libs/cost-governor/src/rate-limiter.service.ts:68-82 | answers as the whole history of calls demands and touches its own provider's bucket only |
| RateLimiter.RateLimiterService.WaitForToken | libs/cost-governor/src/rate-limiter.service.ts:84-93 | returns at the first granted call; a sole consumer sleeps at most window / max times, rounded up |
| RateLimiter.RefusedTooShort | libs/cost-governor/src/rate-limiter.service.ts:90-92 | refusals after s sleeps prove s * max below the window |
| RateLimiter.WaitIsExact | libs/cost-governor/src/rate-limiter.service.ts:84-93 | the bound is attained: with its two immediate calls and one-second sleeps, a waiter that finds an empty bucket is first granted after exactly that many sleeps |
| RateLimiter.WaitReturnsExactlyWhen | libs/cost-governor/src/rate-limiter.service.ts:84-93 | a lone waiter is ever granted iff the limit is at least one |
| RateLimiter.CompetitorsCanStarve | libs/cost-governor/src/rate-limiter.service.ts:84-93 | competitors making as many calls as the limit just before each of the waiter's calls keep it refused for ever, whatever the clock |
| Idempotency.StepKeepsInv | libs/idempotency/src/idempotency.service.ts:29-60 | every command keeps the tie between the stored entry and the one request that executes |
| Idempotency.AtMostOneExecution | apps/api/src/tasks/interceptors/idempotency.interceptor.ts:28-45 | while the key does not expire at most one request reaches the handler |
| Idempotency.OthersFollowTheOwner | apps/api/src/tasks/interceptors/idempotency.interceptor.ts:28-38 | some request executes, and every other finished one got a conflict or exactly the stored response of that execution |
| Idempotency.AllAnswersAgree | apps/api/src/tasks/interceptors/idempotency.interceptor.ts:37 | all responses given under one key are equal |
| Idempotency.AnswersAreTheHandlers | apps/api/src/tasks/interceptors/idempotency.interceptor.ts:36-45 | every response given under a key, replayed or not, is what the handler of the one executing request returned |
| Idempotency.UnguardedPassThrough | apps/api/src/tasks/interceptors/idempotency.interceptor.ts:24-26 | requests without a key each reach the handler at their first step, leave no entry and end as the handler does |
| Idempotency.ReplayedExactlyWhenStored | apps/api/src/tasks/interceptors/idempotency.interceptor.ts:30-45 | a duplicate is replayed iff the owner's response has been stored, otherwise it conflicts |
| Idempotency.FailureBlocksTheKey | apps/api/src/tasks/interceptors/idempotency.interceptor.ts:41-45 | a handler that throws leaves the key taken: every duplicate is refused from then on |
| Idempotency.AnsweredYetConflicting | README.md:172 | the promise fails in the window between the response and its storage |
| Idempotency.AtMostOneExactlyWhen | libs/idempotency/src/idempotency.service.ts:33-47 | over every run, expiry allowed: at most one request executes iff none finds the entry missing, at its SET or its GET, after another has executed |
| Idempotency.LossNeedsExpiry | libs/idempotency/src/idempotency.service.ts:42-47 | and only an expiry of the key can make that happen |
| Idempotency.IdempotencyService.Acquire | libs/idempotency/src/idempotency.service.ts:29-52 | takes a free key; returns the entry of a taken one; lets the caller proceed without holding it if it expires between SET and GET |
| Idempotency.IdempotencyInterceptor.Intercept | apps/api/src/tasks/interceptors/idempotency.interceptor.ts:17-46 | outcome, stored entries and number of handler calls of one request, with or without such an expiry |
| Idempotency.InterceptIsUninterrupted | apps/api/src/tasks/interceptors/idempotency.interceptor.ts:17-46 | the interceptor run alone is one of the interleavings |
| Idempotency.InterceptWithExpiry | libs/idempotency/src/idempotency.service.ts:42-47 | so is the interceptor whose key expires between SET and GET |
| Idempotency.RepeatIsReplayed | README.md:172 | sequential repeats are replayed after a success and conflict after a failure |

## Left out

- BullMQ internals (locks, stalled recovery, backoff timing, priority order, depth of queues, backpressure, per-user concurrency): the library is not part of this model; a job is a bounded number of attempts with one terminal event.
- Expiry of the seven-day DAG keys: keys are taken as unexpired for the run.
- The chaos loop (`pollChaos`, `ChaosService`): it depends on pausing and closing library workers.
- LLM calls, prompt building, model routing, cost records, metrics, SSE streaming, the admin guard and NestJS wiring: I/O or table lookups. The model call is an environment choice of a value or a failure.
- `createChain` and the child-result injection of chains: their order is the queue library's rule.
- JSON encoding, UUID generation, floating-point rounding and Redis number formatting: values are abstract, drawn ids are parameters, numbers exact.
- React rendering, positions, styles, timers, selection, `patchSelected` and stale closures of the editor; edge ids and animation of the drawn graph.
- Rejections by the request validators (`create-dag.dto.ts`), such as an empty node id or a malformed payload: they happen before `createDag` runs.
- Atomicity of `persist`: the pipeline is one step of the runtime, so a crash in the middle of it is not covered.
- DagProtocol.Act: payload, task type, model, user and priority carried by a job are not part of its state, because no DAG decision reads them.
- TopologicalSort.TopologicalLayers: the order of ids inside a layer is not specified, only its members, each once; the source promises none.
- RateLimiter.RateLimiterService.WaitForToken: is the terminating case, a limit of at least one and a lone waiter; WaitReturnsExactlyWhen and CompetitorsCanStarve say what happens otherwise.
- Idempotency.AtMostOneExecution: is stated while the key does not expire; AtMostOneExactlyWhen covers expiry.
