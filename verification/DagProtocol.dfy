/** The DAG runtime as a transition system. Every awaited Redis or queue command of the worker
    (apps/worker/src/fair-scheduler.service.ts), the coordinator and the API's root loop is one
    step, and steps of different processes interleave freely. A process that crashes simply
    takes no further step, so statements about all traces cover crashes at any point.
    Each job has one executor at a time and exactly one terminal outcome. */
module DagProtocol {
  import opened Wrappers
  import opened Graphs
  import opened TaskGraph
  import opened DagStore

  // Set on every job: on DAG jobs when they are added, on dead-letter retries by the queue's
  // default options (apps/api/src/tasks/tasks.service.ts:30-49).
  const MAX_ATTEMPTS: nat := 3

  // Where a process stands: its next command follows from the stage.
  datatype Stage =
    | Waiting                                   // in the queue, or delayed for a retry
    | Running                                   // processJob entered
    | MarkedActive                              // HSET status active done
    | GotNode(depIds: seq<Id>)                  // HGET node done
    | Working(inputs: map<Id, Option<Json>>)    // HMGET results done; the model call is under way
    | Succeeded                                 // 'completed' event raised
    | StoredResult                              // HSET result done
    | MarkedCompleted                           // HSET status completed done
    | Decrementing(left: seq<Id>, ready: seq<Id>)
    | FetchingNode(cur: Id, left: seq<Id>, ready: seq<Id>)   // DECR of cur returned 0
    | MarkingReady(cur: Id, left: seq<Id>, ready: seq<Id>)   // node of cur read
    | Enqueueing(todo: seq<Id>)
    | Adding(todo: seq<Id>, jobId: JobId)       // setJobId done for the head of todo
    | Done
    | Exhausted(reason: string)                 // final 'failed' event raised
    | DeadLettered(reason: string)              // added to the dead-letter queue
    | MarkedFailed(reason: string)              // HSET status failed done
    | FailedDone(reason: string)

  /** A job together with its event handler. `node` is None when the job data carries no
      dagId/dagNodeId; the API's createDag loop is such a process too. `made` counts the
      attempts made and `outcome` holds the value a successful attempt returned. */
  datatype Proc = Proc(id: JobId, node: Option<Id>, made: nat, outcome: Option<Json>, stage: Stage)

  datatype State = State(store: Store, procs: seq<Proc>, dlq: seq<Option<Id>>)

  // What the environment decides at a step.
  datatype Choice =
    | Go                     // the command returns
    | Succeed(value: Json)   // the attempt returns a value
    | Fail(reason: string)   // the attempt throws
    | Fresh(jobId: JobId)    // a job id was drawn

  datatype Event =
    | Step(i: nat, choice: Choice)      // process i moves
    | Retry(k: nat, jobId: JobId)       // an operator re-enqueues a dead letter
    | Discard(k: nat)                   // and removes it from the dead-letter queue

  datatype Effect = Effect(store: Store, proc: Proc, spawned: seq<Proc>, letters: seq<Option<Id>>)

  function NewJob(id: JobId, node: Option<Id>): Proc {
    Proc(id, node, 0, None, Waiting)
  }

  function Init(nodes: seq<DagNode>): State {
    State(Persisted(nodes), [Proc("", None, 0, None, Enqueueing(RootIds(nodes)))], [])
  }

  function Become(st: Store, p: Proc, stage: Stage): Option<Effect> {
    Some(Effect(st, p.(stage := stage), [], []))
  }

  // An attempt that throws: retried, or exhausted after the last.
  function AttemptFailed(st: Store, p: Proc, reason: string): Option<Effect> {
    var p' := p.(made := p.made + 1);
    Become(st, p', if p'.made >= MAX_ATTEMPTS then Exhausted(reason) else Waiting)
  }

  // One command of processJob (fair-scheduler.service.ts:244-331)
  function JobStep(st: Store, p: Proc, c: Choice): Option<Effect> {
    match p.stage
    case Waiting => if c.Go? then Become(st, p, Running) else None
    case Running =>
      if c.Fail? then AttemptFailed(st, p, c.reason)
      else if !c.Go? then None
      else if p.node.None? then Become(st, p, Working(map[]))
      else Become(st.SetStatus(p.node.value, Active), p, MarkedActive)
    case MarkedActive =>
      if c.Fail? then AttemptFailed(st, p, c.reason)
      else if c.Go? && p.node.Some? then Become(st, p, GotNode(st.DeclaredDeps(p.node.value)))
      else None
    case GotNode(depIds) =>
      if c.Fail? then AttemptFailed(st, p, c.reason)
      else if c.Go? then Become(st, p, Working(if depIds == [] then map[] else st.Results(depIds)))
      else None
    case Working(_) =>
      if c.Fail? then AttemptFailed(st, p, c.reason)
      else if c.Succeed? then Become(st, p.(made := p.made + 1, outcome := Some(c.value)), Succeeded)
      else None
    case _ => None
  }

  // One command of the completion handler (dag-coordinator.ts:97-122, fair-scheduler.service.ts:337-378)
  function HandlerStep(st: Store, p: Proc, c: Choice): Option<Effect> {
    match p.stage
    case Succeeded =>
      if !c.Go? then None
      else if p.node.None? then Become(st, p, Done)
      else if p.outcome.Some? then Become(st.SetResult(p.node.value, p.outcome.value), p, StoredResult)
      else None
    case StoredResult =>
      if c.Go? && p.node.Some? then Become(st.SetStatus(p.node.value, Completed), p, MarkedCompleted) else None
    case MarkedCompleted =>
      if c.Go? && p.node.Some? then Become(st, p, Decrementing(st.DependentsOf(p.node.value), [])) else None
    case Decrementing(left, ready) =>
      if !c.Go? then None
      else if left == [] then Become(st, p, Enqueueing(ready))
      else
        Become(st.Decr(left[0]), p,
          if st.Counter(left[0]) - 1 == 0 then FetchingNode(left[0], left[1..], ready)
          else Decrementing(left[1..], ready))
    case FetchingNode(cur, left, ready) =>
      if !c.Go? then None
      else Become(st, p, if cur in st.nodes then MarkingReady(cur, left, ready) else Decrementing(left, ready))
    case MarkingReady(cur, left, ready) =>
      if c.Go? then Become(st.SetStatus(cur, Ready), p, Decrementing(left, ready + [cur])) else None
    case Enqueueing(todo) =>
      if todo == [] then (if c.Go? then Become(st, p, Done) else None)
      else if c.Fresh? then Become(st.SetJobId(todo[0], c.jobId), p, Adding(todo, c.jobId))
      else None
    case Adding(todo, jobId) =>
      if c.Go? && todo != [] then
        Some(Effect(st, p.(stage := Enqueueing(todo[1..])), [NewJob(jobId, Some(todo[0]))], []))
      else None
    case _ => None
  }

  // One command of the final 'failed' listener (fair-scheduler.service.ts:209-232)
  function FailureStep(st: Store, p: Proc, c: Choice): Option<Effect> {
    if !c.Go? then None
    else
      match p.stage
      case Exhausted(reason) => Some(Effect(st, p.(stage := DeadLettered(reason)), [], [p.node]))
      case DeadLettered(reason) =>
        if p.node.None? then Become(st, p, FailedDone(reason))
        else Become(st.SetStatus(p.node.value, Failed), p, MarkedFailed(reason))
      case MarkedFailed(reason) =>
        if p.node.None? then None
        else Become(st.SetFailure(p.node.value, reason), p, FailedDone(reason))
      case _ => None
  }

  function Act(st: Store, p: Proc, c: Choice): Option<Effect> {
    match p.stage
    case Waiting | Running | MarkedActive | GotNode(_) | Working(_) => JobStep(st, p, c)
    case Exhausted(_) | DeadLettered(_) | MarkedFailed(_) => FailureStep(st, p, c)
    case _ => HandlerStep(st, p, c)
  }

  predicate Enabled(s: State, e: Event) {
    match e
    case Step(i, c) => i < |s.procs| && Act(s.store, s.procs[i], c).Some?
    case Retry(k, _) => k < |s.dlq|
    case Discard(k) => k < |s.dlq|
  }

  function Next(s: State, e: Event): State
    requires Enabled(s, e)
  {
    match e
    case Step(i, c) =>
      var f := Act(s.store, s.procs[i], c).value;
      State(f.store, s.procs[i := f.proc] + f.spawned, s.dlq + f.letters)
    case Retry(_, jobId) =>
      // tasks.service.ts:119-128 copies userId, priority, payload and createdAt only
      s.(procs := s.procs + [NewJob(jobId, None)])
    case Discard(k) => s.(dlq := s.dlq[..k] + s.dlq[k + 1..])
  }

  ghost predicate Trace(s: State, events: seq<Event>, t: State)
    decreases |events|
  {
    if events == [] then s == t
    else Enabled(s, events[0]) && Trace(Next(s, events[0]), events[1..], t)
  }

  // Some sequence of steps, in any interleaving, leads from s to t.
  ghost predicate Leads(s: State, t: State) {
    exists events :: Trace(s, events, t)
  }

  ghost predicate Reachable(nodes: seq<DagNode>, s: State) {
    Leads(Init(nodes), s)
  }

  lemma {:induction false} TraceConcat(s: State, a: seq<Event>, t: State, b: seq<Event>, u: State)
    requires Trace(s, a, t) && Trace(t, b, u)
    ensures Trace(s, a + b, u)
    decreases |a|
  {
    if a == [] {
      assert a + b == b;
    } else {
      TraceConcat(Next(s, a[0]), a[1..], t, b, u);
      assert (a + b)[1..] == a[1..] + b;
    }
  }

  lemma LeadsTrans(s: State, t: State, u: State)
    requires Leads(s, t) && Leads(t, u)
    ensures Leads(s, u)
  {
    var a :| Trace(s, a, t);
    var b :| Trace(t, b, u);
    TraceConcat(s, a, t, b, u);
  }

  lemma StepLeads(s: State, e: Event)
    requires Enabled(s, e)
    ensures Leads(s, Next(s, e))
  {
    assert Trace(Next(s, e), [], Next(s, e));
    assert [e][1..] == [];
    assert Trace(s, [e], Next(s, e));
  }
}
