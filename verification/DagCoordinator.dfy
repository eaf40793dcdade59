/** The coordinator, the API's DAG creation and the worker's completion callback as the
    imperative code they are, each run without interruption. DagProtocol breaks the same code
    into single commands; the refinement lemmas below tie the two together. */
module DagCoordinator {
  import opened Wrappers
  import opened Graphs
  import opened TaskGraph
  import opened DagStore
  import opened DagProtocol
  import TopologicalSort

  /* ---- The loop of markCompleteAndFindReady ---- */

  // The store and the ready list after decrementing every node of `left` in turn.
  function Propagate(st: Store, left: seq<Id>, ready: seq<Id>): (Store, seq<Id>)
    decreases |left|
  {
    if left == [] then (st, ready)
    else
      var st' := st.Decr(left[0]);
      if st'.Counter(left[0]) == 0 && left[0] in st.nodes
      then Propagate(st'.SetStatus(left[0], Ready), left[1..], ready + [left[0]])
      else Propagate(st', left[1..], ready)
  }

  // m's counter starts positive and the decrements in left use it up.
  predicate ReachesZero(st: Store, left: seq<Id>, m: Id) {
    m in st.nodes && 0 < st.Counter(m) <= multiset(left)[m]
  }

  /** What one completion does to its dependents: every counter drops by the number of times its
      node is listed; the nodes whose counter passes through zero become ready and are returned,
      each exactly once however often it is listed; nothing else changes. */
  lemma {:induction false} PropagateMeaning(st: Store, left: seq<Id>, ready: seq<Id>, m: Id)
    requires forall d :: d in left ==> d !in ready || st.Counter(d) <= 0
    ensures var (st', ready') := Propagate(st, left, ready);
      && st'.Counter(m) == st.Counter(m) - multiset(left)[m]
      && (m in ready' <==> m in ready || ReachesZero(st, left, m))
      && (multiset(ready')[m] == multiset(ready)[m] + if ReachesZero(st, left, m) then 1 else 0)
      && st' == st.(remaining := st'.remaining, status := st'.status)
      && (m in st'.status <==> m in st.status || ReachesZero(st, left, m))
      && (m in st'.status ==> st'.status[m] == if ReachesZero(st, left, m) then Ready else st.status[m])
    decreases |left|
  {
    if left != [] {
      assert left == [left[0]] + left[1..];
      var d := left[0];
      var st1 := st.Decr(d);
      if st1.Counter(d) == 0 && d in st.nodes {
        PropagateMeaning(st1.SetStatus(d, Ready), left[1..], ready + [d], m);
      } else {
        PropagateMeaning(st1, left[1..], ready, m);
      }
    }
  }

  // The state in which process i has finished its decrement loop.
  function Decremented(s: State, i: nat, left: seq<Id>, ready: seq<Id>): State
    requires i < |s.procs|
  {
    var (st, ready') := Propagate(s.store, left, ready);
    State(st, s.procs[i := s.procs[i].(stage := Enqueueing(ready'))], s.dlq)
  }

  // The decrement loop of process i, run without interruption.
  lemma {:induction false} PropagateIsUninterrupted(s: State, i: nat, left: seq<Id>, ready: seq<Id>)
    requires i < |s.procs| && s.procs[i].stage == Decrementing(left, ready)
    ensures Leads(s, Decremented(s, i, left, ready))
    decreases |left|
  {
    if left == [] {
      var _ := Moves(s, i, Go);
    } else {
      var t, ready' := DecrementOne(s, i, left, ready);
      PropagateIsUninterrupted(t, i, left[1..], ready');
      LeadsTrans(s, t, Decremented(s, i, left, ready));
    }
  }

  // One turn of the loop: the DECR, and what follows it when the counter reaches zero.
  lemma DecrementOne(s: State, i: nat, left: seq<Id>, ready: seq<Id>) returns (t: State, ready': seq<Id>)
    requires i < |s.procs| && s.procs[i].stage == Decrementing(left, ready) && left != []
    ensures i < |t.procs| && t.procs[i].stage == Decrementing(left[1..], ready')
    ensures Leads(s, t) && Decremented(t, i, left[1..], ready') == Decremented(s, i, left, ready)
  {
    var d := left[0];
    ready' := ready;
    t := Moves(s, i, Go);
    assert t.store == s.store.Decr(d);
    if s.store.Counter(d) - 1 == 0 {
      t := Moves(t, i, Go);
      if d in s.store.nodes {
        ready' := ready + [d];
        t := Moves(t, i, Go);
      }
    }
    var end := Propagate(s.store, left, ready);
    var final := s.procs[i].(stage := Enqueueing(end.1));
    assert Propagate(t.store, left[1..], ready') == end;
    assert t.procs[i := final] == s.procs[i := final];
  }

  // A step of process i that spawns nothing.
  lemma Moves(s: State, i: nat, c: Choice) returns (t: State)
    requires i < |s.procs| && Act(s.store, s.procs[i], c).Some?
    requires !s.procs[i].stage.Adding? && !s.procs[i].stage.Exhausted?
    ensures var f := Act(s.store, s.procs[i], c).value; t == State(f.store, s.procs[i := f.proc], s.dlq)
    ensures Leads(s, t) && forall u :: Leads(t, u) ==> Leads(s, u)
  {
    StepLeads(s, Step(i, c));
    var f := Act(s.store, s.procs[i], c).value;
    assert f.spawned == [] && f.letters == [];
    assert s.procs[i := f.proc] + [] == s.procs[i := f.proc] && s.dlq + [] == s.dlq;
    t := Next(s, Step(i, c));
    forall u | Leads(t, u) ensures Leads(s, u) {
      LeadsTrans(s, t, u);
    }
  }

  /* ---- The enqueue loop shared by createDag and onDagNodeCompleted ---- */

  // setJobId for each node of todo, with the ids drawn for them.
  function Assigned(st: Store, todo: seq<Id>, drawn: seq<JobId>): Store
    requires |todo| <= |drawn|
    decreases |todo|
  {
    if todo == [] then st else Assigned(st.SetJobId(todo[0], drawn[0]), todo[1..], drawn[1..])
  }

  function JobsOf(todo: seq<Id>, drawn: seq<JobId>): seq<Proc>
    requires |todo| <= |drawn|
    decreases |todo|
  {
    if todo == [] then [] else [NewJob(drawn[0], Some(todo[0]))] + JobsOf(todo[1..], drawn[1..])
  }

  // The state in which process i has finished its enqueue loop.
  function Enqueued(s: State, i: nat, todo: seq<Id>, drawn: seq<JobId>): State
    requires i < |s.procs| && |todo| <= |drawn|
  {
    State(Assigned(s.store, todo, drawn), s.procs[i := s.procs[i].(stage := Done)] + JobsOf(todo, drawn), s.dlq)
  }

  // The enqueue loop of process i, run without interruption.
  lemma {:induction false} EnqueueIsUninterrupted(s: State, i: nat, todo: seq<Id>, drawn: seq<JobId>)
    requires i < |s.procs| && s.procs[i].stage == Enqueueing(todo) && |todo| <= |drawn|
    ensures Leads(s, Enqueued(s, i, todo, drawn))
    decreases |todo|
  {
    var p := s.procs[i];
    if todo == [] {
      var t := Moves(s, i, Go);
      assert t.procs + [] == t.procs;
    } else {
      var t := EnqueueOne(s, i, todo, drawn);
      EnqueueIsUninterrupted(t, i, todo[1..], drawn[1..]);
      LeadsTrans(s, t, Enqueued(s, i, todo, drawn));
    }
  }

  // One turn of the loop: setJobId, then queue.add.
  lemma EnqueueOne(s: State, i: nat, todo: seq<Id>, drawn: seq<JobId>) returns (t: State)
    requires i < |s.procs| && s.procs[i].stage == Enqueueing(todo) && todo != [] && |todo| <= |drawn|
    ensures i < |t.procs| && t.procs[i].stage == Enqueueing(todo[1..])
    ensures Leads(s, t) && Enqueued(t, i, todo[1..], drawn[1..]) == Enqueued(s, i, todo, drawn)
  {
    var p := s.procs[i];
    var s1 := Moves(s, i, Fresh(drawn[0]));
    StepLeads(s1, Step(i, Go));
    t := Next(s1, Step(i, Go));
    LeadsTrans(s, s1, t);
    assert s1.dlq + [] == s1.dlq;
    var more := JobsOf(todo[1..], drawn[1..]);
    assert t.procs == s.procs[i := p.(stage := Enqueueing(todo[1..]))] + [NewJob(drawn[0], Some(todo[0]))];
    assert t.procs[i := p.(stage := Done)] + more == s.procs[i := p.(stage := Done)] + JobsOf(todo, drawn);
  }

  /* ---- The whole completion handler ---- */

  function Completion(st: Store, n: Id, result: Json): (Store, seq<Id>) {
    Propagate(st.SetResult(n, result).SetStatus(n, Completed), st.DependentsOf(n), [])
  }

  /** One completion, seen from any node m: the result and status of n are recorded, m's counter
      drops once per declared occurrence of n, and m is promoted and handed to the caller exactly
      once if that uses its counter up, and otherwise not at all. */
  lemma CompletionMeaning(st: Store, n: Id, result: Json, m: Id)
    ensures var (st', ready) := Completion(st, n, result);
      var deps := st.DependentsOf(n);
      && st'.results == st.results[n := result]
      && st'.Counter(m) == st.Counter(m) - multiset(deps)[m]
      && multiset(ready)[m] == (if ReachesZero(st, deps, m) then 1 else 0)
      && (ReachesZero(st, deps, m) ==> m in st'.status && st'.status[m] == Ready)
      && (!ReachesZero(st, deps, m) && m != n ==>
            (m in st'.status <==> m in st.status) && (m in st.status ==> st'.status[m] == st.status[m]))
      && (!ReachesZero(st, deps, n) ==> n in st'.status && st'.status[n] == Completed)
      && (st'.nodes, st'.dependents, st'.jobIds, st'.failures) == (st.nodes, st.dependents, st.jobIds, st.failures)
      && (n !in st.dependents ==> ready == []) && (m !in st.remaining ==> m !in ready)
  {
    var st1 := st.SetResult(n, result).SetStatus(n, Completed);
    PropagateMeaning(st1, st.DependentsOf(n), [], m);
    PropagateMeaning(st1, st.DependentsOf(n), [], n);
  }

  // The state in which process i has run its whole completion callback for node n.
  function Finished(s: State, i: nat, n: Id, result: Json, drawn: seq<JobId>): State
    requires i < |s.procs| && |Completion(s.store, n, result).1| <= |drawn|
  {
    var (st, ready) := Completion(s.store, n, result);
    State(Assigned(st, ready, drawn), s.procs[i := s.procs[i].(stage := Done)] + JobsOf(ready, drawn), s.dlq)
  }

  /** The completion callback, run without interruption, is one of the interleavings of the
      protocol: the imperative code below and the protocol's commands agree. */
  lemma CompletionIsUninterrupted(s: State, i: nat, n: Id, drawn: seq<JobId>)
    requires i < |s.procs| && s.procs[i].stage.Succeeded? && s.procs[i].node == Some(n) && s.procs[i].outcome.Some?
    requires |Completion(s.store, n, s.procs[i].outcome.value).1| <= |drawn|
    ensures Leads(s, Finished(s, i, n, s.procs[i].outcome.value, drawn))
  {
    var deps, result := s.store.DependentsOf(n), s.procs[i].outcome.value;
    var ready := Completion(s.store, n, result).1;
    var t := Recorded(s, i, n);
    PropagateIsUninterrupted(t, i, deps, []);
    var u := Decremented(t, i, deps, []);
    EnqueueIsUninterrupted(u, i, ready, drawn);
    var final := s.procs[i].(stage := Done);
    assert u.procs[i := final] == t.procs[i := final] == s.procs[i := final];
    assert Enqueued(u, i, ready, drawn) == Finished(s, i, n, result, drawn);
    LeadsTrans(s, t, u);
    LeadsTrans(s, u, Finished(s, i, n, result, drawn));
  }

  // The three commands before the decrement loop.
  lemma Recorded(s: State, i: nat, n: Id) returns (t: State)
    requires i < |s.procs| && s.procs[i].stage.Succeeded? && s.procs[i].node == Some(n) && s.procs[i].outcome.Some?
    ensures Leads(s, t)
    ensures t == State(s.store.SetResult(n, s.procs[i].outcome.value).SetStatus(n, Completed),
      s.procs[i := s.procs[i].(stage := Decrementing(s.store.DependentsOf(n), []))], s.dlq)
  {
    t := Moves(s, i, Go);
    t := Moves(t, i, Go);
    t := Moves(t, i, Go);
  }

  // The DAG part of an attempt, run without interruption.
  lemma GatherIsUninterrupted(s: State, i: nat, n: Id)
    requires i < |s.procs| && s.procs[i].stage.Running? && s.procs[i].node == Some(n)
    ensures Leads(s, State(s.store.SetStatus(n, Active),
      s.procs[i := s.procs[i].(stage := Working(s.store.Results(s.store.DeclaredDeps(n))))], s.dlq))
  {
    var deps := s.store.DeclaredDeps(n);
    assert s.store.Results([]) == map[];
    var t := Moves(s, i, Go);
    t := Moves(t, i, Go);
    t := Moves(t, i, Go);
    assert t.store == s.store.SetStatus(n, Active);
    assert t.store.Results(deps) == s.store.Results(deps);
    assert t.procs == s.procs[i := s.procs[i].(stage := Working(s.store.Results(deps)))];
  }

  // The listener of a last failure, run without interruption.
  lemma FailureIsUninterrupted(s: State, i: nat, n: Id, reason: string)
    requires i < |s.procs| && s.procs[i].stage == Exhausted(reason) && s.procs[i].node == Some(n)
    ensures Leads(s, State(s.store.SetStatus(n, Failed).SetFailure(n, reason),
      s.procs[i := s.procs[i].(stage := FailedDone(reason))], s.dlq + [Some(n)]))
  {
    StepLeads(s, Step(i, Go));
    var t := Next(s, Step(i, Go));
    assert t.procs == s.procs[i := s.procs[i].(stage := DeadLettered(reason))];
    var u := Moves(t, i, Go);
    u := Moves(u, i, Go);
    assert u.procs == s.procs[i := s.procs[i].(stage := FailedDone(reason))];
    LeadsTrans(s, t, u);
  }

  /* ---- The classes ---- */

  class Coordinator {
    var store: Store

    constructor ()
      ensures store == EMPTY_STORE
    {
      store := EMPTY_STORE;
    }

    /** Writes a new DAG's keys. The dependency lists are transposed without a check, so the
        graph must have passed validation. */
    method Persist(nodes: seq<DagNode>)
      requires KnownDeps(nodes) && store == EMPTY_STORE
      modifies this
      ensures store == Persisted(nodes)
      ensures DistinctIds(nodes) ==> HoldsGraph(nodes, store)
    {
      var dependents := TopologicalSort.BuildDependents(nodes);
      var st := EMPTY_STORE;
      for i := 0 to |nodes|
        invariant st == Written(nodes[..i], dependents)
      {
        var n := nodes[i];
        assert n in nodes;
        assert nodes[..i + 1][..i] == nodes[..i];
        st := st.(nodes := st.nodes[n.id := n],
                  dependents := st.dependents[n.id := dependents[n.id]],
                  remaining := st.remaining[n.id := |n.dependsOn|],
                  status := st.status[n.id := if |n.dependsOn| == 0 then Ready else Pending]);
      }
      assert nodes[..|nodes|] == nodes;
      WrittenIsPersisted(nodes, dependents);
      store := st;
      if DistinctIds(nodes) { PersistedIsWhole(nodes); }
    }

    method MarkActive(n: Id)
      modifies this
      ensures store == old(store).SetStatus(n, Active)
    {
      store := store.SetStatus(n, Active);
    }

    method SetJobId(n: Id, jobId: JobId)
      modifies this
      ensures store == old(store).SetJobId(n, jobId)
    {
      store := store.SetJobId(n, jobId);
    }

    method MarkFailed(n: Id, reason: string)
      modifies this
      ensures store == old(store).SetStatus(n, Failed).SetFailure(n, reason)
    {
      store := store.SetStatus(n, Failed);
      store := store.SetFailure(n, reason);
    }

    method GetResults(ids: seq<Id>) returns (out: map<Id, Option<Json>>)
      ensures out.Keys == set n | n in ids
      ensures forall n :: n in out ==> out[n] == if n in store.results then Some(store.results[n]) else None
    {
      out := map[];
      for i := 0 to |ids|
        invariant out == store.Results(ids[..i])
      {
        assert ids[..i + 1] == ids[..i] + [ids[i]];
        out := out[ids[i] := store.Result(ids[i])];
      }
      assert ids[..|ids|] == ids;
    }

    method MarkCompleteAndFindReady(n: Id, result: Json) returns (ready: seq<Id>)
      modifies this
      ensures (store, ready) == Completion(old(store), n, result)
    {
      store := store.SetResult(n, result);
      store := store.SetStatus(n, Completed);
      var dependents := store.DependentsOf(n);
      ready := [];
      if |dependents| == 0 {
        return;
      }
      ghost var start := store;
      var k := 0;
      while k < |dependents|
        invariant 0 <= k <= |dependents|
        invariant Propagate(start, dependents, []) == Propagate(store, dependents[k..], ready)
      {
        var d := dependents[k];
        assert dependents[k..][1..] == dependents[k + 1..];
        store := store.Decr(d);
        if store.Counter(d) == 0 {
          if d in store.nodes {
            store := store.SetStatus(d, Ready);
            ready := ready + [d];
          }
        }
        k := k + 1;
      }
    }
  }

  /** The API's side: validation, persistence and the root loop. */
  class WorkflowsService {
    const coordinator: Coordinator
    var queue: seq<Proc>

    constructor (c: Coordinator)
      ensures coordinator == c && queue == []
    {
      coordinator := c;
      queue := [];
    }

    /** Accepts exactly the well-formed acyclic graphs. A refused graph leaves no trace; an
        accepted one is persisted and its roots enqueued, one job each. `drawn` supplies the
        job ids; the DAG id is new, so none of its keys exist yet. */
    method CreateDag(nodes: seq<DagNode>, drawn: seq<JobId>) returns (r: Result<seq<seq<Id>>, TopologicalSort.DagError>)
      requires coordinator.store == EMPTY_STORE && |nodes| <= |drawn|
      modifies this, coordinator
      ensures r.Success? <==> IsDag(nodes)
      ensures r.Failure? ==> TopologicalSort.Diagnoses(nodes, r.error)
      ensures r.Failure? ==> coordinator.store == EMPTY_STORE && queue == old(queue)
      ensures r.Success? ==> TopologicalSort.CanonicalLayers(nodes, r.value)
      ensures r.Success? ==>
        && |RootIds(nodes)| <= |drawn|
        && coordinator.store == Assigned(Persisted(nodes), RootIds(nodes), drawn)
        && queue == old(queue) + JobsOf(RootIds(nodes), drawn)
    {
      r := TopologicalSort.TopologicalLayers(nodes);
      if r.Failure? {
        return;
      }
      coordinator.Persist(nodes);
      IdsWhereFit(nodes, (n: DagNode) => n.dependsOn == []);
      var roots := RootIds(nodes);
      assert roots[0..] == roots && drawn[0..] == drawn;
      for k := 0 to |roots|
        invariant Assigned(coordinator.store, roots[k..], drawn[k..]) == Assigned(Persisted(nodes), roots, drawn)
        invariant queue + JobsOf(roots[k..], drawn[k..]) == old(queue) + JobsOf(roots, drawn)
      {
        EnqueueTurn(coordinator.store, queue, roots[k..], drawn[k..]);
        assert roots[k..][1..] == roots[k + 1..] && drawn[k..][1..] == drawn[k + 1..];
        coordinator.SetJobId(roots[k], drawn[k]);
        queue := queue + [NewJob(drawn[k], Some(roots[k]))];
      }
    }
  }

  /** The worker's side: the DAG part of processJob and the two queue listeners. */
  class FairScheduler {
    const coordinator: Coordinator
    var queue: seq<Proc>
    var dlq: seq<Option<Id>>

    constructor (c: Coordinator)
      ensures coordinator == c && queue == [] && dlq == []
    {
      coordinator := c;
      queue := [];
      dlq := [];
    }

    // The upstream results injected into a node's payload.
    method GatherInputs(node: Option<Id>) returns (inputs: map<Id, Option<Json>>)
      modifies coordinator
      ensures node.None? ==> inputs == map[] && coordinator.store == old(coordinator.store)
      ensures node.Some? ==>
        && coordinator.store == old(coordinator.store).SetStatus(node.value, Active)
        && inputs == old(coordinator.store).Results(old(coordinator.store).DeclaredDeps(node.value))
      ensures node.Some? ==>
        && (node.value !in old(coordinator.store).nodes ==> inputs == map[])
        && forall d :: d in inputs ==> node.value in old(coordinator.store).nodes && d in old(coordinator.store).nodes[node.value].dependsOn
    {
      inputs := map[];
      if node.Some? {
        coordinator.MarkActive(node.value);
        var depIds := coordinator.store.DeclaredDeps(node.value);
        if |depIds| > 0 {
          inputs := coordinator.GetResults(depIds);
        }
      }
    }

    method OnDagNodeCompleted(node: Option<Id>, result: Json, drawn: seq<JobId>)
      requires node.Some? ==> |Completion(coordinator.store, node.value, result).1| <= |drawn|
      modifies this, coordinator
      ensures dlq == old(dlq)
      ensures node.None? ==> coordinator.store == old(coordinator.store) && queue == old(queue)
      ensures node.Some? ==>
        var (st, ready) := Completion(old(coordinator.store), node.value, result);
        coordinator.store == Assigned(st, ready, drawn) && queue == old(queue) + JobsOf(ready, drawn)
    {
      if node.None? {
        return;
      }
      var ready := coordinator.MarkCompleteAndFindReady(node.value, result);
      ghost var st := coordinator.store;
      assert ready[0..] == ready && drawn[0..] == drawn;
      for k := 0 to |ready|
        invariant dlq == old(dlq)
        invariant Assigned(coordinator.store, ready[k..], drawn[k..]) == Assigned(st, ready, drawn)
        invariant queue + JobsOf(ready[k..], drawn[k..]) == old(queue) + JobsOf(ready, drawn)
      {
        EnqueueTurn(coordinator.store, queue, ready[k..], drawn[k..]);
        assert ready[k..][1..] == ready[k + 1..] && drawn[k..][1..] == drawn[k + 1..];
        coordinator.SetJobId(ready[k], drawn[k]);
        queue := queue + [NewJob(drawn[k], Some(ready[k]))];
      }
    }

    // The 'failed' listener: only the last attempt has lasting effects.
    method OnFailed(node: Option<Id>, attemptsMade: nat, attempts: nat, reason: string)
      modifies this, coordinator
      ensures queue == old(queue)
      ensures attemptsMade < attempts ==> coordinator.store == old(coordinator.store) && dlq == old(dlq)
      ensures attemptsMade >= attempts ==> dlq == old(dlq) + [node]
      ensures attemptsMade >= attempts ==>
        coordinator.store == if node.None? then old(coordinator.store) else
          old(coordinator.store).SetStatus(node.value, Failed).SetFailure(node.value, reason)
    {
      if attemptsMade >= attempts {
        dlq := dlq + [node];
        if node.Some? {
          coordinator.MarkFailed(node.value, reason);
        }
      }
    }
  }

  // One turn of an enqueue loop leaves its end result unchanged.
  lemma EnqueueTurn(st: Store, queue: seq<Proc>, todo: seq<Id>, drawn: seq<JobId>)
    requires 0 < |todo| <= |drawn|
    ensures Assigned(st.SetJobId(todo[0], drawn[0]), todo[1..], drawn[1..]) == Assigned(st, todo, drawn)
    ensures queue + [NewJob(drawn[0], Some(todo[0]))] + JobsOf(todo[1..], drawn[1..]) == queue + JobsOf(todo, drawn)
  {
  }

  /** What createDag leaves behind when nothing runs beside its root loop is reachable in the
      protocol: every root has one queued job, and the roots are exactly the first layer. */
  lemma CreationIsReachable(nodes: seq<DagNode>, drawn: seq<JobId>, layers: seq<seq<Id>>)
    requires IsDag(nodes) && |RootIds(nodes)| <= |drawn| && TopologicalSort.CanonicalLayers(nodes, layers)
    ensures Reachable(nodes, Enqueued(Init(nodes), 0, RootIds(nodes), drawn))
    ensures Enqueued(Init(nodes), 0, RootIds(nodes), drawn).store == Assigned(Persisted(nodes), RootIds(nodes), drawn)
    ensures NoRepeats(RootIds(nodes)) && layers != []
    ensures forall n :: n in RootIds(nodes) <==> n in layers[0]
  {
    EnqueueIsUninterrupted(Init(nodes), 0, RootIds(nodes), drawn);
    RootIdsAre(nodes);
    assert nodes[0] in nodes && nodes[0].id in IdsOf(nodes);
    assert TopologicalSort.InSomeLayer(layers, nodes[0].id);
    assert TopologicalSort.IsFrontier(nodes, layers[0], 0);
    forall n | n in IdsOf(nodes) ensures TopologicalSort.AtDepth(nodes, n, 0) <==> DepsOf(nodes, n) == [] {
      RootsAreShallow(nodes, n);
    }
  }

  lemma RootsAreShallow(nodes: seq<DagNode>, n: Id)
    requires DistinctIds(nodes) && n in IdsOf(nodes)
    ensures TopologicalSort.AtDepth(nodes, n, 0) <==> DepsOf(nodes, n) == []
  {
    if DepsOf(nodes, n) != [] {
      var d := DepsOf(nodes, n)[0];
      EdgeIsDep(nodes, d, n);
      assert HasChain(EdgesOf(nodes), d, 0);
    }
    if HasChain(EdgesOf(nodes), n, 1) {
      var d :| (d, n) in EdgesOf(nodes) && HasChain(EdgesOf(nodes), d, 0);
      EdgeIsDep(nodes, d, n);
    }
  }

  // The pipeline of persist after the commands for `nodes`.
  function Written(nodes: seq<DagNode>, lists: map<Id, seq<Id>>): Store {
    if nodes == [] then EMPTY_STORE
    else
      var n := nodes[|nodes| - 1];
      var st := Written(nodes[..|nodes| - 1], lists);
      st.(nodes := st.nodes[n.id := n],
          dependents := st.dependents[n.id := if n.id in lists then lists[n.id] else []],
          remaining := st.remaining[n.id := |n.dependsOn|],
          status := st.status[n.id := if |n.dependsOn| == 0 then Ready else Pending])
  }

  lemma {:induction false} WrittenAt(nodes: seq<DagNode>, lists: map<Id, seq<Id>>, m: Id)
    ensures var st := Written(nodes, lists);
      && st == EMPTY_STORE.(nodes := st.nodes, dependents := st.dependents, remaining := st.remaining, status := st.status)
      && (m in IdsOf(nodes) <==> m in st.nodes)
      && (m in st.nodes <==> m in st.dependents)
      && (m in st.nodes <==> m in st.remaining)
      && (m in st.nodes <==> m in st.status)
    ensures m in IdsOf(nodes) ==>
      var st := Written(nodes, lists);
      && st.nodes[m] == NodeOf(nodes, m)
      && st.dependents[m] == (if m in lists then lists[m] else [])
      && st.remaining[m] == |DepsOf(nodes, m)|
      && st.status[m] == if DepsOf(nodes, m) == [] then Ready else Pending
  {
    if nodes != [] {
      var init, n := nodes[..|nodes| - 1], nodes[|nodes| - 1];
      assert nodes == init + [n];
      assert m in IdsOf(nodes) <==> m in IdsOf(init) || m == n.id;
      WrittenAt(init, lists, m);
    }
  }

  // The four keys persist writes agree at m.
  predicate AgreeAt(a: Store, b: Store, m: Id) {
    && (m in a.nodes <==> m in b.nodes) && (m in a.nodes ==> a.nodes[m] == b.nodes[m])
    && (m in a.dependents <==> m in b.dependents) && (m in a.dependents ==> a.dependents[m] == b.dependents[m])
    && (m in a.remaining <==> m in b.remaining) && (m in a.remaining ==> a.remaining[m] == b.remaining[m])
    && (m in a.status <==> m in b.status) && (m in a.status ==> a.status[m] == b.status[m])
  }

  lemma AgreementIsEquality(a: Store, b: Store)
    requires forall m :: AgreeAt(a, b, m)
    requires (a.results, a.jobIds, a.failures) == (b.results, b.jobIds, b.failures)
    ensures a == b
  {
    forall m ensures (m in a.nodes <==> m in b.nodes) && (m in a.nodes ==> a.nodes[m] == b.nodes[m]) {
      assert AgreeAt(a, b, m);
    }
    assert a.nodes == b.nodes;
    forall m ensures (m in a.dependents <==> m in b.dependents) && (m in a.dependents ==> a.dependents[m] == b.dependents[m]) {
      assert AgreeAt(a, b, m);
    }
    assert a.dependents == b.dependents;
    forall m ensures (m in a.remaining <==> m in b.remaining) && (m in a.remaining ==> a.remaining[m] == b.remaining[m]) {
      assert AgreeAt(a, b, m);
    }
    assert a.remaining == b.remaining;
    forall m ensures (m in a.status <==> m in b.status) && (m in a.status ==> a.status[m] == b.status[m]) {
      assert AgreeAt(a, b, m);
    }
    assert a.status == b.status;
  }

  lemma WrittenIsPersisted(nodes: seq<DagNode>, lists: map<Id, seq<Id>>)
    requires lists == TopologicalSort.DependentLists(nodes, IdsOf(nodes))
    ensures Written(nodes, lists) == Persisted(nodes)
  {
    var st, p := Written(nodes, lists), Persisted(nodes);
    forall m ensures AgreeAt(st, p, m) {
      WrittenAt(nodes, lists, m);
    }
    WrittenAt(nodes, lists, "");
    AgreementIsEquality(st, p);
  }
}
