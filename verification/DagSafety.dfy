/** Safety of the DAG runtime over all interleavings, crashes and dead-letter retries. */
module DagSafety {
  import opened Wrappers
  import opened Graphs
  import opened TaskGraph
  import opened DagStore
  import opened DagProtocol
  import opened DagCounting
  import opened DagInvariant

  /* ---- Exactly-once firing ---- */

  /** In every reachable state the counter of n is its declared dependencies (with repeats) minus
      the decrements carried out, is never negative, and n has at most one job. Zero means every
      dependency's handler has finished with n, and then exactly one claim on n exists: its one
      job, or one process about to enqueue it. Before zero there is none. */
  lemma ExactlyOnce(nodes: seq<DagNode>, s: State, n: Id)
    requires WellFormed(nodes) && Reachable(nodes, s) && n in IdsOf(nodes)
    ensures s.store.Counter(n) == |DepsOf(nodes, n)| - DecrsOn(PlanOf(nodes), s.procs, n)
    ensures 0 <= s.store.Counter(n)
    ensures JobsFor(s.procs, n) <= ClaimsOn(s.procs, n) == (if s.store.Counter(n) == 0 then 1 else 0)
    ensures s.store.Counter(n) == 0 <==>
      && (forall d :: d in DepsOf(nodes, n) ==> JobsFor(s.procs, d) == 1)
      && (forall i :: 0 <= i < |s.procs| ==> n !in Left(PlanOf(nodes), s.procs[i]))
  {
    ReachableInv(nodes, s);
    var g := PlanOf(nodes);
    assert g.Deps(n) == DepsOf(nodes, n);
    assert CounterOk(g, s, n) && ClaimOk(s, n);
    CounterMeaning(g, s, n);
    JobsAreClaims(s.procs, n);
  }

  // This event is a DECR of n's counter that returns 0.
  predicate ObservesZero(s: State, e: Event, n: Id) {
    Decrements(s, e, n) && s.store.Counter(n) == 1
  }

  ghost function ZeroesObserved(s: State, events: seq<Event>, n: Id): nat
    decreases |events|
  {
    if events == [] || !Enabled(s, events[0]) then 0
    else (if ObservesZero(s, events[0], n) then 1 else 0) + ZeroesObserved(Next(s, events[0]), events[1..], n)
  }

  lemma CounterStep(g: Plan, s: State, e: Event, n: Id)
    requires PlanOk(g) && Inv(g, s) && Enabled(s, e) && n in g.ids
    ensures s.store.Counter(n) >= 0
    ensures Next(s, e).store.Counter(n) <= s.store.Counter(n)
    ensures ObservesZero(s, e, n) <==> s.store.Counter(n) != 0 && Next(s, e).store.Counter(n) == 0
  {
    CounterMeaning(g, s, n);
    if e.Step? {
      CounterUnderStep(s, e.i, e.choice, n);
    }
  }

  lemma JobStepKeepsCounters(st: Store, p: Proc, c: Choice)
    requires JobStep(st, p, c).Some?
    ensures JobStep(st, p, c).value.store.remaining == st.remaining
  {
  }

  lemma FailureStepKeepsCounters(st: Store, p: Proc, c: Choice)
    requires FailureStep(st, p, c).Some?
    ensures FailureStep(st, p, c).value.store.remaining == st.remaining
  {
  }

  lemma HandlerStepCounters(st: Store, p: Proc, c: Choice)
    requires HandlerStep(st, p, c).Some?
    ensures HandlerStep(st, p, c).value.store.remaining ==
      if p.stage.Decrementing? && p.stage.left != [] then st.Decr(p.stage.left[0]).remaining else st.remaining
  {
  }

  lemma CounterUnderStep(s: State, i: nat, c: Choice, n: Id)
    requires Enabled(s, Step(i, c))
    ensures var p := s.procs[i];
      Next(s, Step(i, c)).store.Counter(n) == s.store.Counter(n) -
        if p.stage.Decrementing? && p.stage.left != [] && p.stage.left[0] == n then 1 else 0
  {
    var p := s.procs[i];
    match p.stage
    case Waiting | Running | MarkedActive | GotNode(_) | Working(_) => JobStepKeepsCounters(s.store, p, c);
    case Exhausted(_) | DeadLettered(_) | MarkedFailed(_) => FailureStepKeepsCounters(s.store, p, c);
    case _ => HandlerStepCounters(s.store, p, c);
  }

  // This event is a DECR of n's counter.
  predicate Decrements(s: State, e: Event, n: Id) {
    && e.Step? && e.i < |s.procs|
    && s.procs[e.i].stage.Decrementing? && s.procs[e.i].stage.left != []
    && s.procs[e.i].stage.left[0] == n
  }

  ghost function DecrementsIn(s: State, events: seq<Event>, n: Id): nat
    decreases |events|
  {
    if events == [] || !Enabled(s, events[0]) then 0
    else (if Decrements(s, events[0], n) then 1 else 0) + DecrementsIn(Next(s, events[0]), events[1..], n)
  }

  lemma {:induction false} CounterAlong(s: State, events: seq<Event>, t: State, n: Id)
    requires Trace(s, events, t)
    ensures t.store.Counter(n) == s.store.Counter(n) - DecrementsIn(s, events, n)
    decreases |events|
  {
    if events != [] {
      var e := events[0];
      if e.Step? {
        CounterUnderStep(s, e.i, e.choice, n);
      }
      CounterAlong(Next(s, e), events[1..], t, n);
    }
  }

  /** After any run the counter is the number of declared dependencies minus the DECRs the run
      carried out, and there are never more of those than dependencies. */
  lemma CounterIsHistory(nodes: seq<DagNode>, events: seq<Event>, t: State, n: Id)
    requires WellFormed(nodes) && Trace(Init(nodes), events, t) && n in IdsOf(nodes)
    ensures t.store.Counter(n) == |DepsOf(nodes, n)| - DecrementsIn(Init(nodes), events, n)
    ensures DecrementsIn(Init(nodes), events, n) <= |DepsOf(nodes, n)|
  {
    CounterAlong(Init(nodes), events, t, n);
    ExactlyOnce(nodes, t, n);
  }

  lemma {:induction false} ZeroesAlong(g: Plan, s: State, events: seq<Event>, t: State, n: Id)
    requires PlanOk(g) && Inv(g, s) && Trace(s, events, t) && n in g.ids
    ensures t.store.Counter(n) <= s.store.Counter(n)
    ensures ZeroesObserved(s, events, n) ==
      if s.store.Counter(n) != 0 && t.store.Counter(n) == 0 then 1 else 0
    decreases |events|
  {
    if events != [] {
      CounterStep(g, s, events[0], n);
      EventKeepsInv(g, s, events[0]);
      ZeroesAlong(g, Next(s, events[0]), events[1..], t, n);
      TraceKeepsInv(g, s, events, t);
      CounterMeaning(g, t, n);
    }
  }

  /** Over a whole run, at most one DECR of n's counter ever returns 0, and one does exactly
      when n has dependencies and its counter has reached zero. */
  lemma ZeroIsObservedOnce(nodes: seq<DagNode>, events: seq<Event>, t: State, n: Id)
    requires WellFormed(nodes) && Trace(Init(nodes), events, t) && n in IdsOf(nodes)
    ensures ZeroesObserved(Init(nodes), events, n) ==
      if DepsOf(nodes, n) != [] && t.store.Counter(n) == 0 then 1 else 0
  {
    PlanOfOk(nodes);
    InitInv(nodes);
    ZeroesAlong(PlanOf(nodes), Init(nodes), events, t, n);
  }

  /* ---- Dependencies come first ---- */

  lemma OwnJob(g: Plan, s: State, i: nat, n: Id)
    requires Inv(g, s) && i < |s.procs| && s.procs[i].node == Some(n)
    ensures n in g.ids && s.store.Counter(n) == 0 && OwnKeys(s.procs[i], KeysOf(s.store, n))
  {
    SoleClaim(g, s, i, n);
    assert ProcOk(g, s.store, s.procs[i]);
  }

  // Once n's counter is zero, each direct dependency is completed and its result stored.
  lemma DependencyDone(g: Plan, s: State, n: Id, d: Id) returns (i: nat)
    requires PlanOk(g) && Inv(g, s) && n in g.ids && s.store.Counter(n) == 0 && d in g.Deps(n)
    ensures d in g.ids && s.store.Counter(d) == 0
    ensures KeysOf(s.store, d).status == Some(Completed)
    ensures i < |s.procs| && s.procs[i].node == Some(d)
    ensures s.procs[i].outcome.Some? && s.store.Result(d) == s.procs[i].outcome
  {
    CounterMeaning(g, s, n);
    i := JobExists(s.procs, d);
    OwnJob(g, s, i, d);
    assert multiset(g.Dependents(d))[n] == multiset(g.Deps(n))[d];
    assert n in g.Dependents(d);
    assert n !in Left(g, s.procs[i]);
    assert ProcOk(g, s.store, s.procs[i]);
  }

  // a is marked completed, and its stored result is the value its own job returned.
  ghost predicate CompletedByJob(s: State, a: Id) {
    && KeysOf(s.store, a).status == Some(Completed)
    && s.store.Result(a).Some?
    && exists i :: 0 <= i < |s.procs| && s.procs[i].node == Some(a) && s.procs[i].outcome == s.store.Result(a)
  }

  lemma ParentDone(g: Plan, s: State, d: Id, n: Id)
    requires PlanOk(g) && Inv(g, s) && n in g.ids && s.store.Counter(n) == 0 && (d, n) in g.Edges()
    ensures d in g.ids && s.store.Counter(d) == 0 && CompletedByJob(s, d)
  {
    var i := DependencyDone(g, s, n, d);
  }

  lemma ClaimedHasAncestorsDone(g: Plan, s: State, a: Id, n: Id)
    requires PlanOk(g) && Inv(g, s) && n in g.ids && s.store.Counter(n) == 0
    requires Ancestor(g.Edges(), a, n)
    ensures a in g.ids && CompletedByJob(s, a)
  {
    var fired := set m | m in g.ids && s.store.Counter(m) == 0;
    forall d, m | (d, m) in g.Edges() && m in fired ensures d in fired {
      ParentDone(g, s, d, m);
    }
    var c :| (a, c) in g.Edges() && Reach(g.Edges(), c, n);
    var p :| PathFromTo(g.Edges(), p, c, n);
    PathStaysIn(g.Edges(), fired, p);
    ParentDone(g, s, a, c);
  }

  /** Every status snapshot is closed under dependencies: a node that has left `pending` has all
      its proper ancestors completed. */
  lemma SnapshotIsClosed(nodes: seq<DagNode>, s: State, a: Id, n: Id)
    requires WellFormed(nodes) && Reachable(nodes, s) && n in IdsOf(nodes)
    requires KeysOf(s.store, n).status != Some(Pending) && Ancestor(EdgesOf(nodes), a, n)
    ensures KeysOf(s.store, a).status == Some(Completed)
  {
    ReachableInv(nodes, s);
    PlanOfOk(nodes);
    assert ClaimOk(s, n);
    ClaimedHasAncestorsDone(PlanOf(nodes), s, a, n);
  }

  /** Whenever n has a job (or a process about to enqueue it), every proper ancestor's stored
      result is the value that ancestor's own job returned. */
  lemma ResultsAreReady(nodes: seq<DagNode>, s: State, a: Id, n: Id)
    requires WellFormed(nodes) && Reachable(nodes, s) && ClaimsOn(s.procs, n) > 0 && n in IdsOf(nodes)
    requires Ancestor(EdgesOf(nodes), a, n)
    ensures CompletedByJob(s, a)
  {
    ReachableInv(nodes, s);
    PlanOfOk(nodes);
    assert ClaimOk(s, n);
    ClaimedHasAncestorsDone(PlanOf(nodes), s, a, n);
  }

  /* ---- Keys only move forward ---- */

  predicate StatusAdvances(a: Option<Status>, b: Option<Status>) {
    || a == b
    || (a == Some(Pending) && b == Some(Ready))
    || (a == Some(Ready) && (b == Some(Active) || b == Some(Failed)))
    || (a == Some(Active) && (b == Some(Completed) || b == Some(Failed)))
  }

  // Statuses advance; a result, job id or failure reason once written is never changed.
  predicate KeysAdvance(a: NodeKeys, b: NodeKeys) {
    && StatusAdvances(a.status, b.status)
    && (a.result.Some? ==> b.result == a.result)
    && (a.jobId.Some? ==> b.jobId == a.jobId)
    && (a.failure.Some? ==> b.failure == a.failure)
  }

  lemma JobStepAdvances(g: Plan, st: Store, p: Proc, c: Choice, n: Id)
    requires ProcShape(g, st, p) && JobStep(st, p, c).Some?
    ensures KeysAdvance(KeysOf(st, n), KeysOf(JobStep(st, p, c).value.store, n))
  {
  }

  lemma MarkFailedAdvances(g: Plan, st: Store, p: Proc, f: Id, n: Id)
    requires ProcShape(g, st, p) && p.stage.DeadLettered? && p.node == Some(f)
    ensures KeysAdvance(KeysOf(st, n), KeysOf(st.SetStatus(f, Failed), n))
  {
  }

  lemma SetFailureAdvances(g: Plan, st: Store, p: Proc, f: Id, reason: string, n: Id)
    requires ProcShape(g, st, p) && p.stage.MarkedFailed? && p.node == Some(f)
    ensures KeysAdvance(KeysOf(st, n), KeysOf(st.SetFailure(f, reason), n))
  {
  }

  lemma FailureStepAdvances(g: Plan, st: Store, p: Proc, c: Choice, n: Id)
    requires ProcShape(g, st, p) && FailureStep(st, p, c).Some?
    ensures KeysAdvance(KeysOf(st, n), KeysOf(FailureStep(st, p, c).value.store, n))
  {
    if p.node.Some? && p.stage.DeadLettered? {
      MarkFailedAdvances(g, st, p, p.node.value, n);
    } else if p.stage.MarkedFailed? {
      SetFailureAdvances(g, st, p, p.node.value, p.stage.reason, n);
    }
  }

  lemma ResultStepAdvances(g: Plan, st: Store, p: Proc, n: Id)
    requires ProcShape(g, st, p) && (p.stage.Succeeded? || p.stage.StoredResult?)
    ensures KeysAdvance(KeysOf(st, n), KeysOf(HandlerStep(st, p, Go).value.store, n))
  {
  }

  lemma PromoteStepAdvances(g: Plan, st: Store, p: Proc, n: Id)
    requires ProcOk(g, st, p) && p.stage.MarkingReady?
    ensures KeysAdvance(KeysOf(st, n), KeysOf(HandlerStep(st, p, Go).value.store, n))
  {
    assert p.stage.cur in Held(p.stage);
  }

  lemma SetJobIdAdvances(g: Plan, st: Store, p: Proc, c: Choice, n: Id)
    requires ProcOk(g, st, p) && p.stage.Enqueueing? && p.stage.todo != [] && c.Fresh?
    ensures KeysAdvance(KeysOf(st, n), KeysOf(HandlerStep(st, p, c).value.store, n))
  {
    assert p.stage.todo[0] in Held(p.stage);
  }

  // The remaining handler commands write no key but a counter.
  lemma OtherHandlerSteps(st: Store, p: Proc, c: Choice, n: Id)
    requires HandlerStep(st, p, c).Some?
    requires !p.stage.Succeeded? && !p.stage.StoredResult? && !p.stage.MarkingReady?
    requires p.stage.Enqueueing? ==> p.stage.todo == []
    ensures KeysOf(HandlerStep(st, p, c).value.store, n) == KeysOf(st, n)
  {
  }

  lemma HandlerStepAdvances(g: Plan, st: Store, p: Proc, c: Choice, n: Id)
    requires ProcOk(g, st, p) && HandlerStep(st, p, c).Some?
    ensures KeysAdvance(KeysOf(st, n), KeysOf(HandlerStep(st, p, c).value.store, n))
  {
    if p.stage.Succeeded? || p.stage.StoredResult? {
      ResultStepAdvances(g, st, p, n);
    } else if p.stage.MarkingReady? {
      PromoteStepAdvances(g, st, p, n);
    } else if p.stage.Enqueueing? && p.stage.todo != [] {
      SetJobIdAdvances(g, st, p, c, n);
    } else {
      OtherHandlerSteps(st, p, c, n);
    }
  }

  lemma EventAdvances(g: Plan, s: State, e: Event, n: Id)
    requires PlanOk(g) && Inv(g, s) && Enabled(s, e)
    ensures KeysAdvance(KeysOf(s.store, n), KeysOf(Next(s, e).store, n))
  {
    if e.Step? {
      var p := s.procs[e.i];
      assert ProcOk(g, s.store, p);
      ActAdvances(g, s.store, p, e.choice, n);
    }
  }

  lemma ActAdvances(g: Plan, st: Store, p: Proc, c: Choice, n: Id)
    requires ProcOk(g, st, p) && Act(st, p, c).Some?
    ensures KeysAdvance(KeysOf(st, n), KeysOf(Act(st, p, c).value.store, n))
  {
    if InJob(p.stage) {
      JobStepAdvances(g, st, p, c, n);
    } else if p.stage.Exhausted? || p.stage.DeadLettered? || p.stage.MarkedFailed? {
      FailureStepAdvances(g, st, p, c, n);
    } else {
      HandlerStepAdvances(g, st, p, c, n);
    }
  }

  /** In one step a node's status moves at most one place along
      pending, ready, active, completed (or from ready or active to failed),
      and nothing stored about it is ever overwritten by another value. */
  lemma KeysOnlyAdvance(nodes: seq<DagNode>, s: State, e: Event, n: Id)
    requires WellFormed(nodes) && Reachable(nodes, s) && Enabled(s, e)
    ensures KeysAdvance(KeysOf(s.store, n), KeysOf(Next(s, e).store, n))
  {
    ReachableInv(nodes, s);
    EventAdvances(PlanOf(nodes), s, e, n);
  }

  /** Completions happen in a linear extension of the dependency order. */
  lemma CompletionOrder(nodes: seq<DagNode>, s: State, e: Event, n: Id, a: Id)
    requires WellFormed(nodes) && Reachable(nodes, s) && Enabled(s, e) && n in IdsOf(nodes)
    requires KeysOf(s.store, n).status != Some(Completed) && KeysOf(Next(s, e).store, n).status == Some(Completed)
    requires Ancestor(EdgesOf(nodes), a, n)
    ensures KeysOf(s.store, a).status == Some(Completed)
  {
    KeysOnlyAdvance(nodes, s, e, n);
    SnapshotIsClosed(nodes, s, a, n);
  }

  // What any continuation preserves about one node.
  predicate KeysSettled(a: NodeKeys, b: NodeKeys) {
    && (a.status == Some(Failed) ==> b.status == Some(Failed))
    && (a.status == Some(Completed) ==> b.status == Some(Completed))
    && (a.result.Some? ==> b.result == a.result)
    && (a.jobId.Some? ==> b.jobId == a.jobId)
    && (a.failure.Some? ==> b.failure == a.failure)
  }

  lemma {:induction false} TraceSettles(g: Plan, s: State, events: seq<Event>, t: State, n: Id)
    requires PlanOk(g) && Inv(g, s) && Trace(s, events, t)
    ensures KeysSettled(KeysOf(s.store, n), KeysOf(t.store, n))
    decreases |events|
  {
    if events != [] {
      EventAdvances(g, s, events[0], n);
      EventKeepsInv(g, s, events[0]);
      TraceSettles(g, Next(s, events[0]), events[1..], t, n);
    }
  }

  /** Once a node has failed, no proper descendant is ever enqueued or leaves `pending`,
      whatever steps, crashes and dead-letter retries follow. */
  lemma FailureBlocksForever(nodes: seq<DagNode>, s: State, t: State, f: Id, n: Id)
    requires WellFormed(nodes) && Reachable(nodes, s) && Leads(s, t)
    requires KeysOf(s.store, f).status == Some(Failed) && n in IdsOf(nodes) && Ancestor(EdgesOf(nodes), f, n)
    ensures KeysOf(t.store, n).status == Some(Pending)
    ensures ClaimsOn(t.procs, n) == JobsFor(t.procs, n) == 0 && t.store.Counter(n) > 0
  {
    ReachableInv(nodes, s);
    var events :| Trace(s, events, t);
    TraceSettles(PlanOf(nodes), s, events, t, f);
    LeadsTrans(Init(nodes), s, t);
    ExactlyOnce(nodes, t, n);
    ReachableInv(nodes, t);
    assert ClaimOk(t, n);
    if t.store.Counter(n) == 0 {
      PlanOfOk(nodes);
      ClaimedHasAncestorsDone(PlanOf(nodes), t, f, n);
    }
  }

  /* ---- What a running job is given ---- */

  // The dependency results handed to the model call are the stored ones, none of them null.
  ghost predicate InputsOk(g: Plan, st: Store, p: Proc) {
    p.stage.Working? && p.node.Some? ==>
      && (forall d :: d in p.stage.inputs ==> d in g.Deps(p.node.value))
      && (forall d :: d in g.Deps(p.node.value) ==>
            d in p.stage.inputs && p.stage.inputs[d].Some? && p.stage.inputs[d] == st.Result(d))
  }

  lemma InputsStep(g: Plan, s: State, e: Event, j: nat)
    requires PlanOk(g) && Inv(g, s) && Enabled(s, e)
    requires forall i :: 0 <= i < |s.procs| ==> InputsOk(g, s.store, s.procs[i])
    requires j < |Next(s, e).procs|
    ensures InputsOk(g, Next(s, e).store, Next(s, e).procs[j])
  {
    var p := Next(s, e).procs[j];
    if p.stage.Working? && p.node.Some? {
      if j < |s.procs| && s.procs[j] == p {
        KeptInputs(g, s, e, p);
      } else {
        StartedInputs(g, s, e, j);
      }
    }
  }

  lemma KeptInputs(g: Plan, s: State, e: Event, p: Proc)
    requires PlanOk(g) && Inv(g, s) && Enabled(s, e) && InputsOk(g, s.store, p)
    ensures InputsOk(g, Next(s, e).store, p)
  {
    forall d ensures KeysAdvance(KeysOf(s.store, d), KeysOf(Next(s, e).store, d)) {
      EventAdvances(g, s, e, d);
    }
    ResultsStay(g, s.store, Next(s, e).store, p);
  }

  lemma ResultsStay(g: Plan, st: Store, st': Store, p: Proc)
    requires InputsOk(g, st, p) && forall d :: KeysAdvance(KeysOf(st, d), KeysOf(st', d))
    ensures InputsOk(g, st', p)
  {
    if p.stage.Working? && p.node.Some? {
      forall d | d in g.Deps(p.node.value) ensures p.stage.inputs[d] == st'.Result(d) {
        assert KeysAdvance(KeysOf(st, d), KeysOf(st', d));
      }
    }
  }

  lemma StartedInputs(g: Plan, s: State, e: Event, j: nat)
    requires PlanOk(g) && Inv(g, s) && Enabled(s, e) && j < |Next(s, e).procs|
    requires var p := Next(s, e).procs[j]; p.stage.Working? && p.node.Some? && !(j < |s.procs| && s.procs[j] == p)
    ensures InputsOk(g, Next(s, e).store, Next(s, e).procs[j])
  {
    var p := Next(s, e).procs[j];
    OnlyDeclaredInputs(g, s, e, j);
    forall d | d in g.Deps(p.node.value)
      ensures d in p.stage.inputs && p.stage.inputs[d].Some? && p.stage.inputs[d] == Next(s, e).store.Result(d)
    {
      EventAdvances(g, s, e, d);
      WorkingStarts(g, s, e, j, d);
    }
  }

  lemma OnlyDeclaredInputs(g: Plan, s: State, e: Event, j: nat)
    requires Inv(g, s) && Enabled(s, e) && j < |Next(s, e).procs|
    requires var p := Next(s, e).procs[j]; p.stage.Working? && p.node.Some? && !(j < |s.procs| && s.procs[j] == p)
    ensures var p := Next(s, e).procs[j]; forall d :: d in p.stage.inputs ==> d in g.Deps(p.node.value)
  {
    NextProc(s, e, j);
    WorkingFromGotNode(s.store, s.procs[j], e.choice);
    assert ProcOk(g, s.store, s.procs[j]);
  }

  lemma WorkingFromGotNode(st: Store, p: Proc, c: Choice)
    requires Act(st, p, c).Some? && Act(st, p, c).value.proc.stage.Working? && p.node.Some?
    ensures p.stage.GotNode? && Act(st, p, c).value.proc.node == p.node
    ensures Act(st, p, c).value.proc.stage.inputs.Keys == set d | d in p.stage.depIds
    ensures forall d :: d in p.stage.depIds ==>
      var inputs := Act(st, p, c).value.proc.stage.inputs; d in inputs && inputs[d] == st.Result(d)
  {
  }

  lemma ActKeepsNode(st: Store, p: Proc, c: Choice)
    requires Act(st, p, c).Some?
    ensures Act(st, p, c).value.proc.node == p.node
    ensures forall q :: q in Act(st, p, c).value.spawned ==> q.stage.Waiting?
  {
  }

  // Where a process of the next state comes from.
  lemma NextProc(s: State, e: Event, j: nat)
    requires Enabled(s, e) && j < |Next(s, e).procs|
    ensures var q := Next(s, e).procs[j];
      || q.stage.Waiting?
      || (j < |s.procs| && s.procs[j] == q)
      || (e.Step? && e.i == j && j < |s.procs| && Act(s.store, s.procs[j], e.choice).Some?
          && q == Act(s.store, s.procs[j], e.choice).value.proc && q.node == s.procs[j].node)
  {
    if e.Step? {
      ActKeepsNode(s.store, s.procs[e.i], e.choice);
      if j >= |s.procs| {
        assert Next(s, e).procs[j] in Act(s.store, s.procs[e.i], e.choice).value.spawned;
      }
    }
  }

  // A process enters Working by reading the stored results of its declared dependencies.
  lemma WorkingStarts(g: Plan, s: State, e: Event, j: nat, d: Id)
    requires PlanOk(g) && Inv(g, s) && Enabled(s, e) && j < |Next(s, e).procs|
    requires var p := Next(s, e).procs[j];
      p.stage.Working? && p.node.Some? && d in g.Deps(p.node.value) && !(j < |s.procs| && s.procs[j] == p)
    ensures var p := Next(s, e).procs[j];
      d in p.stage.inputs && p.stage.inputs[d] == s.store.Result(d) && s.store.Result(d).Some?
  {
    NextProc(s, e, j);
    WorkingFromGotNode(s.store, s.procs[j], e.choice);
    assert ProcOk(g, s.store, s.procs[j]);
    var n := s.procs[j].node.value;
    OwnJob(g, s, j, n);
    var i := DependencyDone(g, s, n, d);
  }

  lemma {:induction false} TraceKeepsInputs(g: Plan, s: State, events: seq<Event>, t: State)
    requires PlanOk(g) && Inv(g, s) && Trace(s, events, t)
    requires forall i :: 0 <= i < |s.procs| ==> InputsOk(g, s.store, s.procs[i])
    ensures forall i :: 0 <= i < |t.procs| ==> InputsOk(g, t.store, t.procs[i])
    decreases |events|
  {
    if events != [] {
      var s' := Next(s, events[0]);
      forall j | 0 <= j < |s'.procs| ensures InputsOk(g, s'.store, s'.procs[j]) {
        InputsStep(g, s, events[0], j);
      }
      EventKeepsInv(g, s, events[0]);
      TraceKeepsInputs(g, s', events[1..], t);
    }
  }

  lemma ReachableInputs(nodes: seq<DagNode>, s: State)
    requires WellFormed(nodes) && Reachable(nodes, s)
    ensures forall i :: 0 <= i < |s.procs| ==> InputsOk(PlanOf(nodes), s.store, s.procs[i])
  {
    PlanOfOk(nodes);
    InitInv(nodes);
    var events :| Trace(Init(nodes), events, s);
    TraceKeepsInputs(PlanOf(nodes), Init(nodes), events, s);
  }

  /** A job at work on node n was handed, for every declared dependency, exactly the result that
      dependency's job returned; never null, on every attempt. */
  lemma InputsAreRecordedResults(nodes: seq<DagNode>, s: State, i: nat, n: Id, d: Id)
    requires WellFormed(nodes) && Reachable(nodes, s)
    requires i < |s.procs| && s.procs[i].node == Some(n) && s.procs[i].stage.Working? && d in DepsOf(nodes, n)
    ensures d in s.procs[i].stage.inputs && s.procs[i].stage.inputs[d].Some?
    ensures s.procs[i].stage.inputs[d] == s.store.Result(d)
    ensures exists j :: 0 <= j < |s.procs| && s.procs[j].node == Some(d) && s.procs[j].outcome == s.store.Result(d)
  {
    ReachableInv(nodes, s);
    ReachableInputs(nodes, s);
    var g := PlanOf(nodes);
    OwnJob(g, s, i, n);
    assert InputsOk(g, s.store, s.procs[i]);
    var j := DependencyDone(g, s, n, d);
  }
}
