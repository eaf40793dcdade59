/** What clients read while the DAG runs: the multi-key report of findDag
    (apps/api/src/workflows/workflows.service.ts) and the editor's polling stop test
    (apps/web/src/lib/useDagStatus.ts). */
module DagSnapshot {
  import opened Wrappers
  import opened Graphs
  import opened TaskGraph
  import opened DagStore
  import opened DagProtocol
  import opened DagCounting
  import opened DagInvariant
  import opened DagSafety
  import opened DagProgress
  import opened DagConfluence

  /* ---- findDag ---- */

  datatype NodeReport = NodeReport(
    id: Id, dependsOn: seq<Id>, jobId: Option<JobId>, status: Status, result: Option<Json>, failedReason: Option<string>)

  /** One node of the report; statuses, job ids, results and failures are read one after the
      other, so each comes from its own moment, and other processes move in between. */
  function Report(atStatuses: Store, atJobIds: Store, atResults: Store, atFailures: Store, atNodes: Store, n: Id): NodeReport {
    NodeReport(n, atNodes.DeclaredDeps(n), KeysOf(atJobIds, n).jobId,
      match KeysOf(atStatuses, n).status case Some(status) => status case None => Pending,
      KeysOf(atResults, n).result, KeysOf(atFailures, n).failure)
  }

  // A node whose keys are gone is reported pending, without dependencies, job, result or reason.
  lemma ReportOfMissing(st: Store, n: Id)
    requires n !in st.status && n !in st.nodes && n !in st.jobIds && n !in st.results && n !in st.failures
    ensures Report(st, st, st, st, st, n) == NodeReport(n, [], None, Pending, None, None)
  {
  }

  lemma Settled(nodes: seq<DagNode>, s: State, t: State, n: Id)
    requires WellFormed(nodes) && Reachable(nodes, s) && Leads(s, t)
    ensures Reachable(nodes, t) && KeysSettled(KeysOf(s.store, n), KeysOf(t.store, n))
  {
    ReachableInv(nodes, s);
    var events :| Trace(s, events, t);
    TraceSettles(PlanOf(nodes), s, events, t, n);
    LeadsTrans(Init(nodes), s, t);
  }

  lemma ClaimantKeys(g: Plan, s: State, i: nat, n: Id)
    requires Inv(g, s) && i < |s.procs| && Claims(s.procs[i], n) > 0
    ensures n in g.ids
    ensures if s.procs[i].node == Some(n) then OwnKeys(s.procs[i], KeysOf(s.store, n))
            else KeysOf(s.store, n) == HeldKeys(s.procs[i].stage, n)
  {
    SoleClaim(g, s, i, n);
    assert ProcOk(g, s.store, s.procs[i]);
    if s.procs[i].node != Some(n) {
      assert n in Held(s.procs[i].stage);
    }
  }

  // Where the keys of a node stand: untouched, held by an enqueuer, or owned by a job.
  ghost predicate KeysCase(s: State, n: Id) {
    var k := KeysOf(s.store, n);
    || (k.status == Some(Pending) && k.failure.None?)
    || (k.status == Some(Ready) && k.failure.None?)
    || exists i :: 0 <= i < |s.procs| && s.procs[i].node == Some(n) && OwnKeysFacts(s.procs[i], k)
  }

  predicate OwnKeysFacts(p: Proc, k: NodeKeys) {
    && k.status.Some? && k.jobId == Some(p.id)
    && (k.status == Some(Completed) ==> k.result.Some?)
    && (k.failure.Some? ==> k.status == Some(Failed))
  }

  lemma OwnKeysSay(p: Proc, k: NodeKeys)
    requires OwnKeys(p, k) && (InHandler(p.stage) ==> p.outcome.Some?)
    ensures OwnKeysFacts(p, k)
  {
  }

  lemma ClaimantCase(g: Plan, s: State, i: nat, n: Id)
    requires Inv(g, s) && i < |s.procs| && Claims(s.procs[i], n) > 0
    ensures KeysCase(s, n)
  {
    ClaimantKeys(g, s, i, n);
    assert ProcOk(g, s.store, s.procs[i]);
    if s.procs[i].node == Some(n) {
      OwnKeysSay(s.procs[i], KeysOf(s.store, n));
    } else {
      assert HeldKeys(s.procs[i].stage, n).status != None;
    }
  }

  lemma KeysCases(nodes: seq<DagNode>, s: State, n: Id)
    requires WellFormed(nodes) && Reachable(nodes, s) && n in IdsOf(nodes)
    ensures KeysCase(s, n)
  {
    ReachableInv(nodes, s);
    assert ClaimOk(s, n);
    if s.store.Counter(n) == 0 {
      var i := ClaimedBySomeone(s.procs, n);
      ClaimantCase(PlanOf(nodes), s, i, n);
    }
  }

  // A node beyond pending and ready has a job, recorded under that job's id.
  ghost predicate JobRecorded(s: State, n: Id, jobId: Option<JobId>) {
    exists i :: 0 <= i < |s.procs| && s.procs[i].node == Some(n) && jobId == Some(s.procs[i].id)
  }

  lemma StartedHasJob(nodes: seq<DagNode>, s: State, n: Id)
    requires WellFormed(nodes) && Reachable(nodes, s) && n in IdsOf(nodes)
    ensures var k := KeysOf(s.store, n);
      && k.status.Some?
      && (k.status != Some(Pending) && k.status != Some(Ready) ==> JobRecorded(s, n, k.jobId))
      && (k.status == Some(Completed) ==> k.result.Some?)
      && (k.failure.Some? ==> k.status == Some(Failed))
  {
    KeysCases(nodes, s, n);
  }

  /** The report shows the node's status at the first read, and what was stored for it at the later
      ones. It is consistent although it is not atomic: whatever runs in between, a node
      reported completed comes with its result, and one reported active, completed or failed comes
      with the id of its job. A failure reason is only reported for a node that has failed. */
  lemma ReportIsConsistent(nodes: seq<DagNode>, s0: State, s1: State, s2: State, s3: State, s4: State, n: Id)
    requires WellFormed(nodes) && Reachable(nodes, s0) && n in IdsOf(nodes)
    requires Leads(s0, s1) && Leads(s1, s2) && Leads(s2, s3) && Leads(s3, s4)
    ensures var r := Report(s0.store, s1.store, s2.store, s3.store, s4.store, n);
      && r.id == n && r.dependsOn == DepsOf(nodes, n)
      && KeysOf(s0.store, n).status == Some(r.status)
      && r.jobId == KeysOf(s1.store, n).jobId
      && r.result == s2.store.Result(n)
      && r.failedReason == KeysOf(s3.store, n).failure
      && (r.status == Completed ==> r.result.Some? && r.result == s0.store.Result(n))
      && (r.status == Active || r.status == Completed || r.status == Failed ==>
            JobRecorded(s0, n, r.jobId))
      && (r.failedReason.Some? ==> KeysOf(s3.store, n).status == Some(Failed))
  {
    Settled(nodes, s0, s1, n);
    Settled(nodes, s1, s2, n);
    Settled(nodes, s2, s3, n);
    Settled(nodes, s3, s4, n);
    StartedHasJob(nodes, s0, n);
    StartedHasJob(nodes, s3, n);
    DeclaredDepsKept(nodes, s4, n);
  }

  // The listener of n's job has published `failed` and not yet the reason.
  ghost predicate ReasonUnwritten(s: State, n: Id) {
    exists i :: 0 <= i < |s.procs| && s.procs[i].node == Some(n) && s.procs[i].stage.MarkedFailed?
  }

  lemma FailedKeys(g: Plan, s: State, i: nat, n: Id)
    requires Inv(g, s) && i < |s.procs| && Claims(s.procs[i], n) > 0 && KeysOf(s.store, n).status == Some(Failed)
    ensures s.procs[i].node == Some(n) && (s.procs[i].stage.MarkedFailed? || s.procs[i].stage.FailedDone?)
    ensures KeysOf(s.store, n).failure.None? <==> s.procs[i].stage.MarkedFailed?
  {
    ClaimantKeys(g, s, i, n);
  }

  lemma ReasonMissing(g: Plan, s: State, n: Id)
    requires Inv(g, s) && n in g.ids && KeysOf(s.store, n).status == Some(Failed)
    ensures KeysOf(s.store, n).failure.None? <==> ReasonUnwritten(s, n)
  {
    assert ClaimOk(s, n);
    var i := ClaimedBySomeone(s.procs, n);
    FailedKeys(g, s, i, n);
    if j :| 0 <= j < |s.procs| && s.procs[j].node == Some(n) && s.procs[j].stage.MarkedFailed? {
      FailedKeys(g, s, j, n);
    }
  }

  /** A node reported failed lacks its reason exactly when the failures are read between the two
      writes of its listener; so a crash there loses the reason for good. */
  lemma ReasonMissingExactlyWhen(nodes: seq<DagNode>, s0: State, s1: State, s2: State, s3: State, s4: State, n: Id)
    requires WellFormed(nodes) && Reachable(nodes, s0) && n in IdsOf(nodes)
    requires Leads(s0, s1) && Leads(s1, s2) && Leads(s2, s3) && Leads(s3, s4)
    ensures var r := Report(s0.store, s1.store, s2.store, s3.store, s4.store, n);
      r.status == Failed ==> (r.failedReason.None? <==> ReasonUnwritten(s3, n))
  {
    Settled(nodes, s0, s1, n);
    Settled(nodes, s1, s2, n);
    Settled(nodes, s2, s3, n);
    ReachableInv(nodes, s3);
    if KeysOf(s3.store, n).status == Some(Failed) {
      ReasonMissing(PlanOf(nodes), s3, n);
    }
  }

  lemma QuietReasons(g: Plan, s: State, n: Id)
    requires Inv(g, s) && n in g.ids && Quiet(s) && KeysOf(s.store, n).status == Some(Failed)
    ensures KeysOf(s.store, n).failure.Some?
  {
    ReasonMissing(g, s, n);
    if i :| 0 <= i < |s.procs| && s.procs[i].node == Some(n) && s.procs[i].stage.MarkedFailed? {
      assert Finished(s.procs[i]);
    }
  }

  /** Once a run is over, the report of every node is its fate: completed with a result, failed
      with a reason, or pending with neither. */
  lemma FinalReport(nodes: seq<DagNode>, F: set<Id>, s: State, n: Id)
    requires IsDag(nodes) && FLeads(F, Init(nodes), s) && Quiet(s) && n in IdsOf(nodes)
    ensures var r := Report(s.store, s.store, s.store, s.store, s.store, n);
      && r.id == n && r.dependsOn == DepsOf(nodes, n)
      && r.status == Fate(EdgesOf(nodes), F, n)
      && (r.result.Some? <==> r.status == Completed)
      && (r.failedReason.Some? <==> r.status == Failed)
      && (r.jobId.Some? <==> r.status != Pending)
  {
    FinalOutcome(nodes, F, s, n);
    FReachableState(nodes, F, s);
    ReachableInv(nodes, s);
    DeclaredDepsKept(nodes, s, n);
    StartedHasJob(nodes, s, n);
    if KeysOf(s.store, n).status == Some(Failed) {
      QuietReasons(PlanOf(nodes), s, n);
    }
    if KeysOf(s.store, n).status == Some(Pending) {
      PendingHasNothing(PlanOf(nodes), s, n);
    }
  }

  lemma FReachableState(nodes: seq<DagNode>, F: set<Id>, s: State)
    requires FLeads(F, Init(nodes), s)
    ensures Reachable(nodes, s)
  {
    var events :| FTrace(F, Init(nodes), events, s);
    FTraceIsTrace(F, Init(nodes), events, s);
  }

  lemma PendingHasNothing(g: Plan, s: State, n: Id)
    requires Inv(g, s) && Quiet(s) && n in g.ids && KeysOf(s.store, n).status == Some(Pending)
    ensures KeysOf(s.store, n) == UNTOUCHED
  {
    assert ClaimOk(s, n);
    if s.store.Counter(n) == 0 {
      var i := QuietClaim(g, s, n);
      OwnJob(g, s, i, n);
    }
  }

  lemma DeclaredDepsKept(nodes: seq<DagNode>, s: State, n: Id)
    requires WellFormed(nodes) && Reachable(nodes, s) && n in IdsOf(nodes)
    ensures s.store.DeclaredDeps(n) == DepsOf(nodes, n)
  {
    ReachableInv(nodes, s);
  }

  lemma ReachableStep(nodes: seq<DagNode>, s: State, e: Event)
    requires Reachable(nodes, s) && Enabled(s, e)
    ensures Reachable(nodes, Next(s, e))
  {
    StepLeads(s, e);
    LeadsTrans(Init(nodes), s, Next(s, e));
  }

  // Process i takes one plain step; says what the new process list is.
  lemma Walk(nodes: seq<DagNode>, s: State, i: nat, c: Choice) returns (t: State)
    requires Reachable(nodes, s) && i < |s.procs| && Act(s.store, s.procs[i], c).Some?
    ensures var f := Act(s.store, s.procs[i], c).value;
      t == State(f.store, s.procs[i := f.proc] + f.spawned, s.dlq + f.letters)
    ensures t == Next(s, Step(i, c)) && Reachable(nodes, t)
  {
    ReachableStep(nodes, s, Step(i, c));
    t := Next(s, Step(i, c));
  }

  // The root of a one- or two-node graph, enqueued by the API and started by a worker.
  lemma RootStarted(nodes: seq<DagNode>, a: Id) returns (s: State)
    requires WellFormed(nodes) && RootIds(nodes) == [a]
    ensures Reachable(nodes, s) && |s.procs| == 2
    ensures s.procs[1] == Proc("j", Some(a), 0, None, Running)
    ensures s.store == Persisted(nodes).SetJobId(a, "j")
  {
    s := Init(nodes);
    assert Trace(s, [], s);
    s := Walk(nodes, s, 0, Fresh("j"));
    s := Walk(nodes, s, 0, Go);
    s := Walk(nodes, s, 1, Go);
  }

  lemma FailsOnce(nodes: seq<DagNode>, s: State, a: Id) returns (t: State)
    requires Reachable(nodes, s) && |s.procs| == 2 && s.procs[1].node == Some(a)
    requires s.procs[1].stage.Running? && s.procs[1].made < 2
    ensures Reachable(nodes, t) && |t.procs| == 2 && t.store == s.store
    ensures t.procs[1] == s.procs[1].(made := s.procs[1].made + 1)
  {
    t := Walk(nodes, s, 1, Fail("boom"));
    t := Walk(nodes, t, 1, Go);
  }

  lemma Exhausts(nodes: seq<DagNode>, s: State, a: Id) returns (t: State)
    requires Reachable(nodes, s) && |s.procs| == 2 && s.procs[1].node == Some(a)
    requires s.procs[1].stage.Running? && s.procs[1].made == 2
    ensures Reachable(nodes, t) && |t.procs| == 2 && t.store == s.store
    ensures t.procs[1] == s.procs[1].(made := 3, stage := Exhausted("boom"))
  {
    t := Walk(nodes, s, 1, Fail("boom"));
  }

  lemma FailsForGood(nodes: seq<DagNode>, s: State, a: Id) returns (t: State)
    requires Reachable(nodes, s) && |s.procs| == 2 && s.procs[1].node == Some(a)
    requires s.procs[1].stage.Running? && s.procs[1].made == 2
    ensures Reachable(nodes, t) && t.store == s.store.SetStatus(a, Failed)
  {
    t := Exhausts(nodes, s, a);
    t := Walk(nodes, t, 1, Go);
    t := Walk(nodes, t, 1, Go);
  }

  lemma OneNodeGraph(nodes: seq<DagNode>)
    requires nodes == [DagNode("a", [], "", "")]
    ensures WellFormed(nodes) && RootIds(nodes) == ["a"]
  {
    assert RootIds(nodes[1..]) == [];
  }

  /** `failed` is published before its reason: the report can show a failed node without one. */
  lemma FailedWithoutReason() returns (nodes: seq<DagNode>, s: State)
    ensures WellFormed(nodes) && Reachable(nodes, s)
    ensures var r := Report(s.store, s.store, s.store, s.store, s.store, nodes[0].id);
      r.status == Failed && r.failedReason == None
  {
    nodes := [DagNode("a", [], "", "")];
    OneNodeGraph(nodes);
    s := RootStarted(nodes, "a");
    s := FailsOnce(nodes, s, "a");
    s := FailsOnce(nodes, s, "a");
    s := FailsForGood(nodes, s, "a");
  }

  /* ---- isTerminal ---- */

  // The polling loop stops when no reported node is active or ready.
  ghost predicate IsTerminal(nodes: seq<DagNode>, s: State) {
    nodes != [] && forall n :: n in IdsOf(nodes) ==>
      KeysOf(s.store, n).status != Some(Active) && KeysOf(s.store, n).status != Some(Ready)
  }

  lemma QuietKeys(g: Plan, s: State, n: Id)
    requires Inv(g, s) && Quiet(s) && n in g.ids
    ensures KeysOf(s.store, n).status != Some(Active) && KeysOf(s.store, n).status != Some(Ready)
  {
    assert ClaimOk(s, n);
    if s.store.Counter(n) == 0 {
      var i := QuietClaim(g, s, n);
      OwnJob(g, s, i, n);
    }
  }

  /** The stop test does fire: once every process is finished it holds, failed nodes or not. */
  lemma QuietIsTerminal(nodes: seq<DagNode>, s: State)
    requires WellFormed(nodes) && Reachable(nodes, s) && Quiet(s)
    ensures IsTerminal(nodes, s)
  {
    ReachableInv(nodes, s);
    forall n | n in IdsOf(nodes)
      ensures KeysOf(s.store, n).status != Some(Active) && KeysOf(s.store, n).status != Some(Ready)
    {
      QuietKeys(PlanOf(nodes), s, n);
    }
  }

  /** From every state of every run, the run can be completed to a state where polling stops
      and every node has the status its failing set dictates. */
  lemma PollingStops(nodes: seq<DagNode>, F: set<Id>, s: State) returns (t: State)
    requires IsDag(nodes) && FLeads(F, Init(nodes), s)
    ensures FLeads(F, s, t) && IsTerminal(nodes, t)
    ensures forall n :: n in IdsOf(nodes) ==> KeysOf(t.store, n).status == Some(Fate(EdgesOf(nodes), F, n))
  {
    t := AlwaysCompletes(nodes, F, s);
    FReachableState(nodes, F, s);
    var events :| FTrace(F, s, events, t);
    FTraceIsTrace(F, s, events, t);
    LeadsTrans(Init(nodes), s, t);
    QuietIsTerminal(nodes, t);
  }

  // A pending node whose dependencies are all completed; visible in the same snapshot.
  ghost predicate IsDue(g: Plan, s: State, n: Id) {
    && n in g.ids && KeysOf(s.store, n).status == Some(Pending)
    && forall d :: d in g.Deps(n) ==> KeysOf(s.store, d).status == Some(Completed)
  }

  ghost predicate SameStatuses(g: Plan, s: State, t: State) {
    forall n :: n in g.ids ==> KeysOf(t.store, n).status == KeysOf(s.store, n).status
  }

  ghost predicate Idle(g: Plan, s: State) {
    && (forall n :: n in g.ids ==> KeysOf(s.store, n).status != Some(Active) && KeysOf(s.store, n).status != Some(Ready))
    && (forall n :: !IsDue(g, s, n))
  }

  lemma IdleNode(g: Plan, s: State, e: Event, n: Id)
    requires PlanOk(g) && Inv(g, s) && Enabled(s, e) && Idle(g, s) && n in g.ids
    ensures KeysOf(Next(s, e).store, n).status == KeysOf(s.store, n).status
  {
    var t := Next(s, e);
    EventAdvances(g, s, e, n);
    EventKeepsInv(g, s, e);
    if KeysOf(t.store, n).status != KeysOf(s.store, n).status {
      assert ClaimOk(t, n);
      forall d | d in g.Deps(n) ensures KeysOf(s.store, d).status == Some(Completed) {
        var i := DependencyDone(g, t, n, d);
        EventAdvances(g, s, e, d);
      }
      assert IsDue(g, s, n);
    }
  }

  lemma IdleStep(g: Plan, s: State, e: Event)
    requires PlanOk(g) && Inv(g, s) && Enabled(s, e) && Idle(g, s)
    ensures SameStatuses(g, s, Next(s, e)) && Idle(g, Next(s, e))
  {
    var s' := Next(s, e);
    forall n | n in g.ids ensures KeysOf(s'.store, n).status == KeysOf(s.store, n).status {
      IdleNode(g, s, e, n);
    }
    forall n ensures !IsDue(g, s', n) {
      assert IsDue(g, s', n) ==> IsDue(g, s, n);
    }
  }

  lemma {:induction false} IdleForever(g: Plan, s: State, events: seq<Event>, t: State)
    requires PlanOk(g) && Inv(g, s) && Trace(s, events, t) && Idle(g, s)
    ensures SameStatuses(g, s, t)
    decreases |events|
  {
    if events != [] {
      IdleStep(g, s, events[0]);
      EventKeepsInv(g, s, events[0]);
      IdleForever(g, Next(s, events[0]), events[1..], t);
    }
  }

  // Between its `completed` write and its last enqueue; the API's root loop counts likewise.
  predicate MidHandler(p: Proc) {
    || p.stage.MarkedCompleted? || p.stage.Decrementing? || p.stage.FetchingNode? || p.stage.MarkingReady?
    || (p.stage.Enqueueing? && p.stage.todo != []) || p.stage.Adding?
  }

  predicate NoneMidHandler(s: State) {
    forall i :: 0 <= i < |s.procs| ==> !MidHandler(s.procs[i])
  }

  lemma ShapeOf(nodes: seq<DagNode>, s: State, i: nat)
    requires WellFormed(nodes) && Reachable(nodes, s) && i < |s.procs|
    ensures ProcShape(PlanOf(nodes), s.store, s.procs[i])
  {
    ReachableInv(nodes, s);
    assert ProcOk(PlanOf(nodes), s.store, s.procs[i]);
  }

  lemma MidShape(g: Plan, st: Store, p: Proc)
    requires ProcShape(g, st, p) && MidHandler(p)
    ensures p.node.Some? ==> KeysOf(st, p.node.value).status == Some(Completed)
    ensures p.node.None? ==> Held(p.stage) != []
  {
  }

  /** That window is what its name says: a job in it has its node completed and is not finished;
      the API's loop in it still owes an enqueue. */
  lemma MidHandlerMeans(nodes: seq<DagNode>, s: State, i: nat)
    requires WellFormed(nodes) && Reachable(nodes, s) && i < |s.procs| && MidHandler(s.procs[i])
    ensures s.procs[i].node.Some? ==> KeysOf(s.store, s.procs[i].node.value).status == Some(Completed)
    ensures s.procs[i].node.None? ==> Held(s.procs[i].stage) != []
    ensures !Finished(s.procs[i])
  {
    ShapeOf(nodes, s, i);
    MidShape(PlanOf(nodes), s.store, s.procs[i]);
  }

  // A node whose dependencies are all completed has fired.
  lemma SettledDueFired(g: Plan, s: State, n: Id)
    requires PlanOk(g) && Inv(g, s) && NoneMidHandler(s) && n in g.ids
    requires forall d :: d in g.Deps(n) ==> KeysOf(s.store, d).status == Some(Completed)
    ensures s.store.Counter(n) == 0
  {
    CounterMeaning(g, s, n);
    forall d | d in g.Deps(n) ensures JobsFor(s.procs, d) == 1 {
      DueDependency(g, s, d);
    }
    forall i | 0 <= i < |s.procs| ensures n !in Left(g, s.procs[i]) {
      DueOwed(g, s, i, n);
    }
  }

  // Outside the window, a claim is a job.
  lemma ClaimIsJob(s: State, n: Id) returns (i: nat)
    requires NoneMidHandler(s) && ClaimsOn(s.procs, n) > 0
    ensures i < |s.procs| && s.procs[i].node == Some(n)
  {
    i := ClaimedBySomeone(s.procs, n);
    assert !MidHandler(s.procs[i]);
    assert Held(s.procs[i].stage) == [];
  }

  lemma SettledHasNoDue(g: Plan, s: State, n: Id)
    requires PlanOk(g) && Inv(g, s) && NoneMidHandler(s)
    ensures !IsDue(g, s, n)
  {
    if IsDue(g, s, n) {
      SettledDueFired(g, s, n);
      assert ClaimOk(s, n);
      var i := ClaimIsJob(s, n);
      OwnJob(g, s, i, n);
    }
  }

  lemma DueDependency(g: Plan, s: State, d: Id)
    requires Inv(g, s) && NoneMidHandler(s) && d in g.ids && KeysOf(s.store, d).status == Some(Completed)
    ensures JobsFor(s.procs, d) == 1
  {
    assert ClaimOk(s, d);
    var i := ClaimIsJob(s, d);
    JobsAreClaims(s.procs, d);
    JobCounted(s.procs, i, d);
  }

  lemma DueOwed(g: Plan, s: State, i: nat, n: Id)
    requires PlanOk(g) && Inv(g, s) && NoneMidHandler(s) && i < |s.procs|
    requires forall d :: d in g.Deps(n) ==> KeysOf(s.store, d).status == Some(Completed)
    ensures n !in Left(g, s.procs[i])
  {
    var p := s.procs[i];
    assert !MidHandler(p);
    if p.node.Some? {
      var d := p.node.value;
      OwnJob(g, s, i, d);
      SettledLeft(g, p, KeysOf(s.store, d));
      assert multiset(g.Dependents(d))[n] == multiset(g.Deps(n))[d];
    }
  }

  lemma SettledLeft(g: Plan, p: Proc, k: NodeKeys)
    requires !MidHandler(p) && p.node.Some? && OwnKeys(p, k)
    ensures Left(g, p) == if k.status == Some(Completed) then [] else g.Dependents(p.node.value)
  {
  }

  lemma QuietIsSettled(s: State)
    requires Quiet(s)
    ensures NoneMidHandler(s)
  {
    forall i | 0 <= i < |s.procs| ensures !MidHandler(s.procs[i]) {
      assert Finished(s.procs[i]);
    }
  }

  lemma {:induction false} DueMovesOn(g: Plan, order: seq<Id>, s: State, n: Id) returns (t: State)
    requires PlanOk(g) && Inv(g, s) && Lists(g, order) && IsDue(g, s, n)
    ensures Leads(s, t) && !SameStatuses(g, s, t)
    decreases Work(g, order, s)
  {
    assert !Quiet(s) by {
      if Quiet(s) {
        QuietIsSettled(s);
        SettledHasNoDue(g, s, n);
      }
    }
    var e := NoDeadlock(g, {}, s);
    var s' := Next(s, e);
    StepLeads(s, e);
    if !SameStatuses(g, s, s') {
      t := s';
    } else {
      EventKeepsInv(g, s, e);
      StepLowersWork(g, order, s, e.i, e.choice);
      RankIsNatural(g, s.store, s.procs);
      RankIsNatural(g, s'.store, s'.procs);
      t := DueMovesOn(g, order, s', n);
      LeadsTrans(s, s', t);
    }
  }

  /** When the polling loop stops, the statuses are final if and only if no pending node has all
      its dependencies completed: a test the same snapshot already allows. */
  lemma TerminalIsFinalExactlyWhen(nodes: seq<DagNode>, s: State)
    requires WellFormed(nodes) && Reachable(nodes, s) && IsTerminal(nodes, s)
    ensures (forall t :: Leads(s, t) ==> SameStatuses(PlanOf(nodes), s, t))
      <==> !exists n :: IsDue(PlanOf(nodes), s, n)
  {
    var g := PlanOf(nodes);
    ReachableInv(nodes, s);
    if n :| IsDue(g, s, n) {
      IdListLists(nodes);
      var t := DueMovesOn(g, IdList(nodes), s, n);
    } else {
      forall t | Leads(s, t) ensures SameStatuses(g, s, t) {
        var events :| Trace(s, events, t);
        IdleForever(g, s, events, t);
      }
    }
  }

  /** In terms of the processes: outside the window between a handler's `completed` write and its
      last enqueue, the stop test is sound. */
  lemma TerminalOutsideHandlers(nodes: seq<DagNode>, s: State, t: State)
    requires WellFormed(nodes) && Reachable(nodes, s) && IsTerminal(nodes, s) && NoneMidHandler(s) && Leads(s, t)
    ensures SameStatuses(PlanOf(nodes), s, t)
  {
    var g := PlanOf(nodes);
    ReachableInv(nodes, s);
    forall n ensures !IsDue(g, s, n) {
      SettledHasNoDue(g, s, n);
    }
    TerminalIsFinalExactlyWhen(nodes, s);
  }

  lemma NodeStarts(nodes: seq<DagNode>, s: State, a: Id) returns (t: State)
    requires Reachable(nodes, s) && |s.procs| == 2 && s.procs[1] == Proc("j", Some(a), 0, None, Running)
    requires s.store.DeclaredDeps(a) == []
    ensures Reachable(nodes, t) && |t.procs| == 2 && t.store == s.store.SetStatus(a, Active)
    ensures t.procs[1] == Proc("j", Some(a), 0, None, Working(map[]))
  {
    t := Walk(nodes, s, 1, Go);
    t := Walk(nodes, t, 1, Go);
    t := Walk(nodes, t, 1, Go);
  }

  lemma NodeCompletes(nodes: seq<DagNode>, s: State, a: Id) returns (t: State)
    requires Reachable(nodes, s) && |s.procs| == 2
    requires s.procs[1] == Proc("j", Some(a), 0, None, Working(map[]))
    ensures Reachable(nodes, t)
    ensures t.store == s.store.SetResult(a, "1").SetStatus(a, Completed)
  {
    t := Walk(nodes, s, 1, Succeed("1"));
    t := Walk(nodes, t, 1, Go);
    t := Walk(nodes, t, 1, Go);
  }

  lemma TwoNodeGraph(nodes: seq<DagNode>)
    requires nodes == [DagNode("a", [], "", ""), DagNode("b", ["a"], "", "")]
    ensures WellFormed(nodes) && RootIds(nodes) == ["a"] && IdsOf(nodes) == {"a", "b"}
    ensures DepsOf(nodes, "a") == [] && DepsOf(nodes, "b") == ["a"]
  {
    assert nodes[0] in nodes && nodes[1] in nodes;
    assert nodes[1..] == [nodes[1]] && nodes[1..][1..] == [];
    assert RootIds(nodes[1..]) == [] + RootIds([]);
    DepsOfAt(nodes, 0);
    DepsOfAt(nodes, 1);
  }

  /** The stop test fires too early: here the loop stops while the second node is still to run. */
  lemma TerminalTooEarly() returns (nodes: seq<DagNode>, s: State)
    ensures WellFormed(nodes) && Reachable(nodes, s) && IsTerminal(nodes, s)
    ensures exists t :: Leads(s, t) && !SameStatuses(PlanOf(nodes), s, t)
  {
    nodes := [DagNode("a", [], "", ""), DagNode("b", ["a"], "", "")];
    TwoNodeGraph(nodes);
    s := RootStarted(nodes, "a");
    DeclaredDepsKept(nodes, s, "a");
    s := NodeStarts(nodes, s, "a");
    s := NodeCompletes(nodes, s, "a");
    assert KeysOf(s.store, "a").status == Some(Completed);
    assert KeysOf(s.store, "b").status == Some(Pending);
    assert IsDue(PlanOf(nodes), s, "b");
    TerminalIsFinalExactlyWhen(nodes, s);
  }
}
