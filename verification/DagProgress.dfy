/** Progress of the DAG runtime when nobody crashes: bounded runs, no deadlock, and one
    possible final outcome per set of failing nodes. */
module DagProgress {
  import opened Wrappers
  import opened Graphs
  import opened TaskGraph
  import opened DagStore
  import opened DagProtocol
  import opened DagCounting
  import opened DagInvariant
  import opened DagSafety

  /* ---- Every run is bounded ---- */

  // Commands p may still need after its attempt succeeds.
  function AfterSuccess(g: Plan, node: Option<Id>): nat {
    8 + match node case Some(n) => 7 * |g.Dependents(n)| case None => 0
  }

  // An upper bound on the commands left in a process.
  function Rank(g: Plan, p: Proc): int {
    var attempts := AfterSuccess(g, p.node) + 6 * (MAX_ATTEMPTS - p.made);
    match p.stage
    case Waiting => attempts
    case Running => attempts - 1
    case MarkedActive => attempts - 2
    case GotNode(_) => attempts - 3
    case Working(_) => attempts - 4
    case Succeeded => AfterSuccess(g, p.node)
    case StoredResult => AfterSuccess(g, p.node) - 1
    case MarkedCompleted => AfterSuccess(g, p.node) - 2
    case Decrementing(left, ready) => 7 * |left| + 2 * |ready| + 3
    case FetchingNode(_, left, ready) => 7 * |left| + 2 * |ready| + 9
    case MarkingReady(_, left, ready) => 7 * |left| + 2 * |ready| + 8
    case Enqueueing(todo) => 2 * |todo| + 1
    case Adding(todo, _) => 2 * |todo|
    case Exhausted(_) => 4
    case DeadLettered(_) => 3
    case MarkedFailed(_) => 2
    case Done | FailedDone(_) => 0
  }

  function JobCost(g: Plan, node: Option<Id>): nat {
    AfterSuccess(g, node) + 6 * MAX_ATTEMPTS
  }

  function RankOn(g: Plan, procs: seq<Proc>): int {
    if procs == [] then 0 else RankOn(g, procs[..|procs| - 1]) + Rank(g, procs[|procs| - 1])
  }

  // The cost of the jobs of `order` that do not exist yet.
  function Unspawned(g: Plan, order: seq<Id>, procs: seq<Proc>): nat {
    if order == [] then 0
    else (if JobsFor(procs, order[0]) > 0 then 0 else JobCost(g, Some(order[0]))) + Unspawned(g, order[1..], procs)
  }

  // order lists (at least) every node.
  function Work(g: Plan, order: seq<Id>, s: State): int {
    RankOn(g, s.procs) + Unspawned(g, order, s.procs)
  }

  lemma {:induction false} RankUpdate(g: Plan, procs: seq<Proc>, i: nat, q: Proc)
    requires i < |procs|
    ensures RankOn(g, procs[i := q]) == RankOn(g, procs) - Rank(g, procs[i]) + Rank(g, q)
  {
    var last := |procs| - 1;
    if i == last {
      assert procs[i := q][..last] == procs[..last];
    } else {
      assert procs[i := q][..last] == procs[..last][i := q];
      RankUpdate(g, procs[..last], i, q);
    }
  }

  lemma RankAppend(g: Plan, procs: seq<Proc>, q: Proc)
    ensures RankOn(g, procs + [q]) == RankOn(g, procs) + Rank(g, q)
  {
    assert (procs + [q])[..|procs|] == procs;
  }

  lemma {:induction false} JobsUpdate(procs: seq<Proc>, i: nat, q: Proc, n: Id)
    requires i < |procs| && q.node == procs[i].node
    ensures JobsFor(procs[i := q], n) == JobsFor(procs, n)
  {
    var last := |procs| - 1;
    if i == last {
      assert procs[i := q][..last] == procs[..last];
    } else {
      assert procs[i := q][..last] == procs[..last][i := q];
      JobsUpdate(procs[..last], i, q, n);
    }
  }

  lemma JobsAppend(procs: seq<Proc>, q: Proc, n: Id)
    ensures JobsFor(procs + [q], n) == JobsFor(procs, n) + if q.node == Some(n) then 1 else 0
  {
    assert (procs + [q])[..|procs|] == procs;
  }

  lemma {:induction false} UnspawnedSame(g: Plan, order: seq<Id>, procs: seq<Proc>, procs': seq<Proc>)
    requires forall n :: JobsFor(procs', n) >= JobsFor(procs, n)
    ensures Unspawned(g, order, procs') <= Unspawned(g, order, procs)
  {
    if order != [] { UnspawnedSame(g, order[1..], procs, procs'); }
  }

  lemma {:induction false} UnspawnedDrops(g: Plan, order: seq<Id>, procs: seq<Proc>, procs': seq<Proc>, n: Id)
    requires forall m :: JobsFor(procs', m) >= JobsFor(procs, m)
    requires n in order && JobsFor(procs, n) == 0 && JobsFor(procs', n) > 0
    ensures Unspawned(g, order, procs') + JobCost(g, Some(n)) <= Unspawned(g, order, procs)
  {
    if order[0] == n {
      UnspawnedSame(g, order[1..], procs, procs');
    } else {
      UnspawnedDrops(g, order[1..], procs, procs', n);
    }
  }

  lemma JobStepRank(g: Plan, st: Store, p: Proc, c: Choice)
    requires ProcOk(g, st, p) && JobStep(st, p, c).Some?
    ensures Rank(g, JobStep(st, p, c).value.proc) < Rank(g, p)
  {
  }

  lemma FailureStepRank(g: Plan, st: Store, p: Proc, c: Choice)
    requires FailureStep(st, p, c).Some?
    ensures Rank(g, FailureStep(st, p, c).value.proc) < Rank(g, p)
  {
  }

  lemma LoopStepRank(g: Plan, st: Store, p: Proc, c: Choice)
    requires HandlerStep(st, p, c).Some?
    requires p.stage.Decrementing? || p.stage.FetchingNode? || p.stage.MarkingReady?
    ensures Rank(g, HandlerStep(st, p, c).value.proc) < Rank(g, p)
  {
  }

  lemma HandlerStepRank(g: Plan, st: Store, p: Proc, c: Choice)
    requires Fixed(g, st) && ProcOk(g, st, p) && HandlerStep(st, p, c).Some?
    ensures Rank(g, HandlerStep(st, p, c).value.proc) < Rank(g, p)
  {
    if p.stage.Decrementing? || p.stage.FetchingNode? || p.stage.MarkingReady? {
      LoopStepRank(g, st, p, c);
    } else {
      OtherStepRank(g, st, p, c);
    }
  }

  lemma OtherStepRank(g: Plan, st: Store, p: Proc, c: Choice)
    requires Fixed(g, st) && ProcOk(g, st, p) && HandlerStep(st, p, c).Some?
    requires !(p.stage.Decrementing? || p.stage.FetchingNode? || p.stage.MarkingReady?)
    ensures Rank(g, HandlerStep(st, p, c).value.proc) < Rank(g, p)
  {
  }

  lemma ActRank(g: Plan, st: Store, p: Proc, c: Choice)
    requires Fixed(g, st) && ProcOk(g, st, p) && Act(st, p, c).Some?
    ensures Rank(g, Act(st, p, c).value.proc) < Rank(g, p)
  {
    match p.stage
    case Waiting | Running | MarkedActive | GotNode(_) | Working(_) => JobStepRank(g, st, p, c);
    case Exhausted(_) | DeadLettered(_) | MarkedFailed(_) => FailureStepRank(g, st, p, c);
    case _ => HandlerStepRank(g, st, p, c);
  }

  lemma ActSpawns(st: Store, p: Proc, c: Choice)
    requires Act(st, p, c).Some?
    ensures Act(st, p, c).value.spawned == if p.stage.Adding? && p.stage.todo != [] then [AddedJob(p)] else []
  {
  }

  lemma {:induction false} RankIsNatural(g: Plan, st: Store, procs: seq<Proc>)
    requires forall i :: 0 <= i < |procs| ==> ProcOk(g, st, procs[i])
    ensures RankOn(g, procs) >= 0
  {
    if procs != [] {
      var init := procs[..|procs| - 1];
      assert forall i :: 0 <= i < |init| ==> init[i] == procs[i];
      RankIsNatural(g, st, init);
      assert ProcOk(g, st, procs[|procs| - 1]);
    }
  }

  ghost predicate Lists(g: Plan, order: seq<Id>) {
    forall n :: n in g.ids ==> n in order
  }

  // Jobs for n, and a process still holding n, are separate claims.
  lemma {:induction false} JobsPlusHeld(procs: seq<Proc>, i: nat, n: Id)
    requires i < |procs|
    ensures JobsFor(procs, n) + multiset(Held(procs[i].stage))[n] <= ClaimsOn(procs, n)
  {
    var last := |procs| - 1;
    if i == last {
      JobsAreClaims(procs[..last], n);
    } else {
      JobsPlusHeld(procs[..last], i, n);
    }
  }

  lemma HeldHasNoJob(g: Plan, s: State, i: nat, n: Id)
    requires Inv(g, s) && i < |s.procs| && n in Held(s.procs[i].stage)
    ensures n in g.ids && JobsFor(s.procs, n) == 0
  {
    SoleClaim(g, s, i, n);
    assert ClaimOk(s, n);
    JobsPlusHeld(s.procs, i, n);
  }

  lemma AddedJobs(procs: seq<Proc>, i: nat, q: Proc, job: Proc, m: Id)
    requires i < |procs| && q.node == procs[i].node
    ensures JobsFor(procs[i := q] + [job], m) == JobsFor(procs, m) + if job.node == Some(m) then 1 else 0
  {
    JobsUpdate(procs, i, q, m);
    JobsAppend(procs[i := q], job, m);
  }

  // The processes after a queue.add by process i.
  function Added(procs: seq<Proc>, i: nat): seq<Proc>
    requires i < |procs| && procs[i].stage.Adding? && procs[i].stage.todo != []
  {
    procs[i := AddedProc(procs[i])] + [AddedJob(procs[i])]
  }

  lemma AddRanks(g: Plan, procs: seq<Proc>, i: nat)
    requires i < |procs| && procs[i].stage.Adding? && procs[i].stage.todo != []
    ensures RankOn(g, Added(procs, i)) == RankOn(g, procs) - 1 + JobCost(g, Some(procs[i].stage.todo[0]))
  {
    RankUpdate(g, procs, i, AddedProc(procs[i]));
    RankAppend(g, procs[i := AddedProc(procs[i])], AddedJob(procs[i]));
  }

  lemma AddSpawns(g: Plan, order: seq<Id>, procs: seq<Proc>, i: nat)
    requires i < |procs| && procs[i].stage.Adding? && procs[i].stage.todo != []
    requires procs[i].stage.todo[0] in order && JobsFor(procs, procs[i].stage.todo[0]) == 0
    ensures Unspawned(g, order, Added(procs, i)) + JobCost(g, Some(procs[i].stage.todo[0])) <= Unspawned(g, order, procs)
  {
    var n := procs[i].stage.todo[0];
    forall m ensures JobsFor(Added(procs, i), m) == JobsFor(procs, m) + if m == n then 1 else 0 {
      AddedJobs(procs, i, AddedProc(procs[i]), AddedJob(procs[i]), m);
    }
    UnspawnedDrops(g, order, procs, Added(procs, i), n);
  }

  lemma AddLowersWork(g: Plan, order: seq<Id>, s: State, i: nat)
    requires Inv(g, s) && Lists(g, order)
    requires i < |s.procs| && s.procs[i].stage.Adding? && s.procs[i].stage.todo != []
    ensures RankOn(g, Added(s.procs, i)) + Unspawned(g, order, Added(s.procs, i))
      < RankOn(g, s.procs) + Unspawned(g, order, s.procs)
  {
    HeldHasNoJob(g, s, i, s.procs[i].stage.todo[0]);
    AddRanks(g, s.procs, i);
    AddSpawns(g, order, s.procs, i);
  }

  lemma OtherStepLowersWork(g: Plan, order: seq<Id>, s: State, i: nat, q: Proc)
    requires i < |s.procs| && q.node == s.procs[i].node && Rank(g, q) < Rank(g, s.procs[i])
    ensures RankOn(g, s.procs[i := q]) + Unspawned(g, order, s.procs[i := q])
      < RankOn(g, s.procs) + Unspawned(g, order, s.procs)
  {
    RankUpdate(g, s.procs, i, q);
    forall m ensures JobsFor(s.procs[i := q], m) == JobsFor(s.procs, m) {
      JobsUpdate(s.procs, i, q, m);
    }
    UnspawnedSame(g, order, s.procs, s.procs[i := q]);
  }

  /** Each step of each process lowers the remaining work. */
  lemma StepLowersWork(g: Plan, order: seq<Id>, s: State, i: nat, c: Choice)
    requires PlanOk(g) && Inv(g, s) && Lists(g, order) && Enabled(s, Step(i, c))
    ensures Work(g, order, Next(s, Step(i, c))) < Work(g, order, s)
  {
    var p := s.procs[i];
    if p.stage.Adding? {
      AddIsNext(s, i, c);
      AddLowersWork(g, order, s, i);
    } else {
      assert ProcOk(g, s.store, p);
      ActRank(g, s.store, p, c);
      ActSpawns(s.store, p, c);
      ActKeepsNode(s.store, p, c);
      var f := Act(s.store, p, c).value;
      assert s.procs[i := f.proc] + [] == s.procs[i := f.proc];
      OtherStepLowersWork(g, order, s, i, f.proc);
    }
  }

  lemma OperatorWork(g: Plan, order: seq<Id>, s: State, e: Event)
    requires Enabled(s, e) && !e.Step?
    ensures Work(g, order, Next(s, e)) <= Work(g, order, s) + if e.Retry? then JobCost(g, None) else 0
  {
    if e.Retry? {
      var job := NewJob(e.jobId, None);
      RankAppend(g, s.procs, job);
      forall m ensures JobsFor(s.procs + [job], m) == JobsFor(s.procs, m) {
        JobsAppend(s.procs, job, m);
      }
      UnspawnedSame(g, order, s.procs, s.procs + [job]);
    }
  }

  function StepsIn(events: seq<Event>): nat {
    if events == [] then 0 else (if events[0].Step? then 1 else 0) + StepsIn(events[1..])
  }

  function RetriesIn(events: seq<Event>): nat {
    if events == [] then 0 else (if events[0].Retry? then 1 else 0) + RetriesIn(events[1..])
  }

  lemma {:induction false} TraceSpendsWork(g: Plan, order: seq<Id>, s: State, events: seq<Event>, t: State)
    requires PlanOk(g) && Inv(g, s) && Lists(g, order) && Trace(s, events, t)
    ensures StepsIn(events) + Work(g, order, t) <= Work(g, order, s) + JobCost(g, None) * RetriesIn(events)
    decreases |events|
  {
    if events != [] {
      var e := events[0];
      EventKeepsInv(g, s, e);
      if e.Step? { StepLowersWork(g, order, s, e.i, e.choice); } else { OperatorWork(g, order, s, e); }
      TraceSpendsWork(g, order, Next(s, e), events[1..], t);
      assert JobCost(g, None) * RetriesIn(events) ==
        JobCost(g, None) * RetriesIn(events[1..]) + if e.Retry? then JobCost(g, None) else 0;
    }
  }

  function IdList(nodes: seq<DagNode>): seq<Id> {
    seq(|nodes|, i requires 0 <= i < |nodes| => nodes[i].id)
  }

  lemma IdListLists(nodes: seq<DagNode>)
    ensures Lists(PlanOf(nodes), IdList(nodes))
  {
    forall n | n in PlanOf(nodes).ids ensures n in IdList(nodes) {
      var i := IdIndex(nodes, n);
      assert IdList(nodes)[i] == n;
    }
  }

  /** Every run is bounded: the number of commands it executes is at most the initial work plus
      a fixed cost per dead-letter retry. So without operators each run ends. */
  lemma RunsAreBounded(nodes: seq<DagNode>, events: seq<Event>, t: State)
    requires WellFormed(nodes) && Trace(Init(nodes), events, t)
    ensures StepsIn(events) <=
      Work(PlanOf(nodes), IdList(nodes), Init(nodes)) + JobCost(PlanOf(nodes), None) * RetriesIn(events)
  {
    var g := PlanOf(nodes);
    PlanOfOk(nodes);
    InitInv(nodes);
    IdListLists(nodes);
    TraceSpendsWork(g, IdList(nodes), Init(nodes), events, t);
    TraceKeepsInv(g, Init(nodes), events, t);
    RankIsNatural(g, t.store, t.procs);
  }

  /* ---- No deadlock ---- */

  predicate Finished(p: Proc) {
    p.stage.Done? || p.stage.FailedDone?
  }

  // No process has a command left.
  predicate Quiet(s: State) {
    forall i :: 0 <= i < |s.procs| ==> Finished(s.procs[i])
  }

  /** F is the set of nodes whose job exhausts its attempts; every other job succeeds on some
      attempt. This is the part of the environment's choices that can matter to the outcome. */
  predicate Allowed(F: set<Id>, s: State, e: Event) {
    e.Step? && e.i < |s.procs| && s.procs[e.i].node.Some? ==>
      var p := s.procs[e.i];
      && (e.choice.Succeed? ==> p.node.value !in F)
      && (e.choice.Fail? && p.made + 1 >= MAX_ATTEMPTS ==> p.node.value in F)
  }

  ghost predicate FTrace(F: set<Id>, s: State, events: seq<Event>, t: State)
    decreases |events|
  {
    if events == [] then s == t
    else Enabled(s, events[0]) && Allowed(F, s, events[0]) && FTrace(F, Next(s, events[0]), events[1..], t)
  }

  ghost predicate FLeads(F: set<Id>, s: State, t: State) {
    exists events :: FTrace(F, s, events, t)
  }

  lemma {:induction false} FTraceIsTrace(F: set<Id>, s: State, events: seq<Event>, t: State)
    requires FTrace(F, s, events, t)
    ensures Trace(s, events, t)
    decreases |events|
  {
    if events != [] { FTraceIsTrace(F, Next(s, events[0]), events[1..], t); }
  }

  // A choice that lets p move, in keeping with F.
  function SomeChoice(F: set<Id>, p: Proc): Choice {
    match p.stage
    case Working(_) => if p.node.Some? && p.node.value in F then Fail("") else Succeed("")
    case Enqueueing(todo) => if todo == [] then Go else Fresh("")
    case _ => Go
  }

  lemma UnfinishedCanMove(g: Plan, F: set<Id>, st: Store, p: Proc)
    requires ProcOk(g, st, p) && !Finished(p)
    ensures Act(st, p, SomeChoice(F, p)).Some?
  {
  }

  /** No deadlock: unless every process is finished, some process has an enabled command
      compatible with F. */
  lemma NoDeadlock(g: Plan, F: set<Id>, s: State) returns (e: Event)
    requires Inv(g, s) && !Quiet(s)
    ensures e.Step? && Enabled(s, e) && Allowed(F, s, e)
  {
    var i :| 0 <= i < |s.procs| && !Finished(s.procs[i]);
    assert ProcOk(g, s.store, s.procs[i]);
    UnfinishedCanMove(g, F, s.store, s.procs[i]);
    e := Step(i, SomeChoice(F, s.procs[i]));
  }

  lemma FinishedIsStuck(st: Store, p: Proc, c: Choice)
    requires Finished(p)
    ensures Act(st, p, c).None?
  {
  }

  // No process has an enabled command.
  ghost predicate Stuck(s: State) {
    forall i, c :: !Enabled(s, Step(i, c))
  }

  lemma QuietIsStuck(s: State)
    requires Quiet(s)
    ensures Stuck(s)
  {
    forall i: nat, c ensures !Enabled(s, Step(i, c)) {
      if i < |s.procs| { FinishedIsStuck(s.store, s.procs[i], c); }
    }
  }

  lemma UnfinishedIsNotStuck(g: Plan, s: State)
    requires Inv(g, s) && !Quiet(s)
    ensures !Stuck(s)
  {
    var e := NoDeadlock(g, {}, s);
    assert Enabled(s, Step(e.i, e.choice));
  }

  /** A run comes to rest exactly where every process is finished. */
  lemma StuckExactlyWhenQuiet(nodes: seq<DagNode>, s: State)
    requires WellFormed(nodes) && Reachable(nodes, s)
    ensures Stuck(s) <==> Quiet(s)
  {
    if Quiet(s) {
      QuietIsStuck(s);
    } else {
      ReachableInv(nodes, s);
      UnfinishedIsNotStuck(PlanOf(nodes), s);
    }
  }
}
