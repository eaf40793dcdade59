/** One outcome per failing set: however the steps interleave, the final statuses are the same. */
module DagConfluence {
  import opened Wrappers
  import opened Graphs
  import opened TaskGraph
  import opened DagStore
  import opened DagProtocol
  import opened DagCounting
  import opened DagInvariant
  import opened DagSafety
  import opened DagProgress

  predicate HasSucceeded(stage: Stage) {
    stage.Succeeded? || stage.StoredResult? || InHandler(stage)
  }

  predicate HasFailed(stage: Stage) {
    stage.Exhausted? || stage.DeadLettered? || stage.MarkedFailed? || stage.FailedDone?
  }

  predicate FateOk(F: set<Id>, p: Proc) {
    p.node.Some? ==>
      && (HasSucceeded(p.stage) ==> p.node.value !in F)
      && (HasFailed(p.stage) ==> p.node.value in F)
  }

  lemma ActFate(F: set<Id>, st: Store, p: Proc, c: Choice)
    requires Act(st, p, c).Some? && FateOk(F, p)
    requires p.node.Some? ==>
      && (c.Succeed? ==> p.node.value !in F)
      && (c.Fail? && p.made + 1 >= MAX_ATTEMPTS ==> p.node.value in F)
    ensures FateOk(F, Act(st, p, c).value.proc)
  {
  }

  lemma {:induction false} FTraceFate(F: set<Id>, s: State, events: seq<Event>, t: State)
    requires FTrace(F, s, events, t)
    requires forall i :: 0 <= i < |s.procs| ==> FateOk(F, s.procs[i])
    ensures forall i :: 0 <= i < |t.procs| ==> FateOk(F, t.procs[i])
    decreases |events|
  {
    if events != [] {
      var e := events[0];
      var s' := Next(s, e);
      forall j | 0 <= j < |s'.procs| ensures FateOk(F, s'.procs[j]) {
        NextProc(s, e, j);
        if e.Step? && e.i == j && j < |s.procs| {
          ActFate(F, s.store, s.procs[j], e.choice);
        }
      }
      FTraceFate(F, s', events[1..], t);
    }
  }

  // The status every node must end with when exactly the jobs of F exhaust their attempts.
  ghost function Fate(E: Graph, F: set<Id>, n: Id): Status {
    if exists f :: f in F && Ancestor(E, f, n) then Pending
    else if n in F then Failed
    else Completed
  }

  // In a quiet state every claim is a job that has ended.
  lemma QuietClaim(g: Plan, s: State, n: Id) returns (i: nat)
    requires Inv(g, s) && Quiet(s) && n in g.ids && s.store.Counter(n) == 0
    ensures i < |s.procs| && s.procs[i].node == Some(n) && Finished(s.procs[i])
  {
    assert ClaimOk(s, n);
    i := FinishedClaim(s.procs, n);
  }

  lemma FinishedClaim(procs: seq<Proc>, n: Id) returns (i: nat)
    requires ClaimsOn(procs, n) > 0 && forall j :: 0 <= j < |procs| ==> Finished(procs[j])
    ensures i < |procs| && procs[i].node == Some(n)
  {
    i := ClaimedBySomeone(procs, n);
    assert Finished(procs[i]) && Held(procs[i].stage) == [];
  }

  lemma QuietFired(g: Plan, F: set<Id>, s: State, n: Id)
    requires PlanOk(g) && Inv(g, s) && Quiet(s) && n in g.ids && s.store.Counter(n) == 0
    requires forall i :: 0 <= i < |s.procs| ==> FateOk(F, s.procs[i])
    ensures KeysOf(s.store, n).status == Some(Fate(g.Edges(), F, n))
    ensures s.store.Result(n).Some? <==> Fate(g.Edges(), F, n) == Completed
  {
    var i := QuietClaim(g, s, n);
    OwnJob(g, s, i, n);
    assert ProcOk(g, s.store, s.procs[i]);
    forall f | Ancestor(g.Edges(), f, n) ensures f !in F {
      ClaimedHasAncestorsDone(g, s, f, n);
      assert ClaimOk(s, f);
      var j := QuietClaim(g, s, f);
      OwnJob(g, s, j, f);
    }
  }

  // In a quiet state only a failed job still owes decrements.
  lemma OwedByFailed(g: Plan, F: set<Id>, s: State, i: nat, n: Id)
    requires PlanOk(g) && Quiet(s) && i < |s.procs| && ProcOk(g, s.store, s.procs[i])
    requires n in Left(g, s.procs[i]) && FateOk(F, s.procs[i])
    ensures var d := s.procs[i].node.value; d in F && d in g.ids && d in g.Deps(n)
  {
    var d := s.procs[i].node.value;
    assert Finished(s.procs[i]);
    assert n in g.Dependents(d);
    assert multiset(g.Dependents(d))[n] == multiset(g.Deps(n))[d];
  }

  lemma NoJobMeansBlocked(g: Plan, s: State, d: Id)
    requires Inv(g, s) && Quiet(s) && d in g.ids && JobsFor(s.procs, d) != 1
    ensures s.store.Counter(d) != 0
  {
    if s.store.Counter(d) == 0 {
      var j := QuietClaim(g, s, d);
      assert ClaimOk(s, d);
      JobsAreClaims(s.procs, d);
      JobCounted(s.procs, j, d);
    }
  }

  // A counter that stays positive has an unfired dependency, or one that failed.
  lemma QuietBlocked(g: Plan, F: set<Id>, s: State, n: Id) returns (d: Id)
    requires PlanOk(g) && Inv(g, s) && Quiet(s) && n in g.ids && s.store.Counter(n) != 0
    requires forall i :: 0 <= i < |s.procs| ==> FateOk(F, s.procs[i])
    ensures d in g.ids && d in g.Deps(n) && (d in F || s.store.Counter(d) != 0)
  {
    CounterMeaning(g, s, n);
    if i :| 0 <= i < |s.procs| && n in Left(g, s.procs[i]) {
      OwedByFailed(g, F, s, i, n);
      d := s.procs[i].node.value;
    } else {
      d :| d in g.Deps(n) && JobsFor(s.procs, d) != 1;
      NoJobMeansBlocked(g, s, d);
    }
  }

  lemma BlockedFate(E: Graph, F: set<Id>, d: Id, n: Id)
    requires (d, n) in E && (d in F || Fate(E, F, d) == Pending)
    ensures Fate(E, F, n) == Pending
  {
    AncestorEdge(E, d, n);
    if d !in F {
      var f :| f in F && Ancestor(E, f, d);
      AncestorTrans(E, f, d, n);
    }
  }

  lemma {:induction false} QuietFate(g: Plan, F: set<Id>, s: State, n: Id)
    requires PlanOk(g) && Acyclic(g.Edges()) && Inv(g, s) && Quiet(s) && n in g.ids
    requires forall i :: 0 <= i < |s.procs| ==> FateOk(F, s.procs[i])
    ensures KeysOf(s.store, n).status == Some(Fate(g.Edges(), F, n))
    ensures s.store.Result(n).Some? <==> Fate(g.Edges(), F, n) == Completed
    decreases |AncestorsIn(g.Edges(), g.ids, n)|
  {
    if s.store.Counter(n) == 0 {
      QuietFired(g, F, s, n);
    } else {
      assert ClaimOk(s, n);
      var d := QuietBlocked(g, F, s, n);
      assert (d, n) in g.Edges();
      if d !in F {
        assert ClaimOk(s, d);
        AncestorsShrink(g.Edges(), g.ids, d, n);
        QuietFate(g, F, s, d);
      }
      BlockedFate(g.Edges(), F, d, n);
    }
  }

  lemma FReachable(nodes: seq<DagNode>, F: set<Id>, s: State)
    requires IsDag(nodes) && FLeads(F, Init(nodes), s)
    ensures PlanOk(PlanOf(nodes)) && Inv(PlanOf(nodes), s) && PlanOf(nodes).Edges() == EdgesOf(nodes)
    ensures forall i :: 0 <= i < |s.procs| ==> FateOk(F, s.procs[i])
  {
    PlanOfOk(nodes);
    InitInv(nodes);
    var events :| FTrace(F, Init(nodes), events, s);
    FTraceIsTrace(F, Init(nodes), events, s);
    TraceKeepsInv(PlanOf(nodes), Init(nodes), events, s);
    FTraceFate(F, Init(nodes), events, s);
  }

  /** Final outcome. When nothing is left to run, a node is pending exactly if a proper ancestor
      lies in F, failed if it lies in F with no ancestor there, and completed otherwise; results
      exist exactly for the completed nodes. */
  lemma FinalOutcome(nodes: seq<DagNode>, F: set<Id>, s: State, n: Id)
    requires IsDag(nodes) && FLeads(F, Init(nodes), s) && Quiet(s) && n in IdsOf(nodes)
    ensures KeysOf(s.store, n).status == Some(Fate(EdgesOf(nodes), F, n))
    ensures s.store.Result(n).Some? <==> Fate(EdgesOf(nodes), F, n) == Completed
  {
    FReachable(nodes, F, s);
    QuietFate(PlanOf(nodes), F, s, n);
  }

  /** Confluence: two complete runs with the same failing set agree on every status. */
  lemma Confluence(nodes: seq<DagNode>, F: set<Id>, s: State, t: State, n: Id)
    requires IsDag(nodes) && n in IdsOf(nodes)
    requires FLeads(F, Init(nodes), s) && Quiet(s)
    requires FLeads(F, Init(nodes), t) && Quiet(t)
    ensures KeysOf(s.store, n).status == KeysOf(t.store, n).status
    ensures s.store.Result(n).Some? == t.store.Result(n).Some?
  {
    FinalOutcome(nodes, F, s, n);
    FinalOutcome(nodes, F, t, n);
  }

  lemma {:induction false} RunsOut(g: Plan, order: seq<Id>, F: set<Id>, s: State) returns (events: seq<Event>, t: State)
    requires PlanOk(g) && Inv(g, s) && Lists(g, order)
    ensures FTrace(F, s, events, t) && Quiet(t)
    decreases Work(g, order, s)
  {
    if Quiet(s) {
      events, t := [], s;
    } else {
      var e := NoDeadlock(g, F, s);
      EventKeepsInv(g, s, e);
      StepLowersWork(g, order, s, e.i, e.choice);
      RankIsNatural(g, s.store, s.procs);
      RankIsNatural(g, Next(s, e).store, Next(s, e).procs);
      var rest;
      rest, t := RunsOut(g, order, F, Next(s, e));
      events := [e] + rest;
      assert events[1..] == rest;
    }
  }

  lemma {:induction false} FTraceConcat(F: set<Id>, s: State, a: seq<Event>, t: State, b: seq<Event>, u: State)
    requires FTrace(F, s, a, t) && FTrace(F, t, b, u)
    ensures FTrace(F, s, a + b, u)
    decreases |a|
  {
    if a == [] {
      assert a + b == b;
    } else {
      FTraceConcat(F, Next(s, a[0]), a[1..], t, b, u);
      assert (a + b)[1..] == a[1..] + b;
    }
  }

  /** From every state a run with failing set F can reach, the run can be completed without
      anyone being stuck, and it then ends in the outcome F dictates. */
  lemma AlwaysCompletes(nodes: seq<DagNode>, F: set<Id>, s: State) returns (t: State)
    requires IsDag(nodes) && FLeads(F, Init(nodes), s)
    ensures FLeads(F, s, t) && Quiet(t)
    ensures forall n :: n in IdsOf(nodes) ==> KeysOf(t.store, n).status == Some(Fate(EdgesOf(nodes), F, n))
  {
    FReachable(nodes, F, s);
    IdListLists(nodes);
    var before :| FTrace(F, Init(nodes), before, s);
    var events;
    events, t := RunsOut(PlanOf(nodes), IdList(nodes), F, s);
    FTraceConcat(F, Init(nodes), before, s, events, t);
    assert FLeads(F, Init(nodes), t);
    forall n | n in IdsOf(nodes) ensures KeysOf(t.store, n).status == Some(Fate(EdgesOf(nodes), F, n)) {
      FinalOutcome(nodes, F, t, n);
    }
  }
}
