/** The inductive invariant of the DAG runtime: every interleaving keeps the counters, the
    claims and the per-node keys in step with the processes. */
module DagInvariant {
  import opened Wrappers
  import opened Graphs
  import opened TaskGraph
  import opened DagStore
  import opened DagProtocol
  import opened DagCounting

  // Everything Redis holds about one node that changes after persist, except its counter.
  datatype NodeKeys = NodeKeys(status: Option<Status>, result: Option<Json>, jobId: Option<JobId>, failure: Option<string>)

  function Find<V>(m: map<Id, V>, n: Id): Option<V> {
    if n in m then Some(m[n]) else None
  }

  function KeysOf(st: Store, n: Id): NodeKeys {
    NodeKeys(Find(st.status, n), Find(st.results, n), Find(st.jobIds, n), Find(st.failures, n))
  }

  const UNTOUCHED := NodeKeys(Some(Pending), None, None, None)
  const PROMOTED := NodeKeys(Some(Ready), None, None, None)

  // What persist wrote and nobody changes.
  ghost predicate Fixed(g: Plan, st: Store) {
    && st.nodes.Keys == g.ids
    && (forall n :: n in g.ids ==> st.nodes[n].dependsOn == g.Deps(n))
    && (forall n :: n in g.ids ==> st.DependentsOf(n) == g.Dependents(n))
    && st.remaining.Keys == g.ids
  }

  predicate Among(a: seq<Id>, b: seq<Id>) {
    forall n :: n in a ==> n in b
  }

  // Stages only a DAG job can be in.
  predicate DagOnly(stage: Stage) {
    stage.MarkedActive? || stage.GotNode? || stage.StoredResult? || stage.MarkedCompleted?
    || stage.Decrementing? || stage.FetchingNode? || stage.MarkingReady? || stage.MarkedFailed?
  }

  predicate InHandler(stage: Stage) {
    stage.MarkedCompleted? || stage.Decrementing? || stage.FetchingNode? || stage.MarkingReady?
    || stage.Enqueueing? || stage.Adding? || stage.Done?
  }

  predicate InJob(stage: Stage) {
    stage.Waiting? || stage.Running? || stage.MarkedActive? || stage.GotNode? || stage.Working?
  }

  // What a job's stage says about its own node's keys.
  predicate OwnKeys(p: Proc, k: NodeKeys) {
    && k.jobId == Some(p.id)
    && match p.stage
       case Waiting | Running =>
         (k.status == Some(Ready) || (k.status == Some(Active) && p.made > 0)) && k.result.None? && k.failure.None?
       case MarkedActive | GotNode(_) | Working(_) | Succeeded =>
         k.status == Some(Active) && k.result.None? && k.failure.None?
       case StoredResult => k.status == Some(Active) && k.result == p.outcome && k.failure.None?
       case Exhausted(_) | DeadLettered(_) =>
         (k.status == Some(Ready) || k.status == Some(Active)) && k.result.None? && k.failure.None?
       case MarkedFailed(_) => k.status == Some(Failed) && k.result.None? && k.failure.None?
       case FailedDone(reason) => k.status == Some(Failed) && k.result.None? && k.failure == Some(reason)
       case _ => k.status == Some(Completed) && k.result == p.outcome && k.failure.None?
  }

  // The keys of the nodes a process holds: promoted ones are ready, the one in hand is not yet.
  function HeldKeys(stage: Stage, n: Id): NodeKeys {
    match stage
    case FetchingNode(cur, _, _) => if n == cur then UNTOUCHED else PROMOTED
    case MarkingReady(cur, _, _) => if n == cur then UNTOUCHED else PROMOTED
    case Adding(todo, jobId) => if todo != [] && n == todo[0] then PROMOTED.(jobId := Some(jobId)) else PROMOTED
    case _ => PROMOTED
  }

  ghost predicate HeldOk(g: Plan, st: Store, stage: Stage) {
    forall n :: n in Held(stage) ==> n in g.ids && KeysOf(st, n) == HeldKeys(stage, n)
  }

  // What a process knows, and what it has written about its own node.
  ghost predicate ProcShape(g: Plan, st: Store, p: Proc) {
    && (p.node.None? ==> !DagOnly(p.stage))
    && (p.node.Some? ==> p.node.value in g.ids && OwnKeys(p, KeysOf(st, p.node.value)))
    && (InJob(p.stage) ==> p.made < MAX_ATTEMPTS)
    && (p.stage.Succeeded? || p.stage.StoredResult? || (InHandler(p.stage) && p.node.Some?) ==> p.outcome.Some?)
    && (p.stage.Decrementing? || p.stage.FetchingNode? || p.stage.MarkingReady? ==>
          p.node.Some? && Among(Left(g, p), g.Dependents(p.node.value)))
    && (p.stage.Adding? ==> p.stage.todo != [])
    && (p.stage.GotNode? ==> p.node.Some? && p.stage.depIds == g.Deps(p.node.value))
  }

  ghost predicate ProcOk(g: Plan, st: Store, p: Proc) {
    ProcShape(g, st, p) && HeldOk(g, st, p.stage)
  }

  // The counter of n: declared dependencies minus the decrements carried out.
  ghost predicate CounterOk(g: Plan, s: State, n: Id) {
    s.store.Counter(n) == |g.Deps(n)| - DecrsOn(g, s.procs, n)
  }

  // Exactly one claim on n exists once its counter is zero, and none before.
  ghost predicate ClaimOk(s: State, n: Id) {
    && ClaimsOn(s.procs, n) == (if s.store.Counter(n) == 0 then 1 else 0)
    && (s.store.Counter(n) != 0 ==> KeysOf(s.store, n) == UNTOUCHED)
  }

  ghost predicate Inv(g: Plan, s: State) {
    && Fixed(g, s.store)
    && CountsOk(g, s)
    && (forall i :: 0 <= i < |s.procs| ==> ProcOk(g, s.store, s.procs[i]))
  }

  ghost predicate CountsOk(g: Plan, s: State) {
    forall n :: n in g.ids ==> CounterOk(g, s, n) && ClaimOk(s, n)
  }

  /* ---- Initially ---- */

  lemma {:induction false} NoRepeatsCount(xs: seq<Id>, n: Id)
    requires forall i, j :: 0 <= i < j < |xs| ==> xs[i] != xs[j]
    ensures multiset(xs)[n] == if n in xs then 1 else 0
  {
    if xs != [] {
      assert xs == [xs[0]] + xs[1..];
      NoRepeatsCount(xs[1..], n);
    }
  }

  lemma RootClaims(nodes: seq<DagNode>, p: Proc, n: Id)
    requires WellFormed(nodes) && n in IdsOf(nodes)
    requires p.node.None? && p.stage == Enqueueing(RootIds(nodes))
    ensures Claims(p, n) == if DepsOf(nodes, n) == [] then 1 else 0
  {
    RootIdsAre(nodes);
    var roots := RootIds(nodes);
    NoRepeatsCount(roots, n);
    assert Held(p.stage) == roots;
    assert Claims(p, n) == multiset(roots)[n];
  }

  lemma InitNode(nodes: seq<DagNode>, n: Id)
    requires WellFormed(nodes) && n in IdsOf(nodes)
    ensures CounterOk(PlanOf(nodes), Init(nodes), n) && ClaimOk(Init(nodes), n)
  {
    var s := Init(nodes);
    var p := s.procs[0];
    assert s.procs == [] + [p];
    CountsAppend(PlanOf(nodes), [], p, n);
    RootClaims(nodes, p, n);
    assert s.store.Counter(n) == |DepsOf(nodes, n)|;
    assert KeysOf(s.store, n) == if DepsOf(nodes, n) == [] then PROMOTED else UNTOUCHED;
  }

  lemma InitInv(nodes: seq<DagNode>)
    requires WellFormed(nodes)
    ensures Inv(PlanOf(nodes), Init(nodes))
  {
    forall n | n in IdsOf(nodes)
      ensures CounterOk(PlanOf(nodes), Init(nodes), n) && ClaimOk(Init(nodes), n)
      ensures Persisted(nodes).nodes[n].dependsOn == DepsOf(nodes, n)
    {
      InitNode(nodes, n);
      NodeOfDeps(nodes, n);
    }
    RootIdsAre(nodes);
    assert ProcOk(PlanOf(nodes), Init(nodes).store, Init(nodes).procs[0]);
  }

  /* ---- One process moves ---- */

  // Redis commands that touch at most the keys of n.
  ghost predicate SameElsewhere(st: Store, st': Store, n: Id) {
    && st'.nodes == st.nodes && st'.dependents == st.dependents
    && forall m :: m != n ==> KeysOf(st', m) == KeysOf(st, m)
  }

  lemma SoleClaim(g: Plan, s: State, i: nat, n: Id)
    requires Inv(g, s) && i < |s.procs| && Claims(s.procs[i], n) > 0
    ensures n in g.ids && s.store.Counter(n) == 0 && Claims(s.procs[i], n) == 1
    ensures forall j :: 0 <= j < |s.procs| && j != i ==> Claims(s.procs[j], n) == 0
  {
    if s.procs[i].node != Some(n) {
      assert n in Held(s.procs[i].stage);
    }
    assert ProcOk(g, s.store, s.procs[i]);
    ClaimsAtLeast(s.procs, i, n);
    assert ClaimOk(s, n);
  }

  lemma FrameProc(g: Plan, st: Store, st': Store, n: Id, p: Proc)
    requires ProcOk(g, st, p) && SameElsewhere(st, st', n) && Claims(p, n) == 0
    ensures ProcOk(g, st', p)
  {
    assert n !in Held(p.stage);
  }

  // q owes the same decrements and holds the same claims as p.
  ghost predicate SameDuties(g: Plan, p: Proc, q: Proc) {
    q.node == p.node && Held(q.stage) == Held(p.stage) && Left(g, q) == Left(g, p)
  }

  // The move keeps the counters and neither gains nor loses claims; it writes keys of n only.
  ghost predicate IsQuiet(g: Plan, s: State, i: nat, q: Proc, st': Store, n: Id) {
    && i < |s.procs|
    && SameElsewhere(s.store, st', n) && st'.remaining == s.store.remaining
    && (KeysOf(st', n) != KeysOf(s.store, n) ==> Claims(s.procs[i], n) > 0)
    && SameDuties(g, s.procs[i], q)
  }

  lemma QuietCounts(g: Plan, s: State, i: nat, q: Proc, st': Store, n: Id, letters: seq<Option<Id>>, m: Id)
    requires Inv(g, s) && IsQuiet(g, s, i, q, st', n) && m in g.ids
    ensures CounterOk(g, State(st', s.procs[i := q], letters), m)
    ensures ClaimOk(State(st', s.procs[i := q], letters), m)
  {
    assert CounterOk(g, s, m) && ClaimOk(s, m);
    assert st'.Counter(m) == s.store.Counter(m);
    ClaimsUpdate(s.procs, i, q, m);
    DecrsUpdate(g, s.procs, i, q, m);
    if Claims(s.procs[i], n) > 0 { SoleClaim(g, s, i, n); }
  }

  lemma QuietProcs(g: Plan, s: State, i: nat, q: Proc, st': Store, n: Id, j: nat)
    requires Inv(g, s) && IsQuiet(g, s, i, q, st', n) && j < |s.procs| && j != i
    ensures ProcOk(g, st', s.procs[j])
  {
    assert ProcOk(g, s.store, s.procs[j]);
    if Claims(s.procs[i], n) > 0 {
      SoleClaim(g, s, i, n);
      FrameProc(g, s.store, st', n, s.procs[j]);
    } else {
      SameKeysProc(g, s.store, st', s.procs[j]);
    }
  }

  lemma QuietCountsAll(g: Plan, s: State, i: nat, q: Proc, st': Store, n: Id, letters: seq<Option<Id>>)
    requires Inv(g, s) && IsQuiet(g, s, i, q, st', n)
    ensures CountsOk(g, State(st', s.procs[i := q], letters))
  {
    forall m | m in g.ids
      ensures CounterOk(g, State(st', s.procs[i := q], letters), m)
      ensures ClaimOk(State(st', s.procs[i := q], letters), m)
    {
      QuietCounts(g, s, i, q, st', n, letters, m);
    }
  }

  lemma QuietProcsAll(g: Plan, s: State, i: nat, q: Proc, st': Store, n: Id)
    requires Inv(g, s) && IsQuiet(g, s, i, q, st', n) && ProcOk(g, st', q)
    ensures forall p :: p in s.procs[i := q] ==> ProcOk(g, st', p)
  {
    forall j | 0 <= j < |s.procs| ensures ProcOk(g, st', if j == i then q else s.procs[j]) {
      if j != i { QuietProcs(g, s, i, q, st', n, j); }
    }
  }

  lemma QuietFixed(g: Plan, st: Store, st': Store)
    requires Fixed(g, st)
    requires st'.nodes == st.nodes && st'.dependents == st.dependents && st'.remaining == st.remaining
    ensures Fixed(g, st')
  {
    forall n | n in g.ids ensures st'.DependentsOf(n) == g.Dependents(n) {
      assert st.DependentsOf(n) == g.Dependents(n);
    }
  }

  lemma QuietMove(g: Plan, s: State, i: nat, q: Proc, st': Store, n: Id, letters: seq<Option<Id>>)
    requires Inv(g, s) && IsQuiet(g, s, i, q, st', n)
    requires ProcOk(g, st', q)
    ensures Inv(g, State(st', s.procs[i := q], letters))
  {
    QuietFixed(g, s.store, st');
    QuietCountsAll(g, s, i, q, st', n, letters);
    QuietProcsAll(g, s, i, q, st', n);
  }

  lemma SameKeysProc(g: Plan, st: Store, st': Store, p: Proc)
    requires ProcOk(g, st, p)
    requires forall m :: KeysOf(st', m) == KeysOf(st, m)
    ensures ProcOk(g, st', p)
  {
  }

  // The node whose keys the next command of p may write.
  function Target(p: Proc): Id {
    match p.stage
    case MarkingReady(cur, _, _) => cur
    case Enqueueing(todo) => if todo != [] then todo[0] else ""
    case _ => match p.node case Some(n) => n case None => ""
  }

  // Every command but a DECR and a queue.add.
  predicate QuietStage(stage: Stage) {
    !stage.Adding? && (stage.Decrementing? ==> stage.left == [])
  }

  // The effect of a quiet command on its process and its own node, seen from the process alone.
  ghost predicate LocallyQuiet(g: Plan, st: Store, p: Proc, f: Effect) {
    && f.spawned == []
    && SameElsewhere(st, f.store, Target(p)) && f.store.remaining == st.remaining
    && (KeysOf(f.store, Target(p)) != KeysOf(st, Target(p)) ==> Claims(p, Target(p)) > 0)
    && SameDuties(g, p, f.proc)
    && ProcShape(g, f.store, f.proc)
  }

  // p moves on to the given stage, leaving the store st'.
  function To(st': Store, p: Proc, stage: Stage): Effect {
    Effect(st', p.(stage := stage), [], [])
  }

  lemma AttemptFailedQuiet(g: Plan, st: Store, p: Proc, reason: string)
    requires ProcShape(g, st, p) && InJob(p.stage)
    ensures LocallyQuiet(g, st, p, AttemptFailed(st, p, reason).value)
  {
  }

  lemma StartQuiet(g: Plan, st: Store, p: Proc)
    requires ProcShape(g, st, p) && p.stage.Waiting?
    ensures LocallyQuiet(g, st, p, To(st, p, Running))
  {
  }

  lemma SkipDagPartQuiet(g: Plan, st: Store, p: Proc)
    requires ProcShape(g, st, p) && p.stage.Running? && p.node.None?
    ensures LocallyQuiet(g, st, p, To(st, p, Working(map[])))
  {
  }

  lemma MarkActiveQuiet(g: Plan, st: Store, p: Proc, n: Id)
    requires ProcShape(g, st, p) && p.stage.Running? && p.node == Some(n)
    ensures LocallyQuiet(g, st, p, To(st.SetStatus(n, Active), p, MarkedActive))
  {
  }

  lemma ReadNodeQuiet(g: Plan, st: Store, p: Proc, n: Id)
    requires Fixed(g, st) && ProcShape(g, st, p) && p.stage.MarkedActive? && p.node == Some(n)
    ensures LocallyQuiet(g, st, p, To(st, p, GotNode(st.DeclaredDeps(n))))
  {
    assert st.DeclaredDeps(n) == g.Deps(n);
  }

  lemma ReadResultsQuiet(g: Plan, st: Store, p: Proc, inputs: map<Id, Option<Json>>)
    requires ProcShape(g, st, p) && p.stage.GotNode?
    ensures LocallyQuiet(g, st, p, To(st, p, Working(inputs)))
  {
  }

  lemma SucceedQuiet(g: Plan, st: Store, p: Proc, c: Choice)
    requires ProcShape(g, st, p) && p.stage.Working? && c.Succeed?
    ensures LocallyQuiet(g, st, p, JobStep(st, p, c).value)
  {
  }

  lemma JobStepQuiet(g: Plan, st: Store, p: Proc, c: Choice)
    requires Fixed(g, st) && ProcShape(g, st, p) && JobStep(st, p, c).Some?
    ensures LocallyQuiet(g, st, p, JobStep(st, p, c).value)
  {
    if c.Fail? {
      AttemptFailedQuiet(g, st, p, c.reason);
    } else if c.Succeed? {
      SucceedQuiet(g, st, p, c);
    } else {
      match p.stage
      case Waiting => StartQuiet(g, st, p);
      case Running =>
        if p.node.None? { SkipDagPartQuiet(g, st, p); } else { MarkActiveQuiet(g, st, p, p.node.value); }
      case MarkedActive => ReadNodeQuiet(g, st, p, p.node.value);
      case GotNode(deps) => ReadResultsQuiet(g, st, p, if deps == [] then map[] else st.Results(deps));
      case _ =>
    }
  }

  lemma DeadLetterQuiet(g: Plan, st: Store, p: Proc)
    requires ProcShape(g, st, p) && p.stage.Exhausted?
    ensures LocallyQuiet(g, st, p, FailureStep(st, p, Go).value)
  {
  }

  lemma MarkFailedQuiet(g: Plan, st: Store, p: Proc)
    requires ProcShape(g, st, p) && p.stage.DeadLettered?
    ensures LocallyQuiet(g, st, p, FailureStep(st, p, Go).value)
  {
  }

  lemma RecordReasonQuiet(g: Plan, st: Store, p: Proc)
    requires ProcShape(g, st, p) && p.stage.MarkedFailed?
    ensures LocallyQuiet(g, st, p, FailureStep(st, p, Go).value)
  {
  }

  lemma FailureStepQuiet(g: Plan, st: Store, p: Proc, c: Choice)
    requires ProcShape(g, st, p) && FailureStep(st, p, c).Some?
    ensures LocallyQuiet(g, st, p, FailureStep(st, p, c).value)
  {
    if p.stage.Exhausted? {
      DeadLetterQuiet(g, st, p);
    } else if p.stage.DeadLettered? {
      MarkFailedQuiet(g, st, p);
    } else {
      RecordReasonQuiet(g, st, p);
    }
  }

  lemma StoreResultQuiet(g: Plan, st: Store, p: Proc, n: Id)
    requires ProcShape(g, st, p) && p.stage.Succeeded? && p.node == Some(n)
    ensures p.outcome.Some? && LocallyQuiet(g, st, p, To(st.SetResult(n, p.outcome.value), p, StoredResult))
  {
  }

  lemma OtherJobDoneQuiet(g: Plan, st: Store, p: Proc)
    requires ProcShape(g, st, p) && p.stage.Succeeded? && p.node.None?
    ensures LocallyQuiet(g, st, p, To(st, p, Done))
  {
  }

  lemma MarkCompletedQuiet(g: Plan, st: Store, p: Proc, n: Id)
    requires ProcShape(g, st, p) && p.stage.StoredResult? && p.node == Some(n)
    ensures LocallyQuiet(g, st, p, To(st.SetStatus(n, Completed), p, MarkedCompleted))
  {
  }

  lemma ReadDependentsQuiet(g: Plan, st: Store, p: Proc, n: Id)
    requires Fixed(g, st) && ProcShape(g, st, p) && p.stage.MarkedCompleted? && p.node == Some(n)
    ensures LocallyQuiet(g, st, p, To(st, p, Decrementing(st.DependentsOf(n), [])))
  {
    assert st.DependentsOf(n) == g.Dependents(n);
  }

  lemma ResultStepQuiet(g: Plan, st: Store, p: Proc, c: Choice)
    requires Fixed(g, st) && ProcShape(g, st, p) && HandlerStep(st, p, c).Some?
    requires p.stage.Succeeded? || p.stage.StoredResult? || p.stage.MarkedCompleted?
    ensures LocallyQuiet(g, st, p, HandlerStep(st, p, c).value)
  {
    if p.node.None? {
      OtherJobDoneQuiet(g, st, p);
    } else if p.stage.Succeeded? {
      StoreResultQuiet(g, st, p, p.node.value);
    } else if p.stage.StoredResult? {
      MarkCompletedQuiet(g, st, p, p.node.value);
    } else {
      ReadDependentsQuiet(g, st, p, p.node.value);
    }
  }

  lemma FetchQuiet(g: Plan, st: Store, p: Proc)
    requires ProcShape(g, st, p) && p.stage.FetchingNode?
    ensures LocallyQuiet(g, st, p, To(st, p, MarkingReady(p.stage.cur, p.stage.left, p.stage.ready)))
  {
  }

  lemma PromoteQuiet(g: Plan, st: Store, p: Proc)
    requires ProcShape(g, st, p) && p.stage.MarkingReady? && Claims(p, p.stage.cur) <= 1
    ensures LocallyQuiet(g, st, p,
      To(st.SetStatus(p.stage.cur, Ready), p, Decrementing(p.stage.left, p.stage.ready + [p.stage.cur])))
  {
    assert p.stage.cur in Held(p.stage);
  }

  lemma EnqueueDoneQuiet(g: Plan, st: Store, p: Proc)
    requires ProcShape(g, st, p) && p.stage.Enqueueing? && p.stage.todo == []
    ensures LocallyQuiet(g, st, p, To(st, p, Done))
  {
  }

  lemma LoopDoneQuiet(g: Plan, st: Store, p: Proc)
    requires ProcShape(g, st, p) && p.stage.Decrementing? && p.stage.left == []
    ensures LocallyQuiet(g, st, p, To(st, p, Enqueueing(p.stage.ready)))
  {
  }

  lemma SetJobIdQuiet(g: Plan, st: Store, p: Proc, jobId: JobId)
    requires ProcShape(g, st, p) && p.stage.Enqueueing? && p.stage.todo != []
    requires Claims(p, p.stage.todo[0]) <= 1
    ensures LocallyQuiet(g, st, p, To(st.SetJobId(p.stage.todo[0], jobId), p, Adding(p.stage.todo, jobId)))
  {
    assert p.stage.todo[0] in Held(p.stage);
  }

  /* The nodes a process holds */

  lemma NothingHeld(g: Plan, st: Store, stage: Stage)
    requires Held(stage) == []
    ensures HeldOk(g, st, stage)
  {
  }

  // Moving on with the same nodes held and the store unchanged.
  lemma SameHeld(g: Plan, st: Store, a: Stage, b: Stage)
    requires HeldOk(g, st, a) && Held(b) == Held(a)
    requires forall n :: n in Held(a) ==> HeldKeys(b, n) == HeldKeys(a, n)
    ensures HeldOk(g, st, b)
  {
  }

  lemma CurIsKnown(g: Plan, st: Store, p: Proc)
    requires Fixed(g, st) && HeldOk(g, st, p.stage) && p.stage.FetchingNode?
    ensures p.stage.cur in st.nodes
  {
    assert p.stage.cur in Held(p.stage);
  }

  lemma CurIsSingle(p: Proc)
    requires p.stage.MarkingReady? && Claims(p, p.stage.cur) <= 1
    ensures p.stage.cur !in p.stage.ready
  {
    assert Held(p.stage) == p.stage.ready + [p.stage.cur];
  }

  lemma PromotedHeld(g: Plan, st: Store, cur: Id, left: seq<Id>, ready: seq<Id>)
    requires HeldOk(g, st, MarkingReady(cur, left, ready)) && cur !in ready
    ensures HeldOk(g, st.SetStatus(cur, Ready), Decrementing(left, ready + [cur]))
  {
    assert cur in Held(MarkingReady(cur, left, ready));
    forall n | n in ready + [cur] ensures n in g.ids && KeysOf(st.SetStatus(cur, Ready), n) == PROMOTED {
      assert n in Held(MarkingReady(cur, left, ready));
    }
  }

  lemma AssignedHeld(g: Plan, st: Store, p: Proc, jobId: JobId)
    requires HeldOk(g, st, p.stage) && p.stage.Enqueueing? && p.stage.todo != []
    ensures HeldOk(g, st.SetJobId(p.stage.todo[0], jobId), Adding(p.stage.todo, jobId))
  {
  }

  lemma HandlerStepQuiet(g: Plan, st: Store, p: Proc, c: Choice)
    requires Fixed(g, st) && ProcOk(g, st, p) && HandlerStep(st, p, c).Some? && QuietStage(p.stage)
    requires p.stage.FetchingNode? || p.stage.MarkingReady? || p.stage.Enqueueing? || p.stage.Decrementing?
    requires forall m :: Claims(p, m) <= 1
    ensures LocallyQuiet(g, st, p, HandlerStep(st, p, c).value)
    ensures HeldOk(g, HandlerStep(st, p, c).value.store, HandlerStep(st, p, c).value.proc.stage)
  {
    if p.stage.FetchingNode? {
      CurIsKnown(g, st, p);
      FetchQuiet(g, st, p);
      SameHeld(g, st, p.stage, MarkingReady(p.stage.cur, p.stage.left, p.stage.ready));
    } else if p.stage.MarkingReady? {
      PromoteQuiet(g, st, p);
      CurIsSingle(p);
      PromotedHeld(g, st, p.stage.cur, p.stage.left, p.stage.ready);
    } else if p.stage.Decrementing? {
      LoopDoneQuiet(g, st, p);
      SameHeld(g, st, p.stage, Enqueueing(p.stage.ready));
    } else if p.stage.todo == [] {
      EnqueueDoneQuiet(g, st, p);
    } else {
      SetJobIdQuiet(g, st, p, c.jobId);
      AssignedHeld(g, st, p, c.jobId);
    }
  }

  // The commands of processes that hold nothing.
  lemma FreeStepQuiet(g: Plan, st: Store, p: Proc, c: Choice)
    requires Fixed(g, st) && ProcShape(g, st, p) && Act(st, p, c).Some?
    requires InJob(p.stage) || p.stage.Exhausted? || p.stage.DeadLettered? || p.stage.MarkedFailed?
      || p.stage.Succeeded? || p.stage.StoredResult? || p.stage.MarkedCompleted?
    ensures LocallyQuiet(g, st, p, Act(st, p, c).value) && Held(p.stage) == []
  {
    if InJob(p.stage) {
      JobStepQuiet(g, st, p, c);
    } else if p.stage.Exhausted? || p.stage.DeadLettered? || p.stage.MarkedFailed? {
      FailureStepQuiet(g, st, p, c);
    } else {
      ResultStepQuiet(g, st, p, c);
    }
  }

  lemma QuietStep(g: Plan, st: Store, p: Proc, c: Choice)
    requires Fixed(g, st) && ProcOk(g, st, p) && Act(st, p, c).Some? && QuietStage(p.stage)
    requires forall m :: Claims(p, m) <= 1
    ensures var f := Act(st, p, c).value; LocallyQuiet(g, st, p, f) && HeldOk(g, f.store, f.proc.stage)
  {
    if p.stage.FetchingNode? || p.stage.MarkingReady? || p.stage.Enqueueing? || p.stage.Decrementing? {
      HandlerStepQuiet(g, st, p, c);
    } else {
      FreeStepQuiet(g, st, p, c);
      var f := Act(st, p, c).value;
      NothingHeld(g, f.store, f.proc.stage);
    }
  }

  lemma QuietEvent(g: Plan, s: State, i: nat, c: Choice)
    requires Inv(g, s) && Enabled(s, Step(i, c)) && QuietStage(s.procs[i].stage)
    ensures Inv(g, Next(s, Step(i, c)))
  {
    var p := s.procs[i];
    forall m ensures Claims(p, m) <= 1 {
      if Claims(p, m) > 0 { SoleClaim(g, s, i, m); }
    }
    QuietStep(g, s.store, p, c);
    var f := Act(s.store, p, c).value;
    assert s.procs[i := f.proc] + [] == s.procs[i := f.proc];
    QuietMove(g, s, i, f.proc, f.store, Target(p), s.dlq + f.letters);
  }

  /** A counter equals the decrements still owed by existing jobs plus the dependencies that
      have no job yet; so it is never negative, and it is zero exactly when every dependency's
      handler has carried out all of its decrements. */
  lemma CounterMeaning(g: Plan, s: State, n: Id)
    requires PlanOk(g) && Inv(g, s) && n in g.ids
    ensures s.store.Counter(n) == OwedOn(g, s.procs, n) + Missing(s.procs, g.Deps(n)) >= 0
    ensures OwedOn(g, s.procs, n) <= s.store.Counter(n)
    ensures s.store.Counter(n) == 0 <==>
      && (forall d :: d in g.Deps(n) ==> JobsFor(s.procs, d) == 1)
      && (forall i :: 0 <= i < |s.procs| ==> n !in Left(g, s.procs[i]))
  {
    assert CounterOk(g, s, n);
    DependenciesConserved(g, s.procs, n);
    forall d | d in g.Deps(n) ensures JobsFor(s.procs, d) <= 1 {
      assert ClaimOk(s, d);
      JobsAreClaims(s.procs, d);
    }
    MissingIsNatural(s.procs, g.Deps(n));
    OwedZero(g, s.procs, n);
  }

  lemma {:induction false} OwedAtLeast(g: Plan, procs: seq<Proc>, i: nat, n: Id)
    requires i < |procs|
    ensures Owed(g, procs[i], n) <= OwedOn(g, procs, n)
  {
    if i < |procs| - 1 {
      OwedAtLeast(g, procs[..|procs| - 1], i, n);
    }
  }

  /* ---- DECR ---- */

  // Before a decrement of n, its counter is positive and nobody claims n yet.
  lemma OwedMeansPending(g: Plan, s: State, i: nat, n: Id)
    requires PlanOk(g) && Inv(g, s) && i < |s.procs| && n in Left(g, s.procs[i])
    ensures n in g.ids && s.store.Counter(n) >= 1
    ensures ClaimsOn(s.procs, n) == 0 && KeysOf(s.store, n) == UNTOUCHED
    ensures forall j :: 0 <= j < |s.procs| ==> Claims(s.procs[j], n) == 0
  {
    var p := s.procs[i];
    assert ProcOk(g, s.store, p);
    assert n in g.Dependents(p.node.value);
    CounterMeaning(g, s, n);
    OwedAtLeast(g, s.procs, i, n);
    assert ClaimOk(s, n);
    forall j | 0 <= j < |s.procs| ensures Claims(s.procs[j], n) == 0 {
      ClaimsAtLeast(s.procs, j, n);
    }
  }

  // What a decrement of cur = left[0] does, seen from its process alone.
  ghost predicate LocallyDecr(g: Plan, st: Store, p: Proc, f: Effect, cur: Id) {
    && f.spawned == [] && f.letters == []
    && f.store == st.Decr(cur)
    && f.proc.node == p.node
    && Left(g, p) == [cur] + Left(g, f.proc)
    && Held(f.proc.stage) == Held(p.stage) + if st.Counter(cur) == 1 then [cur] else []
  }

  lemma DecrLocally(g: Plan, st: Store, p: Proc)
    requires ProcOk(g, st, p) && p.stage.Decrementing? && p.stage.left != []
    ensures LocallyDecr(g, st, p, HandlerStep(st, p, Go).value, p.stage.left[0])
  {
    var left := p.stage.left;
    assert left == [left[0]] + left[1..];
  }

  lemma DecrCounts(g: Plan, s: State, i: nat, f: Effect, cur: Id, m: Id)
    requires CountsOk(g, s) && i < |s.procs| && m in g.ids && cur in g.ids
    requires s.store.Counter(cur) >= 1 && LocallyDecr(g, s.store, s.procs[i], f, cur)
    ensures CounterOk(g, State(f.store, s.procs[i := f.proc], s.dlq), m)
    ensures ClaimOk(State(f.store, s.procs[i := f.proc], s.dlq), m)
  {
    var p := s.procs[i];
    ClaimsUpdate(s.procs, i, f.proc, m);
    DecrsUpdate(g, s.procs, i, f.proc, m);
    assert CounterOk(g, s, m) && ClaimOk(s, m);
    assert KeysOf(f.store, m) == KeysOf(s.store, m);
    assert f.store.Counter(m) == s.store.Counter(m) - if m == cur then 1 else 0;
    assert Owed(g, p, m) == Owed(g, f.proc, m) + if m == cur then 1 else 0;
  }

  lemma DecrProcOk(g: Plan, st: Store, p: Proc)
    requires ProcOk(g, st, p) && p.stage.Decrementing? && p.stage.left != []
    requires p.stage.left[0] in g.ids && Claims(p, p.stage.left[0]) == 0
    requires KeysOf(st, p.stage.left[0]) == UNTOUCHED
    ensures ProcOk(g, st, HandlerStep(st, p, Go).value.proc)
  {
    var left, ready := p.stage.left, p.stage.ready;
    var q := HandlerStep(st, p, Go).value.proc;
    assert Left(g, q) == left[1..];
    assert OwnKeys(q, KeysOf(st, p.node.value));
    forall n | n in Held(q.stage) ensures n in g.ids && KeysOf(st, n) == HeldKeys(q.stage, n) {
      if n in ready {
        assert n in Held(p.stage);
        assert Claims(p, n) > 0;
      }
    }
  }

  lemma DecrEvent(g: Plan, s: State, i: nat)
    requires PlanOk(g) && Inv(g, s) && i < |s.procs|
    requires s.procs[i].stage.Decrementing? && s.procs[i].stage.left != []
    ensures var f := HandlerStep(s.store, s.procs[i], Go).value;
      Inv(g, State(f.store, s.procs[i := f.proc], s.dlq))
  {
    var p := s.procs[i];
    assert ProcOk(g, s.store, p);
    var cur := p.stage.left[0];
    assert cur in Left(g, p);
    OwedMeansPending(g, s, i, cur);
    DecrLocally(g, s.store, p);
    DecrProcOk(g, s.store, p);
    DecrKeepsInv(g, s, i, HandlerStep(s.store, p, Go).value, cur);
  }

  lemma DecrKeepsInv(g: Plan, s: State, i: nat, f: Effect, cur: Id)
    requires Inv(g, s) && i < |s.procs| && cur in g.ids && ProcOk(g, s.store, f.proc)
    requires s.store.Counter(cur) >= 1 && LocallyDecr(g, s.store, s.procs[i], f, cur)
    ensures Inv(g, State(f.store, s.procs[i := f.proc], s.dlq))
  {
    DecrCountsAll(g, s, i, f, cur);
    DecrProcs(g, s, i, f.proc, cur);
  }

  lemma DecrCountsAll(g: Plan, s: State, i: nat, f: Effect, cur: Id)
    requires CountsOk(g, s) && Fixed(g, s.store) && i < |s.procs| && cur in g.ids
    requires s.store.Counter(cur) >= 1 && LocallyDecr(g, s.store, s.procs[i], f, cur)
    ensures Fixed(g, f.store)
    ensures CountsOk(g, State(f.store, s.procs[i := f.proc], s.dlq))
  {
    forall m | m in g.ids
      ensures CounterOk(g, State(f.store, s.procs[i := f.proc], s.dlq), m)
      ensures ClaimOk(State(f.store, s.procs[i := f.proc], s.dlq), m)
    {
      DecrCounts(g, s, i, f, cur, m);
    }
  }

  // A decrement writes no key a process relies on.
  lemma DecrProcs(g: Plan, s: State, i: nat, q: Proc, cur: Id)
    requires forall j :: 0 <= j < |s.procs| ==> ProcOk(g, s.store, s.procs[j])
    requires i < |s.procs| && ProcOk(g, s.store, q)
    ensures forall p :: p in s.procs[i := q] ==> ProcOk(g, s.store.Decr(cur), p)
  {
    forall p | p in s.procs[i := q] ensures ProcOk(g, s.store.Decr(cur), p) {
      assert ProcOk(g, s.store, p);
      SameKeysProc(g, s.store, s.store.Decr(cur), p);
    }
  }

  /* ---- queue.add ---- */

  // Enqueueing n hands the claim on it from process p (now q) to the new job.
  ghost predicate LocallyAdd(g: Plan, p: Proc, q: Proc, job: Proc, n: Id) {
    && q.node == p.node && Left(g, q) == Left(g, p)
    && Held(p.stage) == [n] + Held(q.stage)
    && job.node == Some(n) && job.stage.Waiting?
  }

  lemma AddCounts(g: Plan, s: State, i: nat, q: Proc, job: Proc, n: Id, m: Id)
    requires CountsOk(g, s) && i < |s.procs| && m in g.ids && LocallyAdd(g, s.procs[i], q, job, n)
    ensures CounterOk(g, State(s.store, s.procs[i := q] + [job], s.dlq), m)
    ensures ClaimOk(State(s.store, s.procs[i := q] + [job], s.dlq), m)
  {
    ClaimsUpdate(s.procs, i, q, m);
    DecrsUpdate(g, s.procs, i, q, m);
    CountsAppend(g, s.procs[i := q], job, m);
    assert CounterOk(g, s, m) && ClaimOk(s, m);
    assert Claims(q, m) + Claims(job, m) == Claims(s.procs[i], m);
    assert Decrs(g, job, m) == 0;
  }

  lemma AddProcsOk(g: Plan, st: Store, p: Proc)
    requires ProcOk(g, st, p) && p.stage.Adding? && Claims(p, p.stage.todo[0]) <= 1
    ensures p.stage.todo != [] && ProcOk(g, st, AddedJob(p)) && ProcOk(g, st, AddedProc(p))
  {
    var todo := p.stage.todo;
    assert todo[0] in Held(p.stage);
    assert todo == [todo[0]] + todo[1..];
    assert todo[0] !in todo[1..];
    var q := p.(stage := Enqueueing(todo[1..]));
    assert p.node.Some? ==> OwnKeys(q, KeysOf(st, p.node.value));
    forall n | n in Held(q.stage) ensures n in g.ids && KeysOf(st, n) == HeldKeys(q.stage, n) {
      assert n in Held(p.stage);
    }
  }

  function AddedProc(p: Proc): Proc
    requires p.stage.Adding? && p.stage.todo != []
  {
    p.(stage := Enqueueing(p.stage.todo[1..]))
  }

  function AddedJob(p: Proc): Proc
    requires p.stage.Adding? && p.stage.todo != []
  {
    NewJob(p.stage.jobId, Some(p.stage.todo[0]))
  }

  lemma AddLocally(g: Plan, p: Proc)
    requires p.stage.Adding? && p.stage.todo != []
    ensures LocallyAdd(g, p, AddedProc(p), AddedJob(p), p.stage.todo[0])
    ensures Claims(p, p.stage.todo[0]) > 0
  {
    assert p.stage.todo == [p.stage.todo[0]] + p.stage.todo[1..];
  }

  lemma AddEvent(g: Plan, s: State, i: nat)
    requires Inv(g, s) && i < |s.procs| && s.procs[i].stage.Adding? && s.procs[i].stage.todo != []
    ensures Inv(g, State(s.store, s.procs[i := AddedProc(s.procs[i])] + [AddedJob(s.procs[i])], s.dlq))
  {
    var p := s.procs[i];
    assert ProcOk(g, s.store, p);
    AddLocally(g, p);
    SoleClaim(g, s, i, p.stage.todo[0]);
    AddProcsOk(g, s.store, p);
    AddKeepsInv(g, s, i, AddedProc(p), AddedJob(p), p.stage.todo[0]);
  }

  lemma AddKeepsInv(g: Plan, s: State, i: nat, q: Proc, job: Proc, n: Id)
    requires Inv(g, s) && i < |s.procs| && LocallyAdd(g, s.procs[i], q, job, n)
    requires ProcOk(g, s.store, q) && ProcOk(g, s.store, job)
    ensures Inv(g, State(s.store, s.procs[i := q] + [job], s.dlq))
  {
    AddCountsAll(g, s, i, q, job, n);
    AddProcsAllOk(g, s, i, q, job);
  }

  lemma AddCountsAll(g: Plan, s: State, i: nat, q: Proc, job: Proc, n: Id)
    requires CountsOk(g, s) && i < |s.procs| && LocallyAdd(g, s.procs[i], q, job, n)
    ensures CountsOk(g, State(s.store, s.procs[i := q] + [job], s.dlq))
  {
    forall m | m in g.ids
      ensures CounterOk(g, State(s.store, s.procs[i := q] + [job], s.dlq), m)
      ensures ClaimOk(State(s.store, s.procs[i := q] + [job], s.dlq), m)
    {
      AddCounts(g, s, i, q, job, n, m);
    }
  }

  lemma AddProcsAllOk(g: Plan, s: State, i: nat, q: Proc, job: Proc)
    requires forall j :: 0 <= j < |s.procs| ==> ProcOk(g, s.store, s.procs[j])
    requires i < |s.procs| && ProcOk(g, s.store, q) && ProcOk(g, s.store, job)
    ensures forall p :: p in s.procs[i := q] + [job] ==> ProcOk(g, s.store, p)
  {
  }

  /* ---- Operator actions ---- */

  lemma RetryEvent(g: Plan, s: State, k: nat, jobId: JobId)
    requires Inv(g, s) && Enabled(s, Retry(k, jobId))
    ensures Inv(g, Next(s, Retry(k, jobId)))
  {
    var t := Next(s, Retry(k, jobId));
    forall m | m in g.ids ensures CounterOk(g, t, m) && ClaimOk(t, m) {
      RetryCounts(g, s, NewJob(jobId, None), m);
    }
    RetriedOk(g, s.store, jobId);
    forall j | 0 <= j < |t.procs| ensures ProcOk(g, t.store, t.procs[j]) {
      if j < |s.procs| { assert t.procs[j] == s.procs[j]; }
    }
  }

  lemma RetryCounts(g: Plan, s: State, job: Proc, m: Id)
    requires CounterOk(g, s, m) && ClaimOk(s, m) && job.node.None? && Held(job.stage) == []
    ensures CounterOk(g, s.(procs := s.procs + [job]), m) && ClaimOk(s.(procs := s.procs + [job]), m)
  {
    CountsAppend(g, s.procs, job, m);
  }

  lemma RetriedOk(g: Plan, st: Store, jobId: JobId)
    ensures ProcOk(g, st, NewJob(jobId, None))
  {
  }

  lemma DiscardEvent(g: Plan, s: State, k: nat)
    requires Inv(g, s) && Enabled(s, Discard(k))
    ensures Inv(g, Next(s, Discard(k)))
  {
    var t := Next(s, Discard(k));
    forall m | m in g.ids ensures CounterOk(g, t, m) && ClaimOk(t, m) {
      assert CounterOk(g, s, m) && ClaimOk(s, m);
    }
  }

  // queue.add and DECR, as the transition system performs them.
  lemma AddIsNext(s: State, i: nat, c: Choice)
    requires Enabled(s, Step(i, c)) && s.procs[i].stage.Adding?
    ensures s.procs[i].stage.todo != []
    ensures Next(s, Step(i, c)) ==
      State(s.store, s.procs[i := AddedProc(s.procs[i])] + [AddedJob(s.procs[i])], s.dlq)
  {
    assert s.dlq + [] == s.dlq;
  }

  lemma DecrIsNext(s: State, i: nat, c: Choice)
    requires Enabled(s, Step(i, c)) && s.procs[i].stage.Decrementing? && s.procs[i].stage.left != []
    ensures HandlerStep(s.store, s.procs[i], Go).Some?
    ensures var f := HandlerStep(s.store, s.procs[i], Go).value;
      Next(s, Step(i, c)) == State(f.store, s.procs[i := f.proc], s.dlq)
  {
    var f := HandlerStep(s.store, s.procs[i], Go).value;
    assert s.dlq + [] == s.dlq && s.procs[i := f.proc] + [] == s.procs[i := f.proc];
  }

  lemma StepKeepsInv(g: Plan, s: State, i: nat, c: Choice)
    requires PlanOk(g) && Inv(g, s) && Enabled(s, Step(i, c))
    ensures Inv(g, Next(s, Step(i, c)))
  {
    if s.procs[i].stage.Adding? {
      AddIsNext(s, i, c);
      AddEvent(g, s, i);
    } else if QuietStage(s.procs[i].stage) {
      QuietEvent(g, s, i, c);
    } else {
      DecrIsNext(s, i, c);
      DecrEvent(g, s, i);
    }
  }

  /** Every step of every process, and every operator action, keeps the invariant. */
  lemma EventKeepsInv(g: Plan, s: State, e: Event)
    requires PlanOk(g) && Inv(g, s) && Enabled(s, e)
    ensures Inv(g, Next(s, e))
  {
    match e
    case Step(i, c) => StepKeepsInv(g, s, i, c);
    case Retry(k, jobId) => RetryEvent(g, s, k, jobId);
    case Discard(k) => DiscardEvent(g, s, k);
  }

  lemma {:induction false} TraceKeepsInv(g: Plan, s: State, events: seq<Event>, t: State)
    requires PlanOk(g) && Inv(g, s) && Trace(s, events, t)
    ensures Inv(g, t)
    decreases |events|
  {
    if events != [] {
      EventKeepsInv(g, s, events[0]);
      TraceKeepsInv(g, Next(s, events[0]), events[1..], t);
    }
  }

  lemma LeadsKeepsInv(g: Plan, s: State, t: State)
    requires PlanOk(g) && Inv(g, s) && Leads(s, t)
    ensures Inv(g, t)
  {
    var events :| Trace(s, events, t);
    TraceKeepsInv(g, s, events, t);
  }

  /** The invariant holds in every reachable state, crashes and retries included. */
  lemma ReachableInv(nodes: seq<DagNode>, s: State)
    requires WellFormed(nodes) && Reachable(nodes, s)
    ensures PlanOk(PlanOf(nodes)) && Inv(PlanOf(nodes), s)
  {
    PlanOfOk(nodes);
    InitInv(nodes);
    LeadsKeepsInv(PlanOf(nodes), Init(nodes), s);
  }
}
