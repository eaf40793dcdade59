/** What the attempts of a run returned or threw, read off its events, and how that reaches the
    stored results, the inputs of dependents, the failure reasons and the dead-letter queue. */
module DagHistory {
  import opened Wrappers
  import opened Graphs
  import opened TaskGraph
  import opened DagStore
  import opened DagProtocol
  import opened DagCounting
  import opened DagInvariant
  import opened DagSafety
  import opened DagProgress
  import opened DagConfluence

  /* ---- The attempts of one job ---- */

  // How the attempts of process i ended, in order.
  function Attempts(events: seq<Event>, i: nat): seq<Choice> {
    if events == [] then []
    else
      var e := events[|events| - 1];
      Attempts(events[..|events| - 1], i) +
        if e.Step? && e.i == i && (e.choice.Succeed? || e.choice.Fail?) then [e.choice] else []
  }

  ghost predicate AllFail(h: seq<Choice>) {
    forall k :: 0 <= k < |h| ==> h[k].Fail?
  }

  // All attempts but the last threw, and the last returned v.
  ghost predicate EndsWith(h: seq<Choice>, v: Json) {
    h != [] && h[|h| - 1] == Succeed(v) && AllFail(h[..|h| - 1])
  }

  // Three attempts threw, the last with this reason.
  ghost predicate GaveUp(h: seq<Choice>, reason: string) {
    |h| == 3 && AllFail(h) && h[2] == Fail(reason)
  }

  function ReasonOf(stage: Stage): Option<string> {
    if stage.Exhausted? || stage.DeadLettered? || stage.MarkedFailed? || stage.FailedDone? then Some(stage.reason) else None
  }

  // A process stands where its attempts put it.
  ghost predicate MatchesAttempts(p: Proc, h: seq<Choice>) {
    && |h| == p.made
    && (p.outcome.Some? ==> EndsWith(h, p.outcome.value) && HasSucceeded(p.stage))
    && (p.outcome.None? ==> AllFail(h))
    && (InJob(p.stage) ==> p.outcome.None? && p.made < 3)
    && (HasFailed(p.stage) ==> GaveUp(h, p.stage.reason))
  }

  // An attempt that throws.
  lemma FailShape(st: Store, p: Proc, c: Choice)
    requires Act(st, p, c).Some? && c.Fail?
    ensures InJob(p.stage)
    ensures Act(st, p, c).value.proc == p.(made := p.made + 1, stage := if p.made + 1 >= 3 then Exhausted(c.reason) else Waiting)
  {
  }

  // An attempt that returns a value.
  lemma SuccessShape(st: Store, p: Proc, c: Choice)
    requires Act(st, p, c).Some? && c.Succeed?
    ensures InJob(p.stage)
    ensures Act(st, p, c).value.proc == p.(made := p.made + 1, outcome := Some(c.value), stage := Succeeded)
  {
  }

  // Any other command.
  lemma OtherShape(st: Store, p: Proc, c: Choice)
    requires Act(st, p, c).Some? && !c.Fail? && !c.Succeed?
    ensures var q := Act(st, p, c).value.proc;
      && q == p.(stage := q.stage)
      && (InJob(q.stage) ==> InJob(p.stage))
      && (HasSucceeded(p.stage) <==> HasSucceeded(q.stage))
      && ReasonOf(q.stage) == ReasonOf(p.stage)
  {
  }

  /** The environment is unrestricted: a started attempt may throw at any of its commands with any
      reason, and one at the model call may return any value. */
  lemma AnyAttemptMayEnd(st: Store, p: Proc, reason: string, v: Json)
    ensures InJob(p.stage) && !p.stage.Waiting? ==> Act(st, p, Fail(reason)).Some?
    ensures p.stage.Working? ==> Act(st, p, Succeed(v)).Some?
  {
  }

  /** Operators are free too: any dead letter may be retried, which only adds a job of no node,
      or discarded. */
  lemma OperatorsMayAct(s: State, k: nat, jobId: JobId)
    requires k < |s.dlq|
    ensures Enabled(s, Retry(k, jobId)) && Enabled(s, Discard(k))
    ensures Next(s, Retry(k, jobId)) == s.(procs := s.procs + [NewJob(jobId, None)])
    ensures var t := Next(s, Discard(k)); t.store == s.store && t.procs == s.procs && |t.dlq| == |s.dlq| - 1
  {
  }

  lemma ActMatchesAttempts(st: Store, p: Proc, c: Choice, h: seq<Choice>)
    requires Act(st, p, c).Some? && MatchesAttempts(p, h)
    ensures MatchesAttempts(Act(st, p, c).value.proc, h + if c.Succeed? || c.Fail? then [c] else [])
  {
    if c.Fail? {
      FailShape(st, p, c);
    } else if c.Succeed? {
      SuccessShape(st, p, c);
      assert (h + [c])[..|h|] == h;
    } else {
      OtherShape(st, p, c);
      assert h + [] == h;
    }
  }

  // The last step of a run.
  lemma {:induction false} LastStep(s: State, events: seq<Event>, t: State) returns (m: State)
    requires Trace(s, events, t) && events != []
    ensures var k := |events| - 1;
      Trace(s, events[..k], m) && Enabled(m, events[k]) && Next(m, events[k]) == t
    decreases |events|
  {
    var k := |events| - 1;
    if k == 0 {
      m := s;
    } else {
      m := LastStep(Next(s, events[0]), events[1..], t);
      assert events[1..][..k - 1] == events[..k][1..];
    }
  }

  lemma {:induction false} RunMatchesAttempts(nodes: seq<DagNode>, events: seq<Event>, t: State, i: nat)
    requires Trace(Init(nodes), events, t)
    ensures if i < |t.procs| then MatchesAttempts(t.procs[i], Attempts(events, i)) else Attempts(events, i) == []
    decreases |events|
  {
    if events != [] {
      var k := |events| - 1;
      var m := LastStep(Init(nodes), events, t);
      RunMatchesAttempts(nodes, events[..k], m, i);
      StepMatchesAttempts(m, events[k], i, Attempts(events[..k], i));
    }
  }

  lemma StepMatchesAttempts(s: State, e: Event, i: nat, h: seq<Choice>)
    requires Enabled(s, e)
    requires if i < |s.procs| then MatchesAttempts(s.procs[i], h) else h == []
    ensures var t := Next(s, e);
      var h' := h + if e.Step? && e.i == i && (e.choice.Succeed? || e.choice.Fail?) then [e.choice] else [];
      if i < |t.procs| then MatchesAttempts(t.procs[i], h') else h' == []
  {
    assert h + [] == h;
    if e.Step? && e.i == i {
      ActMatchesAttempts(s.store, s.procs[i], e.choice, h);
    } else if i >= |s.procs| && i < |Next(s, e).procs| {
      NewProcIsFresh(s, e, i);
    }
  }

  lemma NewProcIsFresh(s: State, e: Event, i: nat)
    requires Enabled(s, e) && |s.procs| <= i < |Next(s, e).procs|
    ensures MatchesAttempts(Next(s, e).procs[i], [])
  {
  }

  /* ---- What is stored is what the attempts produced ---- */

  // n's job returned v in this run.
  ghost predicate JobReturned(events: seq<Event>, t: State, n: Id, v: Json) {
    exists i :: 0 <= i < |t.procs| && t.procs[i].node == Some(n) && EndsWith(Attempts(events, i), v)
  }

  // n's job threw three times in this run, the last time with this reason.
  ghost predicate JobGaveUp(events: seq<Event>, t: State, n: Id, reason: string) {
    exists i :: 0 <= i < |t.procs| && t.procs[i].node == Some(n) && GaveUp(Attempts(events, i), reason)
  }

  // A node with a result or failed status has a job, and its keys say where that job stands.
  lemma OwnerOf(g: Plan, s: State, n: Id) returns (i: nat)
    requires Inv(g, s) && n in g.ids
    requires var k := KeysOf(s.store, n); k.result.Some? || k.failure.Some? || k.status == Some(Failed)
    ensures i < |s.procs| && s.procs[i].node == Some(n) && OwnKeys(s.procs[i], KeysOf(s.store, n))
  {
    assert ClaimOk(s, n);
    i := ClaimedBySomeone(s.procs, n);
    OwnsItsKeys(g, s, i, n);
  }

  lemma OwnsItsKeys(g: Plan, s: State, i: nat, n: Id)
    requires Inv(g, s) && i < |s.procs| && Claims(s.procs[i], n) > 0
    requires var k := KeysOf(s.store, n); k.result.Some? || k.failure.Some? || k.status == Some(Failed)
    ensures s.procs[i].node == Some(n) && OwnKeys(s.procs[i], KeysOf(s.store, n))
  {
    assert ProcOk(g, s.store, s.procs[i]);
  }

  lemma OwnResult(p: Proc, k: NodeKeys)
    requires OwnKeys(p, k)
    ensures k.result.Some? ==> p.outcome == k.result
    ensures k.status == Some(Completed) ==> k.result == p.outcome
    ensures k.status == Some(Failed) ==> HasFailed(p.stage)
    ensures k.failure.Some? ==> ReasonOf(p.stage) == k.failure
  {
  }

  // A job's attempts end with v exactly if v is its outcome.
  lemma OutcomeIsReturned(p: Proc, h: seq<Choice>, v: Json)
    requires MatchesAttempts(p, h)
    ensures EndsWith(h, v) <==> p.outcome == Some(v)
  {
  }

  lemma CompletedResult(nodes: seq<DagNode>, events: seq<Event>, t: State, i: nat, n: Id, v: Json)
    requires WellFormed(nodes) && Trace(Init(nodes), events, t) && KeysOf(t.store, n).status == Some(Completed)
    requires i < |t.procs| && t.procs[i].node == Some(n) && EndsWith(Attempts(events, i), v)
    ensures t.store.Result(n) == Some(v)
  {
    ReachableInv(nodes, t);
    OwnJob(PlanOf(nodes), t, i, n);
    OwnResult(t.procs[i], KeysOf(t.store, n));
    RunMatchesAttempts(nodes, events, t, i);
    OutcomeIsReturned(t.procs[i], Attempts(events, i), v);
  }

  /** A stored result is the value the node's own job returned, after however many failed
      attempts; and once the node is completed, what its job returned is what is stored. */
  lemma ResultIsReturned(nodes: seq<DagNode>, events: seq<Event>, t: State, n: Id, v: Json)
    requires WellFormed(nodes) && Trace(Init(nodes), events, t) && n in IdsOf(nodes)
    ensures t.store.Result(n) == Some(v) ==> JobReturned(events, t, n, v)
    ensures KeysOf(t.store, n).status == Some(Completed) ==>
      (t.store.Result(n) == Some(v) <==> JobReturned(events, t, n, v))
  {
    ReachableInv(nodes, t);
    if t.store.Result(n) == Some(v) {
      var i := OwnerOf(PlanOf(nodes), t, n);
      OwnResult(t.procs[i], KeysOf(t.store, n));
      RunMatchesAttempts(nodes, events, t, i);
      OutcomeIsReturned(t.procs[i], Attempts(events, i), v);
    }
    if KeysOf(t.store, n).status == Some(Completed) && JobReturned(events, t, n, v) {
      var i :| 0 <= i < |t.procs| && t.procs[i].node == Some(n) && EndsWith(Attempts(events, i), v);
      CompletedResult(nodes, events, t, i, n, v);
    }
  }

  /** Whenever n has a job, or a process about to enqueue it, every proper ancestor is completed
      and its stored result is the value its job returned. */
  lemma AncestorsReturned(nodes: seq<DagNode>, events: seq<Event>, t: State, a: Id, n: Id) returns (v: Json)
    requires WellFormed(nodes) && Trace(Init(nodes), events, t) && n in IdsOf(nodes)
    requires ClaimsOn(t.procs, n) > 0 && Ancestor(EdgesOf(nodes), a, n)
    ensures KeysOf(t.store, a).status == Some(Completed)
    ensures t.store.Result(a) == Some(v) && JobReturned(events, t, a, v)
  {
    ResultsAreReady(nodes, t, a, n);
    AncestorIsNode(nodes, a, n);
    v := t.store.Result(a).value;
    ResultIsReturned(nodes, events, t, a, v);
  }

  lemma AncestorIsNode(nodes: seq<DagNode>, a: Id, n: Id)
    requires WellFormed(nodes) && Ancestor(EdgesOf(nodes), a, n)
    ensures a in IdsOf(nodes)
  {
    var c :| (a, c) in EdgesOf(nodes) && Reach(EdgesOf(nodes), c, n);
    var m :| m in nodes && a in m.dependsOn && m.id == c;
  }

  /** A job at work on n, on every attempt, was handed exactly its declared dependencies' results,
      each the value that the dependency's own job returned. */
  lemma InputsWereReturned(nodes: seq<DagNode>, events: seq<Event>, t: State, i: nat, n: Id)
    requires WellFormed(nodes) && Trace(Init(nodes), events, t)
    requires i < |t.procs| && t.procs[i].node == Some(n) && t.procs[i].stage.Working?
    ensures t.procs[i].stage.inputs.Keys == set d | d in DepsOf(nodes, n)
    ensures forall d :: d in t.procs[i].stage.inputs ==>
      var input := t.procs[i].stage.inputs[d]; input.Some? && JobReturned(events, t, d, input.value)
  {
    ReachableInv(nodes, t);
    ReachableInputs(nodes, t);
    OwnJob(PlanOf(nodes), t, i, n);
    assert InputsOk(PlanOf(nodes), t.store, t.procs[i]);
    forall d | d in t.procs[i].stage.inputs
      ensures t.procs[i].stage.inputs[d].Some? && JobReturned(events, t, d, t.procs[i].stage.inputs[d].value)
    {
      assert d in DepsOf(nodes, n);
      EdgeIsDep(nodes, d, n);
      AncestorEdge(EdgesOf(nodes), d, n);
      AncestorIsNode(nodes, d, n);
      ResultIsReturned(nodes, events, t, d, t.procs[i].stage.inputs[d].value);
    }
  }

  /** A failed node's job threw on each of its three attempts, and the stored reason is that of
      the last; and such a job always leads to `failed` once its listener has run. */
  lemma FailureIsGivenUp(nodes: seq<DagNode>, events: seq<Event>, t: State, n: Id)
    requires WellFormed(nodes) && Trace(Init(nodes), events, t) && n in IdsOf(nodes)
    ensures KeysOf(t.store, n).status == Some(Failed) ==> exists r :: JobGaveUp(events, t, n, r)
    ensures forall r :: KeysOf(t.store, n).failure == Some(r) ==> JobGaveUp(events, t, n, r)
  {
    ReachableInv(nodes, t);
    var k := KeysOf(t.store, n);
    if k.status == Some(Failed) || k.failure.Some? {
      var i := OwnerOf(PlanOf(nodes), t, n);
      OwnResult(t.procs[i], k);
      RunMatchesAttempts(nodes, events, t, i);
      assert HasFailed(t.procs[i].stage);
      assert JobGaveUp(events, t, n, t.procs[i].stage.reason);
    }
  }

  /* ---- Dead letters ---- */

  // The process has been added to the dead-letter queue.
  predicate Lettered(p: Proc, x: Option<Id>) {
    p.node == x && (p.stage.DeadLettered? || p.stage.MarkedFailed? || p.stage.FailedDone?)
  }

  function LettersFor(procs: seq<Proc>, x: Option<Id>): nat {
    if procs == [] then 0
    else LettersFor(procs[..|procs| - 1], x) + if Lettered(procs[|procs| - 1], x) then 1 else 0
  }

  ghost function DiscardedIn(s: State, events: seq<Event>, x: Option<Id>): nat
    decreases |events|
  {
    if events == [] || !Enabled(s, events[0]) then 0
    else
      (if events[0].Discard? && s.dlq[events[0].k] == x then 1 else 0) + DiscardedIn(Next(s, events[0]), events[1..], x)
  }

  lemma {:induction false} LettersUpdate(procs: seq<Proc>, i: nat, q: Proc, x: Option<Id>)
    requires i < |procs|
    ensures LettersFor(procs[i := q], x) ==
      LettersFor(procs, x) - (if Lettered(procs[i], x) then 1 else 0) + if Lettered(q, x) then 1 else 0
  {
    var last := |procs| - 1;
    if i == last {
      assert procs[i := q][..last] == procs[..last];
    } else {
      assert procs[i := q][..last] == procs[..last][i := q];
      LettersUpdate(procs[..last], i, q, x);
    }
  }

  lemma {:induction false} LettersAppend(procs: seq<Proc>, more: seq<Proc>, x: Option<Id>)
    requires forall q :: q in more ==> q.stage.Waiting?
    ensures LettersFor(procs + more, x) == LettersFor(procs, x)
  {
    if more == [] {
      assert procs + more == procs;
    } else {
      var last := |more| - 1;
      LettersAppend(procs, more[..last], x);
      assert (procs + more)[..|procs + more| - 1] == procs + more[..last];
    }
  }

  lemma ActLetters(st: Store, p: Proc, c: Choice, x: Option<Id>)
    requires Act(st, p, c).Some?
    ensures var f := Act(st, p, c).value;
      multiset(f.letters)[x] + (if Lettered(p, x) then 1 else 0) == if Lettered(f.proc, x) then 1 else 0
  {
  }

  lemma LettersStep(s: State, e: Event, x: Option<Id>)
    requires Enabled(s, e)
    ensures var t := Next(s, e);
      multiset(t.dlq)[x] + (if e.Discard? && s.dlq[e.k] == x then 1 else 0) + LettersFor(s.procs, x)
        == multiset(s.dlq)[x] + LettersFor(t.procs, x)
  {
    match e
    case Step(i, c) =>
      var f := Act(s.store, s.procs[i], c).value;
      ActLetters(s.store, s.procs[i], c, x);
      ActKeepsNode(s.store, s.procs[i], c);
      LettersUpdate(s.procs, i, f.proc, x);
      LettersAppend(s.procs[i := f.proc], f.spawned, x);
    case Retry(_, jobId) =>
      LettersAppend(s.procs, [NewJob(jobId, None)], x);
    case Discard(k) =>
      assert s.dlq == s.dlq[..k] + [s.dlq[k]] + s.dlq[k + 1..];
  }

  lemma {:induction false} LettersAlong(s: State, events: seq<Event>, t: State, x: Option<Id>)
    requires Trace(s, events, t)
    ensures multiset(t.dlq)[x] + DiscardedIn(s, events, x) + LettersFor(s.procs, x)
      == multiset(s.dlq)[x] + LettersFor(t.procs, x)
    decreases |events|
  {
    if events != [] {
      LettersStep(s, events[0], x);
      LettersAlong(Next(s, events[0]), events[1..], t, x);
    }
  }

  /** No dead letter is lost or invented: every job that was given up left one, which is in the
      queue until it is discarded, and each discard takes one letter only. */
  lemma LettersConserved(nodes: seq<DagNode>, events: seq<Event>, t: State, x: Option<Id>)
    requires Trace(Init(nodes), events, t)
    ensures multiset(t.dlq)[x] + DiscardedIn(Init(nodes), events, x) == LettersFor(t.procs, x)
  {
    LettersAlong(Init(nodes), events, t, x);
    var p := Init(nodes).procs[0];
    assert Init(nodes).procs == [p] && !Lettered(p, x) && LettersFor([], x) == 0;
    assert [p][..0] == [];
  }

  /* ---- Every run has a failing set ---- */

  // The nodes whose jobs threw on all three attempts.
  ghost function GivenUp(nodes: seq<DagNode>, events: seq<Event>, t: State): set<Id> {
    set n | n in IdsOf(nodes) && exists r :: JobGaveUp(events, t, n, r)
  }

  lemma FailedIsGivenUp(g: Plan, st: Store, p: Proc, h: seq<Choice>)
    requires ProcShape(g, st, p) && p.node.Some? && MatchesAttempts(p, h)
    ensures HasFailed(p.stage) <==> exists r :: GaveUp(h, r)
  {
    if HasFailed(p.stage) { assert GaveUp(h, p.stage.reason); }
  }

  lemma ActStays(st: Store, p: Proc, c: Choice)
    requires Act(st, p, c).Some?
    ensures var q := Act(st, p, c).value.proc;
      && q.node == p.node
      && (HasSucceeded(p.stage) || c.Succeed? ==> HasSucceeded(q.stage))
      && (HasFailed(p.stage) || (c.Fail? && p.made + 1 >= MAX_ATTEMPTS) ==> HasFailed(q.stage))
  {
  }

  lemma {:induction false} EndStays(s: State, events: seq<Event>, t: State, i: nat)
    requires Trace(s, events, t) && i < |s.procs|
    ensures i < |t.procs| && t.procs[i].node == s.procs[i].node
    ensures HasSucceeded(s.procs[i].stage) ==> HasSucceeded(t.procs[i].stage)
    ensures HasFailed(s.procs[i].stage) ==> HasFailed(t.procs[i].stage)
    decreases |events|
  {
    if events != [] {
      var e := events[0];
      if e.Step? && e.i == i { ActStays(s.store, s.procs[i], e.choice); }
      EndStays(Next(s, e), events[1..], t, i);
    }
  }

  lemma {:induction false} TraceIsFTrace(F: set<Id>, s: State, events: seq<Event>, t: State)
    requires Trace(s, events, t) && forall i :: 0 <= i < |t.procs| ==> FateOk(F, t.procs[i])
    ensures FTrace(F, s, events, t)
    decreases |events|
  {
    if events != [] {
      var e := events[0];
      if e.Step? {
        ActStays(s.store, s.procs[e.i], e.choice);
        EndStays(Next(s, e), events[1..], t, e.i);
        assert FateOk(F, t.procs[e.i]);
      }
      TraceIsFTrace(F, Next(s, e), events[1..], t);
    }
  }

  lemma SameJob(g: Plan, t: State, i: nat, j: nat, n: Id)
    requires Inv(g, t) && i < |t.procs| && j < |t.procs|
    requires t.procs[i].node == Some(n) && t.procs[j].node == Some(n)
    ensures i == j
  {
    SoleClaim(g, t, i, n);
  }

  lemma GivenUpExactly(nodes: seq<DagNode>, events: seq<Event>, t: State, i: nat, n: Id)
    requires WellFormed(nodes) && Trace(Init(nodes), events, t) && i < |t.procs| && t.procs[i].node == Some(n)
    ensures n in GivenUp(nodes, events, t) <==> HasFailed(t.procs[i].stage)
  {
    ReachableInv(nodes, t);
    var g := PlanOf(nodes);
    OwnJob(g, t, i, n);
    assert ProcOk(g, t.store, t.procs[i]);
    RunMatchesAttempts(nodes, events, t, i);
    FailedIsGivenUp(g, t.store, t.procs[i], Attempts(events, i));
    if n in GivenUp(nodes, events, t) {
      var r :| JobGaveUp(events, t, n, r);
      var j :| 0 <= j < |t.procs| && t.procs[j].node == Some(n) && GaveUp(Attempts(events, j), r);
      SameJob(g, t, i, j, n);
    }
    if HasFailed(t.procs[i].stage) {
      assert JobGaveUp(events, t, n, t.procs[i].stage.reason);
    }
  }

  lemma EndIsFate(nodes: seq<DagNode>, events: seq<Event>, t: State, i: nat)
    requires WellFormed(nodes) && Trace(Init(nodes), events, t) && i < |t.procs|
    ensures FateOk(GivenUp(nodes, events, t), t.procs[i])
  {
    if t.procs[i].node.Some? {
      GivenUpExactly(nodes, events, t, i, t.procs[i].node.value);
    }
  }

  /** Every run, operators' retries included, is a run for the set of nodes whose jobs threw on
      all their attempts. */
  lemma EveryRunHasAFate(nodes: seq<DagNode>, events: seq<Event>, t: State)
    requires WellFormed(nodes) && Trace(Init(nodes), events, t)
    ensures FTrace(GivenUp(nodes, events, t), Init(nodes), events, t)
  {
    forall i | 0 <= i < |t.procs| ensures FateOk(GivenUp(nodes, events, t), t.procs[i]) {
      EndIsFate(nodes, events, t, i);
    }
    TraceIsFTrace(GivenUp(nodes, events, t), Init(nodes), events, t);
  }

  /** So the outcome theorem covers all complete runs: a node ends pending if a proper ancestor
      was given up, else failed if it was itself, else completed. */
  lemma EveryCompleteRun(nodes: seq<DagNode>, events: seq<Event>, t: State, n: Id)
    requires IsDag(nodes) && Trace(Init(nodes), events, t) && Quiet(t) && n in IdsOf(nodes)
    ensures KeysOf(t.store, n).status == Some(Fate(EdgesOf(nodes), GivenUp(nodes, events, t), n))
  {
    EveryRunHasAFate(nodes, events, t);
    FinalOutcome(nodes, GivenUp(nodes, events, t), t, n);
  }
}
