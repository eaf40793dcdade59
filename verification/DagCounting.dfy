/** Counting over the processes of a state: who may enqueue a node, and which
    decrements are done or still owed. */
module DagCounting {
  import opened Wrappers
  import opened Graphs
  import opened DagStore
  import opened DagProtocol

  // Nodes this process has found ready (or is promoting) and has not enqueued yet.
  function Held(stage: Stage): seq<Id> {
    match stage
    case Decrementing(_, ready) => ready
    case FetchingNode(cur, _, ready) => ready + [cur]
    case MarkingReady(cur, _, ready) => ready + [cur]
    case Enqueueing(todo) => todo
    case Adding(todo, _) => todo
    case _ => []
  }

  // A claim on n is a job for n, or the duty to enqueue one.
  function Claims(p: Proc, n: Id): nat {
    (if p.node == Some(n) then 1 else 0) + multiset(Held(p.stage))[n]
  }

  // The dependents this process's node still has to decrement.
  function Left(g: Plan, p: Proc): seq<Id> {
    if p.node.None? then []
    else
      match p.stage
      case Decrementing(left, _) => left
      case FetchingNode(_, left, _) => left
      case MarkingReady(_, left, _) => left
      case Enqueueing(_) | Adding(_, _) | Done => []
      case _ => g.Dependents(p.node.value)
  }

  // The decrements of n's counter that p's node is responsible for, in all.
  function Share(g: Plan, p: Proc, n: Id): nat {
    if p.node.None? then 0 else multiset(g.Dependents(p.node.value))[n]
  }

  function Owed(g: Plan, p: Proc, n: Id): nat {
    multiset(Left(g, p))[n]
  }

  // Decrements of n's counter that p has carried out.
  function Decrs(g: Plan, p: Proc, n: Id): int {
    Share(g, p, n) - Owed(g, p, n)
  }

  function ClaimsOn(procs: seq<Proc>, n: Id): nat {
    if procs == [] then 0 else ClaimsOn(procs[..|procs| - 1], n) + Claims(procs[|procs| - 1], n)
  }

  function DecrsOn(g: Plan, procs: seq<Proc>, n: Id): int {
    if procs == [] then 0
    else DecrsOn(g, procs[..|procs| - 1], n) + Decrs(g, procs[|procs| - 1], n)
  }

  function OwedOn(g: Plan, procs: seq<Proc>, n: Id): nat {
    if procs == [] then 0
    else OwedOn(g, procs[..|procs| - 1], n) + Owed(g, procs[|procs| - 1], n)
  }

  lemma {:induction false} ClaimsUpdate(procs: seq<Proc>, i: nat, q: Proc, n: Id)
    requires i < |procs|
    ensures ClaimsOn(procs[i := q], n) == ClaimsOn(procs, n) - Claims(procs[i], n) + Claims(q, n)
  {
    var last := |procs| - 1;
    assert ClaimsOn(procs[i := q], n) == ClaimsOn(procs[i := q][..last], n) + Claims(procs[i := q][last], n);
    if i == last {
      assert procs[i := q][..last] == procs[..last];
    } else {
      assert procs[i := q][..last] == procs[..last][i := q];
      ClaimsUpdate(procs[..last], i, q, n);
    }
  }

  lemma {:induction false} DecrsUpdate(g: Plan, procs: seq<Proc>, i: nat, q: Proc, n: Id)
    requires i < |procs|
    ensures DecrsOn(g, procs[i := q], n) ==
      DecrsOn(g, procs, n) - Decrs(g, procs[i], n) + Decrs(g, q, n)
  {
    var last := |procs| - 1;
    if i == last {
      assert procs[i := q][..last] == procs[..last];
    } else {
      assert procs[i := q][..last] == procs[..last][i := q];
      DecrsUpdate(g, procs[..last], i, q, n);
    }
  }

  lemma CountsAppend(g: Plan, procs: seq<Proc>, q: Proc, n: Id)
    ensures ClaimsOn(procs + [q], n) == ClaimsOn(procs, n) + Claims(q, n)
    ensures DecrsOn(g, procs + [q], n) == DecrsOn(g, procs, n) + Decrs(g, q, n)
  {
    assert (procs + [q])[..|procs|] == procs;
  }

  lemma {:induction false} OneClaimCounts(procs: seq<Proc>, i: nat, n: Id)
    requires i < |procs|
    ensures Claims(procs[i], n) <= ClaimsOn(procs, n)
  {
    var last := |procs| - 1;
    if i < last { OneClaimCounts(procs[..last], i, n); }
  }

  lemma TwoClaimsCount(procs: seq<Proc>, i: nat, j: nat, n: Id)
    requires i < |procs| && j < |procs| && i != j
    ensures Claims(procs[i], n) + Claims(procs[j], n) <= ClaimsOn(procs, n)
  {
    var idle := Proc("", None, 0, None, Done);
    ClaimsUpdate(procs, i, idle, n);
    OneClaimCounts(procs[i := idle], j, n);
  }

  lemma ClaimsAtLeast(procs: seq<Proc>, i: nat, n: Id)
    requires i < |procs|
    ensures Claims(procs[i], n) <= ClaimsOn(procs, n)
    ensures forall j :: 0 <= j < |procs| && j != i ==> Claims(procs[i], n) + Claims(procs[j], n) <= ClaimsOn(procs, n)
  {
    OneClaimCounts(procs, i, n);
    forall j | 0 <= j < |procs| && j != i
      ensures Claims(procs[i], n) + Claims(procs[j], n) <= ClaimsOn(procs, n)
    {
      TwoClaimsCount(procs, i, j, n);
    }
  }

  lemma {:induction false} JobCounted(procs: seq<Proc>, j: nat, d: Id)
    requires j < |procs| && procs[j].node == Some(d)
    ensures JobsFor(procs, d) >= 1
  {
    if j < |procs| - 1 { JobCounted(procs[..|procs| - 1], j, d); }
  }

  lemma {:induction false} ClaimedBySomeone(procs: seq<Proc>, n: Id) returns (i: nat)
    requires ClaimsOn(procs, n) > 0
    ensures i < |procs| && Claims(procs[i], n) > 0
  {
    var last := |procs| - 1;
    if Claims(procs[last], n) > 0 {
      i := last;
    } else {
      i := ClaimedBySomeone(procs[..last], n);
    }
  }

  /* ---- Counter value = dependencies without a job + decrements owed by existing jobs ---- */

  function JobsFor(procs: seq<Proc>, d: Id): nat {
    if procs == [] then 0
    else JobsFor(procs[..|procs| - 1], d) + if procs[|procs| - 1].node == Some(d) then 1 else 0
  }

  // Entries of deps whose node has no job yet (one job per node at most).
  function Missing(procs: seq<Proc>, deps: seq<Id>): int {
    if deps == [] then 0 else 1 - JobsFor(procs, deps[0]) + Missing(procs, deps[1..])
  }

  lemma {:induction false} JobsAreClaims(procs: seq<Proc>, d: Id)
    ensures JobsFor(procs, d) <= ClaimsOn(procs, d)
  {
    if procs != [] { JobsAreClaims(procs[..|procs| - 1], d); }
  }

  lemma {:induction false} JobExists(procs: seq<Proc>, d: Id) returns (i: nat)
    requires JobsFor(procs, d) > 0
    ensures i < |procs| && procs[i].node == Some(d)
  {
    var last := |procs| - 1;
    if procs[last].node == Some(d) { i := last; } else { i := JobExists(procs[..last], d); }
  }

  // All the decrements of n's counter that the jobs in procs are responsible for.
  function SharesOn(g: Plan, procs: seq<Proc>, n: Id): nat {
    if procs == [] then 0
    else SharesOn(g, procs[..|procs| - 1], n) + Share(g, procs[|procs| - 1], n)
  }

  lemma {:induction false} SharesSplit(g: Plan, procs: seq<Proc>, n: Id)
    ensures SharesOn(g, procs, n) == DecrsOn(g, procs, n) + OwedOn(g, procs, n)
  {
    if procs != [] { SharesSplit(g, procs[..|procs| - 1], n); }
  }

  // Occurrences in deps of the nodes that have jobs.
  function Hits(procs: seq<Proc>, deps: seq<Id>): nat {
    if procs == [] then 0
    else
      Hits(procs[..|procs| - 1], deps) +
      (if procs[|procs| - 1].node.Some? then multiset(deps)[procs[|procs| - 1].node.value] else 0)
  }

  lemma {:induction false} SharesAreHits(g: Plan, procs: seq<Proc>, n: Id)
    requires PlanOk(g)
    ensures SharesOn(g, procs, n) == Hits(procs, g.Deps(n))
  {
    if procs != [] {
      SharesAreHits(g, procs[..|procs| - 1], n);
      var p := procs[|procs| - 1];
      if p.node.Some? { assert multiset(g.Dependents(p.node.value))[n] == multiset(g.Deps(n))[p.node.value]; }
    }
  }

  lemma {:induction false} HitsHead(procs: seq<Proc>, deps: seq<Id>)
    requires deps != []
    ensures Hits(procs, deps) == JobsFor(procs, deps[0]) + Hits(procs, deps[1..])
  {
    if procs != [] {
      HitsHead(procs[..|procs| - 1], deps);
      assert deps == [deps[0]] + deps[1..];
    }
  }

  lemma {:induction false} HitsNone(procs: seq<Proc>)
    ensures Hits(procs, []) == 0
  {
    if procs != [] { HitsNone(procs[..|procs| - 1]); }
  }

  lemma {:induction false} HitsAndMissing(procs: seq<Proc>, deps: seq<Id>)
    ensures |deps| == Hits(procs, deps) + Missing(procs, deps)
  {
    if deps == [] {
      HitsNone(procs);
    } else {
      HitsHead(procs, deps);
      HitsAndMissing(procs, deps[1..]);
    }
  }

  lemma {:induction false} MissingIsNatural(procs: seq<Proc>, deps: seq<Id>)
    requires forall d :: d in deps ==> JobsFor(procs, d) <= 1
    ensures Missing(procs, deps) >= 0
    ensures Missing(procs, deps) == 0 <==> forall d :: d in deps ==> JobsFor(procs, d) == 1
  {
    if deps != [] {
      assert deps == [deps[0]] + deps[1..];
      assert deps[0] in deps;
      assert forall d :: d in deps <==> d == deps[0] || d in deps[1..];
      MissingIsNatural(procs, deps[1..]);
    }
  }

  /** Conservation: the dependencies of n split into decrements done, decrements owed by
      existing jobs, and entries whose node has no job yet. */
  lemma DependenciesConserved(g: Plan, procs: seq<Proc>, n: Id)
    requires PlanOk(g)
    ensures |g.Deps(n)| ==
      DecrsOn(g, procs, n) + OwedOn(g, procs, n) + Missing(procs, g.Deps(n))
  {
    SharesSplit(g, procs, n);
    SharesAreHits(g, procs, n);
    HitsAndMissing(procs, g.Deps(n));
  }

  lemma {:induction false} OwedZero(g: Plan, procs: seq<Proc>, n: Id)
    ensures OwedOn(g, procs, n) == 0 <==> forall i :: 0 <= i < |procs| ==> n !in Left(g, procs[i])
  {
    if procs != [] {
      var init := procs[..|procs| - 1];
      OwedZero(g, init, n);
      assert procs == init + [procs[|procs| - 1]];
      forall i | 0 <= i < |init| ensures init[i] == procs[i] {
      }
    }
  }
}
