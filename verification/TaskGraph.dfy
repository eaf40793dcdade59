/** DAG nodes as submitted by a client, the dependency relation they describe,
    and the transposed lists (who depends on me) that drive the runtime. */
module TaskGraph {
  import opened Graphs

  // An absent dependsOn list is the empty list, as every reader in the program treats it.
  datatype DagNode = DagNode(id: Id, dependsOn: seq<Id>, payload: string, taskType: string)

  function IdsOf(nodes: seq<DagNode>): set<Id> {
    set n | n in nodes :: n.id
  }

  ghost predicate DistinctIds(nodes: seq<DagNode>) {
    forall i, j :: 0 <= i < j < |nodes| ==> nodes[i].id != nodes[j].id
  }

  ghost predicate KnownDeps(nodes: seq<DagNode>) {
    forall n, d :: n in nodes && d in n.dependsOn ==> d in IdsOf(nodes)
  }

  // Edges run from a dependency to its dependent.
  ghost function EdgesOf(nodes: seq<DagNode>): Graph {
    set n, d | n in nodes && d in n.dependsOn :: (d, n.id)
  }

  ghost predicate WellFormed(nodes: seq<DagNode>) {
    nodes != [] && DistinctIds(nodes) && KnownDeps(nodes)
  }

  ghost predicate IsDag(nodes: seq<DagNode>) {
    WellFormed(nodes) && Acyclic(EdgesOf(nodes))
  }

  ghost predicate NoRepeats(xs: seq<Id>) {
    forall i, j :: 0 <= i < j < |xs| ==> xs[i] != xs[j]
  }

  // nodes.filter(keep).map(id)
  function IdsWhere(nodes: seq<DagNode>, keep: DagNode -> bool): seq<Id> {
    if nodes == [] then []
    else (if keep(nodes[0]) then [nodes[0].id] else []) + IdsWhere(nodes[1..], keep)
  }

  lemma {:induction false} IdsWhereAre(nodes: seq<DagNode>, keep: DagNode -> bool)
    requires DistinctIds(nodes)
    ensures NoRepeats(IdsWhere(nodes, keep))
    ensures forall n :: n in IdsWhere(nodes, keep) <==> exists m :: m in nodes && m.id == n && keep(m)
  {
    if nodes != [] {
      var rest := nodes[1..];
      assert nodes == [nodes[0]] + rest;
      IdsWhereAre(rest, keep);
      forall m | m in rest ensures m.id != nodes[0].id {
        var i :| 0 <= i < |rest| && rest[i] == m;
        assert nodes[i + 1].id != nodes[0].id;
      }
      assert nodes[0].id !in IdsWhere(rest, keep);
    }
  }

  lemma {:induction false} IdsWhereFit(nodes: seq<DagNode>, keep: DagNode -> bool)
    ensures |IdsWhere(nodes, keep)| <= |nodes|
  {
    if nodes != [] { IdsWhereFit(nodes[1..], keep); }
  }

  // The declared dependencies of a node, repeats included.
  function DepsOf(nodes: seq<DagNode>, id: Id): seq<Id> {
    if nodes == [] then []
    else if nodes[|nodes| - 1].id == id then nodes[|nodes| - 1].dependsOn
    else DepsOf(nodes[..|nodes| - 1], id)
  }

  function Copies(id: Id, deps: seq<Id>, d: Id): seq<Id> {
    if deps == [] then []
    else Copies(id, deps[..|deps| - 1], d) + if deps[|deps| - 1] == d then [id] else []
  }

  // The nodes that depend on d, in submission order, once per declared occurrence of d.
  function Dependents(nodes: seq<DagNode>, d: Id): seq<Id> {
    if nodes == [] then []
    else
      var last := nodes[|nodes| - 1];
      Dependents(nodes[..|nodes| - 1], d) + Copies(last.id, last.dependsOn, d)
  }

  lemma {:induction false} DepsOfAt(nodes: seq<DagNode>, i: nat)
    requires DistinctIds(nodes) && i < |nodes|
    ensures DepsOf(nodes, nodes[i].id) == nodes[i].dependsOn
  {
    if i < |nodes| - 1 {
      var init := nodes[..|nodes| - 1];
      assert init[i] == nodes[i];
      DepsOfAt(init, i);
    }
  }

  lemma {:induction false} DepsOfUnknown(nodes: seq<DagNode>, id: Id)
    requires id !in IdsOf(nodes)
    ensures DepsOf(nodes, id) == []
  {
    if nodes != [] {
      assert nodes[|nodes| - 1] in nodes;
      var init := nodes[..|nodes| - 1];
      assert forall n :: n in init ==> n in nodes;
      DepsOfUnknown(init, id);
    }
  }

  lemma IdIndex(nodes: seq<DagNode>, id: Id) returns (i: nat)
    requires id in IdsOf(nodes)
    ensures i < |nodes| && nodes[i].id == id
  {
    var n :| n in nodes && n.id == id;
    i :| 0 <= i < |nodes| && nodes[i] == n;
  }

  lemma LastIdIsNew(nodes: seq<DagNode>)
    requires DistinctIds(nodes) && nodes != []
    ensures nodes[|nodes| - 1].id !in IdsOf(nodes[..|nodes| - 1])
  {
    var init := nodes[..|nodes| - 1];
    forall n | n in init ensures n.id != nodes[|nodes| - 1].id {
      var i :| 0 <= i < |init| && init[i] == n;
      assert nodes[i].id != nodes[|nodes| - 1].id;
    }
  }

  // With distinct ids, an edge into n is exactly an entry of n's dependency list.
  lemma EdgeIsDep(nodes: seq<DagNode>, d: Id, n: Id)
    requires DistinctIds(nodes)
    ensures (d, n) in EdgesOf(nodes) <==> d in DepsOf(nodes, n)
  {
    if (d, n) in EdgesOf(nodes) {
      var m :| m in nodes && d in m.dependsOn && m.id == n;
      var i :| 0 <= i < |nodes| && nodes[i] == m;
      DepsOfAt(nodes, i);
    }
    if d in DepsOf(nodes, n) {
      if n !in IdsOf(nodes) { DepsOfUnknown(nodes, n); }
      var i := IdIndex(nodes, n);
      DepsOfAt(nodes, i);
      assert nodes[i] in nodes;
    }
  }

  lemma {:induction false} CopiesCount(id: Id, deps: seq<Id>, d: Id, m: Id)
    ensures multiset(Copies(id, deps, d))[m] == if m == id then multiset(deps)[d] else 0
  {
    if deps != [] {
      var init, last := deps[..|deps| - 1], deps[|deps| - 1];
      assert deps == init + [last];
      CopiesCount(id, init, d, m);
    }
  }

  /** Transposition keeps multiplicity: m occurs in d's dependents list exactly as often
      as d occurs in m's dependency list. */
  lemma {:induction false} TransposeCount(nodes: seq<DagNode>, d: Id, m: Id)
    requires DistinctIds(nodes)
    ensures multiset(Dependents(nodes, d))[m] == multiset(DepsOf(nodes, m))[d]
  {
    if nodes != [] {
      var init, last := nodes[..|nodes| - 1], nodes[|nodes| - 1];
      TransposeCount(init, d, m);
      CopiesCount(last.id, last.dependsOn, d, m);
      if last.id == m {
        LastIdIsNew(nodes);
        DepsOfUnknown(init, m);
      }
    }
  }

  lemma DependentsKnown(nodes: seq<DagNode>, d: Id, m: Id)
    requires DistinctIds(nodes) && m in Dependents(nodes, d)
    ensures m in IdsOf(nodes) && d in DepsOf(nodes, m)
  {
    TransposeCount(nodes, d, m);
    assert multiset(DepsOf(nodes, m))[d] > 0;
    assert d in DepsOf(nodes, m);
    if m !in IdsOf(nodes) { DepsOfUnknown(nodes, m); }
  }

  // Number of positions of xs whose id is not in S.
  function Outside(xs: seq<Id>, S: set<Id>): nat {
    if xs == [] then 0 else (if xs[0] in S then 0 else 1) + Outside(xs[1..], S)
  }

  lemma {:induction false} OutsideAdd(xs: seq<Id>, S: set<Id>, x: Id)
    requires x !in S
    ensures Outside(xs, S + {x}) == Outside(xs, S) - multiset(xs)[x]
  {
    if xs != [] {
      assert xs == [xs[0]] + xs[1..];
      OutsideAdd(xs[1..], S, x);
    }
  }

  lemma {:induction false} OutsideZero(xs: seq<Id>, S: set<Id>)
    ensures Outside(xs, S) == 0 <==> forall x :: x in xs ==> x in S
  {
    if xs != [] {
      assert xs == [xs[0]] + xs[1..];
      OutsideZero(xs[1..], S);
    }
  }

  lemma {:induction false} OutsideNothing(xs: seq<Id>)
    ensures Outside(xs, {}) == |xs|
  {
    if xs != [] { OutsideNothing(xs[1..]); }
  }

  lemma {:induction false} IdsCardinality(nodes: seq<DagNode>)
    requires DistinctIds(nodes)
    ensures |IdsOf(nodes)| == |nodes|
  {
    if nodes != [] {
      var init, last := nodes[..|nodes| - 1], nodes[|nodes| - 1];
      IdsCardinality(init);
      assert nodes == init + [last];
      assert IdsOf(nodes) == IdsOf(init) + {last.id};
      LastIdIsNew(nodes);
    }
  }
}
