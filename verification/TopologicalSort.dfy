/** Validation and Kahn layering of a submitted task graph (libs/workflow/src/topological-sort.ts). */
module TopologicalSort {
  import opened Wrappers
  import opened Graphs
  import opened TaskGraph

  datatype DagError =
    | EmptyDag
    | DuplicateId(id: Id)
    | SelfLoop(id: Id)
    | UnknownDep(id: Id, dep: Id)
    | CycleDetected

  /* ---- What each rejection means ---- */

  ghost predicate CleanAt(nodes: seq<DagNode>, i: nat, j: nat)
    requires i < |nodes| && j < |nodes[i].dependsOn|
  {
    nodes[i].dependsOn[j] != nodes[i].id && nodes[i].dependsOn[j] in IdsOf(nodes)
  }

  // Every dependency entry scanned before position (i, j) is acceptable.
  ghost predicate CleanBefore(nodes: seq<DagNode>, i: nat, j: nat) {
    forall a: nat, b: nat {:trigger CleanAt(nodes, a, b)} ::
      a < |nodes| && b < |nodes[a].dependsOn| && (a < i || (a == i && b < j)) ==> CleanAt(nodes, a, b)
  }

  ghost predicate OffenceAt(nodes: seq<DagNode>, i: nat, j: nat, e: DagError) {
    && i < |nodes| && j < |nodes[i].dependsOn|
    && !CleanAt(nodes, i, j)
    && e == if nodes[i].dependsOn[j] == nodes[i].id
            then SelfLoop(nodes[i].id)
            else UnknownDep(nodes[i].id, nodes[i].dependsOn[j])
  }

  ghost predicate FirstDuplicateAt(nodes: seq<DagNode>, i: nat, id: Id) {
    i < |nodes| && nodes[i].id == id && id in IdsOf(nodes[..i]) && DistinctIds(nodes[..i])
  }

  /** The error a client is owed: the first defect in the order empty, duplicate id,
      bad dependency entry (in reading order), cycle. */
  ghost predicate Diagnoses(nodes: seq<DagNode>, e: DagError) {
    match e
    case EmptyDag => nodes == []
    case DuplicateId(id) => exists i :: FirstDuplicateAt(nodes, i, id)
    case SelfLoop(_) | UnknownDep(_, _) =>
      nodes != [] && DistinctIds(nodes) &&
      exists i, j :: OffenceAt(nodes, i, j, e) && CleanBefore(nodes, i, j)
    case CycleDetected =>
      WellFormed(nodes) && CleanBefore(nodes, |nodes|, 0) && !Acyclic(EdgesOf(nodes))
  }

  lemma DuplicateBreaksDistinct(nodes: seq<DagNode>, i: nat, id: Id)
    requires FirstDuplicateAt(nodes, i, id)
    ensures forall k :: i < k <= |nodes| ==> !DistinctIds(nodes[..k])
    ensures !DistinctIds(nodes)
  {
    var j := IdIndex(nodes[..i], id);
    forall k | i < k <= |nodes| ensures !DistinctIds(nodes[..k]) {
      assert nodes[..k][j].id == nodes[..k][i].id;
    }
    assert nodes[j].id == nodes[i].id;
  }

  /** A graph is diagnosed with at most one error, and never when it is a valid DAG. */
  lemma DiagnosisIsUnique(nodes: seq<DagNode>, e: DagError, f: DagError)
    requires Diagnoses(nodes, e)
    ensures !IsDag(nodes)
    ensures Diagnoses(nodes, f) ==> e == f
  {
    DiagnosedNotDag(nodes, e);
    if Diagnoses(nodes, f) {
      if e.DuplicateId? {
        var i :| FirstDuplicateAt(nodes, i, e.id);
        DuplicateBreaksDistinct(nodes, i, e.id);
      }
      if f.DuplicateId? {
        var j :| FirstDuplicateAt(nodes, j, f.id);
        DuplicateBreaksDistinct(nodes, j, f.id);
      }
    }
  }

  lemma DiagnosedNotDag(nodes: seq<DagNode>, e: DagError)
    requires Diagnoses(nodes, e)
    ensures !IsDag(nodes)
  {
    match e
    case DuplicateId(id) => DuplicateDiagnosis(nodes, e);
    case SelfLoop(id) =>
      var i: nat, j: nat :| OffenceAt(nodes, i, j, e) && CleanBefore(nodes, i, j);
      assert nodes[i] in nodes && id in nodes[i].dependsOn;
      AncestorEdge(EdgesOf(nodes), id, id);
    case UnknownDep(_, _) => UnknownDiagnosis(nodes, e);
    case _ =>
  }

  lemma DuplicateDiagnosis(nodes: seq<DagNode>, e: DagError)
    requires e.DuplicateId? && Diagnoses(nodes, e)
    ensures !DistinctIds(nodes)
  {
    var i :| FirstDuplicateAt(nodes, i, e.id);
    DuplicateBreaksDistinct(nodes, i, e.id);
  }

  lemma UnknownDiagnosis(nodes: seq<DagNode>, e: DagError)
    requires e.UnknownDep? && Diagnoses(nodes, e)
    ensures !KnownDeps(nodes)
  {
    var i: nat, j: nat :| OffenceAt(nodes, i, j, e) && CleanBefore(nodes, i, j);
    assert nodes[i] in nodes && nodes[i].dependsOn[j] in nodes[i].dependsOn;
  }

  // Once ids are distinct and dependencies known, only a cycle (or a self-loop) can be wrong.
  lemma KnownGraphDiagnosis(nodes: seq<DagNode>, e: DagError)
    requires WellFormed(nodes) && Diagnoses(nodes, e)
    ensures e.CycleDetected? || e.SelfLoop?
  {
    if e.DuplicateId? {
      DuplicateDiagnosis(nodes, e);
    } else if e.UnknownDep? {
      UnknownDiagnosis(nodes, e);
    }
  }

  /* ---- What the layers mean ---- */

  // n's longest dependency chain has exactly k edges.
  ghost predicate AtDepth(nodes: seq<DagNode>, n: Id, k: nat) {
    n in IdsOf(nodes) && HasChain(EdgesOf(nodes), n, k) && !HasChain(EdgesOf(nodes), n, k + 1)
  }

  /** Layer k holds exactly the nodes whose longest dependency chain has k edges, each once;
      no layer is empty and every node lies in some layer. */
  ghost predicate CanonicalLayers(nodes: seq<DagNode>, layers: seq<seq<Id>>) {
    && LayersByDepth(nodes, layers)
    && forall n :: n in IdsOf(nodes) ==> InSomeLayer(layers, n)
  }

  ghost predicate LayersByDepth(nodes: seq<DagNode>, layers: seq<seq<Id>>) {
    forall k :: 0 <= k < |layers| ==> layers[k] != [] && IsFrontier(nodes, layers[k], k)
  }

  // The frontier of round k is the set of nodes at depth k, each once.
  ghost predicate IsFrontier(nodes: seq<DagNode>, frontier: seq<Id>, k: nat) {
    NoRepeats(frontier) && forall n :: n in frontier <==> AtDepth(nodes, n, k)
  }

  ghost predicate InSomeLayer(layers: seq<seq<Id>>, n: Id) {
    exists k :: 0 <= k < |layers| && n in layers[k]
  }

  /* ---- The layering, in the order the source runs it ---- */

  method CollectIds(nodes: seq<DagNode>) returns (r: Result<set<Id>, DagError>)
    requires nodes != []
    ensures r.Success? ==> DistinctIds(nodes) && r.value == IdsOf(nodes)
    ensures r.Failure? ==> Diagnoses(nodes, r.error)
  {
    var ids: set<Id> := {};
    for i := 0 to |nodes|
      invariant ids == IdsOf(nodes[..i])
      invariant DistinctIds(nodes[..i])
    {
      if nodes[i].id in ids {
        assert FirstDuplicateAt(nodes, i, nodes[i].id);
        return Failure(DuplicateId(nodes[i].id));
      }
      forall k | 0 <= k < i ensures nodes[k].id != nodes[i].id {
        assert nodes[..i][k] in nodes[..i];
      }
      assert nodes[..i + 1] == nodes[..i] + [nodes[i]];
      ids := ids + {nodes[i].id};
    }
    assert nodes[..|nodes|] == nodes;
    return Success(ids);
  }

  lemma CleanNext(nodes: seq<DagNode>, i: nat, j: nat)
    requires i < |nodes| && j < |nodes[i].dependsOn|
    requires CleanBefore(nodes, i, j) && CleanAt(nodes, i, j)
    ensures CleanBefore(nodes, i, j + 1)
  {
  }

  lemma CleanRow(nodes: seq<DagNode>, i: nat)
    requires i < |nodes| && CleanBefore(nodes, i, |nodes[i].dependsOn|)
    ensures CleanBefore(nodes, i + 1, 0)
  {
  }

  lemma DistinctPrefixes(nodes: seq<DagNode>, i: nat)
    requires i < |nodes| && DistinctIds(nodes)
    ensures nodes[i].id !in IdsOf(nodes[..i])
  {
    forall k | 0 <= k < i ensures nodes[..i][k].id != nodes[i].id {
      assert nodes[k].id != nodes[i].id;
    }
  }

  lemma OffenceDiagnosed(nodes: seq<DagNode>, i: nat, j: nat, e: DagError)
    requires DistinctIds(nodes) && OffenceAt(nodes, i, j, e) && CleanBefore(nodes, i, j)
    ensures Diagnoses(nodes, e)
  {
  }

  // The lists after id has been appended once for every entry of deps.
  function Appended(lists: map<Id, seq<Id>>, id: Id, deps: seq<Id>): map<Id, seq<Id>> {
    map d | d in lists :: lists[d] + Copies(id, deps, d)
  }

  lemma AppendedNext(lists: map<Id, seq<Id>>, id: Id, deps: seq<Id>, j: nat)
    requires j < |deps| && deps[j] in lists
    ensures Appended(lists, id, deps[..j + 1]) ==
      Appended(lists, id, deps[..j])[deps[j] := Appended(lists, id, deps[..j])[deps[j]] + [id]]
  {
    var before, after := Appended(lists, id, deps[..j]), Appended(lists, id, deps[..j + 1]);
    assert deps[..j + 1][..j] == deps[..j];
    forall d | d in lists ensures after[d] == before[deps[j] := before[deps[j]] + [id]][d] {
      assert lists[d] + (Copies(id, deps[..j], d) + [id]) == lists[d] + Copies(id, deps[..j], d) + [id];
      assert Copies(id, deps[..j], d) + [] == Copies(id, deps[..j], d);
    }
  }

  lemma AppendedNone(lists: map<Id, seq<Id>>, id: Id)
    ensures Appended(lists, id, []) == lists
  {
    assert forall d :: d in lists ==> lists[d] + [] == lists[d];
  }

  // The inner loop over one node's dependency list.
  method ScanDependencies(nodes: seq<DagNode>, ids: set<Id>, i: nat,
                          inDegree: map<Id, nat>, adjacency: map<Id, seq<Id>>)
    returns (r: Result<(map<Id, nat>, map<Id, seq<Id>>), DagError>)
    requires i < |nodes| && DistinctIds(nodes) && ids == IdsOf(nodes) && CleanBefore(nodes, i, 0)
    requires inDegree.Keys == ids && adjacency.Keys == ids && inDegree[nodes[i].id] == 0
    ensures r.Success? ==>
      && CleanBefore(nodes, i + 1, 0)
      && r.value.0 == inDegree[nodes[i].id := |nodes[i].dependsOn|]
      && r.value.1 == Appended(adjacency, nodes[i].id, nodes[i].dependsOn)
    ensures r.Failure? ==> Diagnoses(nodes, r.error) && !r.error.CycleDetected?
  {
    var degrees, lists := inDegree, adjacency;
    var n := nodes[i];
    AppendedNone(adjacency, n.id);
    assert n.dependsOn[..0] == [];
    for j := 0 to |n.dependsOn|
      invariant CleanBefore(nodes, i, j)
      invariant degrees == inDegree[n.id := j]
      invariant lists == Appended(adjacency, n.id, n.dependsOn[..j])
    {
      var dep := n.dependsOn[j];
      if dep == n.id {
        OffenceDiagnosed(nodes, i, j, SelfLoop(n.id));
        return Failure(SelfLoop(n.id));
      }
      if dep !in ids {
        OffenceDiagnosed(nodes, i, j, UnknownDep(n.id, dep));
        return Failure(UnknownDep(n.id, dep));
      }
      CleanNext(nodes, i, j);
      AppendedNext(adjacency, n.id, n.dependsOn, j);
      lists := lists[dep := lists[dep] + [n.id]];
      degrees := degrees[n.id := degrees[n.id] + 1];
    }
    CleanRow(nodes, i);
    assert n.dependsOn[..|n.dependsOn|] == n.dependsOn;
    return Success((degrees, lists));
  }

  function Degrees(nodes: seq<DagNode>, ids: set<Id>): map<Id, nat> {
    map m | m in ids :: |DepsOf(nodes, m)|
  }

  function DependentLists(nodes: seq<DagNode>, ids: set<Id>): map<Id, seq<Id>> {
    map d | d in ids :: Dependents(nodes, d)
  }

  lemma ScannedRow(nodes: seq<DagNode>, ids: set<Id>, i: nat)
    requires i < |nodes| && DistinctIds(nodes) && ids == IdsOf(nodes)
    ensures nodes[i].id in ids
    ensures Degrees(nodes[..i], ids)[nodes[i].id] == 0
    ensures Degrees(nodes[..i + 1], ids) == Degrees(nodes[..i], ids)[nodes[i].id := |nodes[i].dependsOn|]
    ensures DependentLists(nodes[..i + 1], ids) ==
      Appended(DependentLists(nodes[..i], ids), nodes[i].id, nodes[i].dependsOn)
  {
    assert nodes[i] in nodes;
    DistinctPrefixes(nodes, i);
    DepsOfUnknown(nodes[..i], nodes[i].id);
    assert nodes[..i + 1][..i] == nodes[..i];
  }

  method CountDependencies(nodes: seq<DagNode>, ids: set<Id>)
    returns (r: Result<(map<Id, nat>, map<Id, seq<Id>>), DagError>)
    requires nodes != [] && DistinctIds(nodes) && ids == IdsOf(nodes)
    ensures r.Success? ==>
      CleanBefore(nodes, |nodes|, 0) && r.value == (Degrees(nodes, ids), DependentLists(nodes, ids))
    ensures r.Failure? ==> Diagnoses(nodes, r.error) && !r.error.CycleDetected?
  {
    var inDegree: map<Id, nat> := map m | m in ids :: 0;
    var adjacency: map<Id, seq<Id>> := map m | m in ids :: [];
    for i := 0 to |nodes|
      invariant CleanBefore(nodes, i, 0)
      invariant inDegree == Degrees(nodes[..i], ids)
      invariant adjacency == DependentLists(nodes[..i], ids)
    {
      ScannedRow(nodes, ids, i);
      var scanned := ScanDependencies(nodes, ids, i, inDegree, adjacency);
      if scanned.Failure? {
        return Failure(scanned.error);
      }
      inDegree, adjacency := scanned.value.0, scanned.value.1;
    }
    assert nodes[..|nodes|] == nodes;
    return Success((inDegree, adjacency));
  }

  // The in-degrees once every node of `done` has been expanded.
  function Remaining(nodes: seq<DagNode>, done: set<Id>): map<Id, nat> {
    map m | m in IdsOf(nodes) :: Outside(DepsOf(nodes, m), done)
  }

  function SetOf(xs: seq<Id>): set<Id> {
    set x | x in xs
  }

  // m was waiting under `start` and is free under `degrees`.
  predicate Freed(start: map<Id, nat>, degrees: map<Id, nat>, m: Id) {
    m in start && m in degrees && start[m] != 0 && degrees[m] == 0
  }

  ghost predicate Collected(start: map<Id, nat>, degrees: map<Id, nat>, next: seq<Id>) {
    && NoRepeats(next)
    && degrees.Keys == start.Keys
    && (forall m :: m in next <==> Freed(start, degrees, m))
    && (forall m :: m in start ==> degrees[m] <= start[m])
  }

  lemma CollectOne(start: map<Id, nat>, degrees: map<Id, nat>, next: seq<Id>, child: Id)
    requires Collected(start, degrees, next) && child in degrees && degrees[child] >= 1
    ensures Collected(start, degrees[child := degrees[child] - 1], if degrees[child] == 1 then next + [child] else next)
  {
    assert child !in next;
  }

  // The loop over the children of one frontier node.
  method ExpandNode(children: seq<Id>, inDegree: map<Id, nat>, next: seq<Id>, ghost start: map<Id, nat>)
    returns (degrees: map<Id, nat>, next': seq<Id>)
    requires forall c :: c in children ==> c in inDegree
    requires forall m :: m in inDegree ==> multiset(children)[m] <= inDegree[m]
    requires Collected(start, inDegree, next)
    ensures degrees.Keys == inDegree.Keys
    ensures forall m :: m in inDegree ==> degrees[m] + multiset(children)[m] == inDegree[m]
    ensures Collected(start, degrees, next')
  {
    degrees, next' := inDegree, next;
    for j := 0 to |children|
      invariant degrees.Keys == inDegree.Keys
      invariant forall m :: m in inDegree ==> degrees[m] + multiset(children[..j])[m] == inDegree[m]
      invariant Collected(start, degrees, next')
    {
      var child := children[j];
      assert children[..j + 1] == children[..j] + [child];
      assert children == children[..j + 1] + children[j + 1..];
      assert multiset(children)[child] >= multiset(children[..j + 1])[child] >= 1;
      CollectOne(start, degrees, next', child);
      var deg := degrees[child] - 1;
      degrees := degrees[child := deg];
      if deg == 0 {
        next' := next' + [child];
      }
    }
    assert children[..|children|] == children;
  }

  lemma ExpandedDegrees(nodes: seq<DagNode>, done: set<Id>, id: Id)
    requires DistinctIds(nodes) && id !in done
    ensures forall c :: c in Dependents(nodes, id) ==> c in IdsOf(nodes)
    ensures forall m :: m in IdsOf(nodes) ==>
      Remaining(nodes, done + {id})[m] + multiset(Dependents(nodes, id))[m] == Remaining(nodes, done)[m]
  {
    forall c | c in Dependents(nodes, id) ensures c in IdsOf(nodes) {
      DependentsKnown(nodes, id, c);
    }
    forall m | m in IdsOf(nodes)
      ensures Remaining(nodes, done + {id})[m] + multiset(Dependents(nodes, id))[m] == Remaining(nodes, done)[m]
    {
      OutsideAdd(DepsOf(nodes, m), done, id);
      TransposeCount(nodes, id, m);
    }
  }

  lemma SameDegrees(nodes: seq<DagNode>, done: set<Id>, id: Id, degrees: map<Id, nat>)
    requires DistinctIds(nodes) && id !in done && degrees.Keys == IdsOf(nodes)
    requires forall m :: m in IdsOf(nodes) ==>
      degrees[m] + multiset(Dependents(nodes, id))[m] == Remaining(nodes, done)[m]
    ensures degrees == Remaining(nodes, done + {id})
  {
    ExpandedDegrees(nodes, done, id);
    forall m | m in degrees ensures degrees[m] == Remaining(nodes, done + {id})[m] {
    }
  }

  lemma FrontierGrows(frontier: seq<Id>, done: set<Id>, i: nat)
    requires i < |frontier| && NoRepeats(frontier) && SetOf(frontier) !! done
    ensures frontier[i] in SetOf(frontier)
    ensures frontier[i] !in done + SetOf(frontier[..i])
    ensures done + SetOf(frontier[..i + 1]) == done + SetOf(frontier[..i]) + {frontier[i]}
  {
    assert frontier[i] in SetOf(frontier);
    assert frontier[..i + 1] == frontier[..i] + [frontier[i]];
  }

  // The loop over one frontier.
  method ExpandFrontier(nodes: seq<DagNode>, adjacency: map<Id, seq<Id>>, inDegree: map<Id, nat>,
                        frontier: seq<Id>, ghost done: set<Id>)
    returns (degrees: map<Id, nat>, next: seq<Id>)
    requires DistinctIds(nodes) && adjacency == DependentLists(nodes, IdsOf(nodes))
    requires inDegree == Remaining(nodes, done)
    requires NoRepeats(frontier) && SetOf(frontier) !! done && SetOf(frontier) <= IdsOf(nodes)
    ensures degrees == Remaining(nodes, done + SetOf(frontier))
    ensures NoRepeats(next)
    ensures forall m :: m in next <==> Freed(inDegree, degrees, m)
  {
    degrees, next := inDegree, [];
    assert done + SetOf(frontier[..0]) == done;
    for i := 0 to |frontier|
      invariant degrees == Remaining(nodes, done + SetOf(frontier[..i]))
      invariant Collected(inDegree, degrees, next)
    {
      FrontierGrows(frontier, done, i);
      var id := frontier[i];
      ghost var D := done + SetOf(frontier[..i]);
      ExpandedDegrees(nodes, D, id);
      degrees, next := ExpandNode(adjacency[id], degrees, next, inDegree);
      SameDegrees(nodes, D, id, degrees);
    }
    assert frontier[..|frontier|] == frontier;
  }

  // The ids already laid out when |layers| layers are complete: those with no longer chain.
  ghost function Shallow(nodes: seq<DagNode>, k: nat): set<Id> {
    set n | n in IdsOf(nodes) && !HasChain(EdgesOf(nodes), n, k)
  }

  // A node outside Shallow(k) is free exactly when its longest chain has k edges.
  lemma FreeIsNextDepth(nodes: seq<DagNode>, k: nat, n: Id)
    requires DistinctIds(nodes) && KnownDeps(nodes) && n in IdsOf(nodes)
    ensures n !in Shallow(nodes, k) && Outside(DepsOf(nodes, n), Shallow(nodes, k)) == 0 <==> AtDepth(nodes, n, k)
  {
    var E := EdgesOf(nodes);
    OutsideZero(DepsOf(nodes, n), Shallow(nodes, k));
    forall d ensures d in DepsOf(nodes, n) <==> (d, n) in E {
      EdgeIsDep(nodes, d, n);
    }
    forall d | d in DepsOf(nodes, n) ensures d in IdsOf(nodes) {
      var i := IdIndex(nodes, n);
      DepsOfAt(nodes, i);
      assert nodes[i] in nodes;
    }
  }

  lemma ShallowGrows(nodes: seq<DagNode>, k: nat)
    ensures Shallow(nodes, k + 1) == Shallow(nodes, k) + set n | n in IdsOf(nodes) && AtDepth(nodes, n, k)
  {
    forall n | n in IdsOf(nodes) && HasChain(EdgesOf(nodes), n, k + 1) ensures HasChain(EdgesOf(nodes), n, k) {
      ChainPrefix(EdgesOf(nodes), n, k + 1, k);
    }
  }

  lemma FrontierProgress(nodes: seq<DagNode>, frontier: seq<Id>, k: nat)
    requires IsFrontier(nodes, frontier, k)
    ensures SetOf(frontier) <= IdsOf(nodes) && SetOf(frontier) !! Shallow(nodes, k)
    ensures Shallow(nodes, k + 1) == Shallow(nodes, k) + SetOf(frontier)
    ensures |Shallow(nodes, k + 1)| == |Shallow(nodes, k)| + |frontier|
    ensures |Shallow(nodes, k + 1)| <= |IdsOf(nodes)|
  {
    ShallowGrows(nodes, k);
    NoRepeatsCard(frontier);
    SubsetCard(Shallow(nodes, k + 1), IdsOf(nodes));
  }

  lemma {:induction false} NoRepeatsCard(xs: seq<Id>)
    requires NoRepeats(xs)
    ensures |SetOf(xs)| == |xs|
  {
    if xs != [] {
      NoRepeatsCard(xs[1..]);
      assert xs == [xs[0]] + xs[1..];
      assert SetOf(xs) == {xs[0]} + SetOf(xs[1..]);
    }
  }

  lemma NextFrontier(nodes: seq<DagNode>, k: nat, next: seq<Id>)
    requires DistinctIds(nodes) && KnownDeps(nodes) && NoRepeats(next)
    requires forall m :: m in next <==>
      Freed(Remaining(nodes, Shallow(nodes, k)), Remaining(nodes, Shallow(nodes, k + 1)), m)
    ensures IsFrontier(nodes, next, k + 1)
  {
    ShallowGrows(nodes, k);
    forall n ensures n in next <==> AtDepth(nodes, n, k + 1) {
      if n in IdsOf(nodes) {
        FreeIsNextDepth(nodes, k, n);
        FreeIsNextDepth(nodes, k + 1, n);
        if n in Shallow(nodes, k) {
          ShallowIsFree(nodes, k, n);
        }
      }
    }
  }

  lemma ShallowIsFree(nodes: seq<DagNode>, k: nat, n: Id)
    requires DistinctIds(nodes) && KnownDeps(nodes) && n in Shallow(nodes, k)
    ensures Outside(DepsOf(nodes, n), Shallow(nodes, k)) == 0
  {
    OutsideZero(DepsOf(nodes, n), Shallow(nodes, k));
    forall d | d in DepsOf(nodes, n) ensures d in Shallow(nodes, k) {
      EdgeIsDep(nodes, d, n);
      var i := IdIndex(nodes, n);
      DepsOfAt(nodes, i);
      assert nodes[i] in nodes;
      if HasChain(EdgesOf(nodes), d, k) {
        assert HasChain(EdgesOf(nodes), n, k + 1);
        ChainPrefix(EdgesOf(nodes), n, k + 1, k);
      }
    }
  }

  // No node is free and some are left: the rest hold a cycle.
  lemma StuckHasCycle(nodes: seq<DagNode>, k: nat)
    requires DistinctIds(nodes) && KnownDeps(nodes)
    requires IsFrontier(nodes, [], k) && Shallow(nodes, k) != IdsOf(nodes)
    ensures !Acyclic(EdgesOf(nodes))
  {
    var S := IdsOf(nodes) - Shallow(nodes, k);
    forall n | n in S ensures HasPredIn(EdgesOf(nodes), S, n) {
      FreeIsNextDepth(nodes, k, n);
      OutsideZero(DepsOf(nodes, n), Shallow(nodes, k));
      var d :| d in DepsOf(nodes, n) && d !in Shallow(nodes, k);
      EdgeIsDep(nodes, d, n);
      var i := IdIndex(nodes, n);
      DepsOfAt(nodes, i);
      assert nodes[i] in nodes;
    }
    assert IdsOf(nodes) == Shallow(nodes, k) + S;
    BackwardClosedHasCycle(EdgesOf(nodes), S);
  }

  // A vertex on or below a cycle has chains of every length.
  lemma {:induction false} CycleHasChains(E: Graph, a: Id, x: Id, k: nat)
    requires Ancestor(E, a, a) && Reach(E, a, x)
    ensures HasChain(E, x, k)
    decreases k
  {
    if k > 0 {
      ReachIsAncestorOrSelf(E, a, x);
      var d := AncestorLastEdge(E, a, x);
      CycleHasChains(E, a, d, k - 1);
    }
  }

  lemma OnCycle(nodes: seq<DagNode>, a: Id, k: nat)
    requires Ancestor(EdgesOf(nodes), a, a)
    ensures a in IdsOf(nodes) && a !in Shallow(nodes, k)
  {
    ReachRefl(EdgesOf(nodes), a);
    CycleHasChains(EdgesOf(nodes), a, a, k);
    var d := AncestorLastEdge(EdgesOf(nodes), a, a);
  }

  lemma BoundedDepthIsAcyclic(nodes: seq<DagNode>, k: nat)
    requires Shallow(nodes, k) == IdsOf(nodes)
    ensures Acyclic(EdgesOf(nodes))
  {
    var E := EdgesOf(nodes);
    forall a ensures !Ancestor(E, a, a) {
      if Ancestor(E, a, a) {
        OnCycle(nodes, a, k);
      }
    }
  }

  /** Kahn's layering. Succeeds exactly on valid DAGs, with the canonical layers;
      otherwise reports the one error the graph is diagnosed with. */
  method TopologicalLayers(nodes: seq<DagNode>) returns (r: Result<seq<seq<Id>>, DagError>)
    ensures r.Success? <==> IsDag(nodes)
    ensures r.Success? ==> CanonicalLayers(nodes, r.value)
    ensures r.Failure? ==> Diagnoses(nodes, r.error)
  {
    if |nodes| == 0 {
      return Failure(EmptyDag);
    }
    var collected := CollectIds(nodes);
    if collected.Failure? {
      DiagnosedNotDag(nodes, collected.error);
      return Failure(collected.error);
    }
    var counted := CountDependencies(nodes, collected.value);
    if counted.Failure? {
      DiagnosedNotDag(nodes, counted.error);
      return Failure(counted.error);
    }
    CleanIsKnown(nodes);
    r := PeelLayers(nodes, counted.value.0, counted.value.1);
  }

  lemma CleanIsKnown(nodes: seq<DagNode>)
    requires CleanBefore(nodes, |nodes|, 0)
    ensures KnownDeps(nodes)
  {
    forall n, d | n in nodes && d in n.dependsOn ensures d in IdsOf(nodes) {
      var i :| 0 <= i < |nodes| && nodes[i] == n;
      var j :| 0 <= j < |n.dependsOn| && n.dependsOn[j] == d;
      assert CleanAt(nodes, i, j);
    }
  }

  function Roots(nodes: seq<DagNode>, inDegree: map<Id, nat>): seq<Id> {
    IdsWhere(nodes, (n: DagNode) => n.id in inDegree && inDegree[n.id] == 0)
  }

  lemma RootsAre(nodes: seq<DagNode>, inDegree: map<Id, nat>)
    requires DistinctIds(nodes) && IdsOf(nodes) <= inDegree.Keys
    ensures NoRepeats(Roots(nodes, inDegree))
    ensures forall n :: n in Roots(nodes, inDegree) <==> n in IdsOf(nodes) && inDegree[n] == 0
  {
    var keep := (n: DagNode) => n.id in inDegree && inDegree[n.id] == 0;
    IdsWhereAre(nodes, keep);
    forall m | m in nodes ensures keep(m) <==> inDegree[m.id] == 0 {
    }
  }

  lemma StartPeeling(nodes: seq<DagNode>)
    requires WellFormed(nodes)
    ensures Shallow(nodes, 0) == {}
    ensures Degrees(nodes, IdsOf(nodes)) == Remaining(nodes, Shallow(nodes, 0))
    ensures IsFrontier(nodes, Roots(nodes, Degrees(nodes, IdsOf(nodes))), 0)
  {
    var inDegree := Degrees(nodes, IdsOf(nodes));
    forall m | m in IdsOf(nodes) ensures inDegree[m] == Remaining(nodes, {})[m] {
      OutsideNothing(DepsOf(nodes, m));
    }
    assert Shallow(nodes, 0) == {};
    RootsAre(nodes, inDegree);
    forall n | n in IdsOf(nodes) ensures AtDepth(nodes, n, 0) <==> inDegree[n] == 0 {
      FreeIsNextDepth(nodes, 0, n);
    }
  }

  // The state of the layering loop when |layers| layers have been laid out.
  ghost predicate Peeling(nodes: seq<DagNode>, layers: seq<seq<Id>>, degrees: map<Id, nat>, frontier: seq<Id>) {
    && LayersByDepth(nodes, layers)
    && degrees == Remaining(nodes, Shallow(nodes, |layers|))
    && IsFrontier(nodes, frontier, |layers|)
    && (forall n :: n in Shallow(nodes, |layers|) ==> InSomeLayer(layers, n))
  }

  lemma LayerAdded(nodes: seq<DagNode>, layers: seq<seq<Id>>, frontier: seq<Id>)
    requires forall n :: n in Shallow(nodes, |layers|) ==> InSomeLayer(layers, n)
    ensures forall n :: n in Shallow(nodes, |layers|) + SetOf(frontier) ==> InSomeLayer(layers + [frontier], n)
  {
    var k := |layers|;
    forall n | n in Shallow(nodes, k) + SetOf(frontier) ensures InSomeLayer(layers + [frontier], n) {
      if n in Shallow(nodes, k) {
        var j :| 0 <= j < |layers| && n in layers[j];
        assert n in (layers + [frontier])[j];
      } else {
        assert n in (layers + [frontier])[k];
      }
    }
  }

  lemma DepthsExtend(nodes: seq<DagNode>, layers: seq<seq<Id>>, frontier: seq<Id>)
    requires LayersByDepth(nodes, layers) && frontier != [] && IsFrontier(nodes, frontier, |layers|)
    ensures LayersByDepth(nodes, layers + [frontier])
  {
  }

  lemma PeelStep(nodes: seq<DagNode>, layers: seq<seq<Id>>, degrees: map<Id, nat>, frontier: seq<Id>,
                 degrees': map<Id, nat>, next: seq<Id>)
    requires DistinctIds(nodes) && KnownDeps(nodes) && frontier != []
    requires Peeling(nodes, layers, degrees, frontier)
    requires degrees' == Remaining(nodes, Shallow(nodes, |layers|) + SetOf(frontier))
    requires NoRepeats(next) && forall m :: m in next <==> Freed(degrees, degrees', m)
    ensures Peeling(nodes, layers + [frontier], degrees', next)
  {
    var k, layers' := |layers|, layers + [frontier];
    assert |layers'| == k + 1;
    DepthsExtend(nodes, layers, frontier);
    FrontierProgress(nodes, frontier, k);
    assert degrees' == Remaining(nodes, Shallow(nodes, k + 1));
    NextFrontier(nodes, k, next);
    assert IsFrontier(nodes, next, |layers'|);
    LayerAdded(nodes, layers, frontier);
  }

  method PeelLayers(nodes: seq<DagNode>, inDegree: map<Id, nat>, adjacency: map<Id, seq<Id>>)
    returns (r: Result<seq<seq<Id>>, DagError>)
    requires WellFormed(nodes) && CleanBefore(nodes, |nodes|, 0)
    requires inDegree == Degrees(nodes, IdsOf(nodes)) && adjacency == DependentLists(nodes, IdsOf(nodes))
    ensures r.Success? <==> Acyclic(EdgesOf(nodes))
    ensures r.Success? ==> CanonicalLayers(nodes, r.value)
    ensures r.Failure? ==> Diagnoses(nodes, r.error)
  {
    var degrees := inDegree;
    var layers: seq<seq<Id>> := [];
    var frontier := Roots(nodes, degrees);
    var processed := 0;
    StartPeeling(nodes);
    while |frontier| > 0
      invariant Peeling(nodes, layers, degrees, frontier)
      invariant processed == |Shallow(nodes, |layers|)| <= |IdsOf(nodes)|
      decreases |IdsOf(nodes)| - processed
    {
      ghost var k := |layers|;
      FrontierProgress(nodes, frontier, k);
      var degrees', next := ExpandFrontier(nodes, adjacency, degrees, frontier, Shallow(nodes, k));
      PeelStep(nodes, layers, degrees, frontier, degrees', next);
      layers := layers + [frontier];
      assert |layers| == k + 1;
      processed := processed + |frontier|;
      degrees, frontier := degrees', next;
    }
    IdsCardinality(nodes);
    SubsetCard(Shallow(nodes, |layers|), IdsOf(nodes));
    if processed != |nodes| {
      StuckHasCycle(nodes, |layers|);
      return Failure(CycleDetected);
    }
    BoundedDepthIsAcyclic(nodes, |layers|);
    return Success(layers);
  }

  /* ---- Consequences for whoever reads the layers ---- */

  lemma {:induction false} ChainExtends(E: Graph, a: Id, b: Id, k: nat)
    requires HasChain(E, a, k) && Ancestor(E, a, b)
    ensures HasChain(E, b, k + 1)
  {
    var c :| (a, c) in E && Reach(E, c, b);
    var p :| PathFromTo(E, p, c, b);
    ChainAlong(E, [a] + p, k);
  }

  lemma {:induction false} ChainAlong(E: Graph, p: seq<Id>, k: nat)
    requires IsPath(E, p) && |p| > 1 && HasChain(E, p[0], k)
    ensures HasChain(E, p[|p| - 1], k + 1)
    decreases |p|
  {
    assert (p[0], p[1]) in E;
    assert HasChain(E, p[1], k + 1);
    if |p| > 2 {
      ChainPrefix(E, p[1], k + 1, k);
      assert IsPath(E, p[1..]);
      ChainAlong(E, p[1..], k);
    }
  }

  /** Every proper ancestor lies in a strictly earlier layer, so nodes of one layer are independent. */
  lemma AncestorsInEarlierLayers(nodes: seq<DagNode>, layers: seq<seq<Id>>, i: nat, j: nat, a: Id, b: Id)
    requires CanonicalLayers(nodes, layers) && i < |layers| && j < |layers|
    requires a in layers[i] && b in layers[j] && Ancestor(EdgesOf(nodes), a, b)
    ensures i < j
  {
    ChainExtends(EdgesOf(nodes), a, b, i);
    if j <= i {
      ChainPrefix(EdgesOf(nodes), b, i + 1, j + 1);
    }
  }

  /** The layers partition the node ids. */
  lemma LayersPartition(nodes: seq<DagNode>, layers: seq<seq<Id>>, n: Id)
    requires CanonicalLayers(nodes, layers)
    ensures n in IdsOf(nodes) <==> InSomeLayer(layers, n)
    ensures forall i, j :: 0 <= i < j < |layers| && n in layers[i] ==> n !in layers[j]
  {
    forall i, j | 0 <= i < j < |layers| && n in layers[i] ensures n !in layers[j] {
      if n in layers[j] {
        ChainPrefix(EdgesOf(nodes), n, j, i + 1);
      }
    }
  }

  // A numbering in which every dependency comes strictly earlier.
  ghost predicate ValidSchedule(E: Graph, level: Id -> nat) {
    forall a, b :: (a, b) in E ==> level(a) < level(b)
  }

  lemma {:induction false} ChainNeedsLevels(E: Graph, level: Id -> nat, n: Id, k: nat)
    requires ValidSchedule(E, level) && HasChain(E, n, k)
    ensures k <= level(n)
    decreases k
  {
    if k > 0 {
      var d :| (d, n) in E && HasChain(E, d, k - 1);
      ChainNeedsLevels(E, level, d, k - 1);
    }
  }

  /** No valid schedule starts a node earlier, and none uses fewer rounds. */
  lemma LayersAreEarliest(nodes: seq<DagNode>, layers: seq<seq<Id>>, level: Id -> nat)
    requires CanonicalLayers(nodes, layers) && ValidSchedule(EdgesOf(nodes), level)
    ensures forall k, n :: 0 <= k < |layers| && n in layers[k] ==> k <= level(n)
    ensures nodes != [] ==> exists n :: n in IdsOf(nodes) && |layers| <= level(n) + 1
  {
    forall k, n | 0 <= k < |layers| && n in layers[k] ensures k <= level(n) {
      ChainNeedsLevels(EdgesOf(nodes), level, n, k);
    }
    if nodes != [] {
      assert nodes[0] in nodes;
      assert InSomeLayer(layers, nodes[0].id);
      var last := layers[|layers| - 1];
      assert last[0] in last;
      assert AtDepth(nodes, last[0], |layers| - 1);
    }
  }

  /** The transposed dependency lists used at run time. The source indexes the map without a
      check, so it is only called once the dependencies are known to exist. */
  method BuildDependents(nodes: seq<DagNode>) returns (dependents: map<Id, seq<Id>>)
    requires KnownDeps(nodes)
    ensures dependents == DependentLists(nodes, IdsOf(nodes))
  {
    dependents := map d | d in IdsOf(nodes) :: [];
    for i := 0 to |nodes|
      invariant dependents == DependentLists(nodes[..i], IdsOf(nodes))
    {
      var n := nodes[i];
      assert n in nodes;
      ghost var before := dependents;
      AppendedNone(before, n.id);
      assert n.dependsOn[..0] == [];
      for j := 0 to |n.dependsOn|
        invariant dependents == Appended(before, n.id, n.dependsOn[..j])
      {
        assert n.dependsOn[j] in n.dependsOn;
        AppendedNext(before, n.id, n.dependsOn, j);
        dependents := dependents[n.dependsOn[j] := dependents[n.dependsOn[j]] + [n.id]];
      }
      assert n.dependsOn[..|n.dependsOn|] == n.dependsOn;
      assert nodes[..i + 1][..i] == nodes[..i];
    }
    assert nodes[..|nodes|] == nodes;
  }
}
