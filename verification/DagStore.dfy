/** The Redis keys of one DAG (libs/workflow/src/dag-coordinator.ts) and the single commands
    issued against them. Keys are taken as unexpired. */
module DagStore {
  import opened Wrappers
  import opened Graphs
  import opened TaskGraph
  import TopologicalSort

  type JobId = string
  type Json = string

  datatype Status = Pending | Ready | Active | Completed | Failed

  datatype Store = Store(
    nodes: map<Id, DagNode>,
    dependents: map<Id, seq<Id>>,
    remaining: map<Id, int>,
    status: map<Id, Status>,
    results: map<Id, Json>,
    jobIds: map<Id, JobId>,
    failures: map<Id, string>)
  {
    // HSET of one field of one hash
    function SetStatus(n: Id, s: Status): Store { this.(status := status[n := s]) }
    function SetResult(n: Id, v: Json): Store { this.(results := results[n := v]) }
    function SetJobId(n: Id, j: JobId): Store { this.(jobIds := jobIds[n := j]) }
    function SetFailure(n: Id, reason: string): Store { this.(failures := failures[n := reason]) }

    // DECR: a missing counter counts as zero
    function Counter(n: Id): int { if n in remaining then remaining[n] else 0 }
    function Decr(n: Id): Store { this.(remaining := remaining[n := Counter(n) - 1]) }

    // HGET with the fallbacks the source applies
    function DependentsOf(n: Id): seq<Id> { if n in dependents then dependents[n] else [] }
    function DeclaredDeps(n: Id): seq<Id> { if n in nodes then nodes[n].dependsOn else [] }

    // HMGET: null for a missing field
    function Result(n: Id): Option<Json> { if n in results then Some(results[n]) else None }
    function Results(ns: seq<Id>): map<Id, Option<Json>> { map n | n in ns :: Result(n) }
  }

  const EMPTY_STORE := Store(map[], map[], map[], map[], map[], map[], map[])

  function NodeOf(nodes: seq<DagNode>, id: Id): DagNode
    requires id in IdsOf(nodes)
  {
    var last := nodes[|nodes| - 1];
    if last.id == id then last
    else
      assert nodes == nodes[..|nodes| - 1] + [last];
      NodeOf(nodes[..|nodes| - 1], id)
  }

  lemma {:induction false} NodeOfDeps(nodes: seq<DagNode>, id: Id)
    requires id in IdsOf(nodes)
    ensures NodeOf(nodes, id).id == id && NodeOf(nodes, id).dependsOn == DepsOf(nodes, id)
  {
    var last := nodes[|nodes| - 1];
    if last.id != id {
      assert nodes == nodes[..|nodes| - 1] + [last];
      NodeOfDeps(nodes[..|nodes| - 1], id);
    }
  }

  // What persist writes for a submitted graph.
  function Persisted(nodes: seq<DagNode>): Store {
    var ids := IdsOf(nodes);
    Store(
      map n | n in ids :: NodeOf(nodes, n),
      TopologicalSort.DependentLists(nodes, ids),
      map n | n in ids :: |DepsOf(nodes, n)|,
      map n | n in ids :: if DepsOf(nodes, n) == [] then Ready else Pending,
      map[], map[], map[])
  }

  lemma {:induction false} NodeOfAt(nodes: seq<DagNode>, i: nat)
    requires DistinctIds(nodes) && i < |nodes|
    ensures nodes[i].id in IdsOf(nodes) && NodeOf(nodes, nodes[i].id) == nodes[i]
  {
    assert nodes[i] in nodes;
    if i < |nodes| - 1 {
      var init := nodes[..|nodes| - 1];
      assert init[i] == nodes[i] && nodes == init + [nodes[|nodes| - 1]];
      NodeOfAt(init, i);
    }
  }

  // What the store holds about one submitted node.
  ghost predicate HoldsNode(nodes: seq<DagNode>, st: Store, n: DagNode) {
    && n.id in st.nodes && st.nodes[n.id] == n
    && n.id in st.remaining && st.remaining[n.id] == |n.dependsOn|
    && n.id in st.status && st.status[n.id] == (if n.dependsOn == [] then Ready else Pending)
    && n.id in st.dependents
    && forall m :: m in nodes ==> multiset(st.dependents[n.id])[m.id] == multiset(m.dependsOn)[n.id]
  }

  /** A persisted graph is stored whole: every node as submitted, its number of dependencies,
      its readiness, and the nodes that list it, as often as they do; and nothing else. */
  ghost predicate HoldsGraph(nodes: seq<DagNode>, st: Store) {
    && (forall n :: n in nodes ==> HoldsNode(nodes, st, n))
    && st.nodes.Keys == st.remaining.Keys == st.status.Keys == st.dependents.Keys == IdsOf(nodes)
    && st.results == map[] && st.jobIds == map[] && st.failures == map[]
  }

  lemma PersistedNode(nodes: seq<DagNode>, i: nat)
    requires DistinctIds(nodes) && i < |nodes|
    ensures HoldsNode(nodes, Persisted(nodes), nodes[i])
  {
    NodeOfAt(nodes, i);
    DepsOfAt(nodes, i);
    forall m | m in nodes
      ensures multiset(Dependents(nodes, nodes[i].id))[m.id] == multiset(m.dependsOn)[nodes[i].id]
    {
      var j :| 0 <= j < |nodes| && nodes[j] == m;
      DepsOfAt(nodes, j);
      TransposeCount(nodes, nodes[i].id, m.id);
    }
  }

  lemma PersistedIsWhole(nodes: seq<DagNode>)
    requires DistinctIds(nodes)
    ensures HoldsGraph(nodes, Persisted(nodes))
  {
    forall n | n in nodes ensures HoldsNode(nodes, Persisted(nodes), n) {
      var i :| 0 <= i < |nodes| && nodes[i] == n;
      PersistedNode(nodes, i);
    }
  }

  // The nodes createDag enqueues itself, in submission order.
  function RootIds(nodes: seq<DagNode>): seq<Id> {
    IdsWhere(nodes, (n: DagNode) => n.dependsOn == [])
  }

  lemma RootIdsAre(nodes: seq<DagNode>)
    requires DistinctIds(nodes)
    ensures NoRepeats(RootIds(nodes))
    ensures forall n :: n in RootIds(nodes) <==> n in IdsOf(nodes) && DepsOf(nodes, n) == []
  {
    IdsWhereAre(nodes, (n: DagNode) => n.dependsOn == []);
    forall n ensures n in RootIds(nodes) <==> n in IdsOf(nodes) && DepsOf(nodes, n) == [] {
      if n in IdsOf(nodes) {
        var i := IdIndex(nodes, n);
        DepsOfAt(nodes, i);
        forall m | m in nodes && m.id == n ensures m == nodes[i] {
          var j :| 0 <= j < |nodes| && nodes[j] == m;
        }
      }
    }
  }

  /** The dependency structure of an accepted graph as the runtime sees it: lookups only. */
  datatype Plan = Plan(ids: set<Id>, deps: map<Id, seq<Id>>, dependents: map<Id, seq<Id>>)
  {
    function Deps(n: Id): seq<Id> { if n in deps then deps[n] else [] }
    function Dependents(d: Id): seq<Id> { if d in dependents then dependents[d] else [] }
    ghost function Edges(): Graph { set n, d | n in ids && d in Deps(n) :: (d, n) }
  }

  function PlanOf(nodes: seq<DagNode>): Plan {
    var ids := IdsOf(nodes);
    Plan(ids, map n | n in ids :: DepsOf(nodes, n), TopologicalSort.DependentLists(nodes, ids))
  }

  // Dependencies are known, and the two lists transpose each other with multiplicity.
  ghost predicate PlanOk(g: Plan) {
    && (forall n, d :: n in g.ids && d in g.Deps(n) ==> d in g.ids)
    && (forall d, m :: m in g.Dependents(d) ==> m in g.ids)
    && (forall d, m :: multiset(g.Dependents(d))[m] == multiset(g.Deps(m))[d])
  }

  lemma PlanOfOk(nodes: seq<DagNode>)
    requires WellFormed(nodes)
    ensures PlanOk(PlanOf(nodes)) && PlanOf(nodes).Edges() == EdgesOf(nodes)
  {
    var g := PlanOf(nodes);
    forall n, d | n in g.ids && d in g.Deps(n) ensures d in g.ids {
      var k := IdIndex(nodes, n);
      DepsOfAt(nodes, k);
      assert nodes[k] in nodes;
    }
    forall d, m ensures multiset(g.Dependents(d))[m] == multiset(g.Deps(m))[d] {
      TransposeCount(nodes, d, m);
      if m !in g.ids { DepsOfUnknown(nodes, m); }
      if m in g.ids && d !in g.ids {
        assert d !in g.Deps(m);
      }
    }
    forall d, m | m in g.Dependents(d) ensures m in g.ids {
      DependentsKnown(nodes, d, m);
    }
    forall d, n ensures (d, n) in g.Edges() <==> (d, n) in EdgesOf(nodes) {
      EdgeIsDep(nodes, d, n);
      if n !in g.ids { DepsOfUnknown(nodes, n); }
    }
  }
}
