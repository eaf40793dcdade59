/** The edges the status page draws (apps/web/src/components/DagGraph.tsx), and how they relate
    to the edges the editor submitted. */
module DagGraph {
  import opened Graphs
  import opened TaskGraph
  import opened DagValidation

  type Pair = (Id, Id)   // source, target

  function Arrows(deps: seq<Id>, target: Id): seq<Pair> {
    if deps == [] then []
    else Arrows(deps[..|deps| - 1], target) + [(deps[|deps| - 1], target)]
  }

  function Drawn(nodes: seq<DagNode>): seq<Pair> {
    if nodes == [] then []
    else
      var last := nodes[|nodes| - 1];
      Drawn(nodes[..|nodes| - 1]) + Arrows(last.dependsOn, last.id)
  }

  method BuildEdges(nodes: seq<DagNode>) returns (edges: seq<Pair>)
    ensures edges == Drawn(nodes)
  {
    edges := [];
    for i := 0 to |nodes|
      invariant edges == Drawn(nodes[..i])
    {
      var n := nodes[i];
      for j := 0 to |n.dependsOn|
        invariant edges == Drawn(nodes[..i]) + Arrows(n.dependsOn[..j], n.id)
      {
        assert n.dependsOn[..j + 1][..j] == n.dependsOn[..j];
        edges := edges + [(n.dependsOn[j], n.id)];
      }
      assert n.dependsOn[..|n.dependsOn|] == n.dependsOn;
      assert nodes[..i + 1][..i] == nodes[..i];
    }
    assert nodes[..|nodes|] == nodes;
  }

  lemma {:induction false} ArrowsCount(deps: seq<Id>, target: Id, s: Id, t: Id)
    ensures multiset(Arrows(deps, target))[(s, t)] == if t == target then multiset(deps)[s] else 0
  {
    if deps != [] {
      var init := deps[..|deps| - 1];
      assert deps == init + [deps[|deps| - 1]];
      ArrowsCount(init, target, s, t);
    }
  }

  // One arrow per declared dependency, repeats included, and no other.
  lemma {:induction false} DrawnCount(nodes: seq<DagNode>, s: Id, t: Id)
    requires DistinctIds(nodes)
    ensures multiset(Drawn(nodes))[(s, t)] == multiset(DepsOf(nodes, t))[s]
  {
    if nodes != [] {
      var init, last := nodes[..|nodes| - 1], nodes[|nodes| - 1];
      DrawnCount(init, s, t);
      ArrowsCount(last.dependsOn, last.id, s, t);
      if t == last.id {
        LastIdIsNew(nodes);
        DepsOfUnknown(init, t);
      }
    }
  }

  function PairsOf(edges: seq<Edge>): seq<Pair> {
    seq(|edges|, i requires 0 <= i < |edges| => (edges[i].source, edges[i].target))
  }

  lemma {:induction false} SourcesCount(edges: seq<Edge>, s: Id, t: Id)
    ensures multiset(SourcesOf(edges, t))[s] == multiset(PairsOf(edges))[(s, t)]
  {
    if edges != [] {
      var init, last := edges[..|edges| - 1], edges[|edges| - 1];
      SourcesCount(init, s, t);
      assert PairsOf(edges) == PairsOf(init) + [(last.source, last.target)];
    }
  }

  /** Submitting a graph and drawing it again is lossless: for edges that join nodes, the arrows
      drawn are the editor's edges, each as often as it was connected. */
  lemma DrawingRestoresTheEdges(nodes: seq<EditorNode>, edges: seq<Edge>)
    requires DistinctNodes(nodes) && EdgesJoinNodes(nodes, edges)
    ensures multiset(Drawn(Payload(nodes, edges))) == multiset(PairsOf(edges))
  {
    var body := Payload(nodes, edges);
    PayloadNodes(nodes, edges);
    forall s, t ensures multiset(Drawn(body))[(s, t)] == multiset(PairsOf(edges))[(s, t)] {
      DrawnCount(body, s, t);
      SourcesCount(edges, s, t);
      if t in IdsOf(body) {
        var k := IdIndex(body, t);
        DepsOfAt(body, k);
      } else {
        DepsOfUnknown(body, t);
        NoneOutside(nodes, edges, s, t);
      }
    }
    forall p ensures multiset(Drawn(body))[p] == multiset(PairsOf(edges))[p] {
      assert p == (p.0, p.1);
    }
  }

  lemma NoneOutside(nodes: seq<EditorNode>, edges: seq<Edge>, s: Id, t: Id)
    requires EdgesJoinNodes(nodes, edges) && t !in NodeIds(nodes)
    ensures (s, t) !in multiset(PairsOf(edges))
  {
    forall i | 0 <= i < |edges| ensures PairsOf(edges)[i] != (s, t) {
      assert edges[i] in edges;
    }
  }
}
