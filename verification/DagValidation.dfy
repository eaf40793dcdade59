/** The editor's own checks (apps/web/src/lib/dagValidation.ts) and their agreement with the
    backend's layering. */
module DagValidation {
  import opened Wrappers
  import opened Graphs
  import opened TaskGraph
  import TopologicalSort

  // `ref` stands for the object's identity: the source compares edges with !==.
  datatype Edge = Edge(ref: nat, source: Id, target: Id)

  datatype EditorNode = EditorNode(id: Id, payload: string, taskType: string)

  datatype ValidationError = NoNodes | CyclicDependency

  ghost function EdgeSet(edges: seq<Edge>): Graph {
    set e | e in edges :: (e.source, e.target)
  }

  /* ---- wouldCreateCycle ---- */

  function TargetsOf(edges: seq<Edge>, source: Id): seq<Id> {
    if edges == [] then []
    else
      var last := edges[|edges| - 1];
      TargetsOf(edges[..|edges| - 1], source) + if last.source == source then [last.target] else []
  }

  lemma {:induction false} TargetsAreSuccessors(edges: seq<Edge>, a: Id, b: Id)
    ensures b in TargetsOf(edges, a) <==> (a, b) in EdgeSet(edges)
  {
    if edges != [] {
      var init, last := edges[..|edges| - 1], edges[|edges| - 1];
      assert edges == init + [last];
      assert EdgeSet(edges) == EdgeSet(init) + {(last.source, last.target)};
      TargetsAreSuccessors(init, a, b);
    }
  }

  // map.get(a) ?? []
  function Lookup(lists: map<Id, seq<Id>>, a: Id): seq<Id> {
    if a in lists then lists[a] else []
  }

  method BuildAdjacency(edges: seq<Edge>) returns (adj: map<Id, seq<Id>>)
    ensures forall a :: Lookup(adj, a) == TargetsOf(edges, a)
  {
    adj := map[];
    for i := 0 to |edges|
      invariant forall a :: Lookup(adj, a) == TargetsOf(edges[..i], a)
    {
      var e := edges[i];
      assert edges[..i + 1][..i] == edges[..i];
      if e.source !in adj {
        adj := adj[e.source := []];
      }
      adj := adj[e.source := adj[e.source] + [e.target]];
    }
    assert edges[..|edges|] == edges;
  }

  function Endpoints(edges: seq<Edge>): set<Id> {
    set e | e in edges :: e.target
  }

  // What the search knows: everything seen or stacked is reachable, and what is seen is expanded.
  ghost predicate Exploring(E: Graph, start: Id, seen: set<Id>, stack: seq<Id>) {
    && (start in seen || start in stack)
    && (forall x :: x in seen || x in stack ==> Reach(E, start, x))
    && (forall x, y :: x in seen && (x, y) in E ==> y in seen || y in stack)
  }

  lemma ExploreStep(edges: seq<Edge>, start: Id, seen: set<Id>, stack: seq<Id>, cur: Id)
    requires stack != [] && cur == stack[|stack| - 1]
    requires Exploring(EdgeSet(edges), start, seen, stack)
    ensures cur in seen ==> Exploring(EdgeSet(edges), start, seen, stack[..|stack| - 1])
    ensures Exploring(EdgeSet(edges), start, seen + {cur}, stack[..|stack| - 1] + TargetsOf(edges, cur))
  {
    var E := EdgeSet(edges);
    var rest := stack[..|stack| - 1];
    assert stack == rest + [cur];
    forall y ensures y in TargetsOf(edges, cur) <==> (cur, y) in E {
      TargetsAreSuccessors(edges, cur, y);
    }
    forall y | (cur, y) in E ensures Reach(E, start, y) {
      ReachSnoc(E, start, cur, y);
    }
  }

  // When the stack has run empty, the seen set is closed, so it holds everything reachable.
  lemma ExploredIsClosed(E: Graph, start: Id, seen: set<Id>, b: Id)
    requires Exploring(E, start, seen, []) && Reach(E, start, b)
    ensures b in seen
  {
    var p :| PathFromTo(E, p, start, b);
    var i := 0;
    while i < |p| - 1
      invariant 0 <= i <= |p| - 1 && p[i] in seen
    {
      assert (p[i], p[i + 1]) in E;
      i := i + 1;
    }
  }

  /** True exactly when a path leads from target back to source (the empty path included).
      The stack may hold a node many times; unseen endpoints, then stack length, decrease. */
  method WouldCreateCycle(edges: seq<Edge>, source: Id, target: Id) returns (b: bool)
    ensures b <==> Reach(EdgeSet(edges), target, source)
  {
    ghost var E := EdgeSet(edges);
    if source == target {
      ReachRefl(E, source);
      return true;
    }
    var adj := BuildAdjacency(edges);
    var seen: set<Id> := {};
    var stack := [target];
    ReachRefl(E, target);
    ghost var universe := Endpoints(edges) + {target};
    while |stack| > 0
      invariant Exploring(E, target, seen, stack)
      invariant source !in seen
      invariant seen <= universe && forall x :: x in stack ==> x in universe
      decreases universe - seen, |stack|
    {
      var cur := stack[|stack| - 1];
      ExploreStep(edges, target, seen, stack, cur);
      stack := stack[..|stack| - 1];
      if cur == source {
        return true;
      }
      if cur in seen {
        continue;
      }
      assert cur in universe;
      seen := seen + {cur};
      forall y | y in TargetsOf(edges, cur) ensures y in universe {
        TargetsAreSuccessors(edges, cur, y);
      }
      stack := stack + Lookup(adj, cur);
    }
    if Reach(E, target, source) {
      ExploredIsClosed(E, target, seen, source);
    }
    return false;
  }

  /** The editor's promise about one edge: allowing it keeps an acyclic graph acyclic,
      and every edge it refuses would have closed a cycle. */
  lemma RefusalIsExact(edges: seq<Edge>, e: Edge)
    requires Acyclic(EdgeSet(edges))
    ensures Acyclic(EdgeSet(edges + [e])) <==> !Reach(EdgeSet(edges), e.target, e.source)
  {
    assert EdgeSet(edges + [e]) == EdgeSet(edges) + {(e.source, e.target)};
    AddEdgeAcyclic(EdgeSet(edges), e.source, e.target);
  }

  /* ---- validateDag ---- */

  // edges.filter(x => x !== e)
  function Without(edges: seq<Edge>, e: Edge): seq<Edge> {
    if edges == [] then []
    else (if edges[0] == e then [] else [edges[0]]) + Without(edges[1..], e)
  }

  lemma {:induction false} WithoutKeepsOthers(edges: seq<Edge>, e: Edge)
    ensures forall x :: x in Without(edges, e) <==> x in edges && x != e
  {
    if edges != [] {
      assert edges == [edges[0]] + edges[1..];
      WithoutKeepsOthers(edges[1..], e);
    }
  }

  // Dropping an edge object (and keeping any parallel copy) never hides the way back.
  lemma WayBackSurvives(edges: seq<Edge>, e: Edge)
    ensures Reach(EdgeSet(Without(edges, e)), e.target, e.source) <==> Reach(EdgeSet(edges), e.target, e.source)
  {
    var E, F := EdgeSet(edges), EdgeSet(Without(edges, e));
    WithoutKeepsOthers(edges, e);
    assert F <= E && E - {(e.source, e.target)} <= F;
    if Reach(E, e.target, e.source) {
      var p :| PathFromTo(E, p, e.target, e.source);
      ShortenPath(E, F, p, e.source, e.target);
    }
    if Reach(F, e.target, e.source) {
      ReachMono(F, E, e.target, e.source);
    }
  }

  lemma CycleHasClosingEdge(edges: seq<Edge>) returns (k: nat)
    requires !Acyclic(EdgeSet(edges))
    ensures k < |edges| && Reach(EdgeSet(edges), edges[k].target, edges[k].source)
  {
    var E := EdgeSet(edges);
    var a :| Ancestor(E, a, a);
    var c :| (a, c) in E && Reach(E, c, a);
    var e :| e in edges && (e.source, e.target) == (a, c);
    k :| 0 <= k < |edges| && edges[k] == e;
  }

  method ValidateDag(nodes: seq<EditorNode>, edges: seq<Edge>) returns (err: Option<ValidationError>)
    ensures err == Some(NoNodes) <==> nodes == []
    ensures err == Some(CyclicDependency) <==> nodes != [] && !Acyclic(EdgeSet(edges))
    ensures err == None <==> nodes != [] && Acyclic(EdgeSet(edges))
  {
    ghost var E := EdgeSet(edges);
    if |nodes| == 0 {
      return Some(NoNodes);
    }
    for i := 0 to |edges|
      invariant forall k :: 0 <= k < i ==> !Reach(E, edges[k].target, edges[k].source)
    {
      var e := edges[i];
      assert (e.source, e.target) in E;
      WayBackSurvives(edges, e);
      var closes := WouldCreateCycle(Without(edges, e), e.source, e.target);
      if closes {
        assert Ancestor(E, e.source, e.source);
        return Some(CyclicDependency);
      }
    }
    if !Acyclic(E) {
      var k := CycleHasClosingEdge(edges);
    }
    return None;
  }

  /* ---- buildDagPayload ---- */

  function SourcesOf(edges: seq<Edge>, target: Id): seq<Id> {
    if edges == [] then []
    else
      var last := edges[|edges| - 1];
      SourcesOf(edges[..|edges| - 1], target) + if last.target == target then [last.source] else []
  }

  lemma {:induction false} SourcesArePredecessors(edges: seq<Edge>, a: Id, b: Id)
    ensures a in SourcesOf(edges, b) <==> (a, b) in EdgeSet(edges)
  {
    if edges != [] {
      var init, last := edges[..|edges| - 1], edges[|edges| - 1];
      assert edges == init + [last];
      assert EdgeSet(edges) == EdgeSet(init) + {(last.source, last.target)};
      SourcesArePredecessors(init, a, b);
    }
  }

  function Payload(nodes: seq<EditorNode>, edges: seq<Edge>): seq<DagNode> {
    seq(|nodes|, i requires 0 <= i < |nodes| =>
      DagNode(nodes[i].id, SourcesOf(edges, nodes[i].id), nodes[i].payload, nodes[i].taskType))
  }

  method BuildDagPayload(nodes: seq<EditorNode>, edges: seq<Edge>) returns (body: seq<DagNode>)
    ensures body == Payload(nodes, edges)
    ensures |body| == |nodes| && forall i :: 0 <= i < |nodes| ==>
      body[i] == DagNode(nodes[i].id, SourcesOf(edges, nodes[i].id), nodes[i].payload, nodes[i].taskType)
  {
    var dependsOn: map<Id, seq<Id>> := map[];
    for i := 0 to |edges|
      invariant forall t :: Lookup(dependsOn, t) == SourcesOf(edges[..i], t)
    {
      var e := edges[i];
      assert edges[..i + 1][..i] == edges[..i];
      if e.target !in dependsOn {
        dependsOn := dependsOn[e.target := []];
      }
      dependsOn := dependsOn[e.target := dependsOn[e.target] + [e.source]];
    }
    assert edges[..|edges|] == edges;
    body := seq(|nodes|, i requires 0 <= i < |nodes| =>
      DagNode(nodes[i].id, Lookup(dependsOn, nodes[i].id), nodes[i].payload, nodes[i].taskType));
  }

  /* ---- Agreement ---- */

  ghost function NodeIds(nodes: seq<EditorNode>): set<Id> {
    set n | n in nodes :: n.id
  }

  ghost predicate DistinctNodes(nodes: seq<EditorNode>) {
    forall i, j :: 0 <= i < j < |nodes| ==> nodes[i].id != nodes[j].id
  }

  // Edges whose target is a node: the only ones the payload carries.
  ghost function SubmittedEdges(nodes: seq<EditorNode>, edges: seq<Edge>): Graph {
    set e | e in edges && e.target in NodeIds(nodes) :: (e.source, e.target)
  }

  // Every edge into a node comes from a node.
  ghost predicate KnownSources(nodes: seq<EditorNode>, edges: seq<Edge>) {
    forall e :: e in edges && e.target in NodeIds(nodes) ==> e.source in NodeIds(nodes)
  }

  lemma PayloadNodes(nodes: seq<EditorNode>, edges: seq<Edge>)
    ensures IdsOf(Payload(nodes, edges)) == NodeIds(nodes)
    ensures DistinctIds(Payload(nodes, edges)) <==> DistinctNodes(nodes)
  {
    var body := Payload(nodes, edges);
    forall id ensures id in IdsOf(body) <==> id in NodeIds(nodes) {
      if id in NodeIds(nodes) {
        var n :| n in nodes && n.id == id;
        var i :| 0 <= i < |nodes| && nodes[i] == n;
        assert body[i] in body;
      }
      if id in IdsOf(body) {
        var i := IdIndex(body, id);
        assert nodes[i] in nodes;
      }
    }
    forall i, j | 0 <= i < j < |nodes|
      ensures body[i].id == nodes[i].id && body[j].id == nodes[j].id
    {
    }
    if DistinctIds(body) {
      forall i, j | 0 <= i < j < |nodes| ensures nodes[i].id != nodes[j].id {
        assert body[i].id != body[j].id;
      }
    }
  }

  /** The payload carries exactly the edges that end in a node. */
  lemma PayloadEdges(nodes: seq<EditorNode>, edges: seq<Edge>)
    ensures EdgesOf(Payload(nodes, edges)) == SubmittedEdges(nodes, edges)
  {
    var body := Payload(nodes, edges);
    forall a, b ensures (a, b) in EdgesOf(body) <==> (a, b) in SubmittedEdges(nodes, edges) {
      SourcesArePredecessors(edges, a, b);
      if (a, b) in EdgesOf(body) {
        var n :| n in body && a in n.dependsOn && n.id == b;
        var i :| 0 <= i < |body| && body[i] == n;
        assert nodes[i] in nodes;
      }
      if (a, b) in SubmittedEdges(nodes, edges) {
        var n :| n in nodes && n.id == b;
        var i :| 0 <= i < |nodes| && nodes[i] == n;
        assert body[i] in body && a in body[i].dependsOn;
      }
    }
  }

  lemma PayloadKnown(nodes: seq<EditorNode>, edges: seq<Edge>)
    ensures KnownDeps(Payload(nodes, edges)) <==> KnownSources(nodes, edges)
  {
    PayloadNodes(nodes, edges);
    PayloadEdges(nodes, edges);
    var body := Payload(nodes, edges);
    if KnownDeps(body) {
      forall e | e in edges && e.target in NodeIds(nodes) ensures e.source in NodeIds(nodes) {
        assert (e.source, e.target) in EdgesOf(body);
      }
    }
    if KnownSources(nodes, edges) {
      forall n, d | n in body && d in n.dependsOn ensures d in IdsOf(body) {
        assert (d, n.id) in EdgesOf(body);
        var e :| e in edges && e.target in NodeIds(nodes) && (e.source, e.target) == (d, n.id);
      }
    }
  }

  /** Exactly which editor graphs the backend accepts, over all inputs. */
  lemma BackendAccepts(nodes: seq<EditorNode>, edges: seq<Edge>)
    ensures IsDag(Payload(nodes, edges)) <==>
      && nodes != [] && DistinctNodes(nodes)
      && KnownSources(nodes, edges)
      && Acyclic(SubmittedEdges(nodes, edges))
  {
    PayloadNodes(nodes, edges);
    PayloadEdges(nodes, edges);
    PayloadKnown(nodes, edges);
  }

  ghost predicate EdgesJoinNodes(nodes: seq<EditorNode>, edges: seq<Edge>) {
    forall e :: e in edges ==> e.source in NodeIds(nodes) && e.target in NodeIds(nodes)
  }

  /** On graphs whose edges join existing, distinctly named nodes the two checks agree:
      the pre-flight passes exactly when the backend accepts the payload. */
  lemma PreflightAgreesWithBackend(nodes: seq<EditorNode>, edges: seq<Edge>)
    requires DistinctNodes(nodes) && EdgesJoinNodes(nodes, edges)
    ensures nodes != [] && Acyclic(EdgeSet(edges)) <==> IsDag(Payload(nodes, edges))
  {
    BackendAccepts(nodes, edges);
    assert SubmittedEdges(nodes, edges) == EdgeSet(edges);
  }

  // With known sources, whatever reaches a node does so along submitted edges.
  lemma {:induction false} WalksIntoNodes(nodes: seq<EditorNode>, edges: seq<Edge>, p: seq<Id>)
    requires KnownSources(nodes, edges) && IsPath(EdgeSet(edges), p) && p[|p| - 1] in NodeIds(nodes)
    ensures IsPath(SubmittedEdges(nodes, edges), p) && p[0] in NodeIds(nodes)
    decreases |p|
  {
    if |p| > 1 {
      WalksIntoNodes(nodes, edges, p[1..]);
      var e :| e in edges && (e.source, e.target) == (p[0], p[1]);
      forall i | 0 <= i < |p| - 1 ensures (p[i], p[i + 1]) in SubmittedEdges(nodes, edges) {
        if i > 0 { assert (p[1..][i - 1], p[1..][i]) in SubmittedEdges(nodes, edges); }
      }
    }
  }

  // No cycle of the drawn edges passes through a node.
  ghost predicate CyclesAvoidNodes(nodes: seq<EditorNode>, edges: seq<Edge>) {
    forall a :: Ancestor(EdgeSet(edges), a, a) ==> a !in NodeIds(nodes)
  }

  lemma SubmittedCycles(nodes: seq<EditorNode>, edges: seq<Edge>)
    requires KnownSources(nodes, edges)
    ensures Acyclic(SubmittedEdges(nodes, edges)) <==> CyclesAvoidNodes(nodes, edges)
  {
    var E, S := EdgeSet(edges), SubmittedEdges(nodes, edges);
    forall a | Ancestor(E, a, a) && a in NodeIds(nodes) ensures Ancestor(S, a, a) {
      var c :| (a, c) in E && Reach(E, c, a);
      var p :| PathFromTo(E, p, c, a);
      WalksIntoNodes(nodes, edges, p);
      assert PathFromTo(S, p, c, a);
    }
    forall a | Ancestor(S, a, a) ensures Ancestor(E, a, a) && a in NodeIds(nodes) {
      var c :| (a, c) in S && Reach(S, c, a);
      ReachMono(S, E, c, a);
      var d := AncestorLastEdge(S, a, a);
    }
  }

  /** When the pre-flight passes, the backend accepts exactly if ids are unique and every edge into
      a node comes from a node. */
  lemma PassedIsAcceptedExactlyWhen(nodes: seq<EditorNode>, edges: seq<Edge>)
    requires nodes != [] && Acyclic(EdgeSet(edges))
    ensures IsDag(Payload(nodes, edges)) <==> DistinctNodes(nodes) && KnownSources(nodes, edges)
  {
    BackendAccepts(nodes, edges);
    AcyclicMono(SubmittedEdges(nodes, edges), EdgeSet(edges));
  }

  /** When the pre-flight reports a cycle, the backend nevertheless accepts exactly if, besides
      that, every cycle avoids the nodes: edges between unknown ends are not submitted. */
  lemma BlockedIsAcceptedExactlyWhen(nodes: seq<EditorNode>, edges: seq<Edge>)
    requires nodes != [] && !Acyclic(EdgeSet(edges))
    ensures IsDag(Payload(nodes, edges)) <==>
      DistinctNodes(nodes) && KnownSources(nodes, edges) && CyclesAvoidNodes(nodes, edges)
  {
    BackendAccepts(nodes, edges);
    if KnownSources(nodes, edges) {
      SubmittedCycles(nodes, edges);
    }
  }

  /** A dangling source passes the pre-flight and is refused by the backend. */
  lemma DanglingSourceDisagrees()
    ensures var nodes, edges := [EditorNode("N1", "", "")], [Edge(0, "N2", "N1")];
      nodes != [] && Acyclic(EdgeSet(edges)) && !IsDag(Payload(nodes, edges))
  {
    var nodes, edges := [EditorNode("N1", "", "")], [Edge(0, "N2", "N1")];
    BackendAccepts(nodes, edges);
    assert edges[0] in edges && nodes[0] in nodes;
    assert forall n :: n in nodes ==> n.id == "N1";
    RankedIsAcyclic(EdgeSet(edges), (x: Id) => if x == "N1" then 1 else 0);
  }

  /** Running both checks on one editor graph: the browser's verdict and the server's, for any
      graph at all, and in full agreement when edges join distinctly named nodes. */
  method PreflightAndSubmit(nodes: seq<EditorNode>, edges: seq<Edge>)
    returns (err: Option<ValidationError>, reply: Result<seq<seq<Id>>, TopologicalSort.DagError>)
    ensures err == Some(NoNodes) <==> reply == Result.Failure(TopologicalSort.EmptyDag)
    ensures err == None ==> (reply.Success? <==> DistinctNodes(nodes) && KnownSources(nodes, edges))
    ensures err == Some(CyclicDependency) ==>
      (reply.Success? <==> DistinctNodes(nodes) && KnownSources(nodes, edges) && CyclesAvoidNodes(nodes, edges))
    ensures DistinctNodes(nodes) && EdgesJoinNodes(nodes, edges) ==>
      && (err == None <==> reply.Success?)
      && (err == Some(CyclicDependency) ==> reply.error.CycleDetected? || reply.error.SelfLoop?)
  {
    err := ValidateDag(nodes, edges);
    var body := BuildDagPayload(nodes, edges);
    reply := TopologicalSort.TopologicalLayers(body);
    if nodes != [] && Acyclic(EdgeSet(edges)) {
      PassedIsAcceptedExactlyWhen(nodes, edges);
    } else if nodes != [] {
      BlockedIsAcceptedExactlyWhen(nodes, edges);
    }
    if DistinctNodes(nodes) && EdgesJoinNodes(nodes, edges) {
      PreflightAgreesWithBackend(nodes, edges);
      PayloadNodes(nodes, edges);
      if err == Some(CyclicDependency) {
        PayloadKnown(nodes, edges);
        TopologicalSort.KnownGraphDiagnosis(body, reply.error);
      }
    }
  }
}
