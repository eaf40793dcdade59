/** The interactive editor's state and its handlers (apps/web/src/pages/DagEditor.tsx). */
module DagEditor {
  import opened Wrappers
  import opened Graphs
  import opened TaskGraph
  import opened DagValidation
  import TopologicalSort

  function Digit(d: nat): char
    requires d < 10
  {
    "0123456789"[d]
  }

  function Decimal(n: nat): string {
    if n < 10 then [Digit(n)] else Decimal(n / 10) + [Digit(n % 10)]
  }

  // The number a numeral denotes.
  function Value(s: string): int {
    if s == [] then 0 else 10 * Value(s[..|s| - 1]) + (s[|s| - 1] as int - '0' as int)
  }

  lemma {:induction false} DecimalReadsBack(n: nat)
    ensures Value(Decimal(n)) == n && forall c :: c in Decimal(n) ==> '0' <= c <= '9'
  {
    if n >= 10 {
      DecimalReadsBack(n / 10);
      assert Decimal(n)[..|Decimal(n)| - 1] == Decimal(n / 10);
    } else {
      assert Decimal(n)[..0] == [];
    }
  }

  function NodeName(n: nat): Id {
    "N" + Decimal(n)
  }

  /** Counter values give pairwise different node ids. */
  lemma NodeNameInjective(m: nat, n: nat)
    requires NodeName(m) == NodeName(n)
    ensures m == n
  {
    DecimalReadsBack(m);
    DecimalReadsBack(n);
    assert NodeName(m)[1..] == Decimal(m) && NodeName(n)[1..] == Decimal(n);
  }

  function MakeNode(n: nat): EditorNode {
    EditorNode(NodeName(n), NodeName(n), "")
  }

  function KeepNodes(nodes: seq<EditorNode>, deleted: set<Id>): seq<EditorNode> {
    if nodes == [] then []
    else (if nodes[0].id in deleted then [] else [nodes[0]]) + KeepNodes(nodes[1..], deleted)
  }

  // The edges the given test keeps, in order.
  function KeepEdges(edges: seq<Edge>, keep: Edge -> bool): seq<Edge> {
    if edges == [] then []
    else (if keep(edges[0]) then [edges[0]] else []) + KeepEdges(edges[1..], keep)
  }

  function AwayFrom(deleted: set<Id>): Edge -> bool {
    (e: Edge) => e.source !in deleted && e.target !in deleted
  }

  function NotAmong(refs: set<nat>): Edge -> bool {
    (e: Edge) => e.ref !in refs
  }

  ghost predicate NoParallelEdges(edges: seq<Edge>) {
    forall i, j :: 0 <= i < j < |edges| ==>
      edges[i].source != edges[j].source || edges[i].target != edges[j].target
  }

  lemma {:induction false} KeptNodes(nodes: seq<EditorNode>, deleted: set<Id>)
    ensures forall n :: n in KeepNodes(nodes, deleted) <==> n in nodes && n.id !in deleted
    ensures DistinctNodes(nodes) ==> DistinctNodes(KeepNodes(nodes, deleted))
  {
    if nodes != [] {
      var rest := nodes[1..];
      assert nodes == [nodes[0]] + rest;
      KeptNodes(rest, deleted);
      if DistinctNodes(nodes) {
        forall n | n in rest ensures n.id != nodes[0].id {
          var i :| 0 <= i < |rest| && rest[i] == n;
          assert nodes[i + 1].id != nodes[0].id;
        }
        assert DistinctNodes(rest);
      }
    }
  }

  lemma {:induction false} KeptEdges(edges: seq<Edge>, keep: Edge -> bool)
    ensures forall e :: e in KeepEdges(edges, keep) <==> e in edges && keep(e)
    ensures NoParallelEdges(edges) ==> NoParallelEdges(KeepEdges(edges, keep))
  {
    if edges != [] {
      var rest := edges[1..];
      assert edges == [edges[0]] + rest;
      KeptEdges(rest, keep);
      if NoParallelEdges(edges) {
        forall e | e in rest ensures e.source != edges[0].source || e.target != edges[0].target {
          var i :| 0 <= i < |rest| && rest[i] == e;
          assert edges[i + 1] == e;
        }
        assert NoParallelEdges(rest);
      }
    }
  }

  // The elements of `kept` occur in `all` in the same order.
  ghost predicate InOrder<T>(kept: seq<T>, all: seq<T>)
    decreases |all|
  {
    if kept == [] then true
    else if all == [] then false
    else if kept[0] == all[0] then InOrder(kept[1..], all[1..])
    else InOrder(kept, all[1..])
  }

  lemma {:induction false} KeptNodesInOrder(nodes: seq<EditorNode>, deleted: set<Id>)
    ensures InOrder(KeepNodes(nodes, deleted), nodes)
  {
    if nodes != [] {
      KeptNodesInOrder(nodes[1..], deleted);
      KeptNodes(nodes[1..], deleted);
      var kept := KeepNodes(nodes[1..], deleted);
      assert kept != [] ==> kept[0] in kept;
      assert ([nodes[0]] + kept)[1..] == kept && [] + kept == kept;
    }
  }

  lemma {:induction false} KeptEdgesInOrder(edges: seq<Edge>, keep: Edge -> bool)
    ensures InOrder(KeepEdges(edges, keep), edges)
  {
    if edges != [] {
      KeptEdgesInOrder(edges[1..], keep);
      KeptEdges(edges[1..], keep);
      var kept := KeepEdges(edges[1..], keep);
      assert kept != [] ==> kept[0] in kept;
      assert ([edges[0]] + kept)[1..] == kept && [] + kept == kept;
    }
  }

  // What holds of the drawn graph after every handler.
  ghost predicate GoodGraph(nodes: seq<EditorNode>, edges: seq<Edge>, counter: nat) {
    && DistinctNodes(nodes)
    && (forall n :: n in nodes ==> exists k :: 0 <= k < counter && n.id == NodeName(k))
    && EdgesJoinNodes(nodes, edges)
    && NoParallelEdges(edges)
    && Acyclic(EdgeSet(edges))
  }

  lemma AddingNodeIsGood(nodes: seq<EditorNode>, edges: seq<Edge>, counter: nat)
    requires GoodGraph(nodes, edges, counter)
    ensures GoodGraph(nodes + [MakeNode(counter)], edges, counter + 1)
  {
    var nodes' := nodes + [MakeNode(counter)];
    forall n | n in nodes ensures n.id != NodeName(counter) {
      var k :| 0 <= k < counter && n.id == NodeName(k);
      if n.id == NodeName(counter) { NodeNameInjective(k, counter); }
    }
    forall i, j | 0 <= i < j < |nodes'| ensures nodes'[i].id != nodes'[j].id {
      assert nodes'[i] in nodes;
    }
    forall n | n in nodes' ensures exists k :: 0 <= k < counter + 1 && n.id == NodeName(k) {
      if n in nodes {
        var k :| 0 <= k < counter && n.id == NodeName(k);
        assert 0 <= k < counter + 1;
      }
    }
    assert forall n :: n in nodes ==> n in nodes';
  }

  lemma ConnectingIsGood(nodes: seq<EditorNode>, edges: seq<Edge>, counter: nat, e: Edge)
    requires GoodGraph(nodes, edges, counter)
    requires e.source in NodeIds(nodes) && e.target in NodeIds(nodes)
    requires !Reach(EdgeSet(edges), e.target, e.source)
    requires forall x :: x in edges ==> x.source != e.source || x.target != e.target
    ensures GoodGraph(nodes, edges + [e], counter)
  {
    RefusalIsExact(edges, e);
    forall i, j | 0 <= i < j < |edges + [e]|
      ensures (edges + [e])[i].source != (edges + [e])[j].source || (edges + [e])[i].target != (edges + [e])[j].target
    {
      assert (edges + [e])[i] in edges;
    }
  }

  lemma DeletingIsGood(nodes: seq<EditorNode>, edges: seq<Edge>, counter: nat, deleted: set<Id>, keep: Edge -> bool)
    requires GoodGraph(nodes, edges, counter)
    requires forall e :: keep(e) ==> e.source !in deleted && e.target !in deleted
    ensures GoodGraph(KeepNodes(nodes, deleted), KeepEdges(edges, keep), counter)
  {
    KeptNodes(nodes, deleted);
    KeptEdges(edges, keep);
    var nodes', edges' := KeepNodes(nodes, deleted), KeepEdges(edges, keep);
    forall x | x in NodeIds(nodes) && x !in deleted ensures x in NodeIds(nodes') {
      var n :| n in nodes && n.id == x;
      assert n in nodes';
    }
    AcyclicMono(EdgeSet(edges'), EdgeSet(edges));
  }

  datatype SubmitOutcome =
    | BlockedLocally(error: ValidationError)
    | Accepted(layers: seq<seq<Id>>)
    | RefusedByBackend(reason: TopologicalSort.DagError)

  class Editor {
    var nodes: seq<EditorNode>
    var edges: seq<Edge>
    var counter: nat

    ghost predicate Valid()
      reads this
    {
      GoodGraph(nodes, edges, counter)
    }

    constructor ()
      ensures Valid() && nodes == [EditorNode("N1", "N1", "")] && edges == [] && counter == 2
    {
      nodes, edges, counter := [MakeNode(1)], [], 2;
      new;
      assert Decimal(1) == "1" && NodeName(1) == "N1";
      RankedIsAcyclic(EdgeSet(edges), (x: Id) => 0);
      assert MakeNode(1).id == NodeName(1);
    }

    method AddNode()
      requires Valid()
      modifies this
      ensures Valid() && edges == old(edges) && counter == old(counter) + 1
      ensures |nodes| == |old(nodes)| + 1 && nodes[..|old(nodes)|] == old(nodes)
      ensures var added := nodes[|old(nodes)|];
        added.id == added.payload == "N" + Decimal(old(counter)) && added.taskType == ""
      ensures NodeName(old(counter)) !in old(NodeIds(nodes))
    {
      AddingNodeIsGood(nodes, edges, counter);
      forall n | n in nodes ensures n.id != NodeName(counter) {
        var k :| 0 <= k < counter && n.id == NodeName(k);
        if n.id == NodeName(counter) { NodeNameInjective(k, counter); }
      }
      nodes := nodes + [MakeNode(counter)];
      counter := counter + 1;
    }

    /** A drawn connection becomes an edge unless an end is missing, it would close a cycle,
        or the same connection exists. `ref` is the identity of the new edge object; the canvas
        only reports connections between nodes it shows. */
    method OnConnect(source: Id, target: Id, ref: nat)
      requires Valid()
      requires source != "" && target != "" ==> source in NodeIds(nodes) && target in NodeIds(nodes)
      modifies this`edges
      ensures Valid()
      ensures edges ==
        if source == "" || target == "" || Reach(EdgeSet(old(edges)), target, source)
           || (source, target) in EdgeSet(old(edges))
        then old(edges) else old(edges) + [Edge(ref, source, target)]
    {
      if source == "" || target == "" {
        return;
      }
      var closes := WouldCreateCycle(edges, source, target);
      if closes {
        return;
      }
      if exists e :: e in edges && e.source == source && e.target == target {
        return;
      }
      ConnectingIsGood(nodes, edges, counter, Edge(ref, source, target));
      edges := edges + [Edge(ref, source, target)];
    }

    /** Deleting nodes prunes exactly the edges that touch one of them; all else stays, in order. */
    method DeleteNodes(deleted: set<Id>)
      requires Valid()
      modifies this`nodes, this`edges
      ensures Valid()
      ensures forall n :: n in nodes <==> n in old(nodes) && n.id !in deleted
      ensures forall e :: e in edges <==> e in old(edges) && e.source !in deleted && e.target !in deleted
      ensures InOrder(nodes, old(nodes)) && InOrder(edges, old(edges))
    {
      KeptNodes(nodes, deleted);
      KeptEdges(edges, AwayFrom(deleted));
      KeptNodesInOrder(nodes, deleted);
      KeptEdgesInOrder(edges, AwayFrom(deleted));
      DeletingIsGood(nodes, edges, counter, deleted, AwayFrom(deleted));
      nodes := KeepNodes(nodes, deleted);
      edges := KeepEdges(edges, AwayFrom(deleted));
    }

    method DeleteEdges(refs: set<nat>)
      requires Valid()
      modifies this`edges
      ensures Valid()
      ensures forall e :: e in edges <==> e in old(edges) && e.ref !in refs
      ensures InOrder(edges, old(edges))
    {
      KeptEdges(edges, NotAmong(refs));
      KeptEdgesInOrder(edges, NotAmong(refs));
      DeletingIsGood(nodes, edges, counter, {}, NotAmong(refs));
      KeepAllNodes(nodes);
      edges := KeepEdges(edges, NotAmong(refs));
    }

    /** Whatever sequence of edits led here, submitting is stopped only on an empty canvas;
        the backend never refuses. */
    method Submit() returns (outcome: SubmitOutcome)
      requires Valid()
      ensures nodes == [] <==> outcome == BlockedLocally(NoNodes)
      ensures nodes != [] ==>
        outcome.Accepted? && TopologicalSort.CanonicalLayers(Payload(nodes, edges), outcome.layers)
    {
      var localErr := ValidateDag(nodes, edges);
      if localErr.Some? {
        return BlockedLocally(localErr.value);
      }
      var body := BuildDagPayload(nodes, edges);
      var reply := TopologicalSort.TopologicalLayers(body);
      outcome := if reply.Failure? then RefusedByBackend(reply.error) else Accepted(reply.value);
      PreflightAgreesWithBackend(nodes, edges);
    }
  }

  lemma {:induction false} KeepAllNodes(nodes: seq<EditorNode>)
    ensures KeepNodes(nodes, {}) == nodes
  {
    if nodes != [] { KeepAllNodes(nodes[1..]); }
  }
}
