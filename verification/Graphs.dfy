/** Finite directed graphs given as a set of edges (source, target).
    Both decisions of acyclicity in the program (the backend's layering and the
    editor's path search) and the runtime's blocking argument are stated against
    the definitions in this module. */
module Graphs {

  type Id = string
  type Graph = set<(Id, Id)>

  // p is a walk along edges of E; a single vertex is a walk of length zero.
  ghost predicate IsPath(E: Graph, p: seq<Id>) {
    |p| > 0 && forall i :: 0 <= i < |p| - 1 ==> (p[i], p[i + 1]) in E
  }

  ghost predicate PathFromTo(E: Graph, p: seq<Id>, a: Id, b: Id) {
    IsPath(E, p) && p[0] == a && p[|p| - 1] == b
  }

  // b can be reached from a by zero or more edges.
  ghost predicate Reach(E: Graph, a: Id, b: Id) {
    exists p :: PathFromTo(E, p, a, b)
  }

  // a is a proper ancestor of b: there is a path of at least one edge.
  ghost predicate Ancestor(E: Graph, a: Id, b: Id) {
    exists c :: (a, c) in E && Reach(E, c, b)
  }

  ghost predicate Acyclic(E: Graph) {
    forall a :: !Ancestor(E, a, a)
  }

  // There is a walk of exactly k edges ending in n.
  ghost predicate HasChain(E: Graph, n: Id, k: nat)
    decreases k
  {
    k == 0 || exists d :: (d, n) in E && HasChain(E, d, k - 1)
  }

  lemma ReachRefl(E: Graph, a: Id)
    ensures Reach(E, a, a)
  {
    assert PathFromTo(E, [a], a, a);
  }

  lemma ReachCons(E: Graph, a: Id, b: Id, c: Id)
    requires (a, b) in E && Reach(E, b, c)
    ensures Reach(E, a, c)
  {
    var p :| PathFromTo(E, p, b, c);
    assert PathFromTo(E, [a] + p, a, c);
  }

  lemma ReachSnoc(E: Graph, a: Id, b: Id, c: Id)
    requires Reach(E, a, b) && (b, c) in E
    ensures Reach(E, a, c)
    ensures Ancestor(E, a, c)
  {
    var p :| PathFromTo(E, p, a, b);
    var q := p + [c];
    assert PathFromTo(E, q, a, c);
    assert PathFromTo(E, q[1..], q[1], c);
    assert (a, q[1]) in E by { assert (q[0], q[1]) in E; }
  }

  lemma ReachTrans(E: Graph, a: Id, b: Id, c: Id)
    requires Reach(E, a, b) && Reach(E, b, c)
    ensures Reach(E, a, c)
  {
    var p :| PathFromTo(E, p, a, b);
    var q :| PathFromTo(E, q, b, c);
    var r := p + q[1..];
    forall i | 0 <= i < |r| - 1
      ensures (r[i], r[i + 1]) in E
    {
      if i >= |p| - 1 {
        assert r[i] == q[i - (|p| - 1)] && r[i + 1] == q[i + 1 - (|p| - 1)];
      }
    }
    assert PathFromTo(E, r, a, c);
  }

  // The last edge of a proper path.
  lemma AncestorLastEdge(E: Graph, a: Id, b: Id) returns (d: Id)
    requires Ancestor(E, a, b)
    ensures (d, b) in E && Reach(E, a, d)
  {
    var c :| (a, c) in E && Reach(E, c, b);
    var p :| PathFromTo(E, p, c, b);
    var q := [a] + p;
    d := q[|q| - 2];
    assert (q[|q| - 2], q[|q| - 1]) in E;
    assert PathFromTo(E, q[..|q| - 1], a, d);
  }

  // A set closed under predecessors contains every walk that ends in it.
  lemma {:induction false} PathStaysIn(E: Graph, S: set<Id>, p: seq<Id>)
    requires IsPath(E, p) && p[|p| - 1] in S
    requires forall d, m :: (d, m) in E && m in S ==> d in S
    ensures p[0] in S
    decreases |p|
  {
    if |p| > 1 {
      assert (p[0], p[1]) in E;
      PathStaysIn(E, S, p[1..]);
    }
  }

  lemma ReachIsAncestorOrSelf(E: Graph, a: Id, b: Id)
    requires Reach(E, a, b)
    ensures a == b || Ancestor(E, a, b)
  {
    var p :| PathFromTo(E, p, a, b);
    if |p| > 1 {
      assert PathFromTo(E, p[1..], p[1], b);
      assert (p[0], p[1]) in E;
    }
  }

  lemma AncestorReach(E: Graph, a: Id, b: Id)
    requires Ancestor(E, a, b)
    ensures Reach(E, a, b)
  {
    var c :| (a, c) in E && Reach(E, c, b);
    ReachCons(E, a, c, b);
  }

  lemma AncestorTrans(E: Graph, a: Id, b: Id, c: Id)
    requires Ancestor(E, a, b) && Ancestor(E, b, c)
    ensures Ancestor(E, a, c)
  {
    var x :| (a, x) in E && Reach(E, x, b);
    AncestorReach(E, b, c);
    ReachTrans(E, x, b, c);
  }

  lemma AncestorEdge(E: Graph, a: Id, b: Id)
    requires (a, b) in E
    ensures Ancestor(E, a, b)
  {
    ReachRefl(E, b);
  }

  // A path inside a smaller graph is a path in the larger one.
  lemma ReachMono(E: Graph, F: Graph, a: Id, b: Id)
    requires E <= F && Reach(E, a, b)
    ensures Reach(F, a, b)
  {
    var p :| PathFromTo(E, p, a, b);
    assert PathFromTo(F, p, a, b);
  }

  lemma AcyclicMono(E: Graph, F: Graph)
    requires E <= F && Acyclic(F)
    ensures Acyclic(E)
  {
    forall a ensures !Ancestor(E, a, a) {
      if Ancestor(E, a, a) {
        var c :| (a, c) in E && Reach(E, c, a);
        ReachMono(E, F, c, a);
        assert Ancestor(F, a, a);
      }
    }
  }

  ghost predicate HasPredIn(E: Graph, S: set<Id>, n: Id) {
    exists d :: d in S && (d, n) in E
  }

  // The ancestors of x inside a backward-closed set are backward closed again.
  lemma AncestorsBackwardClosed(E: Graph, S: set<Id>, x: Id, n: Id)
    requires forall m :: m in S ==> HasPredIn(E, S, m)
    requires n in S && (n == x || Ancestor(E, n, x))
    ensures HasPredIn(E, AncestorsIn(E, S, x), n)
  {
    var c :| c in S && (c, n) in E;
    if n == x {
      AncestorEdge(E, c, x);
    } else {
      AncestorReach(E, n, x);
    }
    assert c in AncestorsIn(E, S, x);
  }

  // A non-empty finite set in which every member has a predecessor in the set holds a cycle.
  lemma {:induction false} BackwardClosedHasCycle(E: Graph, S: set<Id>)
    requires S != {}
    requires forall n :: n in S ==> HasPredIn(E, S, n)
    ensures !Acyclic(E)
    decreases |S|
  {
    var x :| x in S;
    var T := AncestorsIn(E, S, x);
    if x !in T {
      AncestorsClosed(E, S, x);
      SubsetCard(T, S - {x});
      BackwardClosedHasCycle(E, T);
    }
  }

  lemma AncestorsClosed(E: Graph, S: set<Id>, x: Id)
    requires x in S && forall n :: n in S ==> HasPredIn(E, S, n)
    ensures AncestorsIn(E, S, x) != {} && AncestorsIn(E, S, x) <= S
    ensures forall n :: n in AncestorsIn(E, S, x) ==> HasPredIn(E, AncestorsIn(E, S, x), n)
  {
    AncestorsBackwardClosed(E, S, x, x);
    forall n | n in AncestorsIn(E, S, x) ensures HasPredIn(E, AncestorsIn(E, S, x), n) {
      AncestorsBackwardClosed(E, S, x, n);
    }
  }

  lemma {:induction false} SubsetCard(A: set<Id>, B: set<Id>)
    requires A <= B
    ensures |A| <= |B|
    ensures A != B ==> |A| < |B|
    decreases A
  {
    if A != {} {
      var x :| x in A;
      SubsetCard(A - {x}, B - {x});
    }
  }

  // Any numbering that grows along every edge rules out cycles.
  lemma RankedIsAcyclic(E: Graph, rank: Id -> int)
    requires forall a, b :: (a, b) in E ==> rank(a) < rank(b)
    ensures Acyclic(E)
  {
    forall a ensures !Ancestor(E, a, a) {
      if Ancestor(E, a, a) {
        var c :| (a, c) in E && Reach(E, c, a);
        RankGrows(E, rank, c, a);
      }
    }
  }

  lemma RankGrows(E: Graph, rank: Id -> int, a: Id, b: Id)
    requires forall a, b :: (a, b) in E ==> rank(a) < rank(b)
    requires Reach(E, a, b)
    ensures rank(a) <= rank(b)
  {
    var p :| PathFromTo(E, p, a, b);
    var i := 0;
    while i < |p| - 1
      invariant 0 <= i <= |p| - 1
      invariant rank(a) <= rank(p[i])
    {
      assert (p[i], p[i + 1]) in E;
      i := i + 1;
    }
  }

  // Deleting an edge (s, t) cannot destroy a path from t to s.
  lemma {:induction false} ShortenPath(E: Graph, F: Graph, p: seq<Id>, s: Id, t: Id)
    requires PathFromTo(E, p, t, s)
    requires E - {(s, t)} <= F
    ensures Reach(F, t, s)
    decreases |p|
  {
    if i :| 0 <= i < |p| - 1 && p[i] == s && p[i + 1] == t {
      var q := p[i + 1..];
      assert PathFromTo(E, q, t, s);
      ShortenPath(E, F, q, s, t);
    } else {
      assert PathFromTo(F, p, t, s);
    }
  }

  // Adding one edge keeps an acyclic graph acyclic exactly when there was no path back.
  lemma AddEdgeAcyclic(E: Graph, s: Id, t: Id)
    requires Acyclic(E)
    ensures Acyclic(E + {(s, t)}) <==> !Reach(E, t, s)
  {
    var F := E + {(s, t)};
    if Reach(E, t, s) {
      ReachMono(E, F, t, s);
      assert (s, t) in F;
      assert Ancestor(F, s, s);
    } else {
      forall a ensures !Ancestor(F, a, a) {
        if Ancestor(F, a, a) {
          var c :| (a, c) in F && Reach(F, c, a);
          var p :| PathFromTo(F, p, c, a);
          var q := [a] + p;
          assert PathFromTo(F, q, a, a);
          ClosedWalkUsesEdge(E, q, s, t);
        }
      }
    }
  }

  // A closed walk of E + (s, t), with E acyclic, yields a path from t back to s in E.
  lemma ClosedWalkUsesEdge(E: Graph, q: seq<Id>, s: Id, t: Id)
    requires Acyclic(E)
    requires IsPath(E + {(s, t)}, q) && |q| > 1 && q[0] == q[|q| - 1]
    ensures Reach(E, t, s)
  {
    var F := E + {(s, t)};
    if i :| 0 <= i < |q| - 1 && q[i] == s && q[i + 1] == t {
      var r := q[i + 1..] + q[1..i + 1];
      forall j | 0 <= j < |r| - 1 ensures (r[j], r[j + 1]) in F {
        var m := |q| - 1 - i;
        if j < m - 1 {
          assert r[j] == q[i + 1 + j] && r[j + 1] == q[i + 2 + j];
        } else {
          assert j == m - 1 ==> r[j] == q[|q| - 1] == q[0];
          assert r[j] == q[j - m + 1] && r[j + 1] == q[j - m + 2];
        }
      }
      assert PathFromTo(F, r, t, s);
      ShortenPath(F, E, r, s, t);
    } else {
      assert PathFromTo(E, q[1..], q[1], q[0]);
      assert (q[0], q[1]) in E;
      assert Ancestor(E, q[0], q[0]);
    }
  }

  // The proper ancestors of n among a finite vertex set: shrinks along edges of an acyclic graph.
  ghost function AncestorsIn(E: Graph, V: set<Id>, n: Id): set<Id> {
    set m | m in V && Ancestor(E, m, n)
  }

  lemma AncestorsShrink(E: Graph, V: set<Id>, d: Id, n: Id)
    requires Acyclic(E) && (d, n) in E && d in V
    ensures |AncestorsIn(E, V, d)| < |AncestorsIn(E, V, n)|
  {
    AncestorEdge(E, d, n);
    forall m | m in AncestorsIn(E, V, d) ensures m in AncestorsIn(E, V, n) {
      AncestorTrans(E, m, d, n);
    }
    assert d in AncestorsIn(E, V, n) && d !in AncestorsIn(E, V, d);
    SubsetCard(AncestorsIn(E, V, d), AncestorsIn(E, V, n));
  }

  // Chains: shorter ones exist below longer ones, and they extend along paths.
  lemma {:induction false} ChainPrefix(E: Graph, n: Id, k: nat, j: nat)
    requires HasChain(E, n, k) && j <= k
    ensures HasChain(E, n, j)
    decreases k
  {
    if j > 0 {
      var d :| (d, n) in E && HasChain(E, d, k - 1);
      ChainPrefix(E, d, k - 1, j - 1);
    }
  }
}
