/** Finite directed graphs as edge sets: paths, cycles and the rank an acyclic graph has. */
module Digraph {
  import opened Sets

  ghost predicate IsPath<T>(edges: set<(T, T)>, p: seq<T>) {
    p != [] && forall i | 0 <= i < |p| - 1 :: (p[i], p[i + 1]) in edges
  }

  ghost predicate PathBetween<T>(edges: set<(T, T)>, p: seq<T>, a: T, b: T) {
    IsPath(edges, p) && p[0] == a && p[|p| - 1] == b
  }

  /** b can be reached from a, in zero or more steps. */
  ghost predicate Reaches<T(!new)>(edges: set<(T, T)>, a: T, b: T) {
    exists p :: PathBetween(edges, p, a, b)
  }

  /** No path of at least one step returns to where it began. */
  ghost predicate Acyclic<T(!new)>(edges: set<(T, T)>) {
    forall p | IsPath(edges, p) && |p| > 1 :: p[0] != p[|p| - 1]
  }

  lemma PathsJoin<T>(edges: set<(T, T)>, p: seq<T>, q: seq<T>, a: T, b: T, c: T)
    requires PathBetween(edges, p, a, b) && PathBetween(edges, q, b, c)
    ensures PathBetween(edges, p + q[1..], a, c)
  {
    var r := p + q[1..];
    forall i | 0 <= i < |r| - 1 ensures (r[i], r[i + 1]) in edges {
      if i >= |p| - 1 {
        assert r[i] == q[i - |p| + 1] && r[i + 1] == q[i + 1 - |p| + 1];
      }
    }
  }

  lemma ReachesTransitive<T(!new)>(edges: set<(T, T)>, a: T, b: T, c: T)
    requires Reaches(edges, a, b) && Reaches(edges, b, c)
    ensures Reaches(edges, a, c)
  {
    var p :| PathBetween(edges, p, a, b);
    var q :| PathBetween(edges, q, b, c);
    PathsJoin(edges, p, q, a, b, c);
  }

  lemma EdgeReaches<T(!new)>(edges: set<(T, T)>, a: T, b: T)
    requires (a, b) in edges
    ensures Reaches(edges, a, b)
  {
    assert PathBetween(edges, [a, b], a, b);
  }

  lemma SelfReaches<T(!new)>(edges: set<(T, T)>, a: T)
    ensures Reaches(edges, a, a)
  {
    assert PathBetween(edges, [a], a, a);
  }

  /** Adding a -> b to an acyclic graph keeps it acyclic exactly when b does not reach a. */
  lemma AcyclicAfterAdding<T(!new)>(edges: set<(T, T)>, a: T, b: T)
    requires Acyclic(edges)
    ensures Acyclic(edges + {(a, b)}) <==> !Reaches(edges, b, a)
  {
    var more := edges + {(a, b)};
    if Reaches(edges, b, a) {
      var p :| PathBetween(edges, p, b, a);
      assert PathBetween(more, [a, b], a, b) && PathBetween(more, p, b, a);
      PathsJoin(more, [a, b], p, a, b, a);
    }
    if !Acyclic(more) {
      var p :| IsPath(more, p) && |p| > 1 && p[0] == p[|p| - 1];
      CycleUsesNewEdge(edges, a, b, p);
    }
  }

  /** A cycle through the added edge leaves a path from b back to a among the old edges. */
  lemma CycleUsesNewEdge<T(!new)>(edges: set<(T, T)>, a: T, b: T, p: seq<T>)
    requires Acyclic(edges) && IsPath(edges + {(a, b)}, p) && |p| > 1 && p[0] == p[|p| - 1]
    ensures Reaches(edges, b, a)
  {
    if IsPath(edges, p) {
      assert false;
    } else {
      var i :| 0 <= i < |p| - 1 && (p[i], p[i + 1]) !in edges;
      NewEdgeSplits(edges, a, b, p[i + 1..]);
      NewEdgeSplits(edges, a, b, p[..i + 1]);
      var last := p[|p| - 1];
      if Reaches(edges, b, last) && Reaches(edges, last, a) {
        ReachesTransitive(edges, b, last, a);
      }
    }
  }

  /** A path that may use the added edge either avoids it or shows b reaching its end and
      its start reaching a. */
  lemma {:induction false} NewEdgeSplits<T(!new)>(edges: set<(T, T)>, a: T, b: T, p: seq<T>)
    requires IsPath(edges + {(a, b)}, p)
    ensures Reaches(edges, p[0], p[|p| - 1]) || (Reaches(edges, p[0], a) && Reaches(edges, b, p[|p| - 1]))
  {
    if |p| == 1 {
      SelfReaches(edges, p[0]);
    } else {
      NewEdgeSplits(edges, a, b, p[1..]);
      if (p[0], p[1]) in edges {
        EdgeReaches(edges, p[0], p[1]);
        if Reaches(edges, p[1], p[|p| - 1]) {
          ReachesTransitive(edges, p[0], p[1], p[|p| - 1]);
        } else {
          ReachesTransitive(edges, p[0], p[1], a);
        }
      } else {
        SelfReaches(edges, a);
      }
    }
  }

  /** The nodes reachable from a in one or more steps. */
  ghost function Below<T(!new)>(edges: set<(T, T)>, nodes: set<T>, a: T): set<T> {
    set m | m in nodes && exists b :: (a, b) in edges && Reaches(edges, b, m)
  }

  /** In an acyclic graph every edge strictly shrinks what lies below. */
  lemma EdgeDescends<T(!new)>(edges: set<(T, T)>, nodes: set<T>, a: T, b: T)
    requires Acyclic(edges) && (a, b) in edges && a in nodes && b in nodes
    ensures |Below(edges, nodes, b)| < |Below(edges, nodes, a)| < |nodes|
  {
    var x, y := Below(edges, nodes, a), Below(edges, nodes, b);
    SelfReaches(edges, b);
    assert b in x;
    NotBelowItself(edges, nodes, b);
    NotBelowItself(edges, nodes, a);
    forall m | m in y ensures m in x {
      var c :| (b, c) in edges && Reaches(edges, c, m);
      EdgeReaches(edges, b, c);
      ReachesTransitive(edges, b, c, m);
    }
    SubsetSmaller(y, x);
    SubsetSmaller(x, nodes);
  }

  lemma NotBelowItself<T(!new)>(edges: set<(T, T)>, nodes: set<T>, a: T)
    requires Acyclic(edges)
    ensures a !in Below(edges, nodes, a)
  {
    if a in Below(edges, nodes, a) {
      var b :| (a, b) in edges && Reaches(edges, b, a);
      var p :| PathBetween(edges, p, b, a);
      assert PathBetween(edges, [a, b], a, b);
      PathsJoin(edges, [a, b], p, a, b, a);
      assert false;
    }
  }

  /** An acyclic graph has a sink below every node: some node from which no edge leaves to `nodes`. */
  lemma {:induction false} SinkBelow<T(!new)>(edges: set<(T, T)>, nodes: set<T>, a: T) returns (sink: T)
    requires Acyclic(edges) && a in nodes
    ensures sink in nodes && Reaches(edges, a, sink)
    ensures forall b | b in nodes :: (sink, b) !in edges
    decreases |Below(edges, nodes, a)|
  {
    if b :| b in nodes && (a, b) in edges {
      EdgeDescends(edges, nodes, a, b);
      sink := SinkBelow(edges, nodes, b);
      EdgeReaches(edges, a, b);
      ReachesTransitive(edges, a, b, sink);
    } else {
      SelfReaches(edges, a);
      sink := a;
    }
  }
}
