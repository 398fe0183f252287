/**
 Import graphs of protobuf files: a file name is mapped to the names it imports.
 An edge may point at a name that is not a key (a file nobody has supplied).
 */
module Graphs {

  type Graph = map<string, seq<string>>

  ghost predicate Edge(g: Graph, a: string, b: string) {
    a in g && b in g[a]
  }

  /** A non-empty walk along edges. */
  ghost predicate IsPath(g: Graph, p: seq<string>) {
    && |p| > 0
    && forall i, j :: 0 <= i < j < |p| && j == i + 1 ==> Edge(g, p[i], p[j])
  }

  ghost predicate Joins(g: Graph, p: seq<string>, a: string, b: string) {
    IsPath(g, p) && p[0] == a && p[|p| - 1] == b
  }

  ghost predicate Reaches(g: Graph, a: string, b: string) {
    exists p :: Joins(g, p, a, b)
  }

  /** `n` lies on a walk of at least one edge that returns to it. */
  ghost predicate OnCycle(g: Graph, n: string) {
    exists p :: Joins(g, p, n, n) && |p| >= 2
  }

  ghost predicate Acyclic(g: Graph) {
    forall n :: !OnCycle(g, n)
  }

  /** Nothing reachable from `a`, `a` included, lies on a cycle. */
  ghost predicate ReachesNoCycle(g: Graph, a: string) {
    forall n :: !CycleAt(g, a, n)
  }

  ghost predicate CycleAt(g: Graph, a: string, n: string) {
    Reaches(g, a, n) && OnCycle(g, n)
  }

  /** The known names reachable from `a`, `a` included. */
  ghost function ReachSet(g: Graph, a: string): set<string> {
    set n | n in g && Reaches(g, a, n)
  }

  /** Every name of `s` is known and has all its imports in `s`. */
  ghost predicate Closed(g: Graph, s: set<string>) {
    forall n :: n in s ==> n in g && forall d :: d in g[n] ==> d in s
  }

  ghost predicate Distinct(s: seq<string>) {
    forall i, j :: 0 <= i < j < |s| ==> s[i] != s[j]
  }

  /** Distinct known names, each after all of its imports that are themselves known. */
  ghost predicate TopologicalOrder(g: Graph, order: seq<string>) {
    && Distinct(order)
    && forall i :: 0 <= i < |order| ==>
         order[i] in g && forall d :: d in g[order[i]] && d in g ==> d in order[..i]
  }

  lemma ReachesSelf(g: Graph, a: string)
    ensures Reaches(g, a, a)
  {
    assert Joins(g, [a], a, a);
  }

  lemma ReachesThenEdge(g: Graph, a: string, b: string, c: string)
    requires Reaches(g, a, b) && Edge(g, b, c)
    ensures Reaches(g, a, c)
  {
    var p :| Joins(g, p, a, b);
    assert Joins(g, p + [c], a, c);
  }

  lemma EdgeThenReaches(g: Graph, a: string, b: string, c: string)
    requires Edge(g, a, b) && Reaches(g, b, c)
    ensures Reaches(g, a, c)
  {
    var p :| Joins(g, p, b, c);
    assert Joins(g, [a] + p, a, c);
  }

  lemma ReachesTransitive(g: Graph, a: string, b: string, c: string)
    requires Reaches(g, a, b) && Reaches(g, b, c)
    ensures Reaches(g, a, c)
  {
    var p :| Joins(g, p, a, b);
    var q :| Joins(g, q, b, c);
    var r := p + q[1..];
    forall i, j | 0 <= i < j < |r| && j == i + 1
      ensures Edge(g, r[i], r[j])
    {
      if j >= |p| {
        assert r[j] == q[j - |p| + 1] && r[i] == q[i - |p| + 1];
      }
    }
    assert Joins(g, r, a, c);
  }

  /** A closed set that contains `a` contains everything `a` reaches. */
  lemma {:induction false} ClosedUnderPath(g: Graph, s: set<string>, p: seq<string>)
    requires Closed(g, s) && IsPath(g, p) && p[0] in s
    ensures p[|p| - 1] in s
    decreases |p|
  {
    if |p| > 1 {
      PathTail(g, p);
      ClosedUnderPath(g, s, p[1..]);
    }
  }

  lemma ClosedContainsReachable(g: Graph, s: set<string>, a: string)
    requires Closed(g, s) && a in s
    ensures forall n :: Reaches(g, a, n) ==> n in s
    ensures ReachSet(g, a) <= s
  {
    forall n | Reaches(g, a, n)
      ensures n in s
    {
      var p :| Joins(g, p, a, n);
      ClosedUnderPath(g, s, p);
    }
  }

  lemma ReturningEdgeIsCycle(g: Graph, a: string, b: string)
    requires Edge(g, a, b) && Reaches(g, b, a)
    ensures OnCycle(g, a)
  {
    var p :| Joins(g, p, b, a);
    assert Joins(g, [a] + p, a, a);
  }

  lemma ReachingBackIsCycle(g: Graph, a: string, b: string)
    requires Reaches(g, a, b) && Reaches(g, b, a) && a != b
    ensures OnCycle(g, a)
  {
    var p :| Joins(g, p, a, b);
    var q :| Joins(g, q, b, a);
    var r := p + q[1..];
    forall i, j | 0 <= i < j < |r| && j == i + 1
      ensures Edge(g, r[i], r[j])
    {
      if j >= |p| {
        assert r[j] == q[j - |p| + 1] && r[i] == q[i - |p| + 1];
      }
    }
    assert Joins(g, r, a, a);
  }

  lemma NoCycleBelow(g: Graph, a: string, b: string)
    requires ReachesNoCycle(g, a) && Reaches(g, a, b)
    ensures ReachesNoCycle(g, b) && !OnCycle(g, b)
  {
    forall n
      ensures !CycleAt(g, b, n)
    {
      if CycleAt(g, b, n) {
        ReachesTransitive(g, a, b, n);
        assert CycleAt(g, a, n);
      }
    }
    ReachesSelf(g, b);
    assert !CycleAt(g, b, b);
  }

  /** Off the cycles the reachable set shrinks strictly along every edge. */
  lemma ReachSetShrinks(g: Graph, a: string, b: string)
    requires !OnCycle(g, a) && Edge(g, a, b)
    ensures ReachSet(g, b) < ReachSet(g, a)
  {
    forall n | n in ReachSet(g, b)
      ensures n in ReachSet(g, a)
    {
      EdgeThenReaches(g, a, b, n);
    }
    ReachesSelf(g, a);
    if a in ReachSet(g, b) {
      ReturningEdgeIsCycle(g, a, b);
      assert false;
    }
  }

  lemma ImportComesEarlier(g: Graph, order: seq<string>, k: nat, d: string) returns (i: nat)
    requires TopologicalOrder(g, order) && k < |order| && d in g && Edge(g, order[k], d)
    ensures i < k && order[i] == d
  {
    assert d in order[..k];
    i :| 0 <= i < k && order[..k][i] == d;
  }

  lemma PathTail(g: Graph, p: seq<string>)
    requires IsPath(g, p) && |p| > 1
    ensures Edge(g, p[0], p[1]) && IsPath(g, p[1..])
  {
  }

  /** Along a walk inside a topological order, positions only go down. */
  lemma {:induction false} PathDescends(g: Graph, order: seq<string>, p: seq<string>, k: nat) returns (j: nat)
    requires TopologicalOrder(g, order) && IsPath(g, p)
    requires forall i :: 0 <= i < |p| ==> p[i] in g
    requires k < |order| && order[k] == p[0]
    ensures j < |order| && order[j] == p[|p| - 1] && j <= k - (|p| - 1)
    decreases |p|
  {
    if |p| == 1 {
      j := k;
    } else {
      PathTail(g, p);
      var i := ImportComesEarlier(g, order, k, p[1]);
      j := PathDescends(g, order, p[1..], i);
    }
  }

  /** A topological order of all names rules out cycles. */
  lemma OrderedGraphIsAcyclic(g: Graph, order: seq<string>)
    requires TopologicalOrder(g, order)
    requires forall n :: n in g ==> n in order
    ensures Acyclic(g)
  {
    forall n
      ensures !OnCycle(g, n)
    {
      if OnCycle(g, n) {
        var p :| Joins(g, p, n, n) && |p| >= 2;
        forall i | 0 <= i < |p|
          ensures p[i] in g
        {
          if i + 1 < |p| {
            assert Edge(g, p[i], p[i + 1]);
          } else {
            assert Edge(g, p[0], p[1]);
          }
        }
        var k :| 0 <= k < |order| && order[k] == n;
        var j := PathDescends(g, order, p, k);
        assert false;
      }
    }
  }

  /** A graph cut down to a closed set of nodes keeps exactly the cycles through that set. */
  lemma CutKeepsCycles(g: Graph, cut: Graph)
    requires Closed(g, cut.Keys) && forall n :: n in cut ==> cut[n] == g[n]
    ensures Acyclic(cut) <==> forall n :: n in cut ==> !OnCycle(g, n)
  {
    forall n
      ensures OnCycle(cut, n) <==> n in cut && OnCycle(g, n)
    {
      if OnCycle(cut, n) {
        var p :| Joins(cut, p, n, n) && |p| >= 2;
        assert Edge(cut, p[0], p[1]);
        forall i, j | 0 <= i < j < |p| && j == i + 1
          ensures Edge(g, p[i], p[j])
        {
          assert Edge(cut, p[i], p[j]);
        }
        assert Joins(g, p, n, n);
      }
      if n in cut && OnCycle(g, n) {
        var p :| Joins(g, p, n, n) && |p| >= 2;
        forall i, j | 0 <= i < j < |p| && j == i + 1
          ensures Edge(cut, p[i], p[j])
        {
          ClosedUnderPath(g, cut.Keys, p[..j]);
          assert Edge(g, p[i], p[j]);
        }
        assert Joins(cut, p, n, n);
      }
    }
  }
}
