/** Finite directed graphs over string ids: walks, cycles, longest walks. */
module Graphs {
  type Id = string

  datatype Edge = Edge(src: Id, dst: Id)

  /** A sequence of vertices joined by edges. */
  ghost predicate Walk(edges: set<Edge>, p: seq<Id>) {
    |p| >= 1 && forall i :: 0 <= i < |p| - 1 ==> Edge(p[i], p[i + 1]) in edges
  }

  ghost predicate WalkTo(edges: set<Edge>, p: seq<Id>, v: Id) {
    Walk(edges, p) && p[|p| - 1] == v
  }

  ghost predicate Repeats(p: seq<Id>) {
    exists i, j :: 0 <= i < j < |p| && p[i] == p[j]
  }

  /** No walk of at least one edge returns to where it started. */
  ghost predicate Acyclic(edges: set<Edge>) {
    forall p :: Walk(edges, p) && |p| >= 2 ==> p[0] != p[|p| - 1]
  }

  /** Some walk to v passes a vertex twice, so v lies on or behind a cycle. */
  ghost predicate BehindCycle(edges: set<Edge>, v: Id) {
    exists p :: WalkTo(edges, p, v) && Repeats(p)
  }

  /** The longest walk to v has n edges. */
  ghost predicate LongestWalk(edges: set<Edge>, v: Id, n: int) {
    && (exists p :: WalkTo(edges, p, v) && |p| - 1 == n)
    && (forall p :: WalkTo(edges, p, v) ==> |p| - 1 <= n)
  }

  lemma SubWalk(edges: set<Edge>, p: seq<Id>, i: nat, j: nat)
    requires Walk(edges, p) && i < j <= |p|
    ensures Walk(edges, p[i..j])
  {
  }

  lemma RepeatMeansCycle(edges: set<Edge>, p: seq<Id>)
    requires Walk(edges, p) && Repeats(p)
    ensures !Acyclic(edges)
  {
    var i, j :| 0 <= i < j < |p| && p[i] == p[j];
    SubWalk(edges, p, i, j + 1);
    var c := p[i..j + 1];
    assert Walk(edges, c) && |c| >= 2 && c[0] == c[|c| - 1];
  }

  /** Fewer edges, fewer cycles. */
  lemma AcyclicSubset(a: set<Edge>, b: set<Edge>)
    requires a <= b && Acyclic(b)
    ensures Acyclic(a)
  {
    forall p | Walk(a, p) && |p| >= 2
      ensures p[0] != p[|p| - 1]
    {
      assert Walk(b, p);
    }
  }

  lemma AcyclicNothingBehind(edges: set<Edge>, v: Id)
    requires Acyclic(edges)
    ensures !BehindCycle(edges, v)
  {
    if p :| WalkTo(edges, p, v) && Repeats(p) {
      RepeatMeansCycle(edges, p);
    }
  }

  /** Ranks that fall along every edge rule out cycles. */
  lemma {:induction false} RanksFall(edges: set<Edge>, rank: map<Id, nat>, p: seq<Id>)
    requires forall e :: e in edges ==> e.src in rank && e.dst in rank && rank[e.dst] < rank[e.src]
    requires Walk(edges, p) && |p| >= 2
    ensures p[0] in rank && p[|p| - 1] in rank && rank[p[|p| - 1]] < rank[p[0]]
    decreases |p|
  {
    assert Edge(p[0], p[1]) in edges;
    if |p| > 2 {
      SubWalk(edges, p, 1, |p|);
      RanksFall(edges, rank, p[1..]);
    }
  }

  lemma RankedIsAcyclic(edges: set<Edge>, rank: map<Id, nat>)
    requires forall e :: e in edges ==> e.src in rank && e.dst in rank && rank[e.dst] < rank[e.src]
    ensures Acyclic(edges)
  {
    forall p | Walk(edges, p) && |p| >= 2
      ensures p[0] != p[|p| - 1]
    {
      RanksFall(edges, rank, p);
    }
  }
}
