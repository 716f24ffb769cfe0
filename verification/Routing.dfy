/** The CEO routing of bridge.py: cleaning, validating and applying a set of
    edges between agents, and reading the routing back from the agents. */
module Routing {
  import opened Graphs
  import opened Sequences
  import opened Strings
  import opened Wrappers

  /** An agent; `connections` is a second list of targets that the agent editor may
      have stored, of which routing knows nothing. */
  datatype Agent = Agent(id: Id, outputsTo: seq<Id>, connections: Option<seq<Id>>)

  function KnownIds(agents: seq<Agent>): set<Id> {
    set a | a in agents && a.id != "" :: a.id
  }

  function EdgeSet(edges: seq<Edge>): set<Edge> {
    set e | e in edges
  }

  /** What a routing must satisfy: known endpoints, no self-loop, no cycle. */
  ghost predicate ValidRouting(known: set<Id>, edges: seq<Edge>) {
    && (forall e :: e in edges ==> e.src in known && e.dst in known && e.src != e.dst)
    && Acyclic(EdgeSet(edges))
  }

  // ---- Cleaning ----------------------------------------------------------------

  function Trimmed(e: Edge): Edge {
    Edge(Trim(e.src), Trim(e.dst))
  }

  predicate Blank(e: Edge) {
    e.src == "" || e.dst == ""
  }

  /** The trimmed edges with both ends, each at its first occurrence. */
  function Cleaned(raw: seq<Edge>): seq<Edge> {
    if raw == [] then []
    else
      var before := Cleaned(raw[..|raw| - 1]);
      var e := Trimmed(raw[|raw| - 1]);
      if Blank(e) || e in before then before else before + [e]
  }

  /** No clean edge occurs twice, and every raw edge with both ends is there. */
  lemma {:induction false} CleanedMeaning(raw: seq<Edge>)
    ensures Distinct(Cleaned(raw))
    ensures forall e :: e in Cleaned(raw) <==> !Blank(e) && exists r :: r in raw && Trimmed(r) == e
  {
    if raw != [] {
      hide Trimmed;
      var front, r := raw[..|raw| - 1], raw[|raw| - 1];
      CleanedMeaning(front);
      SplitLast(raw);
      CleanedSnoc(front, r);
      hide Cleaned;
      if Trimmed(r) !in Cleaned(front) {
        DistinctUnlessThere(Cleaned(front), Trimmed(r));
      }
      assert forall x :: x in raw <==> x in front || x == r;
    }
  }

  function TrimmedAll(raw: seq<Edge>): (r: seq<Edge>)
    ensures |r| == |raw| && forall i :: 0 <= i < |raw| ==> r[i] == Trimmed(raw[i])
  {
    seq(|raw|, i requires 0 <= i < |raw| => Trimmed(raw[i]))
  }

  /** Clean edges stand in the order of their first occurrence. */
  lemma {:induction false} CleanedInOrder(raw: seq<Edge>)
    ensures ByFirstOccurrence(Cleaned(raw), TrimmedAll(raw))
  {
    if raw != [] {
      var front, r := raw[..|raw| - 1], raw[|raw| - 1];
      CleanedInOrder(front);
      CleanedMeaning(front);
      CleanedSnoc(front, r);
      SplitLast(raw);
      hide Cleaned, Trimmed, ByFirstOccurrence;
      assert TrimmedAll(raw) == TrimmedAll(front) + [Trimmed(r)];
      forall e
        ensures e in TrimmedAll(front) <==> exists x :: x in front && Trimmed(x) == e
      {
        if x :| x in front && Trimmed(x) == e {
          var i :| 0 <= i < |front| && front[i] == x;
          assert TrimmedAll(front)[i] == e;
        }
      }
      FirstOccurrenceSnoc(Cleaned(front), TrimmedAll(front), Trimmed(r));
    }
  }

  lemma DistinctUnlessThere<T>(s: seq<T>, x: T)
    requires Distinct(s) && x !in s
    ensures Distinct(s + [x])
  {
  }

  lemma CleanedSnoc(raw: seq<Edge>, r: Edge)
    ensures var (before, e) := (Cleaned(raw), Trimmed(r));
            Cleaned(raw + [r]) == if Blank(e) || e in before then before else before + [e]
  {
    assert (raw + [r])[..|raw|] == raw;
  }

  lemma CleanedUpTo(raw: seq<Edge>, i: nat)
    requires i < |raw|
    ensures var (before, e) := (Cleaned(raw[..i]), Edge(Trim(raw[i].src), Trim(raw[i].dst)));
            Cleaned(raw[..i + 1]) == if Blank(e) || e in before then before else before + [e]
  {
    assert raw[..i + 1] == raw[..i] + [raw[i]];
    CleanedSnoc(raw[..i], raw[i]);
  }

  lemma SeenSnoc(seen: set<Edge>, clean: seq<Edge>, e: Edge)
    requires forall x :: x in seen <==> x in clean
    ensures forall x :: x in seen + {e} <==> x in clean + [e]
  {
  }

  method CleanEdges(raw: seq<Edge>) returns (clean: seq<Edge>)
    ensures clean == Cleaned(raw)
  {
    clean := [];
    var seen: set<Edge> := {};
    assert raw[..0] == [] && Cleaned([]) == [];
    hide Cleaned, Trim, Trimmed;
    for i := 0 to |raw|
      invariant clean == Cleaned(raw[..i])
      invariant forall e :: e in seen <==> e in clean
    {
      CleanedUpTo(raw, i);
      var src, dst := Trim(raw[i].src), Trim(raw[i].dst);
      if src == "" || dst == "" {
        continue;
      }
      if Edge(src, dst) in seen {
        continue;
      }
      SeenSnoc(seen, clean, Edge(src, dst));
      seen := seen + {Edge(src, dst)};
      clean := clean + [Edge(src, dst)];
    }
    assert raw[..|raw|] == raw;
  }

  // ---- Validation --------------------------------------------------------------

  datatype RoutingError = UnknownSource(id: Id) | UnknownTarget(id: Id) | SelfLoop(id: Id) | CycleDetected(path: seq<Id>)

  function EdgeError(known: set<Id>, e: Edge): Option<RoutingError> {
    if e.src !in known then Some(UnknownSource(e.src))
    else if e.dst !in known then Some(UnknownTarget(e.dst))
    else if e.src == e.dst then Some(SelfLoop(e.src))
    else None
  }

  function EdgeErrors(known: set<Id>, edges: seq<Edge>): seq<RoutingError> {
    if edges == [] then []
    else
      var e := edges[|edges| - 1];
      EdgeErrors(known, edges[..|edges| - 1])
      + (match EdgeError(known, e) case Some(error) => [error] case None => [])
  }

  predicate Bad(known: set<Id>, e: Edge) {
    e.src !in known || e.dst !in known || e.src == e.dst
  }

  /** The error says what is wrong with the edge, the source before the target, and
      names the end that is. */
  predicate Names(error: RoutingError, known: set<Id>, e: Edge) {
    match error
    case UnknownSource(id) => id == e.src && e.src !in known
    case UnknownTarget(id) => id == e.dst && e.src in known && e.dst !in known
    case SelfLoop(id) => id == e.src == e.dst && id in known
    case CycleDetected(_) => false
  }

  /** There is one error for each bad edge, in order, that names its fault. */
  lemma {:induction false} EdgeErrorsInOrder(known: set<Id>, edges: seq<Edge>) returns (ks: seq<nat>)
    ensures Places(ks, edges, e => Bad(known, e)) && |ks| == |EdgeErrors(known, edges)|
    ensures forall n :: 0 <= n < |ks| ==> Names(EdgeErrors(known, edges)[n], known, edges[ks[n]])
  {
    if edges == [] {
      ks := [];
    } else {
      var front, e := edges[..|edges| - 1], edges[|edges| - 1];
      ks := EdgeErrorsInOrder(known, front);
      PlacesSnoc(ks, front, e, x => Bad(known, x));
      SplitLast(edges);
      EdgeErrorsSnoc(known, front, e);
      assert Bad(known, e) <==> EdgeError(known, e).Some?;
      assert Bad(known, e) ==> Names(EdgeError(known, e).value, known, e);
      hide EdgeErrors, EdgeError, Bad, Names, Places;
      if Bad(known, e) {
        ks := ks + [|front|];
      }
    }
  }

  /** A reported cycle: a real walk whose last vertex is already on it. */
  ghost predicate CyclePath(edges: set<Edge>, path: seq<Id>) {
    Walk(edges, path) && path[|path| - 1] in path[..|path| - 1]
  }

  /** The edge that leads back. */
  function ClosingEdge(path: seq<Id>): Edge {
    if |path| >= 2 then Edge(path[|path| - 2], path[|path| - 1]) else Edge("", "")
  }

  /** No two reports are closed by the same edge. */
  ghost predicate ClosedOnce(paths: seq<seq<Id>>) {
    forall i, j :: 0 <= i < j < |paths| ==> ClosingEdge(paths[i]) != ClosingEdge(paths[j])
  }

  /** More paths, closed by edges from vertices in `seen` or by edges in `entry`. */
  ghost predicate MoreHits(before: seq<seq<Id>>, after: seq<seq<Id>>, seen: set<Id>, entry: set<Edge>) {
    && before <= after
    && forall i :: |before| <= i < |after| ==> ClosingEdge(after[i]).src in seen || ClosingEdge(after[i]) in entry
  }

  /** The edge by which the search enters a vertex. */
  function Entry(stack: seq<Id>, node: Id): set<Edge> {
    if stack == [] then {} else {Edge(stack[|stack| - 1], node)}
  }

  lemma EntryFrom(stack: seq<Id>, node: Id, v: Id)
    ensures Entry(stack + [node], v) == {Edge(node, v)}
  {
  }

  ghost predicate NewClosings(paths: seq<seq<Id>>, entry: set<Edge>) {
    forall i :: 0 <= i < |paths| ==> ClosingEdge(paths[i]) !in entry
  }

  lemma NextEntryIsNew(a: seq<seq<Id>>, b: seq<seq<Id>>, seen: set<Id>, node: Id, successors: seq<Id>, i: nat)
    requires i < |successors| && Distinct(successors) && node !in seen
    requires MoreHits(a, b, seen, EntriesTo(node, successors[..i]))
    requires forall k :: 0 <= k < |a| ==> ClosingEdge(a[k]).src != node
    ensures NewClosings(b, {Edge(node, successors[i])})
  {
    hide ClosingEdge;
    assert forall k :: 0 <= k < |a| ==> b[k] == a[k];
  }

  function EntriesTo(node: Id, successors: seq<Id>): set<Edge> {
    set v | v in successors :: Edge(node, v)
  }

  lemma NoHitsYet(paths: seq<seq<Id>>, node: Id, entry: set<Edge>)
    ensures MoreHits(paths, paths, {}, EntriesTo(node, [])) && MoreHits(paths, paths, {}, entry)
  {
  }

  lemma MoreMeansNone(a: seq<seq<Id>>, b: seq<seq<Id>>, seen: set<Id>, entry: set<Edge>)
    requires MoreHits(a, b, seen, entry)
    ensures b == [] ==> a == []
  {
  }

  lemma EntriesSnoc(node: Id, successors: seq<Id>, i: nat)
    requires i < |successors|
    ensures EntriesTo(node, successors[..i]) + {Edge(node, successors[i])} == EntriesTo(node, successors[..i + 1])
  {
  }

  /** Leaving a vertex, it has been seen. */
  lemma LeftBehind(a: seq<seq<Id>>, b: seq<seq<Id>>, seen: set<Id>, node: Id, successors: seq<Id>, entry: set<Edge>)
    requires MoreHits(a, b, seen, EntriesTo(node, successors))
    ensures MoreHits(a, b, seen + {node}, entry)
  {
    hide ClosingEdge;
  }

  lemma MoreAndMoreHits(a: seq<seq<Id>>, b: seq<seq<Id>>, c: seq<seq<Id>>, seen: set<Id>, seen': set<Id>,
                        entry: set<Edge>, entry': set<Edge>)
    requires MoreHits(a, b, seen, entry) && MoreHits(b, c, seen', entry')
    ensures MoreHits(a, c, seen + seen', entry + entry')
  {
    hide ClosingEdge;
    forall i | |a| <= i < |c|
      ensures ClosingEdge(c[i]).src in seen + seen' || ClosingEdge(c[i]) in entry + entry'
    {
      assert i < |b| ==> c[i] == b[i];
    }
  }

  lemma WalkOn(edges: set<Edge>, path: seq<Id>, v: Id)
    requires Walk(edges, path) && Edge(path[|path| - 1], v) in edges
    ensures Walk(edges, path + [v])
  {
  }

  function CycleErrors(paths: seq<seq<Id>>): (errors: seq<RoutingError>)
    ensures |errors| == |paths|
    ensures forall i :: 0 <= i < |paths| ==> errors[i] == CycleDetected(paths[i])
  {
    seq(|paths|, i requires 0 <= i < |paths| => CycleDetected(paths[i]))
  }

  /** The adjacency lists describe the edges and stay among their keys. */
  ghost predicate Describes(adjacency: map<Id, seq<Id>>, edges: set<Edge>) {
    && (forall u, v :: u in adjacency && v in adjacency[u] ==> Edge(u, v) in edges && v in adjacency)
    && (forall e :: e in edges ==> e.src in adjacency && e.dst in adjacency[e.src])
  }

  /** The recursive three-colour search: unseen, visiting, visited. */
  class CycleSearch {
    const adjacency: map<Id, seq<Id>>
    ghost const edges: set<Edge>
    var visiting: set<Id>
    var visited: set<Id>
    var cycleHits: seq<seq<Id>>
    ghost var rank: map<Id, nat>
    ghost var finished: nat

    ghost predicate Valid()
      reads this
    {
      && Describes(adjacency, edges)
      && visiting !! visited
      && (forall i :: 0 <= i < |cycleHits| ==> CyclePath(edges, cycleHits[i]))
      && (cycleHits == [] ==> Ranked())
      && (forall i :: 0 <= i < |cycleHits| ==> ClosingEdge(cycleHits[i]).src in visited + visiting)
      && (Simple() ==> ClosedOnce(cycleHits))
    }

    /** No edge is listed twice. */
    ghost predicate Simple() {
      forall u :: u in adjacency ==> Distinct(adjacency[u])
    }


    /** As long as nothing was hit, edges from visited vertices lead to vertices visited before. */
    ghost predicate Ranked()
      reads this
    {
      && rank.Keys == visited
      && (forall u :: u in rank ==> rank[u] < finished)
      && (forall u, v :: u in rank && u in adjacency && v in adjacency[u] ==> v in rank && rank[v] < rank[u])
    }

    constructor (adjacency: map<Id, seq<Id>>, ghost edges: set<Edge>)
      requires Describes(adjacency, edges)
      ensures Valid() && this.adjacency == adjacency && this.edges == edges
      ensures visiting == {} && visited == {} && cycleHits == []
    {
      this.adjacency := adjacency;
      this.edges := edges;
      visiting, visited, cycleHits := {}, {}, [];
      rank, finished := map[], 0;
    }

    method Visit(node: Id, stack: seq<Id>)
      requires Valid() && node in adjacency && visiting <= adjacency.Keys
      requires Walk(edges, stack + [node])
      requires visiting == set x | x in stack
      requires Simple() ==> NewClosings(cycleHits, Entry(stack, node))
      modifies this
      ensures Valid()
      ensures visiting == old(visiting) && old(visited) <= visited
      ensures MoreHits(old(cycleHits), cycleHits, visited - old(visited), Entry(stack, node))
      ensures node in visiting ==> visited == old(visited) && cycleHits == old(cycleHits) + [stack + [node]]
      ensures node in old(visited) ==> visited == old(visited) && cycleHits == old(cycleHits)
      ensures node !in visiting ==> node in visited
      decreases adjacency.Keys - visiting
    {
      hide *;
      HoldsNow(node);
      if node in visiting {
        Hit(node, stack);
        assert visited - old(visited) == {};
        return;
      }
      NoHitsYet(cycleHits, node, Entry(stack, node));
      assert visited - old(visited) == {};
      if node in visited {
        return;
      }
      Enter(node);
      var path := stack + [node];
      var successors := adjacency[node];
      assert successors[..0] == [];
      for i := 0 to |successors|
        invariant Valid()
        invariant visiting == old(visiting) + {node} && old(visited) <= visited
        invariant MoreHits(old(cycleHits), cycleHits, visited - old(visited), EntriesTo(node, successors[..i]))
        invariant cycleHits == [] ==> forall j :: 0 <= j < i ==> successors[j] in visited
      {
        ghost var before, seen := cycleHits, visited;
        HoldsNow(node);
        WalkOn(edges, path, successors[i]);
        EntryFrom(stack, node, successors[i]);
        if Simple() {
          NextEntryIsNew(old(cycleHits), cycleHits, visited - old(visited), node, successors, i);
        }
        Visit(successors[i], path);
        MoreAndMoreHits(old(cycleHits), before, cycleHits, seen - old(visited), visited - seen,
                        EntriesTo(node, successors[..i]), {Edge(node, successors[i])});
        EntriesSnoc(node, successors, i);
        assert (seen - old(visited)) + (visited - seen) == visited - old(visited);
        MoreMeansNone(before, cycleHits, visited - seen, {Edge(node, successors[i])});
      }
      assert successors[..|successors|] == successors;
      LeftBehind(old(cycleHits), cycleHits, visited - old(visited), node, successors, Entry(stack, node));
      ghost var seen := visited;
      Leave(node);
      assert visited - old(visited) == (seen - old(visited)) + {node};
    }

    /** What validity says about a vertex and its successors. */
    lemma HoldsNow(node: Id)
      requires Valid() && node in adjacency
      ensures visiting !! visited
      ensures forall v :: v in adjacency[node] ==> v in adjacency && Edge(node, v) in edges
      ensures Simple() ==> Distinct(adjacency[node])
      ensures node !in visiting + visited ==> forall i :: 0 <= i < |cycleHits| ==> ClosingEdge(cycleHits[i]).src != node
    {
      hide Distinct, Walk;
    }

    method Enter(node: Id)
      requires Valid() && node !in visited && node !in visiting
      modifies this`visiting
      ensures Valid() && visiting == old(visiting) + {node}
    {
      visiting := visiting + {node};
    }

    method Hit(node: Id, stack: seq<Id>)
      requires Valid() && node in visiting
      requires Walk(edges, stack + [node])
      requires visiting == set x | x in stack
      requires Simple() ==> NewClosings(cycleHits, Entry(stack, node))
      modifies this`cycleHits
      ensures Valid() && cycleHits == old(cycleHits) + [stack + [node]]
      ensures MoreHits(old(cycleHits), cycleHits, {}, Entry(stack, node))
    {
      cycleHits := cycleHits + [stack + [node]];
      assert (stack + [node])[..|stack|] == stack;
      assert ClosingEdge(stack + [node]) == Edge(stack[|stack| - 1], node);
    }

    /** All successors done: the vertex becomes visited. */
    method Leave(node: Id)
      requires Valid() && node in visiting && node in adjacency
      requires cycleHits == [] ==> forall v :: v in adjacency[node] ==> v in visited
      modifies this
      ensures Valid() && cycleHits == old(cycleHits)
      ensures visiting == old(visiting) - {node} && visited == old(visited) + {node}
    {
      visiting := visiting - {node};
      visited := visited + {node};
      rank := rank[node := finished];
      finished := finished + 1;
    }

    /** Start the search from every vertex, in any order. */
    method VisitAll()
      requires Valid() && visiting == {}
      modifies this
      ensures Valid()
      ensures cycleHits == [] <==> Acyclic(edges)
      ensures Simple() ==> ClosedOnce(cycleHits)
    {
      var todo := adjacency.Keys;
      while todo != {}
        invariant Valid() && visiting == {}
        invariant todo <= adjacency.Keys
        invariant cycleHits == [] ==> adjacency.Keys - todo <= visited
      {
        var id :| id in todo;
        Visit(id, []);
        todo := todo - {id};
      }
      if cycleHits == [] {
        RankedIsAcyclic(edges, rank);
      } else {
        var hit := cycleHits[0];
        var i :| 0 <= i < |hit| - 1 && hit[i] == hit[|hit| - 1];
        RepeatMeansCycle(edges, hit);
      }
    }
  }

  /** Targets of u among the edges, in order. */
  function Targets(edges: seq<Edge>, u: Id): seq<Id> {
    if edges == [] then []
    else
      var e := edges[|edges| - 1];
      Targets(edges[..|edges| - 1], u) + (if e.src == u then [e.dst] else [])
  }

  lemma {:induction false} TargetsMeaning(edges: seq<Edge>, u: Id)
    ensures forall v :: v in Targets(edges, u) <==> Edge(u, v) in edges
  {
    if edges != [] {
      TargetsMeaning(edges[..|edges| - 1], u);
      assert edges == edges[..|edges| - 1] + [edges[|edges| - 1]];
    }
  }

  /** The targets are those of the edges from u, in the edges' order. */
  lemma {:induction false} TargetsInOrder(edges: seq<Edge>, u: Id) returns (ks: seq<nat>)
    ensures Places(ks, edges, (e: Edge) => e.src == u) && |ks| == |Targets(edges, u)|
    ensures forall n :: 0 <= n < |ks| ==> Targets(edges, u)[n] == edges[ks[n]].dst
  {
    if edges == [] {
      ks := [];
    } else {
      var front, e := edges[..|edges| - 1], edges[|edges| - 1];
      ks := TargetsInOrder(front, u);
      PlacesSnoc(ks, front, e, (x: Edge) => x.src == u);
      SplitLast(edges);
      TargetsSnoc(front, e, u);
      hide Targets, Places;
      if e.src == u {
        ks := ks + [|front|];
      }
    }
  }

  function Accepted(known: set<Id>, edges: seq<Edge>): seq<Edge> {
    if edges == [] then []
    else
      var e := edges[|edges| - 1];
      Accepted(known, edges[..|edges| - 1]) + (if EdgeError(known, e) == None then [e] else [])
  }

  lemma AcceptedSnoc(known: set<Id>, edges: seq<Edge>, e: Edge, u: Id)
    ensures Targets(Accepted(known, edges + [e]), u)
         == Targets(Accepted(known, edges), u) + (if EdgeError(known, e) == None && e.src == u then [e.dst] else [])
  {
    assert (edges + [e])[..|edges|] == edges;
    var before := Accepted(known, edges);
    assert (before + [e])[..|before|] == before;
    assert before + [] == before && Targets(before, u) + [] == Targets(before, u);
    assert Accepted(known, edges + [e]) == if EdgeError(known, e) == None then before + [e] else before;
  }

  lemma NoErrorsYet(known: set<Id>)
    ensures EdgeErrors(known, []) == []
  {
  }

  lemma EdgeErrorsSnoc(known: set<Id>, edges: seq<Edge>, e: Edge)
    ensures EdgeErrors(known, edges + [e])
         == EdgeErrors(known, edges) + (match EdgeError(known, e) case Some(error) => [error] case None => [])
  {
    assert (edges + [e])[..|edges|] == edges;
  }

  /** The first loop: errors edge by edge, and adjacency lists of the good edges. */
  method BuildAdjacency(known: set<Id>, edges: seq<Edge>) returns (adjacency: map<Id, seq<Id>>, errors: seq<RoutingError>)
    ensures errors == EdgeErrors(known, edges)
    ensures adjacency.Keys == known
    ensures forall u :: u in known ==> adjacency[u] == Targets(Accepted(known, edges), u)
  {
    hide Accepted, Targets;
    adjacency := map id | id in known :: [];
    errors := [];
    assert forall u :: u in known ==> Targets(Accepted(known, edges[..0]), u) == [] by {
      assert edges[..0] == [];
      NothingAccepted(known);
    }
    NoErrorsYet(known);
    assert edges[..0] == [];
    hide EdgeErrors;
    for i := 0 to |edges|
      invariant errors == EdgeErrors(known, edges[..i])
      invariant adjacency.Keys == known
      invariant forall u :: u in known ==> adjacency[u] == Targets(Accepted(known, edges[..i]), u)
    {
      var e := edges[i];
      assert edges[..i + 1] == edges[..i] + [e];
      EdgeErrorsSnoc(known, edges[..i], e);
      forall u {
        AcceptedSnoc(known, edges[..i], e, u);
      }
      if e.src !in known {
        errors := errors + [UnknownSource(e.src)];
      } else if e.dst !in known {
        errors := errors + [UnknownTarget(e.dst)];
      } else if e.src == e.dst {
        errors := errors + [SelfLoop(e.src)];
      } else {
        adjacency := adjacency[e.src := adjacency[e.src] + [e.dst]];
      }
    }
    assert edges[..|edges|] == edges;
  }

  lemma NothingAccepted(known: set<Id>)
    ensures forall u :: Targets(Accepted(known, []), u) == []
  {
  }

  lemma {:induction false} AcceptedDistinct(known: set<Id>, edges: seq<Edge>)
    requires Distinct(edges)
    ensures Distinct(Accepted(known, edges))
  {
    if edges != [] {
      var front, e := edges[..|edges| - 1], edges[|edges| - 1];
      AcceptedDistinct(known, front);
      AcceptedMeaning(known, front);
      assert e !in front;
      hide EdgeError;
    }
  }

  lemma TargetsDistinct(edges: seq<Edge>, u: Id)
    requires Distinct(edges)
    ensures Distinct(Targets(edges, u))
  {
    var ks := TargetsInOrder(edges, u);
    hide Targets;
    forall i, j | 0 <= i < j < |ks|
      ensures Targets(edges, u)[i] != Targets(edges, u)[j]
    {
      assert edges[ks[i]] != edges[ks[j]];
    }
  }

  /** Errors found edge by edge, then one per cycle hit. The routing is accepted,
      that is, has no errors, exactly when it is valid. No cycle is reported twice. */
  method ValidateRoutingEdges(agents: seq<Agent>, edges: seq<Edge>) returns (errors: seq<RoutingError>)
    ensures errors == [] <==> ValidRouting(KnownIds(agents), edges)
    ensures EdgeErrors(KnownIds(agents), edges) <= errors
    ensures forall i :: |EdgeErrors(KnownIds(agents), edges)| <= i < |errors| ==>
              errors[i].CycleDetected? && CyclePath(EdgeSet(edges), errors[i].path)
    ensures Distinct(edges) ==>
              forall i, j :: |EdgeErrors(KnownIds(agents), edges)| <= i < j < |errors| ==>
                ClosingEdge(errors[i].path) != ClosingEdge(errors[j].path)
  {
    hide Accepted, Targets, EdgeErrors, Acyclic;
    var known := KnownIds(agents);
    var adjacency, edgeErrors := BuildAdjacency(known, edges);
    ghost var accepted := EdgeSet(Accepted(known, edges));
    forall u
      ensures forall v :: v in Targets(Accepted(known, edges), u) <==> Edge(u, v) in accepted
    {
      TargetsMeaning(Accepted(known, edges), u);
    }
    AcceptedEdges(known, edges);
    assert Describes(adjacency, accepted);
    if Distinct(edges) {
      AcceptedDistinct(known, edges);
      forall u {
        TargetsDistinct(Accepted(known, edges), u);
      }
    }
    var search := new CycleSearch(adjacency, accepted);
    search.VisitAll();
    errors := edgeErrors + CycleErrors(search.cycleHits);
    forall i | 0 <= i < |search.cycleHits|
      ensures CyclePath(EdgeSet(edges), search.cycleHits[i])
    {
      assert CyclePath(accepted, search.cycleHits[i]);
    }
  }

  lemma {:induction false} AcceptedMeaning(known: set<Id>, edges: seq<Edge>)
    ensures forall e :: e in Accepted(known, edges) <==> e in edges && EdgeError(known, e) == None
    ensures EdgeErrors(known, edges) == [] <==> forall e :: e in edges ==> EdgeError(known, e) == None
  {
    if edges != [] {
      AcceptedMeaning(known, edges[..|edges| - 1]);
      assert edges == edges[..|edges| - 1] + [edges[|edges| - 1]];
    }
  }

  lemma AcceptedEdges(known: set<Id>, edges: seq<Edge>)
    ensures EdgeSet(Accepted(known, edges)) <= EdgeSet(edges)
    ensures forall e :: e in Accepted(known, edges) ==> e.src in known && e.dst in known
    ensures EdgeErrors(known, edges) == [] ==> EdgeSet(Accepted(known, edges)) == EdgeSet(edges)
    ensures EdgeErrors(known, edges) == [] <==>
            forall e :: e in edges ==> e.src in known && e.dst in known && e.src != e.dst
  {
    hide Accepted, EdgeErrors;
    AcceptedMeaning(known, edges);
  }

  // ---- Applying and reading back -------------------------------------------------

  /** Every agent's outputs replaced by its targets. */
  function Applied(agents: seq<Agent>, edges: seq<Edge>): (after: seq<Agent>)
    ensures |after| == |agents|
    ensures forall i :: 0 <= i < |agents| ==> after[i] == agents[i].(outputsTo := Targets(edges, agents[i].id))
  {
    seq(|agents|, i requires 0 <= i < |agents| => agents[i].(outputsTo := Targets(edges, agents[i].id)))
  }

  function OutEdges(id: Id, targets: seq<Id>): (es: seq<Edge>)
    ensures |es| == |targets|
    ensures forall i :: 0 <= i < |es| ==> es[i] == Edge(id, targets[i])
  {
    seq(|targets|, i requires 0 <= i < |targets| => Edge(id, targets[i]))
  }

  function CurrentEdges(agents: seq<Agent>): seq<Edge> {
    if agents == [] then []
    else
      var a := agents[|agents| - 1];
      CurrentEdges(agents[..|agents| - 1]) + OutEdges(a.id, a.outputsTo)
  }

  /** Reading back goes agent by agent, and through each agent's outputs in order. */
  lemma {:induction false} CurrentInOrder(a: seq<Agent>, b: seq<Agent>)
    ensures CurrentEdges(a + b) == CurrentEdges(a) + CurrentEdges(b)
    ensures |a| == 1 ==> |CurrentEdges(a)| == |a[0].outputsTo|
                         && forall i :: 0 <= i < |a[0].outputsTo| ==> CurrentEdges(a)[i] == Edge(a[0].id, a[0].outputsTo[i])
  {
    if |a| == 1 {
      assert CurrentEdges(a[..0]) == [];
    }
    if b == [] {
      assert a + b == a;
    } else {
      var front, last := b[..|b| - 1], b[|b| - 1];
      CurrentInOrder(a, front);
      assert (a + b)[..|a + b| - 1] == a + front;
      assert CurrentEdges(a + b) == CurrentEdges(a + front) + OutEdges(last.id, last.outputsTo);
    }
  }

  lemma TargetsSnoc(edges: seq<Edge>, e: Edge, u: Id)
    ensures Targets(edges + [e], u) == if e.src == u then Targets(edges, u) + [e.dst] else Targets(edges, u)
  {
    assert (edges + [e])[..|edges|] == edges;
    assert Targets(edges, u) + [] == Targets(edges, u);
  }

  /** Targets collected per source. */
  method GroupOutputs(edges: seq<Edge>) returns (outputs: map<Id, seq<Id>>)
    ensures forall u :: (if u in outputs then outputs[u] else []) == Targets(edges, u)
  {
    outputs := map[];
    for i := 0 to |edges|
      invariant forall u :: (if u in outputs then outputs[u] else []) == Targets(edges[..i], u)
    {
      hide Targets;
      var e := edges[i];
      assert edges[..i + 1] == edges[..i] + [e];
      forall u {
        TargetsSnoc(edges[..i], e, u);
      }
      outputs := outputs[e.src := (if e.src in outputs then outputs[e.src] else []) + [e.dst]];
    }
    assert edges[..|edges|] == edges;
  }

  class Project {
    var agents: seq<Agent>

    constructor (agents: seq<Agent>)
      ensures this.agents == agents
    {
      this.agents := agents;
    }

    /** A rejected routing changes nothing; an accepted one rewrites every agent. */
    method ApplyRoutingEdges(edges: seq<Edge>) returns (errors: seq<RoutingError>)
      modifies this
      ensures errors == [] <==> ValidRouting(KnownIds(old(agents)), edges)
      ensures agents == if errors == [] then Applied(old(agents), edges) else old(agents)
    {
      errors := ValidateRoutingEdges(agents, edges);
      hide EdgeErrors, ClosingEdge, CyclePath, ValidRouting, KnownIds, Targets;
      if errors == [] {
        var outputs := GroupOutputs(edges);
        for i := 0 to |agents|
          invariant |agents| == |old(agents)|
          invariant forall k :: 0 <= k < |agents| ==>
                      agents[k] == if k < i then Applied(old(agents), edges)[k] else old(agents)[k]
        {
          var id := agents[i].id;
          agents := agents[i := agents[i].(outputsTo := if id in outputs then outputs[id] else [])];
        }
      }
    }

    method CurrentRoutingGraph() returns (edges: seq<Edge>)
      ensures edges == CurrentEdges(agents)
    {
      edges := [];
      for i := 0 to |agents|
        invariant edges == CurrentEdges(agents[..i])
      {
        ghost var before := edges;
        assert agents[..i + 1][..i] == agents[..i];
        for j := 0 to |agents[i].outputsTo|
          invariant edges == before + OutEdges(agents[i].id, agents[i].outputsTo)[..j]
        {
          edges := edges + [Edge(agents[i].id, agents[i].outputsTo[j])];
        }
      }
      assert agents[..|agents|] == agents;
    }
  }

  function Times(n: nat, m: nat): nat { n * m }

  /** How many agents carry an id. */
  function Copies(agents: seq<Agent>, id: Id): nat {
    if agents == [] then 0
    else Copies(agents[..|agents| - 1], id) + (if agents[|agents| - 1].id == id then 1 else 0)
  }

  lemma {:induction false} OutEdgesCount(edges: seq<Edge>, id: Id, e: Edge)
    ensures multiset(OutEdges(id, Targets(edges, id)))[e] == if e.src == id then multiset(edges)[e] else 0
  {
    if edges != [] {
      var front, last := edges[..|edges| - 1], edges[|edges| - 1];
      OutEdgesCount(front, id, e);
      assert edges == front + [last];
      var before := OutEdges(id, Targets(front, id));
      if last.src == id {
        assert OutEdges(id, Targets(edges, id)) == before + [last];
      } else {
        assert OutEdges(id, Targets(edges, id)) == before;
      }
    }
  }

  lemma CurrentSnoc(agents: seq<Agent>, a: Agent, edges: seq<Edge>)
    ensures CurrentEdges(Applied(agents + [a], edges))
         == CurrentEdges(Applied(agents, edges)) + OutEdges(a.id, Targets(edges, a.id))
  {
    var after := Applied(agents + [a], edges);
    assert after[..|agents|] == Applied(agents, edges);
    assert after[|agents|] == a.(outputsTo := Targets(edges, a.id));
  }

  /** Each edge is read back once for every agent that carries its source's id. */
  lemma {:induction false} ReadBackCount(agents: seq<Agent>, edges: seq<Edge>, e: Edge)
    ensures multiset(CurrentEdges(Applied(agents, edges)))[e] == Times(Copies(agents, e.src), multiset(edges)[e])
  {
    if agents == [] {
      NothingToReadBack(edges, e);
    } else {
      hide CurrentEdges, Applied, Times, Copies;
      ReadBackCount(agents[..|agents| - 1], edges, e);
      ReadBackStep(agents[..|agents| - 1], agents[|agents| - 1], edges, e);
      SplitLast(agents);
    }
  }

  lemma NothingToReadBack(edges: seq<Edge>, e: Edge)
    ensures multiset(CurrentEdges(Applied([], edges)))[e] == 0 == Times(Copies([], e.src), multiset(edges)[e])
  {
  }

  lemma ReadBackStep(front: seq<Agent>, a: Agent, edges: seq<Edge>, e: Edge)
    requires multiset(CurrentEdges(Applied(front, edges)))[e] == Times(Copies(front, e.src), multiset(edges)[e])
    ensures multiset(CurrentEdges(Applied(front + [a], edges)))[e] == Times(Copies(front + [a], e.src), multiset(edges)[e])
  {
    var n, m := Copies(front, e.src), multiset(edges)[e];
    assert Copies(front + [a], e.src) == n + (if a.id == e.src then 1 else 0) by {
      assert (front + [a])[..|front|] == front;
    }
    hide CurrentEdges, Applied, Targets, OutEdges, Times, Copies;
    CurrentSnoc(front, a, edges);
    OutEdgesCount(edges, a.id, e);
    TimesOneMore(n, m);
  }

  lemma TimesOneMore(n: nat, m: nat)
    ensures Times(n + 1, m) == Times(n, m) + m
  {
  }

  lemma {:induction false} KnownHasCopy(agents: seq<Agent>, id: Id)
    ensures Copies(agents, id) > 0 <==> exists a :: a in agents && a.id == id
  {
    if agents != [] {
      var front, a := agents[..|agents| - 1], agents[|agents| - 1];
      KnownHasCopy(front, id);
      assert agents == front + [a];
    }
  }

  /** What an accepted routing reads back as: the same edges, and the same number
      of times exactly when no source id is shared by two agents. It stays valid. */
  lemma ReadBack(agents: seq<Agent>, edges: seq<Edge>)
    requires ValidRouting(KnownIds(agents), edges)
    ensures var after := Applied(agents, edges);
            var back := CurrentEdges(after);
            && EdgeSet(back) == EdgeSet(edges)
            && (multiset(back) == multiset(edges) <==> forall e :: e in edges ==> Copies(agents, e.src) == 1)
            && KnownIds(after) == KnownIds(agents)
            && ValidRouting(KnownIds(after), back)
  {
    hide Acyclic, CurrentEdges, Copies, Times;
    var back := CurrentEdges(Applied(agents, edges));
    AppliedKeepsIds(agents, edges);
    forall e: Edge
      ensures multiset(back)[e] == Times(Copies(agents, e.src), multiset(edges)[e])
      ensures e in edges ==> Copies(agents, e.src) > 0
    {
      ReadBackCount(agents, edges, e);
      KnownHasCopy(agents, e.src);
    }
    SameWhenSingle(agents, edges, back);
  }

  lemma AppliedKeepsIds(agents: seq<Agent>, edges: seq<Edge>)
    ensures KnownIds(Applied(agents, edges)) == KnownIds(agents)
  {
    var after := Applied(agents, edges);
    forall id
      ensures id in KnownIds(after) <==> id in KnownIds(agents)
    {
      if id in KnownIds(agents) {
        var i :| 0 <= i < |agents| && agents[i].id == id;
        assert after[i] in after && after[i].id == id;
      }
    }
  }

  lemma SameWhenSingle(agents: seq<Agent>, edges: seq<Edge>, back: seq<Edge>)
    requires forall e: Edge :: multiset(back)[e] == Times(Copies(agents, e.src), multiset(edges)[e])
    requires forall e :: e in edges ==> Copies(agents, e.src) > 0
    ensures forall e :: e in back <==> e in edges
    ensures multiset(back) == multiset(edges) <==> forall e :: e in edges ==> Copies(agents, e.src) == 1
  {
    hide Copies, Times;
    forall e: Edge
      ensures e in back <==> e in edges
      ensures multiset(back)[e] == multiset(edges)[e] <==> (e in edges ==> Copies(agents, e.src) == 1)
    {
      Factors(Copies(agents, e.src), multiset(edges)[e]);
    }
    if multiset(back) == multiset(edges) {
      assert forall e: Edge :: multiset(back)[e] == multiset(edges)[e];
    }
  }

  lemma Factors(n: nat, m: nat)
    ensures Times(n, m) > 0 <==> n > 0 && m > 0
    ensures Times(n, m) == m <==> n == 1 || m == 0
  {
    if m > 0 && n > 1 {
      assert (n - 1) * m > 0;
    }
  }
}
