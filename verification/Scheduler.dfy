/** The edge mode of runPipeline in core.js: steps are layered frontier by
    frontier, and steps never reached are appended one by one. */
module Scheduler {
  import opened Graphs
  import opened Sequences

  datatype Step = Step(stepId: Id, agentId: Id, outputsTo: seq<Id>, requiresApproval: bool)

  /** `agent_id||step_id` */
  function Key(s: Step): Id {
    if s.agentId != "" then s.agentId else s.stepId
  }

  function Keys(steps: seq<Step>): (ks: seq<Id>)
    ensures |ks| == |steps|
    ensures forall i :: 0 <= i < |steps| ==> ks[i] == Key(steps[i])
  {
    seq(|steps|, i requires 0 <= i < |steps| => Key(steps[i]))
  }

  function KeySet(steps: seq<Step>): set<Id> {
    set s | s in steps :: Key(s)
  }

  /** Edges between steps; outputs that name no step are ignored. */
  function Edges(steps: seq<Step>): set<Edge> {
    set s, d | s in steps && d in s.outputsTo && d in KeySet(steps) :: Edge(Key(s), d)
  }

  /** Steps not visited all of whose predecessors are. */
  ghost predicate Ready(steps: seq<Step>, visited: set<Id>, id: Id) {
    id in KeySet(steps) && id !in visited && forall e :: e in Edges(steps) && e.dst == id ==> e.src in visited
  }

  /** Some step of the group has an output to `id`. */
  ghost predicate Fed(group: seq<Step>, id: Id) {
    exists s :: s in group && id in s.outputsTo
  }

  lemma FedSnoc(group: seq<Step>, s: Step, id: Id)
    ensures Fed(group + [s], id) <==> Fed(group, id) || id in s.outputsTo
  {
    assert s in group + [s];
  }

  /** Inbound edge counts, repetitions included. */
  method CountInbound(steps: seq<Step>) returns (inbound: map<Id, nat>)
    ensures inbound.Keys == KeySet(steps)
    ensures forall id :: id in inbound ==> (inbound[id] > 0 <==> Fed(steps, id))
  {
    assert forall id :: !Fed(steps[..0], id);
    hide Fed, KeySet;
    inbound := map id | id in KeySet(steps) :: 0;
    for i := 0 to |steps|
      invariant inbound.Keys == KeySet(steps)
      invariant forall id :: id in inbound ==> (inbound[id] > 0 <==> Fed(steps[..i], id))
    {
      var outputs := steps[i].outputsTo;
      for j := 0 to |outputs|
        invariant inbound.Keys == KeySet(steps)
        invariant forall id :: id in inbound ==> (inbound[id] > 0 <==> Fed(steps[..i], id) || id in outputs[..j])
      {
        if outputs[j] in inbound {
          inbound := inbound[outputs[j] := inbound[outputs[j]] + 1];
        }
      }
      assert outputs[..|outputs|] == outputs;
      assert steps[..i + 1] == steps[..i] + [steps[i]];
      forall id {
        FedSnoc(steps[..i], steps[i], id);
      }
    }
    assert steps[..|steps|] == steps;
  }

  method InitialFrontier(steps: seq<Step>) returns (frontier: seq<Id>)
    requires Distinct(Keys(steps))
    ensures Distinct(frontier)
    ensures forall id :: id in frontier <==> Ready(steps, {}, id)
    ensures Subsequence(frontier, Keys(steps))
  {
    var inbound := CountInbound(steps);
    frontier := [];
    SubsequenceOfNothing(Keys(steps)[..0]);
    for i := 0 to |steps|
      invariant Distinct(frontier)
      invariant forall id :: id in frontier <==> id in Keys(steps)[..i] && !Fed(steps, id)
      invariant Subsequence(frontier, Keys(steps)[..i])
    {
      var id := Key(steps[i]);
      SubsequenceSnoc(frontier, Keys(steps)[..i], id);
      hide Subsequence;
      assert Keys(steps)[..i + 1] == Keys(steps)[..i] + [id];
      assert forall k :: 0 <= k < i ==> Keys(steps)[k] != Keys(steps)[i];
      if inbound[id] == 0 {
        frontier := frontier + [id];
      }
    }
    assert Keys(steps)[..|steps|] == Keys(steps);
    forall id
      ensures id in frontier <==> Ready(steps, {}, id)
    {
      UnfedIsReady(steps, id);
    }
  }

  lemma KeysAreKeySet(steps: seq<Step>, id: Id)
    ensures id in Keys(steps) <==> id in KeySet(steps)
  {
    if id in KeySet(steps) {
      var k :| 0 <= k < |steps| && Key(steps[k]) == id;
      assert Keys(steps)[k] == id;
    }
  }

  lemma UnfedIsReady(steps: seq<Step>, id: Id)
    ensures Ready(steps, {}, id) <==> id in Keys(steps) && !Fed(steps, id)
  {
    KeysAreKeySet(steps, id);
    if id in KeySet(steps) && Fed(steps, id) {
      var s :| s in steps && id in s.outputsTo;
      assert Edge(Key(s), id) in Edges(steps);
    }
  }

  /** Every step that has an output to `id` is visited. */
  method AllDone(steps: seq<Step>, visited: set<Id>, id: Id) returns (done: bool)
    requires id in KeySet(steps)
    ensures done <==> forall e :: e in Edges(steps) && e.dst == id ==> e.src in visited
  {
    done := true;
    for i := 0 to |steps|
      invariant done <==> forall k :: 0 <= k < i && id in steps[k].outputsTo ==> Key(steps[k]) in visited
    {
      if id in steps[i].outputsTo && Key(steps[i]) !in visited {
        done := false;
      }
    }
    if !done {
      var k :| 0 <= k < |steps| && id in steps[k].outputsTo && Key(steps[k]) !in visited;
      assert Edge(Key(steps[k]), id) in Edges(steps);
    }
  }

  /** A sequence with later repetitions dropped. */
  function Deduplicated(ids: seq<Id>): (r: seq<Id>)
    ensures Distinct(r) && forall id :: id in r <==> id in ids
  {
    if ids == [] then []
    else
      var before := Deduplicated(ids[..|ids| - 1]);
      var id := ids[|ids| - 1];
      assert ids == ids[..|ids| - 1] + [id];
      if id in before then before else before + [id]
  }

  /** All outputs of a level, one step's after the other's. */
  function Outputs(level: seq<Step>): seq<Id> {
    if level == [] then [] else Outputs(level[..|level| - 1]) + level[|level| - 1].outputsTo
  }

  lemma {:induction false} OutputsFeed(level: seq<Step>, id: Id)
    ensures id in Outputs(level) <==> Fed(level, id)
  {
    if level != [] {
      var front, s := level[..|level| - 1], level[|level| - 1];
      OutputsFeed(front, id);
      FedSnoc(front, s, id);
      SplitLast(level);
      hide Fed;
    }
  }

  /** `next` has just the ready ones of `outputs`, in the order in which they come first. */
  ghost predicate Gathers(steps: seq<Step>, visited: set<Id>, outputs: seq<Id>, next: seq<Id>) {
    && (forall id :: id in next <==> id in outputs && Ready(steps, visited, id))
    && ByFirstOccurrence(Deduplicated(next), outputs)
  }

  lemma GathersSnoc(steps: seq<Step>, visited: set<Id>, outputs: seq<Id>, next: seq<Id>, id: Id)
    requires Gathers(steps, visited, outputs, next)
    ensures Gathers(steps, visited, outputs + [id], if Ready(steps, visited, id) then next + [id] else next)
  {
    hide Ready, ByFirstOccurrence;
    FirstOccurrenceSnoc(Deduplicated(next), outputs, id);
    assert (next + [id])[..|next|] == next;
    assert Deduplicated(next + [id]) == if id in Deduplicated(next) then Deduplicated(next) else Deduplicated(next) + [id];
  }

  /** The ready steps among the outputs of the level just visited, in the order in
      which they are first named there. */
  method NextFrontier(steps: seq<Step>, level: seq<Step>, visited: set<Id>) returns (frontier: seq<Id>)
    ensures Distinct(frontier)
    ensures forall id :: id in frontier <==> Fed(level, id) && Ready(steps, visited, id)
    ensures ByFirstOccurrence(frontier, Outputs(level))
  {
    hide *;
    var next: seq<Id> := [];
    NothingGathered(steps, visited);
    assert level[..0] == [];
    for i := 0 to |level|
      invariant Gathers(steps, visited, Outputs(level[..i]), next)
    {
      var outputs := level[i].outputsTo;
      ghost var before := Outputs(level[..i]);
      OutputsSnoc(level[..i], level[i]);
      assert level[..i + 1] == level[..i] + [level[i]];
      assert before + outputs[..0] == before;
      for j := 0 to |outputs|
        invariant Gathers(steps, visited, before + outputs[..j], next)
      {
        var id := outputs[j];
        GathersSnoc(steps, visited, before + outputs[..j], next, id);
        assert before + outputs[..j + 1] == (before + outputs[..j]) + [id];
        NotReady(steps, visited, id);
        if id !in visited && id in KeySet(steps) {
          var done := AllDone(steps, visited, id);
          ReadyIfDone(steps, visited, id, done);
          if done {
            next := next + [id];
          }
        }
      }
      assert outputs[..|outputs|] == outputs;
    }
    assert level[..|level|] == level;
    frontier := Deduplicated(next);
    GatheredAll(steps, level, visited, next);
  }

  lemma NothingGathered(steps: seq<Step>, visited: set<Id>)
    ensures Outputs([]) == [] && Gathers(steps, visited, [], [])
  {
  }

  lemma OutputsSnoc(level: seq<Step>, s: Step)
    ensures Outputs(level + [s]) == Outputs(level) + s.outputsTo
  {
    assert (level + [s])[..|level|] == level;
  }

  lemma NotReady(steps: seq<Step>, visited: set<Id>, id: Id)
    ensures id in visited || id !in KeySet(steps) ==> !Ready(steps, visited, id)
  {
  }

  lemma ReadyIfDone(steps: seq<Step>, visited: set<Id>, id: Id, done: bool)
    requires id !in visited && id in KeySet(steps)
    requires done <==> forall e :: e in Edges(steps) && e.dst == id ==> e.src in visited
    ensures Ready(steps, visited, id) <==> done
  {
  }

  lemma GatheredAll(steps: seq<Step>, level: seq<Step>, visited: set<Id>, next: seq<Id>)
    requires Gathers(steps, visited, Outputs(level), next)
    ensures forall id :: id in Deduplicated(next) <==> Fed(level, id) && Ready(steps, visited, id)
    ensures ByFirstOccurrence(Deduplicated(next), Outputs(level))
  {
    hide Ready, ByFirstOccurrence, Fed;
    forall id {
      OutputsFeed(level, id);
    }
  }

  /** The step with a given key. */
  function StepOf(steps: seq<Step>, id: Id): (s: Step)
    requires id in KeySet(steps)
    ensures s in steps && Key(s) == id
  {
    if Key(steps[|steps| - 1]) == id then steps[|steps| - 1]
    else
      assert steps == steps[..|steps| - 1] + [steps[|steps| - 1]];
      StepOf(steps[..|steps| - 1], id)
  }

  function StepsOf(steps: seq<Step>, ids: seq<Id>): (level: seq<Step>)
    requires forall id :: id in ids ==> id in KeySet(steps)
    ensures |level| == |ids|
    ensures forall i :: 0 <= i < |ids| ==> level[i] in steps && Key(level[i]) == ids[i]
  {
    seq(|ids|, i requires 0 <= i < |ids| => StepOf(steps, ids[i]))
  }

  // ---- The layering ------------------------------------------------------------

  /** `at` gives the level of every visited step. */
  ghost predicate Layered(steps: seq<Step>, levels: seq<seq<Step>>, at: map<Id, nat>) {
    Placed(steps, levels, at) && Complete(levels, at) && Climbs(Edges(steps), at)
  }

  /** Each level holds steps that belong there, none twice. */
  ghost predicate Placed(steps: seq<Step>, levels: seq<seq<Step>>, at: map<Id, nat>) {
    && (forall l, s :: 0 <= l < |levels| && s in levels[l] ==> s in steps && Key(s) in at && at[Key(s)] == l)
    && (forall l :: 0 <= l < |levels| ==> Distinct(Keys(levels[l])))
  }

  ghost predicate Complete(levels: seq<seq<Step>>, at: map<Id, nat>) {
    forall id :: id in at ==> at[id] < |levels| && id in Keys(levels[at[id]])
  }

  /** Levels rise along edges, and every level but the first is entered from the one below. */
  ghost predicate Climbs(edges: set<Edge>, at: map<Id, nat>) {
    && (forall e :: e in edges && e.dst in at ==> e.src in at && at[e.src] < at[e.dst])
    && (forall id :: id in at && at[id] > 0 ==> Below(edges, at, id))
  }

  ghost predicate Below(edges: set<Edge>, at: map<Id, nat>, id: Id)
    requires id in at
  {
    exists e :: e in edges && e.dst == id && e.src in at && at[e.src] + 1 == at[id]
  }

  ghost predicate FromLastLevel(edges: set<Edge>, at: map<Id, nat>, levels: nat, id: Id) {
    levels > 0 ==> exists e :: e in edges && e.dst == id && e.src in at && at[e.src] + 1 == levels
  }

  ghost function Extended(at: map<Id, nat>, ids: seq<Id>, level: nat): map<Id, nat> {
    at + (map id | id in ids :: level)
  }

  lemma ClimbsOn(steps: seq<Step>, at: map<Id, nat>, ids: seq<Id>, level: nat)
    requires Climbs(Edges(steps), at)
    requires forall id :: id in at ==> at[id] < level
    requires forall id :: id in ids ==> Ready(steps, at.Keys, id) && FromLastLevel(Edges(steps), at, level, id)
    ensures Climbs(Edges(steps), Extended(at, ids, level))
  {
    var at', edges := Extended(at, ids, level), Edges(steps);
    forall id | id in at' && at'[id] > 0
      ensures Below(edges, at', id)
    {
      if id in ids {
        var e :| e in edges && e.dst == id && e.src in at && at[e.src] + 1 == level;
        assert e.src !in ids;
      } else {
        var e :| e in edges && e.dst == id && e.src in at && at[e.src] + 1 == at[id];
        assert e.src !in ids;
      }
    }
  }

  lemma StepsOfMembers(steps: seq<Step>, ids: seq<Id>)
    requires forall id :: id in ids ==> id in KeySet(steps)
    ensures Keys(StepsOf(steps, ids)) == ids
    ensures forall s :: s in StepsOf(steps, ids) ==> s in steps && Key(s) in ids
  {
    hide KeySet;
    assert forall i :: 0 <= i < |ids| ==> Key(StepsOf(steps, ids)[i]) == ids[i];
  }

  lemma PlacedOn(steps: seq<Step>, levels: seq<seq<Step>>, at: map<Id, nat>, ids: seq<Id>)
    requires Placed(steps, levels, at) && Distinct(ids)
    requires forall id :: id in ids ==> id in KeySet(steps) && id !in at
    ensures Placed(steps, levels + [StepsOf(steps, ids)], Extended(at, ids, |levels|))
  {
    StepsOfMembers(steps, ids);
    hide KeySet, Keys, StepsOf, Distinct;
    var levels' := levels + [StepsOf(steps, ids)];
    var at' := Extended(at, ids, |levels|);
    forall l, s | 0 <= l < |levels'| && s in levels'[l]
      ensures s in steps && Key(s) in at' && at'[Key(s)] == l
    {
      assert l < |levels| ==> s in levels[l];
    }
  }

  lemma CompleteOn(steps: seq<Step>, levels: seq<seq<Step>>, at: map<Id, nat>, ids: seq<Id>)
    requires Complete(levels, at)
    requires forall id :: id in ids ==> id in KeySet(steps)
    ensures Complete(levels + [StepsOf(steps, ids)], Extended(at, ids, |levels|))
  {
    hide KeySet;
    var level := StepsOf(steps, ids);
    assert Keys(level) == ids;
  }

  lemma LayeredOn(steps: seq<Step>, levels: seq<seq<Step>>, at: map<Id, nat>, ids: seq<Id>)
    requires Layered(steps, levels, at) && Distinct(ids)
    requires forall id :: id in ids ==> id in KeySet(steps)
    requires forall id :: id in ids ==> Ready(steps, at.Keys, id) && FromLastLevel(Edges(steps), at, |levels|, id)
    ensures Layered(steps, levels + [StepsOf(steps, ids)], Extended(at, ids, |levels|))
  {
    hide Climbs, Placed, FromLastLevel, Edges, KeySet, Distinct;
    PlacedOn(steps, levels, at, ids);
    CompleteOn(steps, levels, at, ids);
    ClimbsOn(steps, at, ids, |levels|);
  }

  /** The next frontier is everything that became ready, and it is fed by the level. */
  lemma FrontierOn(steps: seq<Step>, visited: set<Id>, ids: seq<Id>, id: Id)
    requires Distinct(Keys(steps))
    requires forall id :: id in ids ==> id in KeySet(steps)
    requires forall id :: id in ids <==> Ready(steps, visited, id)
    requires Ready(steps, visited + (set x | x in ids), id)
    ensures Fed(StepsOf(steps, ids), id)
    ensures exists e :: e in Edges(steps) && e.dst == id && e.src in ids
  {
    assert !Ready(steps, visited, id);
    var e :| e in Edges(steps) && e.dst == id && e.src !in visited;
    assert e.src in ids;
    var s :| s in steps && Key(s) == e.src && id in s.outputsTo;
    var k :| 0 <= k < |ids| && ids[k] == e.src;
    var level := StepsOf(steps, ids);
    SameKeySameStep(steps, s, level[k]);
    assert level[k] in level;
  }

  lemma SameKeySameStep(steps: seq<Step>, s: Step, t: Step)
    requires Distinct(Keys(steps)) && s in steps && t in steps && Key(s) == Key(t)
    ensures s == t
  {
    var i :| 0 <= i < |steps| && steps[i] == s;
    var j :| 0 <= j < |steps| && steps[j] == t;
    assert Keys(steps)[i] == Keys(steps)[j];
  }

  /** The ids of a sequence not yet visited. */
  function Unvisited(ids: seq<Id>, visited: set<Id>): (r: seq<Id>)
    ensures (forall id :: id in ids ==> id !in visited) ==> r == ids
  {
    if ids == [] then []
    else
      var id := ids[|ids| - 1];
      assert ids == ids[..|ids| - 1] + [id];
      Unvisited(ids[..|ids| - 1], visited) + (if id in visited then [] else [id])
  }

  /** What holds between two rounds of the frontier loop. */
  ghost predicate BetweenRounds(steps: seq<Step>, levels: seq<seq<Step>>, at: map<Id, nat>, frontier: seq<Id>) {
    && Layered(steps, levels, at)
    && Distinct(frontier)
    && (forall id :: id in frontier <==> Ready(steps, at.Keys, id))
    && (forall id :: id in frontier ==> FromLastLevel(Edges(steps), at, |levels|, id))
  }

  lemma FrontierReady(steps: seq<Step>, levels: seq<seq<Step>>, at: map<Id, nat>, frontier: seq<Id>)
    requires BetweenRounds(steps, levels, at, frontier)
    ensures forall id :: id in frontier ==> id in KeySet(steps) && id !in at
    ensures Unvisited(frontier, at.Keys) == frontier
  {
  }

  lemma NextRound(steps: seq<Step>, levels: seq<seq<Step>>, at: map<Id, nat>, level: seq<Id>, next: seq<Id>)
    requires Distinct(Keys(steps)) && BetweenRounds(steps, levels, at, level)
    requires forall id :: id in level ==> id in KeySet(steps)
    requires Distinct(next)
    requires var at' := Extended(at, level, |levels|);
             forall id :: id in next <==> Fed(StepsOf(steps, level), id) && Ready(steps, at'.Keys, id)
    ensures BetweenRounds(steps, levels + [StepsOf(steps, level)], Extended(at, level, |levels|), next)
  {
    hide Layered, Distinct, Keys, Ready, Fed, FromLastLevel, Edges, KeySet;
    var at' := Extended(at, level, |levels|);
    LayeredOn(steps, levels, at, level);
    assert at'.Keys == at.Keys + (set id | id in level);
    forall id | Ready(steps, at'.Keys, id)
      ensures id in next && FromLastLevel(Edges(steps), at', |levels| + 1, id)
    {
      FrontierOn(steps, at.Keys, level, id);
      FedByLevel(Edges(steps), at, level, |levels|, id);
    }
  }

  /** The first level stands in the order of the steps, each later one in the order in
      which its members are first named by the level before. */
  ghost predicate OrderedLevels(steps: seq<Step>, layers: seq<seq<Step>>) {
    && (layers != [] ==> Subsequence(Keys(layers[0]), Keys(steps)))
    && forall l :: 0 < l < |layers| ==> ByFirstOccurrence(Keys(layers[l]), Outputs(layers[l - 1]))
  }

  ghost predicate OrderedNext(steps: seq<Step>, layers: seq<seq<Step>>, frontier: seq<Id>) {
    if layers == [] then Subsequence(frontier, Keys(steps))
    else ByFirstOccurrence(frontier, Outputs(layers[|layers| - 1]))
  }

  lemma OrderedOn(steps: seq<Step>, layers: seq<seq<Step>>, ids: seq<Id>)
    requires OrderedLevels(steps, layers) && OrderedNext(steps, layers, ids)
    requires forall id :: id in ids ==> id in KeySet(steps)
    ensures OrderedLevels(steps, layers + [StepsOf(steps, ids)])
  {
    assert Keys(StepsOf(steps, ids)) == ids;
    hide Subsequence, ByFirstOccurrence;
    var all := layers + [StepsOf(steps, ids)];
    assert forall l :: 0 <= l < |layers| ==> all[l] == layers[l];
  }

  lemma OrderedFirst(steps: seq<Step>, frontier: seq<Id>)
    requires Subsequence(frontier, Keys(steps))
    ensures OrderedLevels(steps, []) && OrderedNext(steps, [], frontier)
  {
  }

  lemma OrderedAfter(steps: seq<Step>, layers: seq<seq<Step>>, layer: seq<Step>, frontier: seq<Id>)
    requires ByFirstOccurrence(frontier, Outputs(layer))
    ensures OrderedNext(steps, layers + [layer], frontier)
  {
    hide ByFirstOccurrence;
  }

  /** The frontier loop. It stops when nothing is ready any more. */
  method BuildLayers(steps: seq<Step>) returns (levels: seq<seq<Step>>, visited: set<Id>, ghost at: map<Id, nat>)
    requires Distinct(Keys(steps))
    ensures Layered(steps, levels, at) && visited == at.Keys <= KeySet(steps)
    ensures forall id :: !Ready(steps, visited, id)
    ensures OrderedLevels(steps, levels)
  {
    hide Edges, KeySet, Ready, Layered, Fed, FromLastLevel, Distinct, Keys, Subsequence, ByFirstOccurrence, OrderedLevels, OrderedNext, Outputs;
    levels, visited, at := [], {}, map[];
    NothingLayered(steps);
    assert at.Keys == {};
    var frontier := InitialFrontier(steps);
    OrderedFirst(steps, frontier);
    while |frontier| > 0
      invariant BetweenRounds(steps, levels, at, frontier)
      invariant OrderedLevels(steps, levels) && OrderedNext(steps, levels, frontier)
      invariant visited == at.Keys <= KeySet(steps)
      decreases KeySet(steps) - visited
    {
      FrontierReady(steps, levels, at, frontier);
      var level := Unvisited(frontier, visited);
      if |level| == 0 {
        break;
      }
      assert level[0] in KeySet(steps) - visited;
      visited := visited + (set id | id in level);
      OrderedOn(steps, levels, level);
      frontier := NextFrontier(steps, StepsOf(steps, level), visited);
      NextRound(steps, levels, at, level, frontier);
      OrderedAfter(steps, levels, StepsOf(steps, level), frontier);
      at := Extended(at, level, |levels|);
      levels := levels + [StepsOf(steps, level)];
    }
  }

  lemma NothingLayered(steps: seq<Step>)
    ensures Layered(steps, [], map[])
    ensures forall id :: FromLastLevel(Edges(steps), map[], 0, id)
  {
  }

  lemma FedByLevel(edges: set<Edge>, at: map<Id, nat>, level: seq<Id>, n: nat, id: Id)
    requires exists e :: e in edges && e.dst == id && e.src in level
    ensures FromLastLevel(edges, Extended(at, level, n), n + 1, id)
  {
  }

  // ---- What the levels mean ------------------------------------------------------

  /** Along a walk into the visited part, everything is visited and the level rises. */
  lemma {:induction false} WalksClimb(edges: set<Edge>, at: map<Id, nat>, p: seq<Id>)
    requires Climbs(edges, at) && Walk(edges, p) && p[|p| - 1] in at
    ensures forall i :: 0 <= i < |p| ==> p[i] in at && at[p[i]] + (|p| - 1 - i) <= at[p[|p| - 1]]
    decreases |p|
  {
    if |p| > 1 {
      assert Edge(p[|p| - 2], p[|p| - 1]) in edges;
      SubWalk(edges, p, 0, |p| - 1);
      var front := p[..|p| - 1];
      assert p[0..|p| - 1] == front;
      WalksClimb(edges, at, front);
      forall i | 0 <= i < |p|
        ensures p[i] in at && at[p[i]] + (|p| - 1 - i) <= at[p[|p| - 1]]
      {
        if i < |p| - 1 {
          assert front[i] == p[i];
        }
      }
    }
  }

  lemma {:induction false} DescendingWalk(edges: set<Edge>, at: map<Id, nat>, v: Id) returns (p: seq<Id>)
    requires Climbs(edges, at) && v in at
    ensures WalkTo(edges, p, v) && |p| - 1 == at[v]
    decreases at[v]
  {
    if at[v] == 0 {
      p := [v];
    } else {
      assert Below(edges, at, v);
      var e :| e in edges && e.dst == v && e.src in at && at[e.src] + 1 == at[v];
      var q := DescendingWalk(edges, at, e.src);
      p := q + [v];
    }
  }

  lemma ClimbingWalk(edges: set<Edge>, at: map<Id, nat>, p: seq<Id>)
    requires Climbs(edges, at) && Walk(edges, p) && p[|p| - 1] in at
    ensures |p| - 1 <= at[p[|p| - 1]]
    ensures forall i, j :: 0 <= i < j < |p| ==> p[i] != p[j]
  {
    WalksClimb(edges, at, p);
    assert at[p[0]] + (|p| - 1 - 0) <= at[p[|p| - 1]];
    forall i, j | 0 <= i < j < |p|
      ensures p[i] != p[j]
    {
      SubWalk(edges, p, 0, j + 1);
      var q := p[0..j + 1];
      assert q[i] == p[i] && q[j] == p[j];
      hide Climbs, Walk;
      WalksClimb(edges, at, q);
      assert at[q[i]] + (j - i) <= at[q[j]];
    }
  }

  /** The level of a visited step is the length of the longest walk to it, and
      no cycle leads to it. */
  lemma VisitedLevel(edges: set<Edge>, at: map<Id, nat>, v: Id)
    requires Climbs(edges, at) && v in at
    ensures LongestWalk(edges, v, at[v]) && !BehindCycle(edges, v)
  {
    var longest := DescendingWalk(edges, at, v);
    hide Climbs;
    forall p | WalkTo(edges, p, v)
      ensures |p| - 1 <= at[v] && !Repeats(p)
    {
      ClimbingWalk(edges, at, p);
    }
  }

  /** Going backwards from a step never visited one stays among such steps. */
  lemma {:induction false} BackwardWalk(steps: seq<Step>, visited: set<Id>, v: Id, n: nat) returns (p: seq<Id>)
    requires forall id :: !Ready(steps, visited, id)
    requires v in KeySet(steps) && v !in visited
    ensures WalkTo(Edges(steps), p, v) && |p| == n + 1
    ensures forall x :: x in p ==> x in KeySet(steps)
    decreases n
  {
    if n == 0 {
      p := [v];
    } else {
      assert !Ready(steps, visited, v);
      var e :| e in Edges(steps) && e.dst == v && e.src !in visited;
      var q := BackwardWalk(steps, visited, e.src, n - 1);
      p := q + [v];
    }
  }

  lemma UnvisitedBehindCycle(steps: seq<Step>, visited: set<Id>, v: Id)
    requires forall id :: !Ready(steps, visited, id)
    requires v in KeySet(steps) && v !in visited
    ensures BehindCycle(Edges(steps), v)
  {
    var p := BackwardWalk(steps, visited, v, |KeySet(steps)|);
    if Distinct(p) {
      DistinctFits(p, KeySet(steps));
    }
    assert Repeats(p);
  }

  // ---- All levels ----------------------------------------------------------------

  /** One level for each step not visited, in their order. */
  function LeftOver(steps: seq<Step>, visited: set<Id>): seq<seq<Step>> {
    if steps == [] then []
    else
      var s := steps[|steps| - 1];
      LeftOver(steps[..|steps| - 1], visited) + (if Key(s) in visited then [] else [[s]])
  }

  /** The levels of edge mode: layers, then what is left over. A layer's number is
      the length of the longest chain of steps leading to its members; the left-over
      steps are those behind a cycle, in their order; and every step has one place. */
  ghost predicate Schedules(steps: seq<Step>, layers: seq<seq<Step>>, rest: seq<seq<Step>>) {
    && (forall l, s :: 0 <= l < |layers| && s in layers[l] ==>
          s in steps && LongestWalk(Edges(steps), Key(s), l) && !BehindCycle(Edges(steps), Key(s)))
    && (forall s :: s in steps ==> (s in Flatten(layers) <==> !BehindCycle(Edges(steps), Key(s))))
    && rest == LeftOver(steps, KeySet(Flatten(layers)))
    && multiset(Flatten(layers + rest)) == multiset(steps)
  }

  /** The first `depth` levels are the layers. */
  ghost predicate IsSchedule(steps: seq<Step>, levels: seq<seq<Step>>, depth: nat) {
    depth <= |levels| && Schedules(steps, levels[..depth], levels[depth..])
  }

  /** The order within the levels: the layers' as above, and what is left over stands
      one step to a level, in the order of the steps. */
  ghost predicate InListedOrder(steps: seq<Step>, levels: seq<seq<Step>>, depth: nat) {
    && depth <= |levels|
    && OrderedLevels(steps, levels[..depth])
    && (forall l :: depth <= l < |levels| ==> |levels[l]| == 1)
    && Subsequence(Flatten(levels[depth..]), steps)
  }

  lemma {:induction false} LeftOverInOrder(steps: seq<Step>, visited: set<Id>)
    ensures forall l :: 0 <= l < |LeftOver(steps, visited)| ==> |LeftOver(steps, visited)[l]| == 1
    ensures Subsequence(Flatten(LeftOver(steps, visited)), steps)
  {
    if steps == [] {
      SubsequenceOfNothing(steps);
    } else {
      var front, s := steps[..|steps| - 1], steps[|steps| - 1];
      LeftOverInOrder(front, visited);
      var before := LeftOver(front, visited);
      SplitLast(steps);
      FlattenSnoc(before, [s]);
      assert before + [] == before;
      assert LeftOver(steps, visited) == if Key(s) in visited then before else before + [[s]];
      hide LeftOver, Flatten, Subsequence;
      SubsequenceSnoc(Flatten(before), front, s);
    }
  }

  method BuildLevels(steps: seq<Step>) returns (levels: seq<seq<Step>>, depth: nat)
    requires Distinct(Keys(steps))
    ensures IsSchedule(steps, levels, depth)
    ensures InListedOrder(steps, levels, depth)
  {
    hide OrderedLevels, Subsequence, Flatten, IsSchedule, Schedules, Layered, Ready, Edges, LeftOver;
    var layers, visited;
    ghost var at;
    layers, visited, at := BuildLayers(steps);
    depth := |layers|;
    levels := AppendLeftOver(steps, visited, layers);
    LayersMakeSchedule(steps, layers, at);
    AppendedIsSchedule(steps, layers, LeftOver(steps, visited));
    LeftOverInOrder(steps, visited);
    assert levels[..depth] == layers && levels[depth..] == LeftOver(steps, visited);
  }

  /** Catch any unvisited: one level each. */
  method AppendLeftOver(steps: seq<Step>, visited: set<Id>, layers: seq<seq<Step>>) returns (levels: seq<seq<Step>>)
    ensures levels == layers + LeftOver(steps, visited)
  {
    levels := layers;
    for i := 0 to |steps|
      invariant levels == layers + LeftOver(steps[..i], visited)
    {
      assert steps[..i + 1][..i] == steps[..i];
      if Key(steps[i]) !in visited {
        levels := levels + [[steps[i]]];
      }
    }
    assert steps[..|steps|] == steps;
  }

  lemma LayersMakeSchedule(steps: seq<Step>, layers: seq<seq<Step>>, at: map<Id, nat>)
    requires Distinct(Keys(steps)) && Layered(steps, layers, at) && at.Keys <= KeySet(steps)
    requires forall id :: !Ready(steps, at.Keys, id)
    ensures Schedules(steps, layers, LeftOver(steps, at.Keys))
  {
    hide Ready, Climbs, Placed, Complete, Edges, LeftOver, Flatten, LongestWalk, BehindCycle, KeySet, Distinct, Keys;
    LayersAreLongest(steps, layers, at);
    LayersAreReachedSteps(steps, layers, at);
    LayersKeySet(steps, layers, at);
    EveryStepOnce(steps, layers, at);
  }

  lemma AppendedIsSchedule(steps: seq<Step>, layers: seq<seq<Step>>, rest: seq<seq<Step>>)
    requires Schedules(steps, layers, rest)
    ensures IsSchedule(steps, layers + rest, |layers|)
  {
    hide Schedules;
    assert (layers + rest)[..|layers|] == layers && (layers + rest)[|layers|..] == rest;
  }

  lemma LayerKeys(steps: seq<Step>, layers: seq<seq<Step>>, at: map<Id, nat>, s: Step)
    requires Distinct(Keys(steps)) && Placed(steps, layers, at) && Complete(layers, at)
    ensures s in Flatten(layers) ==> s in steps && Key(s) in at
    ensures s in steps && Key(s) in at ==> s in Flatten(layers)
  {
    FlattenHas(layers, s);
    if s in steps && Key(s) in at {
      var level := layers[at[Key(s)]];
      var k :| 0 <= k < |level| && Key(level[k]) == Key(s);
      assert level[k] in level;
      SameKeySameStep(steps, s, level[k]);
    }
  }

  lemma LayersAreLongest(steps: seq<Step>, layers: seq<seq<Step>>, at: map<Id, nat>)
    requires Placed(steps, layers, at) && Climbs(Edges(steps), at)
    ensures forall l, s :: 0 <= l < |layers| && s in layers[l] ==>
              s in steps && LongestWalk(Edges(steps), Key(s), l) && !BehindCycle(Edges(steps), Key(s))
  {
    hide Climbs, Edges, LongestWalk, BehindCycle;
    forall l, s | 0 <= l < |layers| && s in layers[l]
      ensures s in steps && LongestWalk(Edges(steps), Key(s), l) && !BehindCycle(Edges(steps), Key(s))
    {
      VisitedLevel(Edges(steps), at, Key(s));
    }
  }

  lemma LayersAreReachedSteps(steps: seq<Step>, layers: seq<seq<Step>>, at: map<Id, nat>)
    requires Distinct(Keys(steps)) && Layered(steps, layers, at)
    requires forall id :: !Ready(steps, at.Keys, id)
    ensures forall s :: s in steps ==> (s in Flatten(layers) <==> !BehindCycle(Edges(steps), Key(s)))
  {
    hide Climbs, Ready, Edges, Distinct, Keys, LongestWalk, BehindCycle, Placed, Complete, Flatten;
    forall s | s in steps
      ensures s in Flatten(layers) <==> !BehindCycle(Edges(steps), Key(s))
    {
      LayerKeys(steps, layers, at, s);
      if Key(s) in at {
        VisitedLevel(Edges(steps), at, Key(s));
      } else {
        UnvisitedBehindCycle(steps, at.Keys, Key(s));
      }
    }
  }

  lemma LayersKeySet(steps: seq<Step>, layers: seq<seq<Step>>, at: map<Id, nat>)
    requires Distinct(Keys(steps)) && Layered(steps, layers, at)
    requires at.Keys <= KeySet(steps)
    ensures KeySet(Flatten(layers)) == at.Keys
  {
    hide Climbs, Edges, Distinct, Keys, Placed, Complete, Flatten;
    forall s
      ensures s in Flatten(layers) <==> s in steps && Key(s) in at
    {
      LayerKeys(steps, layers, at, s);
    }
  }

  lemma {:induction false} LeftOverCount(steps: seq<Step>, visited: set<Id>, s: Step)
    ensures multiset(Flatten(LeftOver(steps, visited)))[s] == if Key(s) in visited then 0 else multiset(steps)[s]
  {
    if steps != [] {
      var front, last := steps[..|steps| - 1], steps[|steps| - 1];
      LeftOverCount(front, visited, s);
      FlattenSnoc(LeftOver(front, visited), [last]);
      assert LeftOver(front, visited) + [] == LeftOver(front, visited);
      hide LeftOver, Flatten;
      SplitLast(steps);
    }
  }

  lemma LayersDistinct(steps: seq<Step>, layers: seq<seq<Step>>, at: map<Id, nat>)
    requires Placed(steps, layers, at)
    ensures Distinct(Flatten(layers))
  {
    forall l | 0 <= l < |layers|
      ensures Distinct(layers[l])
    {
      DistinctKeysDistinct(layers[l]);
    }
    FlattenDistinct(layers);
  }

  lemma DistinctKeysDistinct(steps: seq<Step>)
    requires Distinct(Keys(steps))
    ensures Distinct(steps)
  {
    forall i, j | 0 <= i < j < |steps|
      ensures steps[i] != steps[j]
    {
      assert Keys(steps)[i] != Keys(steps)[j];
    }
  }

  lemma EveryStepOnce(steps: seq<Step>, layers: seq<seq<Step>>, at: map<Id, nat>)
    requires Distinct(Keys(steps)) && Layered(steps, layers, at)
    ensures multiset(Flatten(layers + LeftOver(steps, at.Keys))) == multiset(steps)
  {
    var rest := LeftOver(steps, at.Keys);
    FlattenConcat(layers, rest);
    LayersDistinct(steps, layers, at);
    DistinctKeysDistinct(steps);
    hide Climbs, Edges, Placed, Complete, LeftOver, Flatten, Distinct, Keys;
    forall s: Step
      ensures multiset(Flatten(layers))[s] + multiset(Flatten(rest))[s] == multiset(steps)[s]
    {
      LeftOverCount(steps, at.Keys, s);
      LayerKeys(steps, layers, at, s);
      DistinctCount(Flatten(layers), s);
      DistinctCount(steps, s);
    }
  }

  // ---- Sources before targets ------------------------------------------------------

  lemma EdgeRaisesLongestWalk(edges: set<Edge>, e: Edge, m: nat, l: nat)
    requires e in edges && LongestWalk(edges, e.src, m) && LongestWalk(edges, e.dst, l)
    ensures m < l
  {
    var p :| WalkTo(edges, p, e.src) && |p| - 1 == m;
    assert WalkTo(edges, p + [e.dst], e.dst);
  }

  lemma BehindCycleSpreads(edges: set<Edge>, e: Edge)
    requires e in edges && BehindCycle(edges, e.src)
    ensures BehindCycle(edges, e.dst)
  {
    var p :| WalkTo(edges, p, e.src) && Repeats(p);
    var q := p + [e.dst];
    var i, j :| 0 <= i < j < |p| && p[i] == p[j];
    assert q[i] == q[j];
    assert WalkTo(edges, q, e.dst);
  }

  /** Every edge into a layered step comes from a step in an earlier layer. */
  lemma SourcesComeEarlier(steps: seq<Step>, levels: seq<seq<Step>>, depth: nat, source: Step, l: nat, target: Step)
    requires IsSchedule(steps, levels, depth)
    requires l < depth && target in levels[l] && source in steps && Key(target) in source.outputsTo
    ensures exists m :: 0 <= m < l && source in levels[m]
  {
    var edges, e := Edges(steps), Edge(Key(source), Key(target));
    assert target in levels[..depth][l];
    assert Key(target) in KeySet(steps) && e in edges;
    if BehindCycle(edges, e.src) {
      BehindCycleSpreads(edges, e);
    }
    FlattenHas(levels[..depth], source);
    var m :| 0 <= m < depth && source in levels[..depth][m];
    EdgeRaisesLongestWalk(edges, e, m, l);
  }

  lemma {:induction false} NothingLeftOver(steps: seq<Step>, visited: set<Id>)
    requires forall s :: s in steps ==> Key(s) in visited
    ensures LeftOver(steps, visited) == []
  {
    if steps != [] {
      NothingLeftOver(steps[..|steps| - 1], visited);
    }
  }

  lemma AcyclicLeavesNothing(steps: seq<Step>, levels: seq<seq<Step>>, depth: nat)
    requires IsSchedule(steps, levels, depth) && Acyclic(Edges(steps))
    ensures depth == |levels|
  {
    forall s | s in steps
      ensures Key(s) in KeySet(Flatten(levels[..depth]))
    {
      AcyclicNothingBehind(Edges(steps), Key(s));
    }
    NothingLeftOver(steps, KeySet(Flatten(levels[..depth])));
  }

  lemma CycleHasStepBehind(steps: seq<Step>) returns (s: Step)
    requires !Acyclic(Edges(steps))
    ensures s in steps && BehindCycle(Edges(steps), Key(s))
  {
    var edges := Edges(steps);
    var p :| Walk(edges, p) && |p| >= 2 && p[0] == p[|p| - 1];
    var v := p[|p| - 1];
    assert WalkTo(edges, p, v) && Repeats(p);
    assert Edge(p[|p| - 2], v) in edges;
    s :| s in steps && Key(s) == v;
  }

  /** The leftover pass has nothing to do if and only if there is no cycle. */
  lemma LeavesNothingIff(steps: seq<Step>, levels: seq<seq<Step>>, depth: nat)
    requires IsSchedule(steps, levels, depth)
    ensures depth == |levels| <==> Acyclic(Edges(steps))
  {
    if Acyclic(Edges(steps)) {
      AcyclicLeavesNothing(steps, levels, depth);
    } else {
      var s := CycleHasStepBehind(steps);
      hide Edges, Acyclic, BehindCycle, LongestWalk, LeftOver, Flatten;
      ScheduleIsPermutation(steps, levels, depth);
      assert levels[..|levels|] == levels;
      assert s in multiset(steps) && s in Flatten(levels);
    }
  }

  lemma {:induction false} LeftOverAll(steps: seq<Step>)
    ensures Flatten(LeftOver(steps, {})) == steps
  {
    if steps != [] {
      var front, s := steps[..|steps| - 1], steps[|steps| - 1];
      LeftOverAll(front);
      FlattenSnoc(LeftOver(front, {}), [s]);
      SplitLast(steps);
    }
  }

  lemma LayersEmpty(steps: seq<Step>, levels: seq<seq<Step>>, depth: nat)
    requires IsSchedule(steps, levels, depth)
    requires forall s :: s in steps ==> BehindCycle(Edges(steps), Key(s))
    ensures Flatten(levels[..depth]) == []
  {
    hide BehindCycle, Edges, LongestWalk, LeftOver, Flatten;
    forall s
      ensures s !in Flatten(levels[..depth])
    {
      FlattenHas(levels[..depth], s);
    }
    EmptyIff(Flatten(levels[..depth]));
  }

  lemma OnlyRest(steps: seq<Step>, layers: seq<seq<Step>>, rest: seq<seq<Step>>)
    requires Flatten(layers) == [] && rest == LeftOver(steps, KeySet([]))
    ensures Flatten(layers + rest) == steps
  {
    assert KeySet([]) == {};
    hide *;
    LeftOverAll(steps);
    FlattenConcat(layers, rest);
    assert [] + steps == steps;
  }

  /** When every step is on or behind a cycle, the edges do not matter: the steps run
      in the order in which they are listed. */
  lemma {:induction false} AllBehindRunAsListed(steps: seq<Step>, levels: seq<seq<Step>>, depth: nat)
    requires IsSchedule(steps, levels, depth)
    requires forall s :: s in steps ==> BehindCycle(Edges(steps), Key(s))
    ensures Flatten(levels) == steps
  {
    LayersEmpty(steps, levels, depth);
    hide BehindCycle, Edges, LongestWalk, LeftOver, KeySet, Flatten;
    OnlyRest(steps, levels[..depth], levels[depth..]);
    assert levels == levels[..depth] + levels[depth..];
  }

  lemma ScheduleIsPermutation(steps: seq<Step>, levels: seq<seq<Step>>, depth: nat)
    requires IsSchedule(steps, levels, depth)
    ensures multiset(Flatten(levels)) == multiset(steps)
  {
    assert levels == levels[..depth] + levels[depth..];
  }
}
