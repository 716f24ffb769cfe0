/** The bridge's routing used as the pipeline's edges. */
module RoutedPipeline {
  import opened Graphs
  import opened Sequences
  import opened Wrappers
  import R = Routing
  import S = Scheduler
  import P = PipelineRun

  // ---- From agents to steps ----------------------------------------------------------

  /** An agent as the runtime has it. */
  datatype LiveAgent = LiveAgent(agent: R.Agent, pipelineStep: Id, enabled: bool, ceo: bool)

  predicate TakesPart(a: LiveAgent) {
    a.pipelineStep != "" && a.enabled
  }

  /** `connections||outputs_to||[]`: connections win, even when they are empty. */
  function StepOf(a: LiveAgent): S.Step {
    S.Step(a.pipelineStep, a.agent.id, a.agent.connections.GetOr(a.agent.outputsTo), a.ceo)
  }

  function AgentSteps(live: seq<LiveAgent>): seq<S.Step> {
    if live == [] then []
    else
      var a := live[|live| - 1];
      AgentSteps(live[..|live| - 1]) + (if TakesPart(a) then [StepOf(a)] else [])
  }

  /** The steps of a run: the agents' and the manifest's executors. */
  function AllSteps(live: seq<LiveAgent>, executors: seq<S.Step>): seq<S.Step> {
    AgentSteps(live) + executors
  }

  /** Without edges between agents the run does not use the edges at all. */
  predicate HasEdges(live: seq<LiveAgent>) {
    exists s :: s in AgentSteps(live) && s.outputsTo != []
  }

  lemma {:induction false} AgentStepsMeaning(live: seq<LiveAgent>)
    ensures forall s :: s in AgentSteps(live) <==> exists a :: a in live && TakesPart(a) && s == StepOf(a)
  {
    if live != [] {
      var front, a := live[..|live| - 1], live[|live| - 1];
      AgentStepsMeaning(front);
      assert live == front + [a];
      hide StepOf, TakesPart;
    }
  }

  /** The step has the agent's id, its pipeline step, its connections or else its
      outputs, and a gate if the agent is a CEO. */
  predicate MadeFrom(s: S.Step, a: LiveAgent) {
    && s.agentId == a.agent.id && s.stepId == a.pipelineStep && (s.requiresApproval <==> a.ceo)
    && s.outputsTo == match a.agent.connections case Some(c) => c case None => a.agent.outputsTo
  }

  lemma AgentStepsSnoc(live: seq<LiveAgent>, a: LiveAgent)
    ensures !TakesPart(a) ==> AgentSteps(live + [a]) == AgentSteps(live)
    ensures TakesPart(a) ==> AgentSteps(live + [a]) == AgentSteps(live) + [StepOf(a)] && MadeFrom(StepOf(a), a)
  {
    assert (live + [a])[..|live|] == live;
  }

  /** The agents that take part give the steps, in order. */
  lemma {:induction false} AgentStepsInOrder(live: seq<LiveAgent>) returns (ks: seq<nat>)
    ensures Places(ks, live, TakesPart) && |ks| == |AgentSteps(live)|
    ensures forall n :: 0 <= n < |ks| ==> MadeFrom(AgentSteps(live)[n], live[ks[n]])
  {
    if live == [] {
      ks := [];
    } else {
      var front, a := live[..|live| - 1], live[|live| - 1];
      ks := AgentStepsInOrder(front);
      SplitLast(live);
      PlacesSnoc(ks, front, a, TakesPart);
      KnownPlaces(ks, front, TakesPart);
      AgentStepsSnoc(front, a);
      hide *;
      var ks' := if TakesPart(a) then ks + [|front|] else ks;
      assert Places(ks', live, TakesPart);
      ks := ks';
    }
  }

  // ---- When the pipeline follows the routing -----------------------------------------

  /** The outputs lead, among the steps, only where the routing leads. */
  ghost predicate Keeps(s: S.Step, keys: set<Id>, edges: seq<Edge>) {
    forall d :: d in s.outputsTo && d in keys ==> Edge(S.Key(s), d) in edges
  }

  /** The outputs lead, among the steps, wherever the routing leads. */
  ghost predicate Covers(s: S.Step, keys: set<Id>, edges: seq<Edge>) {
    forall d :: d in keys && Edge(S.Key(s), d) in edges ==> d in s.outputsTo
  }

  /** Applying a routing decides the agent's outputs: nothing stored in the agent overrides it. */
  predicate Governed(a: LiveAgent) {
    a.agent.connections.None? && a.agent.id != ""
  }

  /** The steps that get their outputs from elsewhere than the routing. */
  ghost predicate Ungoverned(live: seq<LiveAgent>, executors: seq<S.Step>, s: S.Step) {
    s in executors || exists a :: a in live && TakesPart(a) && !Governed(a) && s == StepOf(a)
  }

  /** Connections and executors' outputs go nowhere the routing does not go. */
  ghost predicate NothingAstray(live: seq<LiveAgent>, executors: seq<S.Step>, edges: seq<Edge>) {
    forall s :: Ungoverned(live, executors, s) ==> Keeps(s, S.KeySet(AllSteps(live, executors)), edges)
  }

  /** Connections and executors' outputs drop nothing of the routing. */
  ghost predicate NothingDropped(live: seq<LiveAgent>, executors: seq<S.Step>, edges: seq<Edge>) {
    forall s :: Ungoverned(live, executors, s) ==> Covers(s, S.KeySet(AllSteps(live, executors)), edges)
  }

  /** The live agents are those the bridge has after applying the routing. */
  ghost predicate Carry(live: seq<LiveAgent>, agents: seq<R.Agent>, edges: seq<Edge>) {
    forall a :: a in live ==> a.agent in R.Applied(agents, edges)
  }

  lemma GovernedFollow(agents: seq<R.Agent>, edges: seq<Edge>, a: LiveAgent, keys: set<Id>)
    requires Governed(a) && a.agent in R.Applied(agents, edges)
    ensures Keeps(StepOf(a), keys, edges) && Covers(StepOf(a), keys, edges)
  {
    R.TargetsMeaning(edges, a.agent.id);
  }

  /** With the rest of the steps governed, only the ungoverned ones matter. */
  lemma StepsFollowIff(agents: seq<R.Agent>, edges: seq<Edge>, live: seq<LiveAgent>, executors: seq<S.Step>)
    requires Carry(live, agents, edges)
    ensures var steps := AllSteps(live, executors);
            var keys := S.KeySet(steps);
            && (NothingAstray(live, executors, edges) <==> forall s :: s in steps ==> Keeps(s, keys, edges))
            && (NothingDropped(live, executors, edges) <==> forall s :: s in steps ==> Covers(s, keys, edges))
  {
    var steps := AllSteps(live, executors);
    var keys := S.KeySet(steps);
    AgentStepsMeaning(live);
    forall s | s in steps
      ensures Ungoverned(live, executors, s) || (Keeps(s, keys, edges) && Covers(s, keys, edges))
    {
      if !Ungoverned(live, executors, s) {
        var a :| a in live && TakesPart(a) && s == StepOf(a);
        GovernedFollow(agents, edges, a, keys);
      }
    }
    forall s | Ungoverned(live, executors, s)
      ensures s in steps
    {
    }
    hide Keeps, Covers, Ungoverned, AllSteps;
  }

  /** The pipeline's edges stay within the applied routing if and only if no connection
      and no executor goes astray. */
  lemma WithinRoutingIff(agents: seq<R.Agent>, edges: seq<Edge>, live: seq<LiveAgent>, executors: seq<S.Step>)
    requires Carry(live, agents, edges)
    ensures S.Edges(AllSteps(live, executors)) <= R.EdgeSet(edges) <==> NothingAstray(live, executors, edges)
  {
    var steps := AllSteps(live, executors);
    StepsFollowIff(agents, edges, live, executors);
    hide NothingAstray, AllSteps;
    if S.Edges(steps) <= R.EdgeSet(edges) {
      forall s, d | s in steps && d in s.outputsTo && d in S.KeySet(steps)
        ensures Edge(S.Key(s), d) in edges
      {
        assert Edge(S.Key(s), d) in S.Edges(steps);
      }
    }
  }

  /** They are the routing's edges between steps if and only if, besides, nothing is dropped. */
  lemma SameAsRoutingIff(agents: seq<R.Agent>, edges: seq<Edge>, live: seq<LiveAgent>, executors: seq<S.Step>)
    requires Carry(live, agents, edges) && Distinct(S.Keys(AllSteps(live, executors)))
    ensures var steps := AllSteps(live, executors);
            var keys := S.KeySet(steps);
            (forall e :: e in S.Edges(steps) <==> e in edges && e.src in keys && e.dst in keys)
            <==> NothingAstray(live, executors, edges) && NothingDropped(live, executors, edges)
  {
    var steps := AllSteps(live, executors);
    var keys := S.KeySet(steps);
    WithinRoutingIff(agents, edges, live, executors);
    StepsFollowIff(agents, edges, live, executors);
    hide NothingAstray, NothingDropped, AllSteps;
    forall s, d | s in steps && d in keys
      ensures d in s.outputsTo <==> Edge(S.Key(s), d) in S.Edges(steps)
    {
      if Edge(S.Key(s), d) in S.Edges(steps) {
        var s' :| s' in steps && d in s'.outputsTo && S.Key(s') == S.Key(s);
        S.SameKeySameStep(steps, s, s');
      }
    }
    assert forall e :: e in S.Edges(steps) ==> e.src in keys && e.dst in keys;
    if forall s :: s in steps ==> Covers(s, keys, edges) {
      forall e | e in edges && e.src in keys && e.dst in keys
        ensures e in S.Edges(steps)
      {
        var s :| s in steps && S.Key(s) == e.src;
        assert Covers(s, keys, edges);
      }
    }
  }

  lemma AcyclicOne(u: Id, v: Id)
    requires u != v
    ensures Acyclic({Edge(u, v)})
  {
    forall p | Walk({Edge(u, v)}, p) && |p| >= 2
      ensures p[0] != p[|p| - 1]
    {
      assert Edge(p[0], p[1]) == Edge(u, v);
      assert Edge(p[|p| - 2], p[|p| - 1]) == Edge(u, v);
    }
  }

  /** Two steps that feed each other are both left over, in their order. */
  lemma TwoStepCycle(s: S.Step, t: S.Step, levels: seq<seq<S.Step>>, depth: nat)
    requires S.Key(s) in t.outputsTo && S.Key(t) in s.outputsTo
    ensures !Acyclic(S.Edges([s, t]))
    ensures S.IsSchedule([s, t], levels, depth) ==> Flatten(levels) == [s, t]
  {
    var steps, edges := [s, t], S.Edges([s, t]);
    var k, l := S.Key(s), S.Key(t);
    assert s in steps && t in steps && k in S.KeySet(steps) && l in S.KeySet(steps);
    assert Edge(k, l) in edges && Edge(l, k) in edges;
    var p, q := [k, l, k], [l, k, l];
    assert Walk(edges, p) && Walk(edges, q);
    assert p[0] == p[2] && q[0] == q[2];
    assert WalkTo(edges, p, k) && Repeats(p) && BehindCycle(edges, k);
    assert WalkTo(edges, q, l) && Repeats(q) && BehindCycle(edges, l);
    if S.IsSchedule(steps, levels, depth) {
      S.AllBehindRunAsListed(steps, levels, depth);
    }
  }

  const ROUTING := [Edge("a", "b")]
  const STALE_AGENTS := [R.Agent("a", [], None), R.Agent("b", [], Some(["a"]))]

  function StaleLive(): seq<LiveAgent> {
    var after := R.Applied(STALE_AGENTS, ROUTING);
    [LiveAgent(after[1], "s2", true, false), LiveAgent(after[0], "s1", true, false)]
  }

  lemma StaleSteps()
    ensures AllSteps(StaleLive(), []) == [S.Step("s2", "b", ["a"], false), S.Step("s1", "a", ["b"], false)]
  {
    assert ROUTING[..0] == [] && R.Targets(ROUTING, "a") == ["b"];
    var live := StaleLive();
    assert live[..1][..0] == [] && AgentSteps(live[..1]) == [StepOf(live[0])];
  }

  lemma StaleRoutingAccepted()
    ensures R.ValidRouting(R.KnownIds(STALE_AGENTS), ROUTING)
  {
    assert STALE_AGENTS[0] in STALE_AGENTS && STALE_AGENTS[1] in STALE_AGENTS;
    assert "a" != "b";
    AcyclicOne("a", "b");
    assert R.EdgeSet(ROUTING) == {Edge("a", "b")};
  }

  /** An input on which an accepted routing does not decide the order: the routing sends
      a's output to b, but b still has a connection to a. The pipeline has a cycle, and
      the steps run in the order they are listed in, here b first. */
  lemma StaleConnectionWins(levels: seq<seq<S.Step>>, depth: nat)
    ensures R.ValidRouting(R.KnownIds(STALE_AGENTS), ROUTING) && Carry(StaleLive(), STALE_AGENTS, ROUTING)
    ensures !Acyclic(S.Edges(AllSteps(StaleLive(), [])))
    ensures S.IsSchedule(AllSteps(StaleLive(), []), levels, depth) ==> S.Keys(Flatten(levels)) == ["b", "a"]
  {
    StaleRoutingAccepted();
    StaleSteps();
    var b, a := S.Step("s2", "b", ["a"], false), S.Step("s1", "a", ["b"], false);
    hide AllSteps, StepOf, TakesPart, S.IsSchedule, S.Edges, Acyclic, Flatten, R.ValidRouting, R.KnownIds;
    TwoStepCycle(b, a, levels, depth);
  }

  /** `_buildAgent` copies neither list, so agents just loaded from a project have no
      edges, whatever routing was applied to it. */
  function Built(a: R.Agent): R.Agent {
    R.Agent(a.id, [], None)
  }

  lemma BuiltAgentsHaveNoEdges(agents: seq<R.Agent>, edges: seq<Edge>, live: seq<LiveAgent>)
    requires forall a :: a in live ==> exists b :: b in R.Applied(agents, edges) && a.agent == Built(b)
    ensures !HasEdges(live)
  {
    AgentStepsMeaning(live);
  }

  // ---- From the routing to the calls -------------------------------------------------

  /** An accepted routing, applied to the agents and run as a pipeline without anything
      astray, leaves no step to the leftover pass, and each edge's source runs in an
      earlier level than its target. */
  lemma AcceptedRoutingRunsInOrder(agents: seq<R.Agent>, edges: seq<Edge>, live: seq<LiveAgent>, executors: seq<S.Step>,
                                   levels: seq<seq<S.Step>>, depth: nat)
    requires R.ValidRouting(R.KnownIds(agents), edges) && Carry(live, agents, edges)
    requires NothingAstray(live, executors, edges)
    requires S.IsSchedule(AllSteps(live, executors), levels, depth)
    ensures depth == |levels|
    ensures forall l, source, target ::
              0 <= l < |levels| && target in levels[l] && source in AllSteps(live, executors)
              && S.Key(target) in source.outputsTo ==>
              exists m :: 0 <= m < l && source in levels[m]
  {
    var steps := AllSteps(live, executors);
    WithinRoutingIff(agents, edges, live, executors);
    AcyclicSubset(S.Edges(steps), R.EdgeSet(edges));
    S.LeavesNothingIff(steps, levels, depth);
    hide AllSteps;
    forall l, source, target |
      0 <= l < |levels| && target in levels[l] && source in steps && S.Key(target) in source.outputsTo
      ensures exists m :: 0 <= m < l && source in levels[m]
    {
      S.SourcesComeEarlier(steps, levels, depth, source, l, target);
    }
  }

  /** The run executes the levels' steps in order. */
  ghost predicate Executes(run: seq<P.Step>, order: seq<S.Step>) {
    |run| == |order| && forall k :: 0 <= k < |order| ==> run[k].requiresApproval == order[k].requiresApproval
  }

  lemma SourceHasEarlierPlace(steps: seq<S.Step>, levels: seq<seq<S.Step>>, source: S.Step, t: nat, l: nat, m: nat)
    returns (k: nat)
    requires Distinct(S.Keys(steps)) && multiset(Flatten(levels)) == multiset(steps)
    requires m < l < |levels| && source in levels[m] && t < |Flatten(levels)| && Flatten(levels)[t] in levels[l]
    ensures k < t && Flatten(levels)[k] == source
  {
    S.DistinctKeysDistinct(steps);
    PermutationDistinct(steps, Flatten(levels));
    var b;
    k, b := FlattenBefore(levels, m, l, source, Flatten(levels)[t]);
  }

  /** From the CEO's routing to the calls: in any run of the pipeline made from an
      accepted routing, with nothing astray and nothing dropped, whatever the operator
      and the agents do, a step is called only when every step routed to it has
      finished, and a gated one only when approved. */
  lemma RoutedCallsWait(agents: seq<R.Agent>, edges: seq<Edge>, live: seq<LiveAgent>, executors: seq<S.Step>,
                        levels: seq<seq<S.Step>>, depth: nat,
                        run: seq<P.Step>, haltOnError: bool, inputs: seq<P.Input>, i: int, t: nat, source: S.Step)
    requires R.ValidRouting(R.KnownIds(agents), edges) && Carry(live, agents, edges)
    requires NothingAstray(live, executors, edges) && NothingDropped(live, executors, edges)
    requires Distinct(S.Keys(AllSteps(live, executors)))
    requires S.IsSchedule(AllSteps(live, executors), levels, depth) && Executes(run, Flatten(levels))
    requires t < |run| && source in AllSteps(live, executors) && Edge(S.Key(source), S.Key(Flatten(levels)[t])) in edges
    requires var trace := P.After(run, haltOnError, inputs).trace; 0 <= i < |trace| && trace[i] == P.Called(t)
    ensures exists k :: 0 <= k < t && Flatten(levels)[k] == source
                        && P.FinishedBefore(P.After(run, haltOnError, inputs).trace, i, k)
    ensures Flatten(levels)[t].requiresApproval ==> P.ApprovedBefore(P.After(run, haltOnError, inputs).trace, i, t)
  {
    var order, steps := Flatten(levels), AllSteps(live, executors);
    var trace := P.After(run, haltOnError, inputs).trace;
    AcceptedRoutingRunsInOrder(agents, edges, live, executors, levels, depth);
    StepsFollowIff(agents, edges, live, executors);
    S.ScheduleIsPermutation(steps, levels, depth);
    assert order[t] in multiset(order) && order[t] in steps;
    assert Covers(source, S.KeySet(steps), edges) && S.Key(order[t]) in source.outputsTo;
    hide AllSteps, NothingAstray, NothingDropped, Carry;
    FlattenHas(levels, order[t]);
    var l :| 0 <= l < |levels| && order[t] in levels[l];
    var m :| 0 <= m < l && source in levels[m];
    var k := SourceHasEarlierPlace(steps, levels, source, t, l, m);
    P.DependentWaits(run, haltOnError, inputs, i, k, t);
    P.RunGuarantees(run, haltOnError, inputs);
  }
}
