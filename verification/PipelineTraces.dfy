/** What a pipeline run does, read off its inputs: the form of every trace, which
    answers halt a run, and that a run which is served to the end completes. */
module PipelineTraces {
  import opened PipelineRun

  lemma AfterSnoc(steps: seq<Step>, haltOnError: bool, inputs: seq<Input>, input: Input)
    ensures After(steps, haltOnError, inputs + [input]) == Next(steps, haltOnError, After(steps, haltOnError, inputs), input)
  {
    hide Next;
    assert (inputs + [input])[..|inputs|] == inputs;
  }

  // ---- The form of a trace -------------------------------------------------------------

  /** What happens to step k before it is called, when the operator decides `decision`. */
  function Opening(steps: seq<Step>, k: nat, decision: string): seq<Event>
    requires k < |steps|
  {
    [Started(k)] + (if steps[k].requiresApproval then [AskedApproval(k), Resolved(k, decision)] else [])
  }

  /** All that happens to step k. */
  function Course(steps: seq<Step>, k: nat, decision: string): seq<Event>
    requires k < |steps|
  {
    Opening(steps, k, decision) + (if steps[k].hasCall then [Called(k)] else []) + [Finished(k)]
  }

  /** The first steps, one after the other. */
  function Courses(steps: seq<Step>, decisions: seq<string>): seq<Event>
    requires |decisions| <= |steps|
  {
    if decisions == [] then []
    else Courses(steps, decisions[..|decisions| - 1]) + Course(steps, |decisions| - 1, decisions[|decisions| - 1])
  }

  /** What of the current step shows in the trace, and what the ending adds. */
  function Current(steps: seq<Step>, k: nat, phase: Phase, decision: string): seq<Event>
    requires k < |steps| || phase.Ready? || phase == Ended(Completed)
  {
    match phase
    case Ready => []
    case Awaiting => [Started(k), AskedApproval(k)]
    case Calling => Opening(steps, k, decision) + [Called(k)]
    case Ended(Completed) => [Archived]
    case Ended(Rejected) => Opening(steps, k, decision) + [Archived]
    case Ended(Halted) => Opening(steps, k, decision) + [Called(k), Archived]
    case Ended(Thrown) => Opening(steps, k, decision) + [Called(k)]
  }

  /** When a phase is possible for the current step. */
  predicate Possible(steps: seq<Step>, haltOnError: bool, k: nat, phase: Phase, decision: string) {
    match phase
    case Ready => k <= |steps|
    case Awaiting => k < |steps| && steps[k].requiresApproval
    case Calling => k < |steps| && steps[k].hasCall && decision != "reject"
    case Ended(Completed) => k == |steps|
    case Ended(Rejected) => k < |steps| && steps[k].requiresApproval && decision == "reject"
    case Ended(Halted) => k < |steps| && steps[k].hasCall && decision != "reject" && haltOnError
    case Ended(Thrown) => k < |steps| && steps[k].hasCall && decision != "reject"
  }

  ghost predicate Formed(steps: seq<Step>, haltOnError: bool, s: State, decisions: seq<string>, decision: string) {
    && |decisions| == s.next <= |steps| && "reject" !in decisions
    && Possible(steps, haltOnError, s.next, s.phase, decision)
    && s.trace == Courses(steps, decisions) + Current(steps, s.next, s.phase, decision)
  }

  lemma CoursesSnoc(steps: seq<Step>, decisions: seq<string>, decision: string)
    requires |decisions| < |steps|
    ensures Courses(steps, decisions + [decision]) == Courses(steps, decisions) + Course(steps, |decisions|, decision)
  {
    assert (decisions + [decision])[..|decisions|] == decisions;
  }

  lemma BeginFormed(steps: seq<Step>, haltOnError: bool, s: State, decisions: seq<string>, decision: string)
    requires |decisions| == s.next < |steps| && "reject" !in decisions && decision != "reject"
    requires s.trace == Courses(steps, decisions) + Opening(steps, s.next, decision)
    ensures var s' := BeginCall(steps, s);
            Formed(steps, haltOnError, s', if s'.phase.Calling? then decisions else decisions + [decision], decision)
  {
    if steps[s.next].hasCall {
      assert Emit(s, Called(s.next)).trace == Courses(steps, decisions) + (Opening(steps, s.next, decision) + [Called(s.next)]);
    } else {
      CoursesSnoc(steps, decisions, decision);
      assert Opening(steps, s.next, decision) + [] == Opening(steps, s.next, decision);
      hide Courses, Opening;
      assert FinishStep(s).trace == Courses(steps, decisions) + (Opening(steps, s.next, decision) + [Finished(s.next)]);
    }
  }

  lemma ReadyFormed(steps: seq<Step>, haltOnError: bool, s: State, input: Input, decisions: seq<string>)
    returns (decisions': seq<string>)
    requires Formed(steps, haltOnError, s, decisions, "") && s.phase.Ready?
    ensures Formed(steps, haltOnError, Next(steps, haltOnError, s, input), decisions', "")
  {
    decisions' := decisions;
    if input.Tick? && s.next < |steps| {
      var s1 := Emit(s, Started(s.next));
      hide Courses;
      if steps[s.next].requiresApproval {
        assert Emit(s1, AskedApproval(s.next)).trace == Courses(steps, decisions) + [Started(s.next), AskedApproval(s.next)];
      } else {
        assert s1.trace == Courses(steps, decisions) + Opening(steps, s.next, "");
        BeginFormed(steps, haltOnError, s1, decisions, "");
        decisions' := if steps[s.next].hasCall then decisions else decisions + [""];
      }
    }
  }

  lemma AwaitingFormed(steps: seq<Step>, haltOnError: bool, s: State, input: Input, decisions: seq<string>, decision: string)
    returns (decisions': seq<string>, decision': string)
    requires Formed(steps, haltOnError, s, decisions, decision) && s.phase.Awaiting?
    ensures Formed(steps, haltOnError, Next(steps, haltOnError, s, input), decisions', decision')
  {
    decisions', decision' := decisions, decision;
    if input.Resolve? {
      decision' := input.decision;
      var s1 := Emit(s, Resolved(s.next, decision'));
      hide Courses;
      assert s1.trace == Courses(steps, decisions) + Opening(steps, s.next, decision');
      if decision' == "reject" {
        assert Emit(s1, Archived).trace == Courses(steps, decisions) + (Opening(steps, s.next, decision') + [Archived]);
      } else {
        BeginFormed(steps, haltOnError, s1, decisions, decision');
        decisions' := if steps[s.next].hasCall then decisions else decisions + [decision'];
      }
    }
  }

  lemma CallingFormed(steps: seq<Step>, haltOnError: bool, s: State, input: Input, decisions: seq<string>, decision: string)
    returns (decisions': seq<string>)
    requires Formed(steps, haltOnError, s, decisions, decision) && s.phase.Calling?
    ensures Formed(steps, haltOnError, Next(steps, haltOnError, s, input), decisions', decision)
  {
    decisions' := decisions;
    if input.Replied? {
      var opening := Opening(steps, s.next, decision);
      CoursesSnoc(steps, decisions, decision);
      assert s.trace == Courses(steps, decisions) + (opening + [Called(s.next)]);
      assert opening + [Called(s.next), Archived] == opening + [Called(s.next)] + [Archived];
      hide Courses, Opening;
      assert s.trace + [Archived] == Courses(steps, decisions) + (opening + [Called(s.next), Archived]);
      assert s.trace + [Finished(s.next)] == Courses(steps, decisions) + (opening + [Called(s.next)] + [Finished(s.next)]);
      if Next(steps, haltOnError, s, input).phase.Ready? {
        decisions' := decisions + [decision];
      }
    }
  }

  /** The trace of every run: the steps begun, each in full and in their order, then as
      much of the current step as its phase has reached, and at the end Archived. */
  lemma {:induction false} TraceForm(steps: seq<Step>, haltOnError: bool, inputs: seq<Input>)
    returns (decisions: seq<string>, decision: string)
    ensures Formed(steps, haltOnError, After(steps, haltOnError, inputs), decisions, decision)
  {
    if inputs == [] {
      decisions, decision := [], "";
    } else {
      var front, input := inputs[..|inputs| - 1], inputs[|inputs| - 1];
      decisions, decision := TraceForm(steps, haltOnError, front);
      AfterSnoc(steps, haltOnError, front, input);
      assert inputs == front + [input];
      var s := After(steps, haltOnError, front);
      assert s.phase.Ready? ==> Formed(steps, haltOnError, s, decisions, "");
      hide Next, Formed, After;
      if s.phase.Ready? {
        decisions := ReadyFormed(steps, haltOnError, s, input, decisions);
        decision := "";
      } else if s.phase.Awaiting? {
        decisions, decision := AwaitingFormed(steps, haltOnError, s, input, decisions, decision);
      } else if s.phase.Calling? {
        decisions := CallingFormed(steps, haltOnError, s, input, decisions, decision);
      } else {
        EndedUnmoved(steps, haltOnError, s, input);
      }
    }
  }

  lemma EndedUnmoved(steps: seq<Step>, haltOnError: bool, s: State, input: Input)
    requires s.phase.Ended?
    ensures Next(steps, haltOnError, s, input) == s
  {
  }

  // ---- Every step with a call is called -------------------------------------------------

  ghost predicate CalledBefore(trace: seq<Event>, i: int, k: nat)
    requires i <= |trace|
  {
    exists c :: 0 <= c < i && trace[c] == Called(k)
  }

  /** Only steps that have a call are called, only gated ones are asked about, and no
      step that has a call finishes uncalled. */
  ghost predicate CallsWhatHasCalls(steps: seq<Step>, trace: seq<Event>) {
    forall i :: 0 <= i < |trace| ==> CalledForCause(steps, trace, i)
  }

  ghost predicate CalledForCause(steps: seq<Step>, trace: seq<Event>, i: int)
    requires 0 <= i < |trace|
  {
    match trace[i]
    case Called(k) => k < |steps| && steps[k].hasCall
    case AskedApproval(k) => k < |steps| && steps[k].requiresApproval
    case Finished(k) => k < |steps| && (steps[k].hasCall ==> CalledBefore(trace, i, k))
    case _ => true
  }

  lemma CallsAppend(steps: seq<Step>, trace: seq<Event>, more: seq<Event>)
    requires CallsWhatHasCalls(steps, trace) && CallsWhatHasCalls(steps, more)
    ensures CallsWhatHasCalls(steps, trace + more)
  {
    var all, n := trace + more, |trace|;
    forall i | 0 <= i < |all|
      ensures CalledForCause(steps, all, i)
    {
      if i < n {
        assert CalledForCause(steps, trace, i) && all[i] == trace[i];
        if all[i].Finished? && steps[all[i].step].hasCall {
          var c :| 0 <= c < i && trace[c] == Called(trace[i].step);
          assert all[c] == trace[c];
        }
      } else {
        assert CalledForCause(steps, more, i - n) && all[i] == more[i - n];
        if all[i].Finished? && steps[all[i].step].hasCall {
          var c :| 0 <= c < i - n && more[c] == Called(more[i - n].step);
          assert all[n + c] == more[c];
        }
      }
    }
  }

  lemma CourseCalls(steps: seq<Step>, k: nat, decision: string)
    requires k < |steps|
    ensures CallsWhatHasCalls(steps, Course(steps, k, decision)) && CallsWhatHasCalls(steps, Opening(steps, k, decision))
  {
    var c := Course(steps, k, decision);
    if steps[k].hasCall {
      assert c[|c| - 2] == Called(k);
    }
  }

  lemma {:induction false} CoursesCall(steps: seq<Step>, decisions: seq<string>)
    requires |decisions| <= |steps|
    ensures CallsWhatHasCalls(steps, Courses(steps, decisions))
  {
    if decisions != [] {
      hide CallsWhatHasCalls, Course;
      CoursesCall(steps, decisions[..|decisions| - 1]);
      CourseCalls(steps, |decisions| - 1, decisions[|decisions| - 1]);
      CallsAppend(steps, Courses(steps, decisions[..|decisions| - 1]), Course(steps, |decisions| - 1, decisions[|decisions| - 1]));
    }
  }

  lemma EveryCallIsMade(steps: seq<Step>, haltOnError: bool, inputs: seq<Input>)
    ensures CallsWhatHasCalls(steps, After(steps, haltOnError, inputs).trace)
  {
    var decisions, decision := TraceForm(steps, haltOnError, inputs);
    var s := After(steps, haltOnError, inputs);
    hide After;
    CoursesCall(steps, decisions);
    if s.next < |steps| {
      CourseCalls(steps, s.next, decision);
    }
    assert CallsWhatHasCalls(steps, Current(steps, s.next, s.phase, decision));
    hide CallsWhatHasCalls, Courses, Current;
    CallsAppend(steps, Courses(steps, decisions), Current(steps, s.next, s.phase, decision));
  }

  // ---- What the answers do ------------------------------------------------------------------

  /** Input n is the answer to the call that the run has just made. */
  ghost predicate Answers(steps: seq<Step>, haltOnError: bool, inputs: seq<Input>, n: nat, reply: Reply) {
    && n < |inputs| && inputs[n] == Replied(reply)
    && var s := After(steps, haltOnError, inputs[..n]); !s.phase.Ended? && Last(s.trace).Called?
  }

  /** Input n is the operator's rejection of the step just asked about. */
  ghost predicate Refuses(steps: seq<Step>, haltOnError: bool, inputs: seq<Input>, n: nat) {
    n < |inputs| && inputs[n] == Resolve("reject") && Last(After(steps, haltOnError, inputs[..n]).trace).AskedApproval?
  }

  function Last(trace: seq<Event>): Event {
    if trace == [] then Archived else trace[|trace| - 1]
  }

  predicate Fails(reply: Reply) {
    reply.CallFailed? || reply.PermissionDenied?
  }

  /** While a call or a question is open it is the last thing that happened. */
  lemma LastTells(steps: seq<Step>, haltOnError: bool, s: State, decisions: seq<string>, decision: string)
    requires Formed(steps, haltOnError, s, decisions, decision)
    ensures Last(s.trace).Called? <==> s.phase.Calling? || s.phase == Ended(Thrown)
    ensures Last(s.trace).AskedApproval? <==> s.phase.Awaiting?
    ensures Last(s.trace).Called? || Last(s.trace).AskedApproval? ==> Last(s.trace).step == s.next
  {
    if s.phase.Ready? && decisions != [] {
      assert s.trace == Courses(steps, decisions);
      assert Last(s.trace) == Finished(|decisions| - 1);
    } else if s.phase.Ready? {
      assert s.trace == [];
    } else {
      var current := Current(steps, s.next, s.phase, decision);
      assert Last(s.trace) == current[|current| - 1];
      hide Courses;
    }
  }

  /** What the answer to a call does: an exception ends the run as it stands; a failure,
      when errors halt, ends it archived; anything else finishes the step. */
  lemma AnswerDecides(steps: seq<Step>, haltOnError: bool, inputs: seq<Input>, n: nat, reply: Reply)
    requires Answers(steps, haltOnError, inputs, n, reply)
    ensures var (before, after) := (After(steps, haltOnError, inputs[..n]), After(steps, haltOnError, inputs[..n + 1]));
            if reply.Threw? then after.trace == before.trace && after.phase == Ended(Thrown)
            else if Fails(reply) && haltOnError then after.trace == before.trace + [Archived] && after.phase == Ended(Halted)
            else after.trace == before.trace + [Finished(Last(before.trace).step)] && after.phase.Ready?
  {
    var decisions, decision := TraceForm(steps, haltOnError, inputs[..n]);
    LastTells(steps, haltOnError, After(steps, haltOnError, inputs[..n]), decisions, decision);
    AfterSnoc(steps, haltOnError, inputs[..n], inputs[n]);
    assert inputs[..n + 1] == inputs[..n] + [inputs[n]];
    hide After, Formed;
  }

  ghost predicate FailsAt(steps: seq<Step>, haltOnError: bool, inputs: seq<Input>, n: nat) {
    exists reply :: Fails(reply) && Answers(steps, haltOnError, inputs, n, reply)
  }

  lemma AnswersInFront(steps: seq<Step>, haltOnError: bool, front: seq<Input>, input: Input, n: nat)
    ensures n < |front| ==>
              && (FailsAt(steps, haltOnError, front + [input], n) <==> FailsAt(steps, haltOnError, front, n))
              && (Answers(steps, haltOnError, front + [input], n, Threw) <==> Answers(steps, haltOnError, front, n, Threw))
              && (Refuses(steps, haltOnError, front + [input], n) <==> Refuses(steps, haltOnError, front, n))
  {
    hide After;
    var all := front + [input];
    if n < |front| {
      assert all[n] == front[n] && all[..n] == front[..n];
      assert forall reply :: Answers(steps, haltOnError, all, n, reply) <==> Answers(steps, haltOnError, front, n, reply);
    }
  }

  /** The last input, after the others. */
  lemma LastInput(steps: seq<Step>, haltOnError: bool, front: seq<Input>, input: Input)
    ensures var (before, after) := (After(steps, haltOnError, front), After(steps, haltOnError, front + [input]));
            var (all, n) := (front + [input], |front|);
            && (after.phase == Ended(Halted) <==>
                  before.phase == Ended(Halted) || (haltOnError && FailsAt(steps, haltOnError, all, n)))
            && (after.phase == Ended(Thrown) <==> before.phase == Ended(Thrown) || Answers(steps, haltOnError, all, n, Threw))
            && (after.phase == Ended(Rejected) <==> before.phase == Ended(Rejected) || Refuses(steps, haltOnError, all, n))
  {
    var decisions, decision := TraceForm(steps, haltOnError, front);
    LastTells(steps, haltOnError, After(steps, haltOnError, front), decisions, decision);
    AfterSnoc(steps, haltOnError, front, input);
    var all := front + [input];
    assert all[..|front|] == front && all[|front|] == input;
    assert Formed(steps, haltOnError, After(steps, haltOnError, front), decisions, decision);
    if input.Replied? && Fails(input.reply) && Answers(steps, haltOnError, all, |front|, input.reply) {
      assert FailsAt(steps, haltOnError, all, |front|);
    }
    hide After;
  }

  /** Over every run: it ends halted if and only if errors halt and a failure answered a
      call; with an exception if and only if one answered a call; and rejected if and only
      if the operator rejected a step that was asked about. */
  lemma {:induction false} EndsIff(steps: seq<Step>, haltOnError: bool, inputs: seq<Input>)
    ensures var phase := After(steps, haltOnError, inputs).phase;
            && (phase == Ended(Halted) <==> haltOnError && exists n :: FailsAt(steps, haltOnError, inputs, n))
            && (phase == Ended(Thrown) <==> exists n :: Answers(steps, haltOnError, inputs, n, Threw))
            && (phase == Ended(Rejected) <==> exists n :: Refuses(steps, haltOnError, inputs, n))
  {
    if inputs == [] {
      NothingAnswered(steps, haltOnError);
    } else {
      var front, input := inputs[..|inputs| - 1], inputs[|inputs| - 1];
      EndsIff(steps, haltOnError, front);
      LastInput(steps, haltOnError, front, input);
      assert inputs == front + [input];
      forall n: nat
        ensures n != |front| ==>
                  && (FailsAt(steps, haltOnError, inputs, n) <==> FailsAt(steps, haltOnError, front, n))
                  && (Answers(steps, haltOnError, inputs, n, Threw) <==> Answers(steps, haltOnError, front, n, Threw))
                  && (Refuses(steps, haltOnError, inputs, n) <==> Refuses(steps, haltOnError, front, n))
        ensures n == |front| ==>
                  && !FailsAt(steps, haltOnError, front, n) && !Answers(steps, haltOnError, front, n, Threw)
                  && !Refuses(steps, haltOnError, front, n)
      {
        AnswersInFront(steps, haltOnError, front, input, n);
      }
      hide FailsAt, Answers, Refuses, After;
    }
  }

  lemma NothingAnswered(steps: seq<Step>, haltOnError: bool)
    ensures After(steps, haltOnError, []) == START
    ensures forall n :: !FailsAt(steps, haltOnError, [], n) && !Answers(steps, haltOnError, [], n, Threw)
                        && !Refuses(steps, haltOnError, [], n)
  {
  }

  /** When errors halt, a failure that answers a call is followed by nothing except
      Archived; an exception is followed by nothing at all. */
  lemma NothingFollows(steps: seq<Step>, haltOnError: bool, inputs: seq<Input>, n: nat, reply: Reply)
    requires Answers(steps, haltOnError, inputs, n, reply)
    ensures haltOnError && Fails(reply) ==>
              After(steps, haltOnError, inputs).trace == After(steps, haltOnError, inputs[..n]).trace + [Archived]
    ensures reply.Threw? ==> After(steps, haltOnError, inputs).trace == After(steps, haltOnError, inputs[..n]).trace
  {
    AnswerDecides(steps, haltOnError, inputs, n, reply);
    assert inputs == inputs[..n + 1] + inputs[n + 1..];
    if After(steps, haltOnError, inputs[..n + 1]).phase.Ended? {
      EndedStays(steps, haltOnError, inputs[..n + 1], inputs[n + 1..]);
    }
    hide After;
  }

  /** A run waits for one thing at a time: an answer while a call is open, a decision
      while a question is, and otherwise the event loop. Nothing else moves it. */
  lemma OnlyTheAwaitedMoves(steps: seq<Step>, haltOnError: bool, inputs: seq<Input>, input: Input)
    ensures var s := After(steps, haltOnError, inputs);
            (if Last(s.trace).Called? then !input.Replied? else if Last(s.trace).AskedApproval? then !input.Resolve? else !input.Tick?) ==>
              After(steps, haltOnError, inputs + [input]) == s
  {
    var decisions, decision := TraceForm(steps, haltOnError, inputs);
    LastTells(steps, haltOnError, After(steps, haltOnError, inputs), decisions, decision);
    AfterSnoc(steps, haltOnError, inputs, input);
    hide After, Formed;
  }

  // ---- A run that is served completes ------------------------------------------------------

  /** What step k needs from outside: to be started, approved, and answered. */
  function Service(step: Step, decision: string, reply: Reply): seq<Input> {
    [Tick] + (if step.requiresApproval then [Resolve(decision)] else []) + (if step.hasCall then [Replied(reply)] else [])
  }

  function Services(steps: seq<Step>, decisions: seq<string>, replies: seq<Reply>): seq<Input>
    requires |decisions| == |replies| <= |steps|
  {
    if decisions == [] then []
    else
      var k := |decisions| - 1;
      Services(steps, decisions[..k], replies[..k]) + Service(steps[k], decisions[k], replies[k])
  }

  /** Nothing rejected, no exception, and no failure when failures halt. */
  predicate Served(haltOnError: bool, decision: string, reply: Reply) {
    decision != "reject" && !reply.Threw? && (haltOnError ==> !Fails(reply))
  }

  lemma BeginState(steps: seq<Step>, s: State)
    requires s.next < |steps|
    ensures BeginCall(steps, s) ==
            if steps[s.next].hasCall then State(s.next, Calling, s.trace + [Called(s.next)])
            else State(s.next + 1, Ready, s.trace + [Finished(s.next)])
  {
  }

  /** Starting and, if need be, approving a step brings it to its call, or past it. */
  lemma StepOpened(steps: seq<Step>, haltOnError: bool, inputs: seq<Input>, decision: string)
    requires var s := After(steps, haltOnError, inputs); s.phase.Ready? && s.next < |steps|
    requires decision != "reject"
    ensures var s := After(steps, haltOnError, inputs);
            var begun := s.trace + Opening(steps, s.next, decision);
            After(steps, haltOnError, inputs + [Tick] + (if steps[s.next].requiresApproval then [Resolve(decision)] else []))
            == if steps[s.next].hasCall then State(s.next, Calling, begun + [Called(s.next)])
               else State(s.next + 1, Ready, begun + [Finished(s.next)])
  {
    hide After, BeginCall;
    var s := After(steps, haltOnError, inputs);
    AfterSnoc(steps, haltOnError, inputs, Tick);
    var begun := s.trace + Opening(steps, s.next, decision);
    BeginState(steps, State(s.next, s.phase, begun));
    BeginState(steps, State(s.next, Awaiting, begun));
    if steps[s.next].requiresApproval {
      AfterSnoc(steps, haltOnError, inputs + [Tick], Resolve(decision));
      assert s.trace + [Started(s.next)] + [AskedApproval(s.next)] + [Resolved(s.next, decision)] == begun;
    } else {
      assert inputs + [Tick] + [] == inputs + [Tick];
      assert s.trace + [Started(s.next)] == begun;
    }
  }

  lemma CallServed(steps: seq<Step>, haltOnError: bool, s: State, reply: Reply)
    requires s.phase.Calling? && !reply.Threw? && (haltOnError ==> !Fails(reply))
    ensures Next(steps, haltOnError, s, Replied(reply)) == State(s.next + 1, Ready, s.trace + [Finished(s.next)])
  {
  }

  lemma ServiceParts(inputs: seq<Input>, step: Step, decision: string, reply: Reply)
    ensures var i1 := inputs + [Tick] + (if step.requiresApproval then [Resolve(decision)] else []);
            inputs + Service(step, decision, reply) == if step.hasCall then i1 + [Replied(reply)] else i1
  {
  }

  lemma CourseParts(trace: seq<Event>, steps: seq<Step>, n: nat, decision: string)
    requires n < |steps|
    ensures var begun := trace + Opening(steps, n, decision);
            trace + Course(steps, n, decision)
            == if steps[n].hasCall then begun + [Called(n)] + [Finished(n)] else begun + [Finished(n)]
  {
    hide Opening;
    assert Opening(steps, n, decision) + [] == Opening(steps, n, decision);
  }

  lemma StepServed(steps: seq<Step>, haltOnError: bool, inputs: seq<Input>, decision: string, reply: Reply)
    requires var s := After(steps, haltOnError, inputs); s.phase.Ready? && s.next < |steps|
    requires Served(haltOnError, decision, reply)
    ensures var s := After(steps, haltOnError, inputs);
            After(steps, haltOnError, inputs + Service(steps[s.next], decision, reply))
            == State(s.next + 1, Ready, s.trace + Course(steps, s.next, decision))
  {
    assert decision != "reject" && !reply.Threw? && (haltOnError ==> !Fails(reply));
    hide *;
    var s := After(steps, haltOnError, inputs);
    StepOpened(steps, haltOnError, inputs, decision);
    ServiceParts(inputs, steps[s.next], decision, reply);
    CourseParts(s.trace, steps, s.next, decision);
    if steps[s.next].hasCall {
      var i1 := inputs + [Tick] + (if steps[s.next].requiresApproval then [Resolve(decision)] else []);
      AfterSnoc(steps, haltOnError, i1, Replied(reply));
      CallServed(steps, haltOnError, After(steps, haltOnError, i1), reply);
    }
  }

  lemma {:induction false} StepsServed(steps: seq<Step>, haltOnError: bool, decisions: seq<string>, replies: seq<Reply>)
    requires |decisions| == |replies| <= |steps|
    requires forall k :: 0 <= k < |decisions| ==> Served(haltOnError, decisions[k], replies[k])
    ensures After(steps, haltOnError, Services(steps, decisions, replies)) == State(|decisions|, Ready, Courses(steps, decisions))
  {
    if decisions != [] {
      var k := |decisions| - 1;
      StepsServed(steps, haltOnError, decisions[..k], replies[..k]);
      hide After, Service, Course;
      StepServed(steps, haltOnError, Services(steps, decisions[..k], replies[..k]), decisions[k], replies[k]);
    }
  }

  /** A run in which every question is approved and every call is answered completes,
      having started, asked about, called and finished every step as it should. */
  lemma ServedRunCompletes(steps: seq<Step>, haltOnError: bool, decisions: seq<string>, replies: seq<Reply>)
    requires |decisions| == |replies| == |steps|
    requires forall k :: 0 <= k < |steps| ==> Served(haltOnError, decisions[k], replies[k])
    ensures After(steps, haltOnError, Services(steps, decisions, replies) + [Tick])
         == State(|steps|, Ended(Completed), Courses(steps, decisions) + [Archived])
  {
    StepsServed(steps, haltOnError, decisions, replies);
    AfterSnoc(steps, haltOnError, Services(steps, decisions, replies), Tick);
    hide After;
  }
}
