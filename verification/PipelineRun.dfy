/** One pipeline run of core.js, alone in flight: the steps of the levels are
    executed one after the other, behind approval gates. The run is driven by what
    reaches it from outside: the event loop, the operator, and replies to calls. */
module PipelineRun {

  /** What executing a step needs. A step may be neither an agent nor an executor. */
  datatype Step = Step(requiresApproval: bool, hasCall: bool)

  datatype Reply =
    | Succeeded
    | Skipped
    | CallFailed
    | PermissionDenied
    | Threw

  datatype Input = Tick | Resolve(decision: string) | Replied(reply: Reply)

  datatype Event =
    | Started(step: nat)
    | AskedApproval(step: nat)
    | Resolved(step: nat, decision: string)
    | Called(step: nat)
    | Finished(step: nat)
    | Archived

  datatype Ending = Completed | Rejected | Halted | Thrown

  datatype Phase = Ready | Awaiting | Calling | Ended(how: Ending)

  /** `next` is the step being executed, or about to be. */
  datatype State = State(next: nat, phase: Phase, trace: seq<Event>)

  const START := State(0, Ready, [])

  function Emit(s: State, e: Event): State {
    s.(trace := s.trace + [e])
  }

  function End(s: State, how: Ending): State {
    if how == Thrown then s.(phase := Ended(how)) else Emit(s, Archived).(phase := Ended(how))
  }

  function FinishStep(s: State): State {
    Emit(s, Finished(s.next)).(next := s.next + 1, phase := Ready)
  }

  function BeginCall(steps: seq<Step>, s: State): State
    requires s.next < |steps|
  {
    if steps[s.next].hasCall then Emit(s, Called(s.next)).(phase := Calling) else FinishStep(s)
  }

  function Next(steps: seq<Step>, haltOnError: bool, s: State, input: Input): State {
    match (s.phase, input)
    case (Ready, Tick) =>
      if s.next >= |steps| then End(s, Completed)
      else
        var s1 := Emit(s, Started(s.next));
        if steps[s.next].requiresApproval then Emit(s1, AskedApproval(s.next)).(phase := Awaiting)
        else BeginCall(steps, s1)
    case (Awaiting, Resolve(decision)) =>
      var s1 := Emit(s, Resolved(s.next, decision));
      if decision == "reject" then End(s1, Rejected)
      else if s.next < |steps| then BeginCall(steps, s1)
      else s1
    case (Calling, Replied(reply)) =>
      if reply.Threw? then End(s, Thrown)
      else if (reply.CallFailed? || reply.PermissionDenied?) && haltOnError then End(s, Halted)
      else FinishStep(s)
    case _ => s
  }

  function After(steps: seq<Step>, haltOnError: bool, inputs: seq<Input>): State {
    if inputs == [] then START
    else Next(steps, haltOnError, After(steps, haltOnError, inputs[..|inputs| - 1]), inputs[|inputs| - 1])
  }

  // ---- What holds of the trace -------------------------------------------------------

  /** Every call of a gated step comes after the operator was asked about that step
      and did not reject it. */
  ghost predicate Gated(steps: seq<Step>, trace: seq<Event>) {
    forall i :: 0 <= i < |trace| && trace[i].Called? && trace[i].step < |steps| && steps[trace[i].step].requiresApproval ==>
      ApprovedBefore(trace, i, trace[i].step)
  }

  ghost predicate ApprovedBefore(trace: seq<Event>, i: int, k: nat)
    requires i <= |trace|
  {
    exists a, r :: 0 <= a < r < i && trace[a] == AskedApproval(k) && trace[r].Resolved? && trace[r].step == k
                   && trace[r].decision != "reject"
  }

  /** A step is started, asked about or called only when all steps before it have finished. */
  ghost predicate OneAtATime(trace: seq<Event>) {
    forall i :: 0 <= i < |trace| && (trace[i].Called? || trace[i].Started? || trace[i].AskedApproval?) ==>
      forall k :: 0 <= k < trace[i].step ==> FinishedBefore(trace, i, k)
  }

  ghost predicate FinishedBefore(trace: seq<Event>, i: int, k: nat)
    requires i <= |trace|
  {
    exists f :: 0 <= f < i && trace[f] == Finished(k)
  }

  /** After a rejection nothing is called. */
  ghost predicate RejectionIsFinal(trace: seq<Event>) {
    forall i, j :: 0 <= i < j < |trace| && trace[i].Resolved? && trace[i].decision == "reject" ==> trace[j] == Archived
  }

  function ArchiveCount(trace: seq<Event>): nat {
    if trace == [] then 0
    else ArchiveCount(trace[..|trace| - 1]) + (if trace[|trace| - 1] == Archived then 1 else 0)
  }

  ghost predicate NoRejection(trace: seq<Event>) {
    forall i :: 0 <= i < |trace| ==> !(trace[i].Resolved? && trace[i].decision == "reject")
  }

  lemma GatedSnoc(steps: seq<Step>, trace: seq<Event>, e: Event)
    requires Gated(steps, trace)
    requires e.Called? && e.step < |steps| && steps[e.step].requiresApproval ==> ApprovedBefore(trace, |trace|, e.step)
    ensures Gated(steps, trace + [e])
  {
    var all := trace + [e];
    forall i | 0 <= i < |all| && all[i].Called? && all[i].step < |steps| && steps[all[i].step].requiresApproval
      ensures ApprovedBefore(all, i, all[i].step)
    {
      assert ApprovedBefore(trace, i, all[i].step);
      var a, r :| 0 <= a < r < i && trace[a] == AskedApproval(all[i].step) && trace[r].Resolved?
                  && trace[r].step == all[i].step && trace[r].decision != "reject";
      assert all[a] == trace[a] && all[r] == trace[r];
    }
  }

  lemma FinishedSnoc(trace: seq<Event>, e: Event, i: int, k: nat)
    requires i <= |trace| && FinishedBefore(trace, i, k)
    ensures forall m :: i <= m <= |trace| + 1 ==> FinishedBefore(trace + [e], m, k)
  {
    var f :| 0 <= f < i && trace[f] == Finished(k);
    assert (trace + [e])[f] == Finished(k);
  }

  lemma OneAtATimeSnoc(trace: seq<Event>, e: Event)
    requires OneAtATime(trace)
    requires e.Called? || e.Started? || e.AskedApproval? ==> forall k :: 0 <= k < e.step ==> FinishedBefore(trace, |trace|, k)
    ensures OneAtATime(trace + [e])
  {
    var all := trace + [e];
    forall i, k | 0 <= i < |all| && (all[i].Called? || all[i].Started? || all[i].AskedApproval?) && 0 <= k < all[i].step
      ensures FinishedBefore(all, i, k)
    {
      assert FinishedBefore(trace, i, k);
      FinishedSnoc(trace, e, i, k);
    }
  }

  ghost predicate AllFinished(trace: seq<Event>, n: int) {
    forall k :: 0 <= k < n ==> FinishedBefore(trace, |trace|, k)
  }

  lemma AllFinishedSnoc(trace: seq<Event>, e: Event, n: nat)
    requires AllFinished(trace, n)
    ensures AllFinished(trace + [e], n)
    ensures e == Finished(n) ==> AllFinished(trace + [e], n + 1)
  {
    var all := trace + [e];
    forall k | 0 <= k < n
      ensures FinishedBefore(all, |all|, k)
    {
      FinishedSnoc(trace, e, |trace|, k);
    }
    assert all[|trace|] == e;
  }

  lemma ArchiveCountSnoc(trace: seq<Event>, e: Event)
    ensures ArchiveCount(trace + [e]) == ArchiveCount(trace) + (if e == Archived then 1 else 0)
  {
    assert (trace + [e])[..|trace|] == trace;
  }

  predicate Rejects(e: Event) {
    e.Resolved? && e.decision == "reject"
  }

  lemma RejectionSnoc(trace: seq<Event>, e: Event)
    ensures NoRejection(trace + [e]) <==> NoRejection(trace) && !Rejects(e)
    ensures NoRejection(trace) ==> RejectionIsFinal(trace + [e])
    ensures RejectionIsFinal(trace) ==> RejectionIsFinal(trace + [Archived])
  {
    var all := trace + [e];
    assert all[|trace|] == e && forall i :: 0 <= i < |trace| ==> all[i] == trace[i];
  }

  /** What holds of a run that has not ended. */
  ghost predicate Sound(steps: seq<Step>, s: State) {
    && s.next <= |steps|
    && Gated(steps, s.trace) && OneAtATime(s.trace)
    && AllFinished(s.trace, s.next)
    && NoRejection(s.trace) && ArchiveCount(s.trace) == 0
  }

  /** An event about the current step that is neither a rejection nor an archive. */
  lemma EmitSound(steps: seq<Step>, s: State, e: Event)
    requires Sound(steps, s)
    requires e != Archived && (e.Resolved? ==> e.decision != "reject")
    requires e.Called? || e.Started? || e.AskedApproval? ==> e.step == s.next
    requires e.Called? && e.step < |steps| && steps[e.step].requiresApproval ==> ApprovedBefore(s.trace, |s.trace|, e.step)
    ensures Sound(steps, Emit(s, e))
  {
    GatedSnoc(steps, s.trace, e);
    OneAtATimeSnoc(s.trace, e);
    AllFinishedSnoc(s.trace, e, s.next);
    ArchiveCountSnoc(s.trace, e);
    RejectionSnoc(s.trace, e);
    hide Gated, OneAtATime, AllFinished, NoRejection, ArchiveCount, ApprovedBefore;
  }

  lemma FinishStepSound(steps: seq<Step>, s: State)
    requires Sound(steps, s) && s.next < |steps|
    ensures Sound(steps, FinishStep(s))
  {
    EmitSound(steps, s, Finished(s.next));
    AllFinishedSnoc(s.trace, Finished(s.next), s.next);
  }

  /** What holds of a run that has ended: it was archived once, unless an agent call
      threw, and a complete run has finished every step. */
  ghost predicate EndedWell(steps: seq<Step>, how: Ending, trace: seq<Event>) {
    && Gated(steps, trace) && OneAtATime(trace) && RejectionIsFinal(trace)
    && ArchiveCount(trace) == (if how == Thrown then 0 else 1)
    && (how == Completed ==> AllFinished(trace, |steps|))
    && (how == Rejected <==> !NoRejection(trace))
  }

  ghost predicate Inv(steps: seq<Step>, s: State) {
    match s.phase
    case Ready => Sound(steps, s)
    case Calling => Sound(steps, s) && s.next < |steps|
    case Awaiting =>
      Sound(steps, s) && s.next < |steps| && s.trace != [] && s.trace[|s.trace| - 1] == AskedApproval(s.next)
    case Ended(how) => EndedWell(steps, how, s.trace)
  }

  lemma EndSound(steps: seq<Step>, s: State, how: Ending)
    requires Sound(steps, s) && how != Rejected && (how == Completed ==> s.next == |steps|)
    ensures EndedWell(steps, how, End(s, how).trace)
  {
    hide Gated, OneAtATime, AllFinished, NoRejection, RejectionIsFinal, ArchiveCount, FinishedBefore, ApprovedBefore;
    NotRejectedYet(s.trace);
    if how != Thrown {
      GatedSnoc(steps, s.trace, Archived);
      OneAtATimeSnoc(s.trace, Archived);
      AllFinishedSnoc(s.trace, Archived, s.next);
    }
    ArchiveCountSnoc(s.trace, Archived);
    RejectionSnoc(s.trace, Archived);
  }

  lemma NotRejectedYet(trace: seq<Event>)
    requires NoRejection(trace)
    ensures RejectionIsFinal(trace)
  {
  }

  lemma RejectSound(steps: seq<Step>, s: State)
    requires Sound(steps, s)
    ensures EndedWell(steps, Rejected, End(Emit(s, Resolved(s.next, "reject")), Rejected).trace)
  {
    hide Gated, OneAtATime, AllFinished, NoRejection, RejectionIsFinal, ArchiveCount, FinishedBefore, ApprovedBefore;
    var rejected := Resolved(s.next, "reject");
    assert Rejects(rejected) && !Rejects(Archived);
    var t1 := s.trace + [rejected];
    GatedSnoc(steps, s.trace, rejected);
    GatedSnoc(steps, t1, Archived);
    OneAtATimeSnoc(s.trace, rejected);
    OneAtATimeSnoc(t1, Archived);
    ArchiveCountSnoc(s.trace, rejected);
    ArchiveCountSnoc(t1, Archived);
    RejectionSnoc(s.trace, rejected);
    RejectionSnoc(t1, Archived);
  }

  lemma BeginCallSound(steps: seq<Step>, s: State)
    requires Sound(steps, s) && s.next < |steps|
    requires steps[s.next].requiresApproval ==> ApprovedBefore(s.trace, |s.trace|, s.next)
    ensures Inv(steps, BeginCall(steps, s))
  {
    hide Sound;
    if steps[s.next].hasCall {
      EmitSound(steps, s, Called(s.next));
      SoundIgnoresPhase(steps, Emit(s, Called(s.next)), Calling);
    } else {
      FinishStepSound(steps, s);
    }
  }

  lemma ApproveSound(steps: seq<Step>, s: State, decision: string)
    requires Inv(steps, s) && s.phase.Awaiting? && decision != "reject"
    ensures Inv(steps, BeginCall(steps, Emit(s, Resolved(s.next, decision))))
  {
    var s1 := Emit(s, Resolved(s.next, decision));
    EmitSound(steps, s, Resolved(s.next, decision));
    var n := |s.trace|;
    assert s1.trace[n - 1] == AskedApproval(s.next) && s1.trace[n] == Resolved(s.next, decision);
    assert ApprovedBefore(s1.trace, |s1.trace|, s.next);
    BeginCallSound(steps, s1);
  }

  lemma StartSound(steps: seq<Step>, s: State)
    requires Sound(steps, s) && s.next < |steps|
    ensures var s1 := Emit(s, Started(s.next));
            if steps[s.next].requiresApproval then Inv(steps, Emit(s1, AskedApproval(s.next)).(phase := Awaiting))
            else Inv(steps, BeginCall(steps, s1))
  {
    var s1 := Emit(s, Started(s.next));
    hide Sound;
    EmitSound(steps, s, Started(s.next));
    if steps[s.next].requiresApproval {
      EmitSound(steps, s1, AskedApproval(s.next));
      SoundIgnoresPhase(steps, Emit(s1, AskedApproval(s.next)), Awaiting);
    } else {
      BeginCallSound(steps, s1);
    }
  }

  lemma SoundIgnoresPhase(steps: seq<Step>, s: State, phase: Phase)
    requires Sound(steps, s)
    ensures Sound(steps, s.(phase := phase))
  {
  }

  lemma NextKeepsInv(steps: seq<Step>, haltOnError: bool, s: State, input: Input)
    requires Inv(steps, s)
    ensures Inv(steps, Next(steps, haltOnError, s, input))
  {
    hide Sound, EndedWell, BeginCall, FinishStep;
    match (s.phase, input)
    case (Ready, Tick) =>
      if s.next >= |steps| {
        SoundNext(steps, s);
        EndSound(steps, s, Completed);
      } else {
        StartSound(steps, s);
      }
    case (Awaiting, Resolve(decision)) =>
      if decision == "reject" {
        RejectSound(steps, s);
      } else {
        ApproveSound(steps, s, decision);
      }
    case (Calling, Replied(reply)) =>
      if reply.Threw? {
        EndSound(steps, s, Thrown);
      } else if (reply.CallFailed? || reply.PermissionDenied?) && haltOnError {
        EndSound(steps, s, Halted);
      } else {
        FinishStepSound(steps, s);
        FinishStepReady(s);
      }
    case _ =>
  }

  lemma SoundNext(steps: seq<Step>, s: State)
    requires Sound(steps, s)
    ensures s.next <= |steps|
  {
  }

  lemma FinishStepReady(s: State)
    ensures FinishStep(s).phase == Ready
  {
  }

  /** Over every sequence of inputs: gated calls are approved first, steps run one at
      a time in order, nothing is called after a rejection, and a run that ends
      without an exception is archived exactly once, any other not at all. */
  lemma {:induction false} EveryRun(steps: seq<Step>, haltOnError: bool, inputs: seq<Input>)
    ensures Inv(steps, After(steps, haltOnError, inputs))
  {
    if inputs == [] {
      StartInv(steps);
    } else {
      hide Inv, Next;
      EveryRun(steps, haltOnError, inputs[..|inputs| - 1]);
      NextKeepsInv(steps, haltOnError, After(steps, haltOnError, inputs[..|inputs| - 1]), inputs[|inputs| - 1]);
    }
  }

  lemma StartInv(steps: seq<Step>)
    ensures Inv(steps, START)
  {
  }

  /** Once a run has ended, nothing that arrives changes it: no further call is made. */
  lemma {:induction false} EndedStays(steps: seq<Step>, haltOnError: bool, inputs: seq<Input>, more: seq<Input>)
    requires After(steps, haltOnError, inputs).phase.Ended?
    ensures After(steps, haltOnError, inputs + more) == After(steps, haltOnError, inputs)
  {
    if more == [] {
      assert inputs + more == inputs;
    } else {
      EndedStays(steps, haltOnError, inputs, more[..|more| - 1]);
      assert (inputs + more)[..|inputs + more| - 1] == inputs + more[..|more| - 1];
    }
  }

  /** The same, read off the trace. */
  lemma RunGuarantees(steps: seq<Step>, haltOnError: bool, inputs: seq<Input>)
    ensures var s := After(steps, haltOnError, inputs);
            && Gated(steps, s.trace)
            && OneAtATime(s.trace)
            && RejectionIsFinal(s.trace)
            && ArchiveCount(s.trace) == (if s.phase.Ended? && s.phase.how != Thrown then 1 else 0)
            && (s.phase == Ended(Completed) ==> AllFinished(s.trace, |steps|))
            && (s.phase == Ended(Rejected) <==> !NoRejection(s.trace))
  {
    EveryRun(steps, haltOnError, inputs);
  }

  /** A step that depends on an earlier one is not called before that has finished. */
  lemma DependentWaits(steps: seq<Step>, haltOnError: bool, inputs: seq<Input>, i: int, source: nat, target: nat)
    requires var trace := After(steps, haltOnError, inputs).trace;
             0 <= i < |trace| && trace[i] == Called(target)
    requires source < target
    ensures FinishedBefore(After(steps, haltOnError, inputs).trace, i, source)
  {
    RunGuarantees(steps, haltOnError, inputs);
  }

  // ---- The runtime object ----------------------------------------------------------------

  /** The run history keeps this many runs, newest first. */
  const MAX_HISTORY := 50

  class Runtime {
    const steps: seq<Step>
    const haltOnError: bool
    var next: nat
    var phase: Phase
    var history: seq<Ending>
    ghost var trace: seq<Event>

    ghost function Current(): State
      reads this
    {
      State(next, phase, trace)
    }

    constructor (steps: seq<Step>, haltOnError: bool, history: seq<Ending>)
      ensures this.steps == steps && this.haltOnError == haltOnError && this.history == history
      ensures Current() == START
    {
      this.steps, this.haltOnError, this.history := steps, haltOnError, history;
      next, phase, trace := 0, Ready, [];
    }

    /** One thing arriving from outside, as Next says. The history grows exactly when
        the run ends other than by an exception. */
    method Deliver(input: Input)
      requires Inv(steps, Current())
      modifies this
      ensures Current() == Next(steps, haltOnError, old(Current()), input) && Inv(steps, Current())
      ensures if !old(phase).Ended? && phase.Ended? && phase.how != Thrown
              then |history| == (if |old(history)| >= 50 then 50 else |old(history)| + 1)
                   && history[0] == phase.how && history[1..] == old(history)[..|history| - 1]
              else history == old(history)
    {
      NextKeepsInv(steps, haltOnError, Current(), input);
      hide Sound, EndedWell;
      match phase {
        case Ready =>
          if input.Tick? {
            if next < |steps| {
              trace := trace + [Started(next)];
              if steps[next].requiresApproval {
                trace := trace + [AskedApproval(next)];
                phase := Awaiting;
              } else {
                Execute();
              }
            } else {
              Archive(Completed);
            }
          }
        case Awaiting =>
          if input.Resolve? {
            trace := trace + [Resolved(next, input.decision)];
            if input.decision == "reject" {
              Archive(Rejected);
            } else {
              Execute();
            }
          }
        case Calling =>
          if input.Replied? {
            var reply := input.reply;
            if reply.Threw? {
              phase := Ended(Thrown);
            } else if haltOnError && (reply.CallFailed? || reply.PermissionDenied?) {
              Archive(Halted);
            } else {
              Finish();
            }
          }
        case Ended(_) =>
      }
    }

    method Execute()
      requires next < |steps|
      modifies this
      ensures Current() == BeginCall(steps, old(Current())) && history == old(history) && !phase.Ended?
    {
      if steps[next].hasCall {
        trace := trace + [Called(next)];
        phase := Calling;
      } else {
        Finish();
      }
    }

    method Finish()
      modifies this
      ensures Current() == FinishStep(old(Current())) && history == old(history)
    {
      trace := trace + [Finished(next)];
      next := next + 1;
      phase := Ready;
    }

    method Archive(how: Ending)
      requires how != Thrown
      modifies this
      ensures Current() == End(old(Current()), how)
      ensures |history| == (if |old(history)| >= MAX_HISTORY then MAX_HISTORY else |old(history)| + 1)
      ensures history[0] == how && history[1..] == old(history)[..|history| - 1]
    {
      phase := Ended(how);
      trace := trace + [Archived];
      history := [how] + history;
      if |history| > MAX_HISTORY {
        history := history[..MAX_HISTORY];
      }
    }
  }
}
