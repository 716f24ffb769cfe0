/** What becomes of the message queue's futures over whole runs: none is lost or
    settled twice, which are ever done, and what a cancelled worker leaves behind. */
module QueueOutcomes {
  import opened Sequences
  import opened Wrappers
  import opened MessageQueue

  // ---- No future is lost or settled twice ----------------------------------------------

  function FuturesOf(entries: map<Key, Entry>, key: Key): seq<Future> {
    if key in entries then entries[key].futures else []
  }

  function Gathered(list: seq<Key>, entries: map<Key, Entry>): seq<Future> {
    if list == [] then [] else Gathered(list[..|list| - 1], entries) + FuturesOf(entries, list[|list| - 1])
  }

  function AllEnqueued(log: seq<Event>): seq<Future> {
    if log == [] then []
    else AllEnqueued(log[..|log| - 1]) + (match log[|log| - 1] case Enqueued(_, _, fs, _) => fs case Took(_) => [])
  }

  function Handling(s: State): seq<Future> {
    if s.inFlight.Some? then s.inFlight.value.futures else []
  }

  /** Every future ever enqueued is waiting, being handled or settled, as often as
      it was enqueued. */
  ghost predicate Conserved(s: State) {
    multiset(AllEnqueued(s.log)) == multiset(Gathered(s.list, s.entries)) + multiset(Handling(s)) + multiset(s.settled)
  }

  lemma {:induction false} GatheredElsewhere(list: seq<Key>, entries: map<Key, Entry>, entries': map<Key, Entry>)
    requires forall k :: k in list ==> FuturesOf(entries, k) == FuturesOf(entries', k)
    ensures Gathered(list, entries) == Gathered(list, entries')
  {
    if list != [] {
      GatheredElsewhere(list[..|list| - 1], entries, entries');
    }
  }

  lemma GatheredSnoc(list: seq<Key>, key: Key, entries: map<Key, Entry>)
    ensures Gathered(list + [key], entries) == Gathered(list, entries) + FuturesOf(entries, key)
  {
    assert (list + [key])[..|list|] == list;
  }

  lemma {:induction false} GatheredCons(key: Key, list: seq<Key>, entries: map<Key, Entry>)
    ensures Gathered([key] + list, entries) == FuturesOf(entries, key) + Gathered(list, entries)
  {
    if list == [] {
      GatheredSnoc([], key, entries);
      assert [key] + list == [] + [key];
    } else {
      hide Gathered, FuturesOf;
      var front, last := list[..|list| - 1], list[|list| - 1];
      GatheredCons(key, front, entries);
      SplitLast(list);
      GatheredConsSnoc(key, front, last, entries);
    }
  }

  lemma GatheredConsSnoc(key: Key, front: seq<Key>, last: Key, entries: map<Key, Entry>)
    requires Gathered([key] + front, entries) == FuturesOf(entries, key) + Gathered(front, entries)
    ensures Gathered([key] + (front + [last]), entries) == FuturesOf(entries, key) + Gathered(front + [last], entries)
  {
    hide Gathered, FuturesOf;
    GatheredSnoc([key] + front, last, entries);
    GatheredSnoc(front, last, entries);
    ConcatAssociative([key], front, [last]);
    ConcatAssociative(FuturesOf(entries, key), Gathered(front, entries), FuturesOf(entries, last));
  }

  /** More futures for one key of the list. */
  lemma {:induction false} GatheredGrows(list: seq<Key>, entries: map<Key, Entry>, key: Key, entry: Entry, more: seq<Future>)
    requires Distinct(list) && key in list && key in entries && entry.futures == entries[key].futures + more
    ensures multiset(Gathered(list, entries[key := entry])) == multiset(Gathered(list, entries)) + multiset(more)
  {
    var front, last := list[..|list| - 1], list[|list| - 1];
    assert list == front + [last];
    if last == key {
      assert forall i :: 0 <= i < |front| ==> front[i] == list[i] && list[i] != list[|list| - 1];
      GatheredElsewhere(front, entries, entries[key := entry]);
    } else {
      GatheredGrows(front, entries, key, entry, more);
    }
  }

  lemma EnqueuingGathers(s: State, key: Key, func: Func, futures: seq<Future>, front: bool)
    requires Faithful(s)
    ensures var s' := Enqueuing(s, key, func, futures, front);
            multiset(Gathered(s'.list, s'.entries)) == multiset(Gathered(s.list, s.entries)) + multiset(futures)
  {
    hide Pending, Gathered, Distinct;
    var s' := Enqueuing(s, key, func, futures, front);
    if key in s.entries {
      GatheredGrows(s.list, s.entries, key, s'.entries[key], futures);
    } else {
      GatheredElsewhere(s.list, s.entries, s'.entries);
      if front {
        GatheredCons(key, s.list, s'.entries);
      } else {
        GatheredSnoc(s.list, key, s'.entries);
      }
    }
  }

  lemma AllEnqueuedSnoc(log: seq<Event>, e: Event)
    ensures multiset(AllEnqueued(log + [e]))
         == multiset(AllEnqueued(log)) + multiset(match e case Enqueued(_, _, fs, _) => fs case Took(_) => [])
  {
    assert (log + [e])[..|log|] == log;
  }

  lemma EnqueuingConserves(s: State, key: Key, func: Func, futures: seq<Future>, front: bool)
    requires Faithful(s) && Conserved(s)
    ensures Conserved(Enqueuing(s, key, func, futures, front))
  {
    hide Faithful, Gathered, AllEnqueued;
    var s' := Enqueuing(s, key, func, futures, front);
    EnqueuingGathers(s, key, func, futures, front);
    AllEnqueuedSnoc(s.log, Enqueued(key, func, futures, front));
    assert s'.log == s.log + [Enqueued(key, func, futures, front)];
    assert Handling(s') == Handling(s) && s'.settled == s.settled;
    hide Enqueuing, Handling;
  }

  lemma TakingConserves(s: State)
    requires Faithful(s) && Conserved(s) && CanTake(s)
    ensures Conserved(Taking(s))
  {
    hide Pending, AllEnqueued, Gathered;
    var s' := Taking(s);
    AllEnqueuedSnoc(s.log, Took(s'.inFlight.value));
    TakingGathers(s);
    assert s'.log == s.log + [Took(s'.inFlight.value)] && s'.settled == s.settled && Handling(s) == [];
    hide Taking, Faithful;
  }

  lemma TakingGathers(s: State)
    requires Faithful(s) && CanTake(s)
    ensures var s' := Taking(s);
            multiset(Gathered(s.list, s.entries)) == multiset(Handling(s')) + multiset(Gathered(s'.list, s'.entries))
  {
    hide Pending, Gathered;
    var s' := Taking(s);
    RestOfList(s.list);
    assert s.list == [s.list[0]] + s'.list;
    GatheredCons(s.list[0], s'.list, s.entries);
    GatheredElsewhere(s'.list, s.entries, s'.entries);
  }

  lemma FinishingConserves(s: State, outcome: Outcome)
    requires Conserved(s) && s.inFlight.Some?
    ensures Conserved(Finishing(s, outcome))
  {
  }

  lemma {:induction false} RunConserves(actions: seq<Action>)
    ensures Conserved(Run(actions))
  {
    if actions == [] {
      EmptyConserved();
    } else {
      hide Faithful, Conserved, Enqueuing, Taking, Finishing;
      var s, a := Run(actions[..|actions| - 1]), actions[|actions| - 1];
      RunConserves(actions[..|actions| - 1]);
      RunFaithful(actions[..|actions| - 1]);
      match a
      case Enqueue(key, func, futures, front) => EnqueuingConserves(s, key, func, futures, front);
      case Take =>
        if CanTake(s) {
          TakingConserves(s);
        }
      case Finish(outcome) =>
        if s.workerAlive && s.inFlight.Some? {
          FinishingConserves(s, outcome);
        }
      case CancelFuture(_) => CancelConserves(s, Step(s, a));
    }
  }

  lemma EmptyConserved()
    ensures Conserved(EMPTY)
  {
  }

  lemma CancelConserves(s: State, s': State)
    requires Conserved(s) && s' == s.(done := s'.done)
    ensures Conserved(s')
  {
  }

  /** If no future is enqueued twice, each one is in exactly one of the three places. */
  lemma EachFutureInOnePlace(actions: seq<Action>, f: Future)
    requires Distinct(AllEnqueued(Run(actions).log)) && f in AllEnqueued(Run(actions).log)
    ensures var s := Run(actions);
            multiset(Gathered(s.list, s.entries))[f] + multiset(Handling(s))[f] + multiset(s.settled)[f] == 1
  {
    RunConserves(actions);
    DistinctCount(AllEnqueued(Run(actions).log), f);
  }

  /** Settled futures are done. */
  lemma {:induction false} SettledAreDone(actions: seq<Action>)
    ensures forall f :: f in Run(actions).settled ==> f in Run(actions).done
  {
    if actions != [] {
      hide Enqueuing, Taking;
      var s, a := Run(actions[..|actions| - 1]), actions[|actions| - 1];
      SettledAreDone(actions[..|actions| - 1]);
      if a.Take? && CanTake(s) {
        TakingSettles(s);
      }
      if a.Enqueue? {
        EnqueuingSettles(s, a);
      }
    }
  }

  lemma TakingSettles(s: State)
    requires CanTake(s)
    ensures Taking(s).settled == s.settled && Taking(s).done == s.done
  {
  }

  lemma EnqueuingSettles(s: State, a: Action)
    requires a.Enqueue?
    ensures var s' := Enqueuing(s, a.key, a.func, a.futures, a.front);
            s'.settled == s.settled && s'.done == s.done && s'.inFlight == s.inFlight && s'.workerAlive == s.workerAlive
  {
  }

  /** A function that returns or raises settles all futures of its job: those not
      done get its outcome, those a caller cancelled keep theirs. */
  lemma FinishingResolves(s: State, outcome: Outcome)
    requires s.inFlight.Some? && !outcome.Cancelled?
    ensures var s' := Finishing(s, outcome);
            && s'.inFlight == None
            && (forall f :: f in s.inFlight.value.futures ==>
                  f in s'.done && s'.done[f] == if f in s.done then s.done[f] else outcome)
            && (forall f :: f !in s.inFlight.value.futures ==> (f in s'.done <==> f in s.done))
  {
  }

  // ---- Which futures are ever done -------------------------------------------------------

  /** At j the worker took a job with this future. */
  ghost predicate TakenAt(actions: seq<Action>, j: nat, f: Future) {
    && j < |actions| && actions[j].Take? && CanTake(Run(actions[..j]))
    && f in Taking(Run(actions[..j])).inFlight.value.futures
  }

  ghost predicate NoFinish(actions: seq<Action>, j: nat, i: nat)
    requires i <= |actions|
  {
    forall m :: j < m < i ==> !actions[m].Finish?
  }

  /** The job taken at j has not ended. */
  ghost predicate Underway(actions: seq<Action>, j: nat, f: Future) {
    TakenAt(actions, j, f) && NoFinish(actions, j, |actions|)
  }

  /** The job taken at j ended at i, otherwise than by a cancellation. */
  ghost predicate CompletedAt(actions: seq<Action>, j: nat, i: nat, f: Future) {
    && TakenAt(actions, j, f) && j < i < |actions| && NoFinish(actions, j, i)
    && actions[i].Finish? && !actions[i].outcome.Cancelled?
  }

  ghost predicate HeldBy(s: State, f: Future) {
    s.workerAlive && s.inFlight.Some? && f in s.inFlight.value.futures
  }

  lemma RunSnoc(actions: seq<Action>, a: Action)
    ensures Run(actions + [a]) == Step(Run(actions), a)
  {
    hide Step;
    assert (actions + [a])[..|actions|] == actions;
  }

  lemma TakenInFront(front: seq<Action>, a: Action, j: nat, f: Future)
    ensures j < |front| ==> (TakenAt(front + [a], j, f) <==> TakenAt(front, j, f))
    ensures TakenAt(front + [a], |front|, f) <==> a.Take? && CanTake(Run(front)) && f in Taking(Run(front)).inFlight.value.futures
  {
    hide Run, CanTake, Taking;
    var all := front + [a];
    assert all[..|front|] == front;
    if j < |front| {
      assert all[..j] == front[..j];
    }
  }

  lemma UnderwayInFront(front: seq<Action>, a: Action, j: nat, f: Future)
    ensures j < |front| ==> (Underway(front + [a], j, f) <==> Underway(front, j, f) && !a.Finish?)
    ensures Underway(front + [a], |front|, f) <==> a.Take? && CanTake(Run(front)) && f in Taking(Run(front)).inFlight.value.futures
  {
    TakenInFront(front, a, j, f);
    hide TakenAt, Run, CanTake, Taking;
    var all := front + [a];
    assert j < |front| ==> all[|front|] == a;
    assert forall m :: j < m < |front| ==> all[m] == front[m];
  }

  lemma CompletedInFront(front: seq<Action>, a: Action, j: nat, i: nat, f: Future)
    ensures j < i < |front| ==> (CompletedAt(front + [a], j, i, f) <==> CompletedAt(front, j, i, f))
    ensures j < |front| ==>
              (CompletedAt(front + [a], j, |front|, f) <==> Underway(front, j, f) && a.Finish? && !a.outcome.Cancelled?)
  {
    TakenInFront(front, a, j, f);
    hide TakenAt;
    var all := front + [a];
    assert forall m :: 0 <= m < |front| ==> all[m] == front[m];
  }

  lemma StepHolds(s: State, a: Action, f: Future)
    ensures HeldBy(Step(s, a), f) <==>
            if a.Finish? then false
            else if a.Take? && CanTake(s) then f in Taking(s).inFlight.value.futures
            else HeldBy(s, f)
  {
  }

  /** A live worker holds a future exactly when it took it in a job not ended since. */
  lemma {:induction false} HeldIff(actions: seq<Action>, f: Future)
    ensures HeldBy(Run(actions), f) <==> exists j :: Underway(actions, j, f)
  {
    if actions != [] {
      var front, a := actions[..|actions| - 1], actions[|actions| - 1];
      SplitLast(actions);
      HeldIff(front, f);
      RunSnoc(front, a);
      StepHolds(Run(front), a, f);
      assert a.Take? && CanTake(Run(front)) ==> !HeldBy(Run(front), f);
      forall j: nat
        ensures Underway(actions, j, f) <==>
                if j < |front| then Underway(front, j, f) && !a.Finish?
                else j == |front| && a.Take? && CanTake(Run(front)) && f in Taking(Run(front)).inFlight.value.futures
      {
        UnderwayInFront(front, a, j, f);
        assert Underway(actions, j, f) ==> j < |actions|;
      }
      hide Underway, Run, Step, CanTake, HeldBy, Taking;
      if a.Take? && CanTake(Run(front)) && f in Taking(Run(front)).inFlight.value.futures {
        assert Underway(actions, |front|, f);
      }
    }
  }

  lemma StepSettles(s: State, a: Action, f: Future)
    ensures f in Step(s, a).done <==>
            f in s.done || a == CancelFuture(f) || (HeldBy(s, f) && a.Finish? && !a.outcome.Cancelled?)
  {
  }

  /** Over every run: a future is done if and only if a caller cancelled it, or a job
      that has it was taken and the end of that job was not a cancellation. */
  lemma {:induction false} DoneIff(actions: seq<Action>, f: Future)
    ensures f in Run(actions).done <==> CancelFuture(f) in actions || exists j, i :: CompletedAt(actions, j, i, f)
  {
    if actions != [] {
      var front, a := actions[..|actions| - 1], actions[|actions| - 1];
      SplitLast(actions);
      DoneIff(front, f);
      HeldIff(front, f);
      RunSnoc(front, a);
      StepSettles(Run(front), a, f);
      forall j: nat, i: nat
        ensures CompletedAt(actions, j, i, f) <==>
                CompletedAt(front, j, i, f) || (i == |front| && Underway(front, j, f) && a.Finish? && !a.outcome.Cancelled?)
      {
        CompletedInFront(front, a, j, i, f);
        assert CompletedAt(actions, j, i, f) ==> j < i < |actions|;
        assert CompletedAt(front, j, i, f) ==> j < i < |front|;
        assert Underway(front, j, f) ==> j < |front|;
      }
      hide Underway, CompletedAt, Run, Step, HeldBy;
      LastCompletes(front, a, actions, f);
    }
  }

  lemma LastCompletes(front: seq<Action>, a: Action, actions: seq<Action>, f: Future)
    requires forall j: nat, i: nat ::
               CompletedAt(actions, j, i, f) <==>
               CompletedAt(front, j, i, f) || (i == |front| && Underway(front, j, f) && a.Finish? && !a.outcome.Cancelled?)
    ensures (exists j, i :: CompletedAt(actions, j, i, f)) <==>
            (exists j, i :: CompletedAt(front, j, i, f))
            || ((exists j :: Underway(front, j, f)) && a.Finish? && !a.outcome.Cancelled?)
  {
    hide CompletedAt, Underway;
    if exists j :: Underway(front, j, f) && a.Finish? && !a.outcome.Cancelled? {
      var j :| Underway(front, j, f);
      assert CompletedAt(actions, j, |front|, f);
    }
    if j, i :| CompletedAt(front, j, i, f) {
      assert CompletedAt(actions, j, i, f);
    }
  }

  /** A worker cancelled inside a job never takes or settles anything again: the
      job's futures stay in flight, and from then on only a caller's own cancellation
      makes a future done. */
  lemma {:induction false} CancelledWorkerStrands(actions: seq<Action>, more: seq<Action>)
    requires !Run(actions).workerAlive
    ensures var s, s' := Run(actions), Run(actions + more);
            && !s'.workerAlive && s'.inFlight == s.inFlight && s'.settled == s.settled
            && forall f :: f in s'.done <==> f in s.done || CancelFuture(f) in more
  {
    if more == [] {
      assert actions + more == actions;
    } else {
      var front, a := more[..|more| - 1], more[|more| - 1];
      CancelledWorkerStrands(actions, front);
      SplitLast(more);
      ConcatAssociative(actions, front, [a]);
      RunSnoc(actions + front, a);
      StepOfDead(Run(actions + front), a);
      hide Run, Step;
    }
  }

  lemma StepOfDead(s: State, a: Action)
    requires !s.workerAlive
    ensures var s' := Step(s, a);
            && !s'.workerAlive && s'.inFlight == s.inFlight && s'.settled == s.settled
            && forall f :: f in s'.done <==> f in s.done || a == CancelFuture(f)
  {
  }

  /** An input that strands a caller: the worker is cancelled while it runs the job,
      and whatever happens later, the caller's future is never done. */
  lemma CancelledJobStrands(more: seq<Action>)
    requires CancelFuture(0) !in more
    ensures var s := Run([Enqueue("k", 1, [0], false), Take, Finish(Cancelled)] + more);
            0 in Handling(s) && 0 !in s.done
  {
    var enqueue := Enqueue("k", 1, [0], false);
    RunSnoc([], enqueue);
    RunSnoc([enqueue], Take);
    RunSnoc([enqueue, Take], Finish(Cancelled));
    assert [] + [enqueue] == [enqueue] && [enqueue] + [Take] == [enqueue, Take];
    assert [enqueue, Take] + [Finish(Cancelled)] == [enqueue, Take, Finish(Cancelled)];
    CancelledWorkerStrands([enqueue, Take, Finish(Cancelled)], more);
  }
}
