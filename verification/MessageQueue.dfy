/** The compacting message queue: a deque of keys and a map from each waiting key
    to the latest function and all merged futures. Callers enqueue at any time
    between the steps of one worker, which takes a key, runs its function and
    settles its futures. */
module MessageQueue {
  import opened Sequences
  import opened Wrappers

  type Key = string
  type Func = int
  type Future = nat

  datatype Outcome = Returned(value: int) | Raised(error: int) | Cancelled

  datatype Entry = Entry(func: Func, futures: seq<Future>)

  datatype Job = Job(key: Key, func: Func, futures: seq<Future>)

  /** What has happened, in order. */
  datatype Event =
    | Enqueued(key: Key, func: Func, futures: seq<Future>, front: bool)
    | Took(job: Job)

  datatype Action =
    | Enqueue(key: Key, func: Func, futures: seq<Future>, front: bool)
    | Take
    | Finish(outcome: Outcome)
    | CancelFuture(future: Future)

  datatype State = State(
    list: seq<Key>,
    entries: map<Key, Entry>,
    inFlight: Option<Job>,
    workerAlive: bool,
    done: map<Future, Outcome>,
    settled: seq<Future>,
    log: seq<Event>)

  const EMPTY := State([], map[], None, true, map[], [], [])

  /** A caller adds a key, or replaces its function and joins its futures. */
  function Enqueuing(s: State, key: Key, func: Func, futures: seq<Future>, front: bool): State {
    var s1 := s.(log := s.log + [Enqueued(key, func, futures, front)]);
    if key in s.entries
    then s1.(entries := s.entries[key := Entry(func, s.entries[key].futures + futures)])
    else s1.(entries := s.entries[key := Entry(func, futures)],
             list := if front then [key] + s.list else s.list + [key])
  }

  predicate CanTake(s: State) {
    s.workerAlive && s.inFlight == None && s.list != [] && s.list[0] in s.entries
  }

  /** The worker takes the key at the front. */
  function Taking(s: State): State
    requires CanTake(s)
  {
    var key := s.list[0];
    var job := Job(key, s.entries[key].func, s.entries[key].futures);
    s.(list := s.list[1..], entries := s.entries - {key}, inFlight := Some(job), log := s.log + [Took(job)])
  }

  /** Futures not yet done get the outcome. */
  function Settle(done: map<Future, Outcome>, futures: seq<Future>, outcome: Outcome): map<Future, Outcome> {
    done + map f | f in futures && f !in done :: outcome
  }

  /** The function returned or raised; a cancelled worker stops without settling. */
  function Finishing(s: State, outcome: Outcome): State
    requires s.inFlight.Some?
  {
    if outcome.Cancelled? then s.(workerAlive := false)
    else s.(inFlight := None,
            done := Settle(s.done, s.inFlight.value.futures, outcome),
            settled := s.settled + s.inFlight.value.futures)
  }

  function Step(s: State, a: Action): State {
    match a
    case Enqueue(key, func, futures, front) => Enqueuing(s, key, func, futures, front)
    case Take => if CanTake(s) then Taking(s) else s
    case Finish(outcome) => if s.workerAlive && s.inFlight.Some? then Finishing(s, outcome) else s
    case CancelFuture(f) => if f in s.done then s else s.(done := s.done[f := Cancelled])
  }

  function Run(actions: seq<Action>): State {
    if actions == [] then EMPTY else Step(Run(actions[..|actions| - 1]), actions[|actions| - 1])
  }

  // ---- What is pending, read off the history key by key ----------------------------

  /** A key's state: since which event it waits, its latest function, its futures. */
  datatype Waiting = Waiting(since: nat, func: Func, futures: seq<Future>)

  function Pending(log: seq<Event>, key: Key): Option<Waiting> {
    if log == [] then None
    else
      var before := Pending(log[..|log| - 1], key);
      match log[|log| - 1]
      case Enqueued(k, func, futures, _) =>
        if k != key then before
        else if before.Some? then Some(Waiting(before.value.since, func, before.value.futures + futures))
        else Some(Waiting(|log| - 1, func, futures))
      case Took(job) => if job.key == key then None else before
  }

  lemma PendingSnoc(log: seq<Event>, e: Event, key: Key)
    ensures Pending(log + [e], key) ==
            match e
            case Enqueued(k, func, futures, _) =>
              (if k != key then Pending(log, key)
               else if Pending(log, key).Some?
               then Some(Waiting(Pending(log, key).value.since, func, Pending(log, key).value.futures + futures))
               else Some(Waiting(|log|, func, futures)))
            case Took(job) => if job.key == key then None else Pending(log, key)
  {
    assert (log + [e])[..|log|] == log;
  }

  ghost predicate EnqueuedAt(log: seq<Event>, i: int, key: Key)
    requires 0 <= i < |log|
  {
    log[i].Enqueued? && log[i].key == key
  }

  ghost predicate TookAt(log: seq<Event>, i: int, key: Key)
    requires 0 <= i < |log|
  {
    log[i].Took? && log[i].job.key == key
  }

  lemma EventsOfFront(log: seq<Event>, key: Key)
    requires log != []
    ensures var front := log[..|log| - 1];
            forall i :: 0 <= i < |front| ==>
              (EnqueuedAt(log, i, key) <==> EnqueuedAt(front, i, key)) && (TookAt(log, i, key) <==> TookAt(front, i, key))
  {
  }

  /** A key is pending exactly when some enqueue of it has not been followed by a take. */
  lemma {:induction false} PendingIff(log: seq<Event>, key: Key)
    ensures Pending(log, key).Some? <==>
            exists i :: 0 <= i < |log| && EnqueuedAt(log, i, key) && forall j :: i < j < |log| ==> !TookAt(log, j, key)
  {
    if log != [] {
      var front := log[..|log| - 1];
      PendingIff(front, key);
      EventsOfFront(log, key);
      if Pending(log, key).Some? && Pending(front, key).Some? {
        var i :| 0 <= i < |front| && EnqueuedAt(front, i, key) && forall j :: i < j < |front| ==> !TookAt(front, j, key);
        assert EnqueuedAt(log, i, key);
      } else if Pending(log, key).Some? {
        assert EnqueuedAt(log, |log| - 1, key);
      }
      if i :| 0 <= i < |log| && EnqueuedAt(log, i, key) && forall j :: i < j < |log| ==> !TookAt(log, j, key) {
        assert !TookAt(log, |log| - 1, key);
        if i < |front| {
          assert EnqueuedAt(front, i, key);
        }
      }
    }
  }

  /** A pending key waits since its first enqueue after its last take. */
  lemma {:induction false} PendingSinceFirst(log: seq<Event>, key: Key)
    requires Pending(log, key).Some?
    ensures var w := Pending(log, key).value;
            && w.since < |log| && EnqueuedAt(log, w.since, key)
            && (forall j :: w.since <= j < |log| ==> !TookAt(log, j, key))
            && (forall i :: 0 <= i < w.since && EnqueuedAt(log, i, key) ==> exists j :: i < j < w.since && TookAt(log, j, key))
  {
    var front, n := log[..|log| - 1], |log| - 1;
    EventsOfFront(log, key);
    var w := Pending(log, key).value;
    if Pending(front, key).Some? {
      PendingSinceFirst(front, key);
      assert w.since == Pending(front, key).value.since;
    } else {
      assert EnqueuedAt(log, n, key) && w.since == n;
      PendingIff(front, key);
    }
    hide Pending;
    forall i | 0 <= i < w.since && EnqueuedAt(log, i, key)
      ensures exists j :: i < j < w.since && TookAt(log, j, key)
    {
      assert EnqueuedAt(front, i, key);
      var j :| i < j < w.since && TookAt(front, j, key);
      assert TookAt(log, j, key);
    }
  }

  /** A pending key waits with the function of its last enqueue. */
  lemma {:induction false} PendingWithLatest(log: seq<Event>, key: Key)
    requires Pending(log, key).Some?
    ensures exists i :: 0 <= i < |log| && EnqueuedAt(log, i, key) && log[i].func == Pending(log, key).value.func
                        && forall j :: i < j < |log| ==> !EnqueuedAt(log, j, key)
  {
    var front, n := log[..|log| - 1], |log| - 1;
    EventsOfFront(log, key);
    if EnqueuedAt(log, n, key) {
      assert log[n].func == Pending(log, key).value.func;
    } else {
      PendingWithLatest(front, key);
      var i :| 0 <= i < |front| && EnqueuedAt(front, i, key) && front[i].func == Pending(front, key).value.func
               && forall j :: i < j < |front| ==> !EnqueuedAt(front, j, key);
      assert EnqueuedAt(log, i, key) && log[i].func == Pending(log, key).value.func;
    }
  }

  // ---- The history is that of the actions ----------------------------------------------

  /** The enqueues among the actions, as events. */
  function Requests(actions: seq<Action>): seq<Event> {
    if actions == [] then []
    else
      Requests(actions[..|actions| - 1])
      + (match actions[|actions| - 1]
         case Enqueue(key, func, futures, front) => [Enqueued(key, func, futures, front)]
         case _ => [])
  }

  function EnqueuesIn(log: seq<Event>): seq<Event> {
    if log == [] then [] else EnqueuesIn(log[..|log| - 1]) + (if log[|log| - 1].Enqueued? then [log[|log| - 1]] else [])
  }

  lemma EnqueuesSnoc(log: seq<Event>, e: Event)
    ensures EnqueuesIn(log + [e]) == if e.Enqueued? then EnqueuesIn(log) + [e] else EnqueuesIn(log)
  {
    assert (log + [e])[..|log|] == log;
    assert EnqueuesIn(log) + [] == EnqueuesIn(log);
  }

  /** The history's enqueues are exactly those that callers made, in order. */
  lemma {:induction false} LogTellsActions(actions: seq<Action>)
    ensures EnqueuesIn(Run(actions).log) == Requests(actions)
  {
    if actions != [] {
      var s, a := Run(actions[..|actions| - 1]), actions[|actions| - 1];
      LogTellsActions(actions[..|actions| - 1]);
      LogStep(s, a);
      hide Step, EnqueuesIn;
      assert Requests(actions[..|actions| - 1]) + [] == Requests(actions[..|actions| - 1]);
    }
  }

  lemma LogStep(s: State, a: Action)
    ensures EnqueuesIn(Step(s, a).log) ==
            match a
            case Enqueue(key, func, futures, front) => EnqueuesIn(s.log) + [Enqueued(key, func, futures, front)]
            case _ => EnqueuesIn(s.log)
  {
    hide EnqueuesIn;
    match a
    case Enqueue(key, func, futures, front) => EnqueuesSnoc(s.log, Enqueued(key, func, futures, front));
    case Take =>
      if CanTake(s) {
        EnqueuesSnoc(s.log, Took(Taking(s).inFlight.value));
      }
    case _ =>
  }

  // ---- The invariant -----------------------------------------------------------------

  /** The deque holds exactly the map's keys, once each, and the map holds what the
      history says is pending. */
  ghost predicate Faithful(s: State) {
    && Distinct(s.list)
    && (forall k :: k in s.list <==> k in s.entries)
    && (forall k :: k in s.entries <==> Pending(s.log, k).Some?)
    && (forall k :: k in s.entries ==> s.entries[k] == Entry(Pending(s.log, k).value.func, Pending(s.log, k).value.futures))
  }

  ghost function Since(log: seq<Event>, key: Key): int {
    if Pending(log, key).Some? then Pending(log, key).value.since else |log|
  }

  ghost predicate OldestFirst(list: seq<Key>, log: seq<Event>) {
    forall i, j :: 0 <= i < j < |list| ==> Since(log, list[i]) < Since(log, list[j])
  }

  /** Keys stand in the order of their first enqueue. */
  ghost predicate InArrivalOrder(s: State) {
    && OldestFirst(s.list, s.log)
    && (forall k :: k in s.entries ==> Since(s.log, k) < |s.log|)
  }

  lemma EnqueuingFaithful(s: State, key: Key, func: Func, futures: seq<Future>, front: bool)
    requires Faithful(s)
    ensures Faithful(Enqueuing(s, key, func, futures, front))
  {
    var s' := Enqueuing(s, key, func, futures, front);
    forall k {
      PendingSnoc(s.log, Enqueued(key, func, futures, front), k);
    }
    hide Pending;
    if key !in s.entries {
      assert forall k :: k in s'.list <==> k == key || k in s.list;
    }
  }

  lemma RestOfList(list: seq<Key>)
    requires Distinct(list) && list != []
    ensures Distinct(list[1..]) && forall k :: k in list[1..] <==> k in list && k != list[0]
  {
    assert list == [list[0]] + list[1..];
    assert forall i :: 0 <= i < |list[1..]| ==> list[1..][i] == list[i + 1];
  }

  /** The job taken is the front key with its latest function and all its futures. */
  lemma TakingFaithful(s: State)
    requires Faithful(s) && CanTake(s)
    ensures Faithful(Taking(s))
    ensures var job := Taking(s).inFlight.value;
            job.key == s.list[0] && Pending(s.log, job.key).Some?
            && job.func == Pending(s.log, job.key).value.func && job.futures == Pending(s.log, job.key).value.futures
  {
    var s' := Taking(s);
    RestOfList(s.list);
    forall k {
      PendingSnoc(s.log, Took(s'.inFlight.value), k);
    }
    hide Pending, Distinct;
  }

  lemma {:induction false} RunFaithful(actions: seq<Action>)
    ensures Faithful(Run(actions))
  {
    if actions == [] {
      EmptyFaithful();
    } else {
      hide Faithful, Enqueuing, Taking;
      var s, a := Run(actions[..|actions| - 1]), actions[|actions| - 1];
      RunFaithful(actions[..|actions| - 1]);
      match a
      case Enqueue(key, func, futures, front) => EnqueuingFaithful(s, key, func, futures, front);
      case Take =>
        if CanTake(s) {
          TakingFaithful(s);
        }
      case Finish(outcome) => SettlingFaithful(s, Step(s, a));
      case CancelFuture(_) => SettlingFaithful(s, Step(s, a));
    }
  }

  lemma EmptyFaithful()
    ensures Faithful(EMPTY)
  {
  }

  lemma SettlingFaithful(s: State, s': State)
    requires Faithful(s) && s'.list == s.list && s'.entries == s.entries && s'.log == s.log
    ensures Faithful(s')
  {
  }

  // ---- First come, first served -----------------------------------------------------

  lemma EnqueuingInOrder(s: State, key: Key, func: Func, futures: seq<Future>)
    requires Faithful(s) && InArrivalOrder(s)
    ensures InArrivalOrder(Enqueuing(s, key, func, futures, false))
  {
    forall k {
      PendingSnoc(s.log, Enqueued(key, func, futures, false), k);
    }
    hide Pending, Distinct;
    var s' := Enqueuing(s, key, func, futures, false);
    assert forall k :: k in s.entries ==> Since(s'.log, k) == Since(s.log, k);
    assert forall i :: 0 <= i < |s.list| ==> s.list[i] in s.entries;
  }

  lemma TakingKeepsSince(s: State, k: Key)
    requires CanTake(s) && k != s.list[0]
    ensures Since(Taking(s).log, k) == Since(s.log, k) || Pending(s.log, k).None?
  {
    PendingSnoc(s.log, Took(Taking(s).inFlight.value), k);
    hide Pending;
  }

  lemma RestOldestFirst(list: seq<Key>, log: seq<Event>, log': seq<Event>)
    requires list != [] && OldestFirst(list, log)
    requires forall k :: k in list[1..] ==> Since(log', k) == Since(log, k)
    ensures OldestFirst(list[1..], log')
  {
    hide Since;
    var rest := list[1..];
    assert forall i :: 0 <= i < |rest| ==> rest[i] in rest && rest[i] == list[i + 1];
  }

  lemma TakingInOrder(s: State)
    requires Faithful(s) && InArrivalOrder(s) && CanTake(s)
    ensures InArrivalOrder(Taking(s))
  {
    var s' := Taking(s);
    RestOfList(s.list);
    forall k | k in s'.entries
      ensures Since(s'.log, k) == Since(s.log, k)
    {
      TakingKeepsSince(s, k);
    }
    hide Pending, Distinct, Since, OldestFirst;
    RestOldestFirst(s.list, s.log, s'.log);
  }

  lemma {:induction false} RunInOrder(actions: seq<Action>)
    requires forall i :: 0 <= i < |actions| && actions[i].Enqueue? ==> !actions[i].front
    ensures InArrivalOrder(Run(actions))
  {
    if actions == [] {
      EmptyInOrder();
    } else {
      hide Faithful, InArrivalOrder, Enqueuing, Taking;
      var s, a := Run(actions[..|actions| - 1]), actions[|actions| - 1];
      RunInOrder(actions[..|actions| - 1]);
      RunFaithful(actions[..|actions| - 1]);
      match a
      case Enqueue(key, func, futures, front) => EnqueuingInOrder(s, key, func, futures);
      case Take =>
        if CanTake(s) {
          TakingInOrder(s);
        }
      case Finish(outcome) => SettlingInOrder(s, Step(s, a));
      case CancelFuture(_) => SettlingInOrder(s, Step(s, a));
    }
  }

  lemma EmptyInOrder()
    ensures InArrivalOrder(EMPTY)
  {
  }

  lemma SettlingInOrder(s: State, s': State)
    requires InArrivalOrder(s) && s'.list == s.list && s'.entries == s.entries && s'.log == s.log
    ensures InArrivalOrder(s')
  {
  }

  /** When no caller jumps the queue, the key taken is the one that has waited longest. */
  lemma TakesLongestWaiting(actions: seq<Action>, key: Key)
    requires forall i :: 0 <= i < |actions| && actions[i].Enqueue? ==> !actions[i].front
    requires CanTake(Run(actions)) && key in Run(actions).entries
    ensures var s := Run(actions);
            key == s.list[0] || Since(s.log, s.list[0]) < Since(s.log, key)
  {
    RunInOrder(actions);
    RunFaithful(actions);
    var s := Run(actions);
    hide Run, Since;
    var i :| 0 <= i < |s.list| && s.list[i] == key;
  }

  /** A new key enqueued at the front is taken next, with the function and the futures it
      came with; one that waits already keeps its place. */
  lemma FrontIsTakenNext(s: State, key: Key, func: Func, futures: seq<Future>)
    requires Faithful(s) && s.workerAlive && s.inFlight == None
    ensures var s' := Enqueuing(s, key, func, futures, true);
            && CanTake(s')
            && (key !in s.list ==> Taking(s').inFlight == Some(Job(key, func, futures)) && Taking(s').list == s.list)
            && (key in s.list ==> s'.list == s.list)
  {
    hide Pending;
    EnqueuingFaithful(s, key, func, futures, true);
    var s' := Enqueuing(s, key, func, futures, true);
    if key !in s.list {
      assert s'.list == [key] + s.list && s'.list[1..] == s.list;
    }
  }

  // ---- The queue object ----------------------------------------------------------------

  class Queue {
    var queueList: seq<Key>
    var queueMap: map<Key, Entry>
    var inFlight: Option<Job>
    var workerAlive: bool
    var done: map<Future, Outcome>
    ghost var settled: seq<Future>
    ghost var log: seq<Event>

    ghost function Current(): State
      reads this
    {
      State(queueList, queueMap, inFlight, workerAlive, done, settled, log)
    }

    constructor ()
      ensures Current() == EMPTY
    {
      queueList, queueMap, inFlight, workerAlive, done := [], map[], None, true, map[];
      settled, log := [], [];
    }

    method EnqueueMulti(func: Func, futures: seq<Future>, key: Key, front: bool)
      modifies this
      ensures Current() == Enqueuing(old(Current()), key, func, futures, front)
    {
      log := log + [Enqueued(key, func, futures, front)];
      if key in queueMap {
        var oldFutures := queueMap[key].futures;
        queueMap := queueMap[key := Entry(func, oldFutures + futures)];
      } else {
        queueMap := queueMap[key := Entry(func, futures)];
        if front {
          queueList := [key] + queueList;
        } else {
          queueList := queueList + [key];
        }
      }
    }

    /** The worker's next job; it waits while the deque is empty. */
    method TakeNext() returns (job: Job)
      requires CanTake(Current())
      modifies this
      ensures Current() == Taking(old(Current())) && inFlight == Some(job)
    {
      var key := queueList[0];
      queueList := queueList[1..];
      job := Job(key, queueMap[key].func, queueMap[key].futures);
      queueMap := queueMap - {key};
      inFlight := Some(job);
      log := log + [Took(job)];
    }

    /** The function returned or raised: settle the job's futures. A cancelled worker stops. */
    method FinishJob(outcome: Outcome)
      requires inFlight.Some?
      modifies this
      ensures Current() == Finishing(old(Current()), outcome)
    {
      hide Settle;
      if outcome.Cancelled? {
        workerAlive := false;
      } else {
        SettleAll(inFlight.value.futures, outcome);
        settled := settled + inFlight.value.futures;
        inFlight := None;
      }
    }

    method SettleAll(futures: seq<Future>, outcome: Outcome)
      modifies this`done
      ensures done == Settle(old(done), futures, outcome)
    {
      for i := 0 to |futures|
        invariant done == Settle(old(done), futures[..i], outcome)
      {
        SettleSnoc(old(done), futures[..i], futures[i], outcome);
        assert futures[..i + 1] == futures[..i] + [futures[i]];
        if futures[i] !in done {
          done := done[futures[i] := outcome];
        }
      }
      assert futures[..|futures|] == futures;
    }
  }

  lemma SettleSnoc(done: map<Future, Outcome>, futures: seq<Future>, f: Future, outcome: Outcome)
    ensures var before := Settle(done, futures, outcome);
            Settle(done, futures + [f], outcome) == if f in before then before else before[f := outcome]
  {
  }
}
