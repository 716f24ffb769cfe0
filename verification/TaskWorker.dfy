/** The task worker: one queue, one task at a time, retries in place. Tasks stand
    in creation order; a task's position identifies it. */
module TaskWorker {
  import opened Wrappers

  datatype Status = Queued | Running | Complete | Failed | Blocked | Cancelled | WaitingApproval

  datatype Task = Task(
    createdAt: nat,
    status: Status,
    attempts: nat,
    maxRetries: int,
    result: Option<string>,
    error: Option<string>)

  /** How one execution ends: with a result, with a refusal, or with an exception. */
  datatype Outcome = Success(result: string) | PermissionDenied(reason: string) | Failure(error: string)

  /** What the n-th attempt at task i would give. */
  type Oracle = (nat, nat) -> Outcome

  const MAX_RUNS := 200

  function Fresh(createdAt: nat, maxRetries: int): Task {
    Task(createdAt, Queued, 0, maxRetries, None, None)
  }

  /** One execution: attempts rise by one, and a failure goes back to the queue
      while attempts do not exceed the retries. */
  function RunOnce(t: Task, outcome: Outcome): Task {
    var t1 := t.(attempts := t.attempts + 1);
    match outcome
    case Success(result) => t1.(status := Complete, result := Some(result))
    case PermissionDenied(reason) => t1.(status := Blocked, error := Some(reason))
    case Failure(error) =>
      t1.(error := Some(error), status := if t1.attempts <= t1.maxRetries then Queued else Failed)
  }

  /** How many more runs a task can take. */
  function Budget(t: Task): nat {
    if t.status != Queued then 0
    else if t.maxRetries + 1 - t.attempts > 1 then t.maxRetries + 1 - t.attempts
    else 1
  }

  lemma RunOnceSpendsBudget(t: Task, outcome: Outcome)
    requires t.status == Queued
    ensures Budget(RunOnce(t, outcome)) < Budget(t)
  {
  }

  /** A task run until it leaves the queue. */
  function Final(t: Task, oracle: Oracle, i: nat): (r: Task)
    ensures r.status != Queued
    decreases Budget(t)
  {
    if t.status != Queued then t
    else
      RunOnceSpendsBudget(t, oracle(i, t.attempts + 1));
      Final(RunOnce(t, oracle(i, t.attempts + 1)), oracle, i)
  }

  function RunsOf(t: Task, oracle: Oracle, i: nat): nat
    decreases Budget(t)
  {
    if t.status != Queued then 0
    else
      RunOnceSpendsBudget(t, oracle(i, t.attempts + 1));
      1 + RunsOf(RunOnce(t, oracle(i, t.attempts + 1)), oracle, i)
  }

  /** A queued task runs until the first attempt that does not fail, at most Budget
      times; that attempt decides its status, and Failed means that all of them failed. */
  lemma {:induction false} FinalMeaning(t: Task, oracle: Oracle, i: nat)
    requires t.status == Queued
    ensures var k, r := RunsOf(t, oracle, i), Final(t, oracle, i);
            && 1 <= k <= Budget(t)
            && r.attempts == t.attempts + k
            && r.createdAt == t.createdAt && r.maxRetries == t.maxRetries
            && (forall n :: t.attempts < n < t.attempts + k ==> oracle(i, n).Failure?)
            && (match oracle(i, t.attempts + k)
                case Success(result) => r.status == Complete && r.result == Some(result)
                case PermissionDenied(reason) => r.status == Blocked && r.error == Some(reason)
                case Failure(error) => r.status == Failed && r.error == Some(error) && k == Budget(t))
    decreases Budget(t)
  {
    var t1 := RunOnce(t, oracle(i, t.attempts + 1));
    RunOnceSpendsBudget(t, oracle(i, t.attempts + 1));
    if t1.status == Queued {
      FinalMeaning(t1, oracle, i);
    }
  }

  /** A fresh task runs at most max_retries + 1 times. */
  lemma FreshRunsAtMost(createdAt: nat, maxRetries: nat, oracle: Oracle, i: nat)
    ensures 1 <= RunsOf(Fresh(createdAt, maxRetries), oracle, i) <= maxRetries + 1
  {
    FinalMeaning(Fresh(createdAt, maxRetries), oracle, i);
  }

  // ---- The queue -------------------------------------------------------------------

  /** The order of get_tasks: by creation time, ties in insertion order. */
  predicate Before(tasks: seq<Task>, i: nat, j: nat)
    requires i < |tasks| && j < |tasks|
  {
    tasks[i].createdAt < tasks[j].createdAt || (tasks[i].createdAt == tasks[j].createdAt && i < j)
  }

  /** The first queued task. */
  ghost predicate IsNext(tasks: seq<Task>, i: nat) {
    && i < |tasks| && tasks[i].status == Queued
    && forall j :: 0 <= j < |tasks| && j != i && tasks[j].status == Queued ==> Before(tasks, i, j)
  }

  function TotalBudget(tasks: seq<Task>): nat {
    if tasks == [] then 0 else TotalBudget(tasks[..|tasks| - 1]) + Budget(tasks[|tasks| - 1])
  }

  lemma {:induction false} TotalBudgetFalls(tasks: seq<Task>, i: nat, t: Task)
    requires i < |tasks| && Budget(t) < Budget(tasks[i])
    ensures TotalBudget(tasks[i := t]) < TotalBudget(tasks)
  {
    var front := tasks[..|tasks| - 1];
    if i == |tasks| - 1 {
      assert tasks[i := t][..|tasks| - 1] == front;
    } else {
      TotalBudgetFalls(front, i, t);
      assert tasks[i := t][..|tasks| - 1] == front[i := t];
    }
  }

  function TotalRuns(tasks: seq<Task>, oracle: Oracle): nat {
    if tasks == [] then 0 else TotalRuns(tasks[..|tasks| - 1], oracle) + RunsOf(tasks[|tasks| - 1], oracle, |tasks| - 1)
  }

  lemma {:induction false} TotalRunsFalls(tasks: seq<Task>, oracle: Oracle, i: nat, t: Task)
    requires i < |tasks| && RunsOf(tasks[i], oracle, i) == 1 + RunsOf(t, oracle, i)
    ensures TotalRuns(tasks, oracle) == 1 + TotalRuns(tasks[i := t], oracle)
  {
    var front := tasks[..|tasks| - 1];
    if i == |tasks| - 1 {
      assert tasks[i := t][..|tasks| - 1] == front;
    } else {
      TotalRunsFalls(front, oracle, i, t);
      assert tasks[i := t][..|tasks| - 1] == front[i := t];
    }
  }

  lemma {:induction false} RunsWithinBudget(tasks: seq<Task>, oracle: Oracle)
    ensures TotalRuns(tasks, oracle) <= TotalBudget(tasks)
  {
    if tasks != [] {
      RunsWithinBudget(tasks[..|tasks| - 1], oracle);
      var i := |tasks| - 1;
      if tasks[i].status == Queued {
        FinalMeaning(tasks[i], oracle, i);
      }
    }
  }

  lemma {:induction false} NoRunsLeft(tasks: seq<Task>, oracle: Oracle)
    requires forall i :: 0 <= i < |tasks| ==> tasks[i].status != Queued
    ensures TotalRuns(tasks, oracle) == 0
  {
    if tasks != [] {
      NoRunsLeft(tasks[..|tasks| - 1], oracle);
    }
  }

  // ---- The course of a drain -----------------------------------------------------------

  /** The tasks after executing those named by `trace`, one after the other. */
  ghost function Played(tasks: seq<Task>, trace: seq<nat>, oracle: Oracle): (r: seq<Task>)
    ensures |r| == |tasks|
  {
    if trace == [] then tasks
    else
      var now, i := Played(tasks, trace[..|trace| - 1], oracle), trace[|trace| - 1];
      if i < |now| then now[i := RunOnce(now[i], oracle(i, now[i].attempts + 1))] else now
  }

  /** Each execution is of the task that was next in line. */
  ghost predicate InTurn(tasks: seq<Task>, trace: seq<nat>, oracle: Oracle) {
    forall n :: 0 <= n < |trace| ==> IsNext(Played(tasks, trace[..n], oracle), trace[n])
  }

  /** The tasks that leave the queue in the course of the trace, in that order. */
  ghost function Leaving(tasks: seq<Task>, trace: seq<nat>, oracle: Oracle): seq<nat> {
    if trace == [] then []
    else
      var i, after := trace[|trace| - 1], Played(tasks, trace, oracle);
      Leaving(tasks, trace[..|trace| - 1], oracle) + (if i < |after| && after[i].status != Queued then [i] else [])
  }

  /** The run log: one record for each execution, newest first, 200 at most. */
  ghost function Logged(tasks: seq<Task>, runs: seq<Task>, trace: seq<nat>, oracle: Oracle): seq<Task> {
    if trace == [] then runs
    else
      var i, after := trace[|trace| - 1], Played(tasks, trace, oracle);
      var before := Logged(tasks, runs, trace[..|trace| - 1], oracle);
      if i < |after| then Newest([after[i]] + before) else before
  }

  lemma NewestIs(log: seq<Task>, t: Task, before: seq<Task>)
    requires |log| == (if |before| >= 200 then 200 else |before| + 1)
    requires log[0] == t && log[1..] == before[..|log| - 1]
    ensures log == Newest([t] + before)
  {
    assert log == [log[0]] + log[1..];
  }

  function Newest(all: seq<Task>): seq<Task> {
    if |all| > MAX_RUNS then all[..MAX_RUNS] else all
  }

  lemma PlayedSnoc(tasks: seq<Task>, runs: seq<Task>, trace: seq<nat>, i: nat, oracle: Oracle)
    requires i < |tasks|
    ensures var now := Played(tasks, trace, oracle);
            var after := now[i := RunOnce(now[i], oracle(i, now[i].attempts + 1))];
            && Played(tasks, trace + [i], oracle) == after
            && Leaving(tasks, trace + [i], oracle) == Leaving(tasks, trace, oracle) + (if after[i].status != Queued then [i] else [])
            && Logged(tasks, runs, trace + [i], oracle) == Newest([after[i]] + Logged(tasks, runs, trace, oracle))
  {
    assert (trace + [i])[..|trace|] == trace;
    hide RunOnce;
  }

  /** The task as the n-th execution left it. */
  ghost function RecordOf(tasks: seq<Task>, trace: seq<nat>, oracle: Oracle, n: nat): Task
    requires n < |trace| && trace[n] < |tasks|
  {
    Played(tasks, trace[..n + 1], oracle)[trace[n]]
  }

  lemma RecordInFront(tasks: seq<Task>, front: seq<nat>, i: nat, oracle: Oracle, n: nat)
    requires n < |front| && front[n] < |tasks|
    ensures RecordOf(tasks, front + [i], oracle, n) == RecordOf(tasks, front, oracle, n)
  {
    assert (front + [i])[..n + 1] == front[..n + 1];
  }

  /** The newest record is the last execution's, the one before it the last but one's, and
      so on; then comes what was there before; 200 in all. */
  ghost predicate KeepsNewest(tasks: seq<Task>, runs: seq<Task>, trace: seq<nat>, oracle: Oracle, log: seq<Task>)
    requires forall n :: 0 <= n < |trace| ==> trace[n] < |tasks|
  {
    && |log| == (if |trace| + |runs| > 200 then 200 else |trace| + |runs|)
    && forall k :: 0 <= k < |log| ==>
         log[k] == if k < |trace| then RecordOf(tasks, trace, oracle, |trace| - 1 - k) else runs[k - |trace|]
  }

  lemma KeepsNewestSnoc(tasks: seq<Task>, runs: seq<Task>, front: seq<nat>, i: nat, oracle: Oracle, before: seq<Task>, log: seq<Task>)
    requires (forall n :: 0 <= n < |front| ==> front[n] < |tasks|) && i < |tasks|
    requires KeepsNewest(tasks, runs, front, oracle, before)
    requires |log| == (if |before| >= 200 then 200 else |before| + 1)
    requires |log| > 0 && log[0] == RecordOf(tasks, front + [i], oracle, |front|)
    requires forall k :: 0 < k < |log| ==> log[k] == before[k - 1]
    ensures KeepsNewest(tasks, runs, front + [i], oracle, log)
  {
    hide RecordOf;
    var trace := front + [i];
    forall k | 0 <= k < |log|
      ensures log[k] == if k < |trace| then RecordOf(tasks, trace, oracle, |trace| - 1 - k) else runs[k - |trace|]
    {
      if 0 < k {
        assert log[k] == before[k - 1];
        if k < |trace| {
          RecordInFront(tasks, front, i, oracle, |front| - k);
        }
      }
    }
  }

  lemma NewestShifts(before: seq<Task>, t: Task, log: seq<Task>)
    requires log == Newest([t] + before)
    ensures |log| == (if |before| >= 200 then 200 else |before| + 1) && log[0] == t
    ensures forall k :: 0 < k < |log| ==> log[k] == before[k - 1]
  {
  }

  lemma LastRecord(tasks: seq<Task>, front: seq<nat>, i: nat, oracle: Oracle)
    requires i < |tasks|
    ensures RecordOf(tasks, front + [i], oracle, |front|) == Played(tasks, front + [i], oracle)[i]
  {
    assert (front + [i])[..|front| + 1] == front + [i];
    hide Played;
  }

  /** The run log after any course keeps the newest records. */
  lemma {:induction false} LogKeepsNewest(tasks: seq<Task>, runs: seq<Task>, trace: seq<nat>, oracle: Oracle)
    requires forall n :: 0 <= n < |trace| ==> trace[n] < |tasks|
    requires |runs| <= 200
    ensures KeepsNewest(tasks, runs, trace, oracle, Logged(tasks, runs, trace, oracle))
  {
    if trace != [] {
      hide *;
      var front, i := trace[..|trace| - 1], trace[|trace| - 1];
      LogKeepsNewest(tasks, runs, front, oracle);
      assert trace == front + [i];
      PlayedSnoc(tasks, runs, front, i, oracle);
      var before, log := Logged(tasks, runs, front, oracle), Logged(tasks, runs, trace, oracle);
      NewestShifts(before, Played(tasks, trace, oracle)[i], log);
      LastRecord(tasks, front, i, oracle);
      KeepsNewestSnoc(tasks, runs, front, i, oracle, before, log);
    }
  }

  lemma InTurnSnoc(tasks: seq<Task>, trace: seq<nat>, i: nat, oracle: Oracle)
    requires InTurn(tasks, trace, oracle) && IsNext(Played(tasks, trace, oracle), i)
    ensures InTurn(tasks, trace + [i], oracle)
  {
    hide IsNext, Played;
    var all := trace + [i];
    forall n | 0 <= n < |all|
      ensures IsNext(Played(tasks, all[..n], oracle), all[n])
    {
      assert all[..n] == trace[..n];
      assert trace[..|trace|] == trace;
    }
  }

  lemma {:induction false} DatesStay(tasks: seq<Task>, trace: seq<nat>, oracle: Oracle)
    ensures forall i :: 0 <= i < |tasks| ==> Played(tasks, trace, oracle)[i].createdAt == tasks[i].createdAt
  {
    if trace != [] {
      DatesStay(tasks, trace[..|trace| - 1], oracle);
    }
  }

  /** Nothing comes back into the queue. */
  lemma {:induction false} NothingRequeued(tasks: seq<Task>, trace: seq<nat>, m: nat, oracle: Oracle)
    requires m <= |trace| && InTurn(tasks, trace, oracle)
    ensures forall i :: 0 <= i < |tasks| && Played(tasks, trace, oracle)[i].status == Queued ==>
              Played(tasks, trace[..m], oracle)[i].status == Queued
  {
    if m == |trace| {
      assert trace[..m] == trace;
    } else {
      var front, i := trace[..|trace| - 1], trace[|trace| - 1];
      FrontInTurn(tasks, trace, oracle);
      NothingRequeued(tasks, front, m, oracle);
      assert front[..m] == trace[..m];
      assert IsNext(Played(tasks, front, oracle), i);
      hide RunOnce;
    }
  }

  lemma FrontInTurn(tasks: seq<Task>, trace: seq<nat>, oracle: Oracle)
    requires trace != [] && InTurn(tasks, trace, oracle)
    ensures InTurn(tasks, trace[..|trace| - 1], oracle)
  {
    var front := trace[..|trace| - 1];
    forall n | 0 <= n < |front|
      ensures IsNext(Played(tasks, front[..n], oracle), front[n])
    {
      assert front[..n] == trace[..n];
    }
  }

  /** Executions come in creation order: a task is run until it leaves the queue before
      any task created after it is run, and none created before it is run again. */
  lemma ExecutionsInCreationOrder(tasks: seq<Task>, trace: seq<nat>, oracle: Oracle, m: nat, n: nat)
    requires InTurn(tasks, trace, oracle) && m < n < |trace|
    ensures trace[m] < |tasks| && trace[n] < |tasks|
    ensures trace[m] == trace[n] || Before(tasks, trace[m], trace[n])
  {
    var upto := trace[..n];
    forall k | 0 <= k < |upto|
      ensures IsNext(Played(tasks, upto[..k], oracle), upto[k])
    {
      assert upto[..k] == trace[..k];
    }
    NothingRequeued(tasks, upto, m, oracle);
    DatesStay(tasks, trace[..m], oracle);
    assert upto[..m] == trace[..m];
    assert IsNext(Played(tasks, trace[..m], oracle), trace[m]);
    assert IsNext(Played(tasks, trace[..n], oracle), trace[n]);
  }

  ghost predicate InCreationOrder(tasks: seq<Task>, finished: seq<nat>) {
    && (forall n :: 0 <= n < |finished| ==> finished[n] < |tasks|)
    && (forall m, n :: 0 <= m < n < |finished| ==> Before(tasks, finished[m], finished[n]))
  }

  class Worker {
    var tasks: seq<Task>
    var runs: seq<Task>
    const maxRetries: int

    constructor (maxRetries: int)
      ensures tasks == [] && runs == [] && this.maxRetries == maxRetries
    {
      this.maxRetries := maxRetries;
      tasks, runs := [], [];
    }

    method CreateTask(now: nat, retries: Option<int>) returns (i: nat)
      modifies this`tasks
      ensures i == |old(tasks)|
      ensures tasks == old(tasks) + [Fresh(now, if retries.Some? then retries.value else maxRetries)]
      ensures tasks[i].createdAt == now && tasks[i].status == Queued && tasks[i].attempts == 0
    {
      i := |tasks|;
      tasks := tasks + [Fresh(now, if retries.Some? then retries.value else maxRetries)];
    }

    /** After a restart, tasks that were running go back to the queue. */
    method Recover()
      modifies this`tasks
      ensures |tasks| == |old(tasks)|
      ensures forall i :: 0 <= i < |tasks| ==>
                tasks[i] == if old(tasks)[i].status == Running
                            then old(tasks)[i].(status := Queued, error := Some("Recovered after bridge restart"))
                            else old(tasks)[i]
    {
      for i := 0 to |tasks|
        invariant |tasks| == |old(tasks)|
        invariant forall k :: i <= k < |tasks| ==> tasks[k] == old(tasks)[k]
        invariant forall k :: 0 <= k < i ==>
                    tasks[k] == if old(tasks)[k].status == Running
                                then old(tasks)[k].(status := Queued, error := Some("Recovered after bridge restart"))
                                else old(tasks)[k]
      {
        if tasks[i].status == Running {
          tasks := tasks[i := tasks[i].(status := Queued, error := Some("Recovered after bridge restart"))];
        }
      }
    }

    /** A failed or blocked task goes back to the queue; its attempts stand. */
    method RetryTask(i: nat) returns (ok: bool)
      modifies this`tasks
      ensures ok <==> i < |old(tasks)| && old(tasks)[i].status in {Failed, Blocked}
      ensures tasks == if ok then old(tasks)[i := old(tasks)[i].(status := Queued, error := None)] else old(tasks)
    {
      if i >= |tasks| || tasks[i].status !in {Failed, Blocked} {
        return false;
      }
      tasks := tasks[i := tasks[i].(status := Queued, error := None)];
      return true;
    }

    method CancelTask(i: nat) returns (ok: bool)
      modifies this`tasks
      ensures ok <==> i < |old(tasks)| && old(tasks)[i].status !in {Complete, Cancelled}
      ensures tasks == if ok then old(tasks)[i := old(tasks)[i].(status := Cancelled)] else old(tasks)
    {
      if i >= |tasks| || tasks[i].status in {Complete, Cancelled} {
        return false;
      }
      tasks := tasks[i := tasks[i].(status := Cancelled)];
      return true;
    }

    /** The first of the queued tasks sorted by creation time. */
    method NextQueued() returns (next: Option<nat>)
      ensures next.Some? ==> IsNext(tasks, next.value)
      ensures next.None? ==> forall i :: 0 <= i < |tasks| ==> tasks[i].status != Queued
    {
      next := None;
      for i := 0 to |tasks|
        invariant next.Some? ==> next.value < i && tasks[next.value].status == Queued
        invariant next.Some? ==>
                    forall j :: 0 <= j < i && j != next.value && tasks[j].status == Queued ==> Before(tasks, next.value, j)
        invariant next.None? ==> forall j :: 0 <= j < i ==> tasks[j].status != Queued
      {
        if tasks[i].status == Queued && (next.None? || tasks[i].createdAt < tasks[next.value].createdAt) {
          next := Some(i);
        }
      }
    }

    /** One execution of task i, and its record at the head of the run log. */
    method RunTask(i: nat, outcome: Outcome)
      requires i < |tasks|
      modifies this
      ensures tasks == old(tasks)[i := RunOnce(old(tasks)[i], outcome)]
      ensures |runs| == (if |old(runs)| >= 200 then 200 else |old(runs)| + 1)
      ensures runs[0] == tasks[i] && runs[1..] == old(runs)[..|runs| - 1]
    {
      tasks := tasks[i := tasks[i].(status := Running, attempts := tasks[i].attempts + 1)];
      match outcome {
        case Success(result) =>
          tasks := tasks[i := tasks[i].(status := Complete, result := Some(result))];
        case PermissionDenied(reason) =>
          tasks := tasks[i := tasks[i].(status := Blocked, error := Some(reason))];
        case Failure(error) =>
          tasks := tasks[i := tasks[i].(error := Some(error))];
          if tasks[i].attempts <= tasks[i].maxRetries {
            tasks := tasks[i := tasks[i].(status := Queued)];
          } else {
            tasks := tasks[i := tasks[i].(status := Failed)];
          }
      }
      runs := [tasks[i]] + runs;
      if |runs| > MAX_RUNS {
        runs := runs[..MAX_RUNS];
      }
    }

    /** The worker loop with nobody interfering. It executes the tasks named by `trace`,
        each time the one next in line, until the queue is empty. Every task ends as it
        would alone, and the number of executions is the sum of the tasks' own. */
    method Drain(oracle: Oracle) returns (finished: seq<nat>, executions: nat, ghost trace: seq<nat>)
      modifies this
      ensures InTurn(old(tasks), trace, oracle)
      ensures tasks == Played(old(tasks), trace, oracle) && runs == Logged(old(tasks), old(runs), trace, oracle)
      ensures finished == Leaving(old(tasks), trace, oracle) && executions == |trace|
      ensures |tasks| == |old(tasks)|
      ensures forall i :: 0 <= i < |tasks| ==> tasks[i] == Final(old(tasks)[i], oracle, i)
      ensures InCreationOrder(old(tasks), finished)
      ensures forall i :: 0 <= i < |tasks| ==> (i in finished <==> old(tasks)[i].status == Queued)
      ensures executions == TotalRuns(old(tasks), oracle) <= TotalBudget(old(tasks))
    {
      hide Underway, RunOnce, TotalRuns, TotalBudget, InTurn, Played, Leaving, Logged, Newest;
      finished, executions, trace := [], 0, [];
      RunsWithinBudget(tasks, oracle);
      NothingDoneYet(tasks, runs, oracle);
      var next := NextQueued();
      while next.Some?
        invariant next.Some? ==> IsNext(tasks, next.value)
        invariant next.None? ==> forall i :: 0 <= i < |tasks| ==> tasks[i].status != Queued
        invariant InTurn(old(tasks), trace, oracle)
        invariant tasks == Played(old(tasks), trace, oracle) && runs == Logged(old(tasks), old(runs), trace, oracle)
        invariant finished == Leaving(old(tasks), trace, oracle) && executions == |trace|
        invariant Underway(old(tasks), tasks, oracle, finished)
        invariant executions + TotalRuns(tasks, oracle) == TotalRuns(old(tasks), oracle)
        decreases TotalBudget(tasks)
      {
        var i := next.value;
        var outcome := oracle(i, tasks[i].attempts + 1);
        RoundKeeps(old(tasks), tasks, oracle, finished, i);
        RoundFalls(tasks, oracle, i);
        PlayedSnoc(old(tasks), old(runs), trace, i, oracle);
        InTurnSnoc(old(tasks), trace, i, oracle);
        RunTask(i, outcome);
        NewestIs(runs, tasks[i], Logged(old(tasks), old(runs), trace, oracle));
        executions, trace := executions + 1, trace + [i];
        if tasks[i].status != Queued {
          finished := finished + [i];
        }
        next := NextQueued();
      }
      NoRunsLeft(tasks, oracle);
      AllDone(old(tasks), tasks, oracle, finished);
    }
  }

  /** Part of a drain: what each task will end as is settled, and the finished
      tasks come, in order, before every task still queued. */
  ghost predicate Underway(start: seq<Task>, now: seq<Task>, oracle: Oracle, finished: seq<nat>) {
    && |now| == |start|
    && (forall i :: 0 <= i < |now| ==>
          now[i].createdAt == start[i].createdAt && Final(now[i], oracle, i) == Final(start[i], oracle, i))
    && (forall i :: 0 <= i < |now| ==> (start[i].status == Queued <==> now[i].status == Queued || i in finished))
    && InCreationOrder(start, finished)
    && (forall n, i :: 0 <= n < |finished| && 0 <= i < |now| && now[i].status == Queued ==> Before(start, finished[n], i))
  }

  lemma NothingDoneYet(tasks: seq<Task>, runs: seq<Task>, oracle: Oracle)
    ensures Underway(tasks, tasks, oracle, []) && InTurn(tasks, [], oracle)
    ensures Played(tasks, [], oracle) == tasks && Leaving(tasks, [], oracle) == [] && Logged(tasks, runs, [], oracle) == runs
  {
  }

  lemma AllDone(start: seq<Task>, now: seq<Task>, oracle: Oracle, finished: seq<nat>)
    requires Underway(start, now, oracle, finished) && forall i :: 0 <= i < |now| ==> now[i].status != Queued
    ensures |now| == |start| && InCreationOrder(start, finished)
    ensures forall i :: 0 <= i < |now| ==> now[i] == Final(start[i], oracle, i)
    ensures forall i :: 0 <= i < |now| ==> (i in finished <==> start[i].status == Queued)
  {
  }

  lemma RoundFalls(tasks: seq<Task>, oracle: Oracle, i: nat)
    requires i < |tasks| && tasks[i].status == Queued
    ensures var tasks' := tasks[i := RunOnce(tasks[i], oracle(i, tasks[i].attempts + 1))];
            TotalBudget(tasks') < TotalBudget(tasks) && TotalRuns(tasks, oracle) == 1 + TotalRuns(tasks', oracle)
  {
    var t := RunOnce(tasks[i], oracle(i, tasks[i].attempts + 1));
    RunOnceSpendsBudget(tasks[i], oracle(i, tasks[i].attempts + 1));
    TotalBudgetFalls(tasks, i, t);
    TotalRunsFalls(tasks, oracle, i, t);
  }

  lemma RoundKeeps(start: seq<Task>, now: seq<Task>, oracle: Oracle, finished: seq<nat>, i: nat)
    requires Underway(start, now, oracle, finished) && IsNext(now, i)
    ensures var t := RunOnce(now[i], oracle(i, now[i].attempts + 1));
            Underway(start, now[i := t], oracle, if t.status == Queued then finished else finished + [i])
  {
    var t := RunOnce(now[i], oracle(i, now[i].attempts + 1));
    assert t.createdAt == now[i].createdAt;
    assert Final(t, oracle, i) == Final(now[i], oracle, i);
    hide RunOnce, Final;
    assert forall j :: 0 <= j < |now| && j != i && now[j].status == Queued ==> Before(start, i, j);
  }

  /** A failed task put back by hand gets exactly one more run. */
  lemma RetryGrantsOneRun(t: Task, oracle: Oracle, i: nat)
    requires t.status == Failed && t.attempts > t.maxRetries
    ensures RunsOf(t.(status := Queued, error := None), oracle, i) == 1
  {
    FinalMeaning(t.(status := Queued, error := None), oracle, i);
  }
}
