/** The strict sliding-window limiter used for messages and for provider requests.
    Each attempt happens atomically at a clock reading; readings never go back. */
module SlidingWindow {
  import opened Wrappers

  ghost predicate Sorted(ts: seq<real>) {
    forall i, j :: 0 <= i < j < |ts| ==> ts[i] <= ts[j]
  }

  ghost predicate NotAfter(ts: seq<real>, now: real) {
    forall i :: 0 <= i < |ts| ==> ts[i] <= now
  }

  /** How many of the times lie in (lo, hi]. */
  ghost function CountIn(ts: seq<real>, lo: real, hi: real): nat {
    if ts == [] then 0
    else CountIn(ts[..|ts| - 1], lo, hi) + (if lo < ts[|ts| - 1] <= hi then 1 else 0)
  }

  /** One request of the reference limiter: it is granted when fewer than `limit`
      grants lie in (now - window, now]. */
  ghost function Asked(limit: nat, window: real, before: seq<real>, now: real): seq<real> {
    if CountIn(before, now - window, now) < limit then before + [now] else before
  }

  /** The grant history of the reference limiter. */
  ghost function Grants(limit: nat, window: real, clocks: seq<real>): seq<real> {
    if clocks == [] then []
    else Asked(limit, window, Grants(limit, window, clocks[..|clocks| - 1]), clocks[|clocks| - 1])
  }

  lemma GrantsSnoc(limit: nat, window: real, clocks: seq<real>, now: real)
    ensures Grants(limit, window, clocks + [now]) == Asked(limit, window, Grants(limit, window, clocks), now)
  {
    hide Asked;
    assert (clocks + [now])[..|clocks|] == clocks;
  }

  /** In a sorted history that ends by `hi`, the times after `lo` are the last ones. */
  lemma {:induction false} CountLast(ts: seq<real>, lo: real, hi: real, k: nat)
    requires k <= |ts|
    requires forall i :: 0 <= i < |ts| ==> ts[i] <= hi && (ts[i] <= lo <==> i < k)
    ensures CountIn(ts, lo, hi) == |ts| - k
  {
    if ts != [] {
      var front := ts[..|ts| - 1];
      if k == |ts| {
        CountLast(front, lo, hi, k - 1);
      } else {
        CountLast(front, lo, hi, k);
      }
    }
  }

  /** Where the times after `lo` begin. */
  lemma {:induction false} FirstAfter(ts: seq<real>, lo: real) returns (k: nat)
    requires Sorted(ts)
    ensures k <= |ts| && forall i :: 0 <= i < |ts| ==> (ts[i] <= lo <==> i < k)
  {
    if ts == [] || ts[|ts| - 1] <= lo {
      k := |ts|;
    } else {
      k := FirstAfter(ts[..|ts| - 1], lo);
    }
  }

  /** In a sorted history ending by `now`, fewer than `limit` grants are recent
      exactly when the limit-th newest, if there is one, has left the window. */
  lemma RecentIffNewest(ts: seq<real>, limit: nat, window: real, now: real)
    requires Sorted(ts) && limit > 0 && NotAfter(ts, now)
    ensures CountIn(ts, now - window, now) < limit <==> |ts| < limit || ts[|ts| - limit] <= now - window
  {
    var k := FirstAfter(ts, now - window);
    CountLast(ts, now - window, now, k);
  }

  // ---- The guarantee over whole runs -------------------------------------------

  /** Any grant comes at least a window after the one `limit` places before it. */
  ghost predicate Spaced(ts: seq<real>, limit: nat, window: real) {
    forall i :: 0 <= i < |ts| - limit ==> ts[i + limit] >= ts[i] + window
  }

  lemma SpacedSnoc(before: seq<real>, limit: nat, window: real, now: real)
    requires limit > 0 && window > 0.0
    requires Sorted(before) && Spaced(before, limit, window) && NotAfter(before, now)
    requires CountIn(before, now - window, now) < limit
    ensures Sorted(before + [now]) && Spaced(before + [now], limit, window)
  {
    RecentIffNewest(before, limit, window, now);
    hide CountIn;
    var after := before + [now];
    forall i | 0 <= i < |after| - limit
      ensures after[i + limit] >= after[i] + window
    {
      if i + limit < |before| {
        assert before[i + limit] >= before[i] + window;
      }
    }
  }

  /** What every history satisfies at clock reading `now`. */
  ghost predicate Proper(ts: seq<real>, limit: nat, window: real, now: real) {
    Sorted(ts) && Spaced(ts, limit, window) && NotAfter(ts, now)
  }

  lemma ProperSnoc(before: seq<real>, limit: nat, window: real, earlier: real, now: real)
    requires limit > 0 && window > 0.0 && earlier <= now
    requires Proper(before, limit, window, earlier)
    ensures Proper(before, limit, window, now)
    ensures Proper(Asked(limit, window, before, now), limit, window, now)
  {
    if CountIn(before, now - window, now) < limit {
      SpacedSnoc(before, limit, window, now);
    }
  }

  lemma SortedFront(clocks: seq<real>, now: real)
    requires clocks != [] && Sorted(clocks) && NotAfter(clocks, now)
    ensures Sorted(clocks[..|clocks| - 1]) && NotAfter(clocks[..|clocks| - 1], clocks[|clocks| - 1])
    ensures NotAfter(clocks, clocks[|clocks| - 1]) && clocks[|clocks| - 1] <= now
  {
  }

  lemma {:induction false} GrantsAreProper(limit: nat, window: real, clocks: seq<real>, now: real)
    requires limit > 0 && window > 0.0 && Sorted(clocks) && NotAfter(clocks, now)
    ensures Proper(Grants(limit, window, clocks), limit, window, now)
  {
    if clocks == [] {
      assert Proper([], limit, window, now);
    } else {
      hide Sorted, NotAfter, Asked, Proper, Grants;
      var front, last := clocks[..|clocks| - 1], clocks[|clocks| - 1];
      SortedFront(clocks, now);
      GrantsAreProper(limit, window, front, last);
      GrantsSnoc(limit, window, front, last);
      assert clocks == front + [last];
      ProperSnoc(Grants(limit, window, front), limit, window, last, last);
      ProperSnoc(Grants(limit, window, clocks), limit, window, last, now);
    }
  }

  /** In every run, grant number i + limit comes at least a window after grant i. */
  lemma GrantsAreSpaced(limit: nat, window: real, clocks: seq<real>)
    requires limit > 0 && window > 0.0 && Sorted(clocks)
    ensures Sorted(Grants(limit, window, clocks)) && Spaced(Grants(limit, window, clocks), limit, window)
  {
    if clocks != [] {
      GrantsAreProper(limit, window, clocks, clocks[|clocks| - 1]);
    }
  }

  lemma {:induction false} CountMany(ts: seq<real>, lo: real, hi: real) returns (k: nat)
    requires Sorted(ts)
    ensures CountIn(ts, lo, hi) > 0 ==>
              k + CountIn(ts, lo, hi) <= |ts| && lo < ts[k] && ts[k + CountIn(ts, lo, hi) - 1] <= hi
  {
    if ts == [] {
      k := 0;
    } else {
      var front, last := ts[..|ts| - 1], ts[|ts| - 1];
      k := CountMany(front, lo, hi);
      if CountIn(front, lo, hi) == 0 {
        k := |ts| - 1;
      } else if lo < last <= hi {
        k := |ts| - CountIn(ts, lo, hi);
        var j := FirstAfter(ts, lo);
        CountLast(ts, lo, hi, j);
      }
    }
  }

  /** At most `limit` grants fall into any half-open window, at any time. */
  lemma AtMostLimitPerWindow(limit: nat, window: real, clocks: seq<real>, t: real)
    requires limit > 0 && window > 0.0 && Sorted(clocks)
    ensures CountIn(Grants(limit, window, clocks), t, t + window) <= limit
  {
    hide Grants, CountIn;
    var g := Grants(limit, window, clocks);
    GrantsAreSpaced(limit, window, clocks);
    var k := CountMany(g, t, t + window);
    assert k + limit < |g| && t < g[k] ==> forall j :: k + limit <= j < |g| ==> g[j] > t + window by {
      if k + limit < |g| && t < g[k] {
        assert g[k + limit] >= g[k] + window;
      }
    }
  }

  // ---- Closed windows ------------------------------------------------------------

  /** How many of the times lie in [lo, hi]. */
  ghost function CountClosed(ts: seq<real>, lo: real, hi: real): nat {
    if ts == [] then 0
    else CountClosed(ts[..|ts| - 1], lo, hi) + (if lo <= ts[|ts| - 1] <= hi then 1 else 0)
  }

  ghost predicate CrowdedFrom(ts: seq<real>, limit: nat, window: real, t: real) {
    CountClosed(ts, t, t + window) > limit
  }

  /** Some closed interval of the window's length holds more than `limit` of the times. */
  ghost predicate Crowded(ts: seq<real>, limit: nat, window: real) {
    exists t :: CrowdedFrom(ts, limit, window, t)
  }

  /** In a sorted history the times of a closed interval stand together. */
  lemma {:induction false} ClosedRange(ts: seq<real>, lo: real, hi: real) returns (a: nat, b: nat)
    requires Sorted(ts)
    ensures a <= b <= |ts| && CountClosed(ts, lo, hi) == b - a
    ensures forall i :: 0 <= i < |ts| ==> (lo <= ts[i] <= hi <==> a <= i < b)
  {
    if ts == [] {
      a, b := 0, 0;
    } else {
      var n := |ts| - 1;
      a, b := ClosedRange(ts[..n], lo, hi);
      if lo <= ts[n] <= hi {
        assert a < b ==> lo <= ts[..n][a];
        assert a < b ==> forall i :: a <= i < n ==> ts[..n][i] == ts[i] && lo <= ts[i] <= hi;
        a, b := if a == b then n else a, n + 1;
      }
    }
  }

  ghost predicate Close(ts: seq<real>, limit: nat, window: real, i: nat) {
    i + limit < |ts| && ts[i + limit] <= ts[i] + window
  }

  /** A sorted history is crowded when two times `limit` places apart are within a window. */
  lemma CrowdedIffClose(ts: seq<real>, limit: nat, window: real)
    requires Sorted(ts) && window > 0.0
    ensures Crowded(ts, limit, window) <==> exists i: nat :: Close(ts, limit, window, i)
  {
    if t :| CrowdedFrom(ts, limit, window, t) {
      var a, b := ClosedRange(ts, t, t + window);
      assert t <= ts[a] <= t + window && t <= ts[a + limit] <= t + window;
      assert Close(ts, limit, window, a);
    }
    if i: nat :| Close(ts, limit, window, i) {
      var a, b := ClosedRange(ts, ts[i], ts[i] + window);
      assert a <= i < b && a <= i + limit < b;
      assert CrowdedFrom(ts, limit, window, ts[i]);
    }
  }

  /** The request arrives exactly a window after the grant `limit` places back, the
      one moment at which popping with `<=` and a closed window disagree. */
  ghost predicate AtTheEdge(before: seq<real>, limit: nat, window: real, now: real) {
    0 < limit <= |before| && before[|before| - limit] == now - window
  }

  /** The n-th request arrives at that moment. */
  ghost predicate EdgeAt(limit: nat, window: real, clocks: seq<real>, n: nat)
    requires n < |clocks|
  {
    AtTheEdge(Grants(limit, window, clocks[..n]), limit, window, clocks[n])
  }

  /** A later time adds at most one close pair, the one it ends. */
  lemma CloseAfter(before: seq<real>, limit: nat, window: real, now: real)
    requires limit > 0
    ensures (exists i: nat :: Close(before + [now], limit, window, i))
            <==> (exists i: nat :: Close(before, limit, window, i))
                 || (limit <= |before| && now <= before[|before| - limit] + window)
  {
    var after := before + [now];
    forall i: nat
      ensures Close(after, limit, window, i)
              <==> Close(before, limit, window, i) || (i == |before| - limit && now <= before[i] + window)
    {
    }
    hide Close;
    if limit <= |before| && now <= before[|before| - limit] + window {
      assert Close(after, limit, window, |before| - limit);
    }
  }

  /** A request crowds a closed window if and only if it arrives at that moment. */
  lemma RequestCrowdsIff(before: seq<real>, limit: nat, window: real, now: real)
    requires limit > 0 && window > 0.0 && Proper(before, limit, window, now)
    ensures Crowded(Asked(limit, window, before, now), limit, window)
            <==> Crowded(before, limit, window) || AtTheEdge(before, limit, window, now)
  {
    SortedSnoc(before, now);
    RecentIffNewest(before, limit, window, now);
    hide Crowded, CountIn, Sorted, NotAfter, Close, Spaced;
    CrowdedIffClose(before, limit, window);
    CrowdedIffClose(before + [now], limit, window);
    CloseAfter(before, limit, window, now);
  }

  /** Over every run: some closed window holds more than `limit` grants if and only if
      some request arrived exactly a window after the grant `limit` places back. */
  lemma {:induction false} ClosedWindowsOverflowIff(limit: nat, window: real, clocks: seq<real>)
    requires limit > 0 && window > 0.0 && Sorted(clocks)
    ensures Crowded(Grants(limit, window, clocks), limit, window)
            <==> exists n :: 0 <= n < |clocks| && EdgeAt(limit, window, clocks, n)
  {
    if clocks == [] {
      CrowdedIffClose([], limit, window);
      EmptyRun(limit, window);
    } else {
      var front, last := clocks[..|clocks| - 1], clocks[|clocks| - 1];
      SortedFront(clocks, last);
      hide *;
      ClosedWindowsOverflowIff(limit, window, front);
      GrantsAreProper(limit, window, front, last);
      RequestCrowdsIff(Grants(limit, window, front), limit, window, last);
      GrantsSnoc(limit, window, front, last);
      assert clocks == front + [last];
      EdgesOfFront(limit, window, front, last);
    }
  }

  lemma EdgesOfFront(limit: nat, window: real, front: seq<real>, last: real)
    ensures var clocks := front + [last];
            && (forall n :: 0 <= n < |front| ==>
                  (EdgeAt(limit, window, clocks, n) <==> EdgeAt(limit, window, front, n)))
            && (EdgeAt(limit, window, clocks, |front|) <==> AtTheEdge(Grants(limit, window, front), limit, window, last))
  {
    hide Grants, AtTheEdge;
    var clocks := front + [last];
    assert forall n :: 0 <= n < |front| ==> clocks[..n] == front[..n];
    assert clocks[..|front|] == front;
  }

  /** The promise "at most N in any interval of length W" fails for closed
      intervals: two requests a window apart are both granted at limit one. */
  lemma ClosedWindowOverflow(window: real)
    requires window > 0.0
    ensures CountClosed(Grants(1, window, [0.0, window]), 0.0, 0.0 + window) == 2
  {
    GrantsSnoc(1, window, [], 0.0);
    GrantsSnoc(1, window, [0.0], window);
    assert Grants(1, window, []) == [] && Asked(1, window, [], 0.0) == [] + [0.0] == [0.0];
    assert CountIn([0.0], window - window, window) == CountIn([0.0][..0], window - window, window) == 0;
    assert [] + [0.0] == [0.0] && [0.0] + [window] == [0.0, window];
    assert Grants(1, window, [0.0, window]) == [0.0, window];
    assert [0.0, window][..1] == [0.0] && [0.0][..0] == [];
    assert CountClosed([0.0], 0.0, 0.0 + window) == 1;
  }

  /** A refused request that tries again, with no grant in between, succeeds exactly
      from the moment the limit-th newest grant leaves the window. */
  lemma RetrySucceedsIff(ts: seq<real>, limit: nat, window: real, now: real, later: real)
    requires Sorted(ts) && limit > 0 && now <= later && NotAfter(ts, now)
    requires CountIn(ts, now - window, now) >= limit
    ensures |ts| >= limit && ts[|ts| - limit] + window > now
    ensures CountIn(ts, later - window, later) < limit <==> later >= ts[|ts| - limit] + window
  {
    RecentIffNewest(ts, limit, window, now);
    RecentIffNewest(ts, limit, window, later);
  }

  // ---- The limiter ---------------------------------------------------------------

  /** `times` is the end of the history; what was dropped is not after `cutoff`. */
  ghost predicate Ends(times: seq<real>, history: seq<real>, cutoff: real) {
    && |times| <= |history|
    && times == history[|history| - |times|..]
    && forall i :: 0 <= i < |history| - |times| ==> history[i] <= cutoff
  }

  lemma EndsSnoc(times: seq<real>, history: seq<real>, cutoff: real, now: real)
    requires Ends(times, history, cutoff)
    ensures Ends(times + [now], history + [now], cutoff)
  {
  }

  lemma EndsPop(times: seq<real>, history: seq<real>, cutoff: real)
    requires Ends(times, history, cutoff) && times != [] && times[0] <= cutoff
    ensures Ends(times[1..], history, cutoff)
  {
    assert times[0] == history[|history| - |times|];
  }

  lemma EndsAfter(times: seq<real>, history: seq<real>, earlier: real, cutoff: real)
    requires Ends(times, history, earlier) && earlier <= cutoff
    ensures Ends(times, history, cutoff)
  {
  }

  /** When nothing more can be popped, what is left is what the window holds. */
  lemma EndsCount(times: seq<real>, history: seq<real>, cutoff: real, now: real)
    requires Ends(times, history, cutoff) && (times != [] ==> times[0] > cutoff)
    requires Sorted(history) && NotAfter(history, now)
    ensures |times| == CountIn(history, cutoff, now)
    ensures times != [] ==> |times| <= |history| && times[0] == history[|history| - |times|]
  {
    var k := |history| - |times|;
    assert times != [] ==> times[0] == history[k];
    CountLast(history, cutoff, now, k);
  }

  lemma SortedSnoc(ts: seq<real>, now: real)
    requires Sorted(ts) && NotAfter(ts, now)
    ensures Sorted(ts + [now])
  {
  }

  class Limiter {
    const limit: nat
    const window: real
    var times: seq<real>
    ghost var clocks: seq<real>

    ghost function History(): seq<real>
      reads this
    {
      Grants(limit, window, clocks)
    }

    ghost predicate Valid()
      reads this
    {
      && limit > 0 && window > 0.0 && |times| <= limit
      && Sorted(clocks)
      && (if clocks == [] then times == [] else Ends(times, History(), clocks[|clocks| - 1] - window))
    }

    constructor (limit: nat, window: real)
      requires limit > 0 && window > 0.0
      ensures Valid() && clocks == [] && this.limit == limit && this.window == window
    {
      this.limit := limit;
      this.window := window;
      times, clocks := [], [];
    }

    /** Construction fails on a limit or a window that is not positive. */
    static method Create(limit: int, window: real) returns (r: Option<Limiter>)
      ensures r.Some? <==> limit > 0 && window > 0.0
      ensures r.Some? ==> fresh(r.value) && r.value.Valid() && r.value.clocks == []
      ensures r.Some? ==> r.value.limit == limit && r.value.window == window
    {
      if limit <= 0 || window <= 0.0 {
        return None;
      }
      var limiter := new Limiter(limit, window);
      r := Some(limiter);
    }

    /** One attempt under the lock. It grants what the reference grants, and a
        refusal says how long until the limit-th newest grant expires. */
    method TryAcquire(now: real) returns (wait: Option<real>)
      requires Valid()
      requires NotAfter(clocks, now)
      modifies this
      ensures Valid() && clocks == old(clocks) + [now]
      ensures wait.None? <==> CountIn(old(History()), now - window, now) < limit
      ensures History() == if wait.None? then old(History()) + [now] else old(History())
      ensures wait.Some? ==> |History()| >= limit && wait.value > 0.0
                             && now + wait.value == History()[|History()| - limit] + window
    {
      hide Grants, CountIn, Spaced, Ends, Sorted, NotAfter;
      ghost var history := History();
      GrantsAreProper(limit, window, clocks, now);
      GrantsSnoc(limit, window, clocks, now);
      SortedSnoc(clocks, now);
      var cutoff := now - window;
      DropExpired(cutoff, now);
      EndsSnoc(times, history, cutoff, now);
      assert Asked(limit, window, history, now) == if |times| < limit then history + [now] else history;
      hide Asked, Proper;
      clocks := clocks + [now];
      assert clocks[|clocks| - 1] == now && History() == Asked(limit, window, history, now);
      if |times| < limit {
        times := times + [now];
        wait := None;
      } else {
        var remaining := times[0] + window - now;
        wait := Some(if remaining > 0.0 then remaining else 0.0);
      }
    }

    /** Pop the times that have left the window. */
    method DropExpired(cutoff: real, ghost now: real)
      requires Valid() && Sorted(History()) && NotAfter(History(), now)
      requires now == cutoff + window && NotAfter(clocks, now)
      modifies this`times
      ensures |times| <= limit && Ends(times, History(), cutoff)
      ensures |times| == CountIn(History(), cutoff, now)
      ensures times != [] ==> |times| <= |History()| && times[0] > cutoff && times[0] == History()[|History()| - |times|]
    {
      assert clocks != [] ==> clocks[|clocks| - 1] <= now;
      EmptyRun(limit, window);
      hide Grants, Sorted, NotAfter, CountIn;
      assert Ends([], [], cutoff);
      hide Ends;
      if clocks != [] {
        EndsAfter(times, History(), clocks[|clocks| - 1] - window, cutoff);
      }
      while |times| > 0 && times[0] <= cutoff
        invariant |times| <= limit && Ends(times, History(), cutoff)
        decreases |times|
      {
        EndsPop(times, History(), cutoff);
        times := times[1..];
      }
      EndsCount(times, History(), cutoff, now);
    }
  }

  lemma EmptyRun(limit: nat, window: real)
    ensures Grants(limit, window, []) == []
  {
  }
}
