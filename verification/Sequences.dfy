/** Facts about sequences that several modules need. */
module Sequences {

  lemma ConcatAssociative<T>(a: seq<T>, b: seq<T>, c: seq<T>)
    ensures (a + b) + c == a + (b + c)
  {
  }

  lemma SplitLast<T>(s: seq<T>)
    requires s != []
    ensures s == s[..|s| - 1] + [s[|s| - 1]]
  {
  }

  lemma EmptyIff<T>(s: seq<T>)
    ensures s == [] <==> forall x :: x !in s
  {
    if s != [] {
      assert s[0] in s;
    }
  }

  function Flatten<T>(groups: seq<seq<T>>): seq<T> {
    if groups == [] then [] else Flatten(groups[..|groups| - 1]) + groups[|groups| - 1]
  }

  lemma FlattenSnoc<T>(groups: seq<seq<T>>, g: seq<T>)
    ensures Flatten(groups + [g]) == Flatten(groups) + g
  {
    assert (groups + [g])[..|groups|] == groups;
  }

  /** `picked` stands in `from` at the places `ks`, in their order. */
  ghost predicate Picks<T>(ks: seq<nat>, picked: seq<T>, from: seq<T>) {
    && |ks| == |picked|
    && (forall i :: 0 <= i < |ks| ==> ks[i] < |from| && picked[i] == from[ks[i]])
    && (forall i, j :: 0 <= i < j < |ks| ==> ks[i] < ks[j])
  }

  /** `part` is left of `whole` when other elements are dropped. */
  ghost predicate Subsequence<T>(part: seq<T>, whole: seq<T>) {
    exists ks: seq<nat> :: Picks(ks, part, whole)
  }

  lemma SubsequenceSnoc<T>(part: seq<T>, whole: seq<T>, x: T)
    requires Subsequence(part, whole)
    ensures Subsequence(part, whole + [x]) && Subsequence(part + [x], whole + [x])
  {
    var ks: seq<nat> :| Picks(ks, part, whole);
    PicksSnoc(ks, part, whole, x);
    hide Picks;
  }

  lemma SubsequenceOfNothing<T>(whole: seq<T>)
    ensures Subsequence([], whole)
  {
    assert Picks([], [], whole);
  }

  /** The elements of `part` stand in the order in which they first occur in `whole`:
      wherever a later one occurs, an earlier one has occurred before. */
  ghost predicate ByFirstOccurrence<T>(part: seq<T>, whole: seq<T>) {
    forall i, j, k :: 0 <= i < j < |part| && 0 <= k < |whole| && whole[k] == part[j] ==> part[i] in whole[..k]
  }

  lemma FirstOccurrenceSnoc<T>(part: seq<T>, whole: seq<T>, x: T)
    requires ByFirstOccurrence(part, whole) && forall y :: y in part ==> y in whole
    ensures ByFirstOccurrence(part, whole + [x])
    ensures x !in whole ==> ByFirstOccurrence(part + [x], whole + [x])
  {
    var all := whole + [x];
    forall i, j, k | 0 <= i < j < |part| && 0 <= k < |all| && all[k] == part[j]
      ensures part[i] in all[..k]
    {
      assert all[..k] == whole[..k];
      assert k == |whole| ==> whole[..k] == whole;
    }
    assert ByFirstOccurrence(part, all);
    if x !in whole {
      forall i, j, k | 0 <= i < j < |part + [x]| && 0 <= k < |all| && all[k] == (part + [x])[j]
        ensures (part + [x])[i] in all[..k]
      {
        assert k < |whole| ==> all[k] == whole[k] && whole[k] in whole;
        assert all[..|whole|] == whole;
      }
    }
  }

  /** The places in `s` of exactly the elements that satisfy `p`, in ascending order. */
  ghost predicate Places<T>(ks: seq<nat>, s: seq<T>, p: T -> bool) {
    && (forall i :: 0 <= i < |ks| ==> ks[i] < |s| && p(s[ks[i]]))
    && (forall i, j :: 0 <= i < j < |ks| ==> ks[i] < ks[j])
    && (forall k: nat :: k < |s| && p(s[k]) ==> k in ks)
  }

  /** `out` has, in order, one counterpart by `r` of each element of `s` that satisfies `p`. */
  ghost predicate Counterparts<T, U>(ks: seq<nat>, s: seq<T>, p: T -> bool, out: seq<U>, r: (T, U) -> bool) {
    && Places(ks, s, p) && |ks| == |out|
    && forall n :: 0 <= n < |ks| ==> r(s[ks[n]], out[n])
  }

  lemma NoCounterpart<T, U>(ks: seq<nat>, s: seq<T>, x: T, p: T -> bool, out: seq<U>, r: (T, U) -> bool)
    requires Counterparts(ks, s, p, out, r) && !p(x)
    ensures Counterparts(ks, s + [x], p, out, r)
  {
    PlacesSnoc(ks, s, x, p);
    KnownPlaces(ks, s, p);
    hide Places;
    forall n | 0 <= n < |ks|
      ensures r((s + [x])[ks[n]], out[n])
    {
      assert (s + [x])[ks[n]] == s[ks[n]];
    }
  }

  lemma OneCounterpart<T, U>(ks: seq<nat>, s: seq<T>, x: T, p: T -> bool, out: seq<U>, y: U, r: (T, U) -> bool)
    requires Counterparts(ks, s, p, out, r) && p(x) && r(x, y)
    ensures Counterparts(ks + [|s|], s + [x], p, out + [y], r)
  {
    PlacesSnoc(ks, s, x, p);
    KnownPlaces(ks, s, p);
    hide Places;
    var ks' := ks + [|s|];
    forall n | 0 <= n < |ks'|
      ensures r((s + [x])[ks'[n]], (out + [y])[n])
    {
      if n < |ks| {
        assert (s + [x])[ks[n]] == s[ks[n]];
      }
    }
  }

  lemma KnownPlaces<T>(ks: seq<nat>, s: seq<T>, p: T -> bool)
    requires Places(ks, s, p)
    ensures forall i :: 0 <= i < |ks| ==> ks[i] < |s| && p(s[ks[i]])
  {
  }

  lemma PlacesSnoc<T>(ks: seq<nat>, s: seq<T>, x: T, p: T -> bool)
    requires Places(ks, s, p)
    ensures Places(if p(x) then ks + [|s|] else ks, s + [x], p)
  {
    var ks', all := if p(x) then ks + [|s|] else ks, s + [x];
    forall k: nat | k < |all| && p(all[k])
      ensures k in ks'
    {
      if k < |s| {
        assert p(s[k]) && k in ks;
      } else {
        assert ks'[|ks|] == k;
      }
    }
  }

  lemma PicksSnoc<T>(ks: seq<nat>, picked: seq<T>, from: seq<T>, x: T)
    requires Picks(ks, picked, from)
    ensures Picks(ks, picked, from + [x])
    ensures Picks(ks + [|from|], picked + [x], from + [x])
    ensures forall k: nat :: k in ks ==> k < |from|
    ensures forall k: nat :: k in ks + [|from|] <==> k in ks || k == |from|
  {
  }

  ghost predicate Distinct<T>(s: seq<T>) {
    forall i, j :: 0 <= i < j < |s| ==> s[i] != s[j]
  }

  lemma {:induction false} DistinctFits<T>(s: seq<T>, within: set<T>)
    requires Distinct(s) && forall x :: x in s ==> x in within
    ensures |s| <= |within|
  {
    if s != [] {
      var last := s[|s| - 1];
      DistinctFits(s[..|s| - 1], within - {last});
    }
  }

  lemma {:induction false} DistinctCount<T>(s: seq<T>, x: T)
    requires Distinct(s)
    ensures multiset(s)[x] == if x in s then 1 else 0
  {
    if s != [] {
      var front, last := s[..|s| - 1], s[|s| - 1];
      DistinctCount(front, x);
      assert s == front + [last];
    }
  }

  lemma FlattenConcatSnoc<T>(a: seq<seq<T>>, front: seq<seq<T>>, last: seq<T>)
    requires Flatten(a + front) == Flatten(a) + Flatten(front)
    ensures Flatten(a + (front + [last])) == Flatten(a) + Flatten(front + [last])
  {
    hide Flatten;
    FlattenSnoc(a + front, last);
    FlattenSnoc(front, last);
    ConcatAssociative(a, front, [last]);
    ConcatAssociative(Flatten(a), Flatten(front), last);
  }

  lemma {:induction false} FlattenConcat<T>(a: seq<seq<T>>, b: seq<seq<T>>)
    ensures Flatten(a + b) == Flatten(a) + Flatten(b)
  {
    if b == [] {
      assert a + b == a;
    } else {
      hide Flatten;
      FlattenConcat(a, b[..|b| - 1]);
      SplitLast(b);
      FlattenConcatSnoc(a, b[..|b| - 1], b[|b| - 1]);
    }
  }

  lemma {:induction false} FlattenHas<T>(groups: seq<seq<T>>, x: T)
    ensures x in Flatten(groups) <==> exists l :: 0 <= l < |groups| && x in groups[l]
  {
    if groups != [] {
      FlattenHas(groups[..|groups| - 1], x);
    }
  }

  /** Repetition-free groups that share nothing flatten without repetition. */
  lemma {:induction false} FlattenDistinct<T>(groups: seq<seq<T>>)
    requires forall l :: 0 <= l < |groups| ==> Distinct(groups[l])
    requires forall l, m, x :: 0 <= l < m < |groups| && x in groups[l] ==> x !in groups[m]
    ensures Distinct(Flatten(groups))
  {
    if groups != [] {
      var front, last := groups[..|groups| - 1], groups[|groups| - 1];
      FlattenDistinct(front);
      forall x | x in Flatten(front)
        ensures x !in last
      {
        FlattenHas(front, x);
      }
      var a := Flatten(front);
      forall i, j | 0 <= i < j < |a + last|
        ensures (a + last)[i] != (a + last)[j]
      {
        if i < |a| && j >= |a| {
          assert a[i] in a;
        }
      }
    }
  }

  /** A permutation of a repetition-free sequence is repetition-free. */
  lemma PermutationDistinct<T>(a: seq<T>, b: seq<T>)
    requires Distinct(a) && multiset(a) == multiset(b)
    ensures Distinct(b)
  {
    forall i, j | 0 <= i < j < |b|
      ensures b[i] != b[j]
    {
      DistinctCount(a, b[i]);
      assert b == b[..j] + [b[j]] + b[j + 1..];
      assert b[i] in b[..j];
    }
  }

  /** Flattening keeps the order of the groups. */
  lemma {:induction false} FlattenBefore<T>(groups: seq<seq<T>>, m: nat, l: nat, x: T, y: T) returns (a: nat, b: nat)
    requires m < l < |groups| && x in groups[m] && y in groups[l]
    ensures a < b < |Flatten(groups)| && Flatten(groups)[a] == x && Flatten(groups)[b] == y
  {
    var front, last := groups[..|groups| - 1], groups[|groups| - 1];
    if l < |front| {
      a, b := FlattenBefore(front, m, l, x, y);
    } else {
      FlattenHas(front, x);
      assert x in front[m];
      a :| 0 <= a < |Flatten(front)| && Flatten(front)[a] == x;
      var k :| 0 <= k < |last| && last[k] == y;
      b := |Flatten(front)| + k;
    }
  }
}
