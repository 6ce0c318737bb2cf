/**
 Deleting from an unordered list by moving the last entry into the gap, in the three
 ways the registry does it: only the first match; every match, starting over after
 each; and every match in one pass, which does not look at the entry just moved.
 */
module SwapList {
  function SwapRemove<T>(s: seq<T>, x: nat): (r: seq<T>)
    requires x < |s|
    ensures |r| == |s| - 1
  {
    s[x := s[|s| - 1]][..|s| - 1]
  }

  /** No entry has this id. */
  predicate Gone<T>(s: seq<T>, key: T -> int, id: int) {
    forall i :: 0 <= i < |s| ==> key(s[i]) != id
  }

  /** Every entry with another id occurs in t as often as in s. */
  ghost predicate Conserves<T(!new)>(s: seq<T>, t: seq<T>, key: T -> int, id: int) {
    forall e :: key(e) != id ==> multiset(t)[e] == multiset(s)[e]
  }

  lemma UpdateMultiset<T(!new)>(s: seq<T>, x: nat, e: T)
    requires x < |s|
    ensures multiset(s[x := e]) == multiset(s) - multiset{s[x]} + multiset{e}
  {
  }

  lemma SnocMultiset<T(!new)>(s: seq<T>, e: T)
    ensures multiset(s + [e]) == multiset(s) + multiset{e}
  {
  }

  lemma SwapRemoveMultiset<T(!new)>(s: seq<T>, x: nat)
    requires x < |s|
    ensures multiset(SwapRemove(s, x)) == multiset(s) - multiset{s[x]}
  {
    var last := s[|s| - 1];
    UpdateMultiset(s, x, last);
    SnocMultiset(SwapRemove(s, x), last);
    assert s[x := last] == SwapRemove(s, x) + [last];
    SameWithout(multiset(SwapRemove(s, x)), multiset(s) - multiset{s[x]}, last);
  }

  lemma SameWithout<T(!new)>(a: multiset<T>, b: multiset<T>, e: T)
    requires a + multiset{e} == b + multiset{e}
    ensures a == b
  {
    assert a == a + multiset{e} - multiset{e};
    assert b == b + multiset{e} - multiset{e};
  }

  lemma SwapRemoveConserves<T(!new)>(s: seq<T>, x: nat, key: T -> int, id: int)
    requires x < |s| && key(s[x]) == id
    ensures Conserves(s, SwapRemove(s, x), key, id)
  {
    SwapRemoveMultiset(s, x);
  }

  lemma ConservesTransitive<T(!new)>(s: seq<T>, t: seq<T>, u: seq<T>, key: T -> int, id: int)
    requires Conserves(s, t, key, id) && Conserves(t, u, key, id)
    ensures Conserves(s, u, key, id)
  {
    forall e | key(e) != id ensures multiset(u)[e] == multiset(s)[e] {
      assert multiset(t)[e] == multiset(s)[e];
    }
  }

  // ----- only the first match

  function RemoveFirst<T>(s: seq<T>, key: T -> int, id: int, x: nat): seq<T>
    requires x <= |s|
    decreases |s| - x
  {
    if x == |s| then s
    else if key(s[x]) == id then SwapRemove(s, x)
    else RemoveFirst(s, key, id, x + 1)
  }

  function Matches<T>(s: seq<T>, key: T -> int, id: int, from: nat, end: nat): nat
    requires from <= end <= |s|
  {
    if from == end then 0 else Matches(s, key, id, from, end - 1) + if key(s[end - 1]) == id then 1 else 0
  }

  lemma {:induction false} MatchesFront<T>(s: seq<T>, key: T -> int, id: int, from: nat, end: nat)
    requires from < end <= |s|
    ensures Matches(s, key, id, from, end) == (if key(s[from]) == id then 1 else 0) + Matches(s, key, id, from + 1, end)
  {
    if from + 1 < end {
      MatchesFront(s, key, id, from, end - 1);
    }
  }

  lemma {:induction false} NoMatches<T>(s: seq<T>, key: T -> int, id: int, from: nat, end: nat)
    requires from <= end <= |s|
    ensures Matches(s, key, id, from, end) == 0 <==> forall i :: from <= i < end ==> key(s[i]) != id
  {
    if from < end {
      NoMatches(s, key, id, from, end - 1);
    }
  }

  lemma {:induction false} MatchesAgree<T>(s: seq<T>, t: seq<T>, key: T -> int, id: int, from: nat, end: nat)
    requires from <= end <= |s| && end <= |t| && forall i :: from <= i < end ==> s[i] == t[i]
    ensures Matches(s, key, id, from, end) == Matches(t, key, id, from, end)
  {
    if from < end {
      MatchesAgree(s, t, key, id, from, end - 1);
    }
  }

  /** One match too many is left if and only if there was more than one. */
  lemma {:induction false} RemoveFirstGone<T(!new)>(s: seq<T>, key: T -> int, id: int, x: nat)
    requires x <= |s| && forall i :: 0 <= i < x ==> key(s[i]) != id
    ensures Conserves(s, RemoveFirst(s, key, id, x), key, id)
    ensures Gone(RemoveFirst(s, key, id, x), key, id) <==> Matches(s, key, id, x, |s|) <= 1
    decreases |s| - x
  {
    hide SwapRemove, Matches;
    if x == |s| {
      NoMatches(s, key, id, x, x);
    } else {
      MatchesFront(s, key, id, x, |s|);
      if key(s[x]) == id {
        FirstFound(s, key, id, x);
      } else {
        RemoveFirstGone(s, key, id, x + 1);
      }
    }
  }

  lemma FirstFound<T(!new)>(s: seq<T>, key: T -> int, id: int, x: nat)
    requires x < |s| && key(s[x]) == id && forall i :: 0 <= i < x ==> key(s[i]) != id
    ensures Conserves(s, SwapRemove(s, x), key, id)
    ensures Gone(SwapRemove(s, x), key, id) <==> Matches(s, key, id, x + 1, |s|) == 0
  {
    hide SwapRemove, Matches, Conserves;
    SwapRemoveConserves(s, x, key, id);
    NoMatches(s, key, id, x + 1, |s|);
    RemovedGone(s, key, id, x);
  }

  lemma RemovedGone<T>(s: seq<T>, key: T -> int, id: int, x: nat)
    requires x < |s| && forall i :: 0 <= i < x ==> key(s[i]) != id
    ensures Gone(SwapRemove(s, x), key, id) <==> forall i :: x < i < |s| ==> key(s[i]) != id
  {
    var r, n := SwapRemove(s, x), |s| - 1;
    if Gone(r, key, id) {
      forall i | x < i < |s| ensures key(s[i]) != id {
        assert i < n ==> r[i] == s[i];
        assert x < n ==> r[x] == s[n];
      }
    }
  }

  // ----- one pass

  /** The pass from position x on. */
  function Pass<T>(s: seq<T>, key: T -> int, id: int, x: nat): seq<T>
    requires x <= |s|
    decreases |s| - x
  {
    if x == |s| then s
    else if key(s[x]) != id then Pass(s, key, id, x + 1)
    else if x == |s| - 1 then SwapRemove(s, x)
    else Pass(SwapRemove(s, x), key, id, x + 1)
  }

  /** A match that has more matches before it than entries behind it is moved into a
      gap before the pass gets to it. */
  predicate SkippedAt<T>(s: seq<T>, key: T -> int, id: int, x: nat, q: nat) {
    x <= q < |s| && key(s[q]) == id && Matches(s, key, id, x, q) > |s| - 1 - q
  }

  predicate Skipped<T>(s: seq<T>, key: T -> int, id: int, x: nat) {
    exists q :: x <= q < |s| && SkippedAt(s, key, id, x, q)
  }

  lemma SkippedAtNext<T>(s: seq<T>, key: T -> int, id: int, x: nat, q: nat)
    requires x < |s| && key(s[x]) != id
    ensures SkippedAt(s, key, id, x, q) <==> SkippedAt(s, key, id, x + 1, q)
  {
    if x < q < |s| {
      MatchesFront(s, key, id, x, q);
    }
  }

  lemma SkippedNext<T>(s: seq<T>, key: T -> int, id: int, x: nat)
    requires x < |s| && key(s[x]) != id
    ensures Skipped(s, key, id, x) <==> Skipped(s, key, id, x + 1)
  {
    hide SkippedAt;
    NotSkippedItself(s, key, id, x);
    if Skipped(s, key, id, x) {
      var q: nat :| x <= q < |s| && SkippedAt(s, key, id, x, q);
      SkippedAtNext(s, key, id, x, q);
      assert x + 1 <= q;
    }
    if Skipped(s, key, id, x + 1) {
      var q: nat :| x + 1 <= q < |s| && SkippedAt(s, key, id, x + 1, q);
      SkippedAtNext(s, key, id, x, q);
      assert x <= q;
    }
  }

  lemma NotSkippedItself<T>(s: seq<T>, key: T -> int, id: int, x: nat)
    requires x < |s|
    ensures !SkippedAt(s, key, id, x, x)
  {
  }

  lemma SkippedAtAfterSwap<T>(s: seq<T>, key: T -> int, id: int, x: nat, q: nat)
    requires x < q < |s| - 1 && key(s[x]) == id
    ensures SkippedAt(s, key, id, x, q) <==> SkippedAt(SwapRemove(s, x), key, id, x + 1, q)
  {
    MatchesFront(s, key, id, x, q);
    MatchesAgree(s, SwapRemove(s, x), key, id, x + 1, q);
  }

  lemma SkippedAfterSwap<T>(s: seq<T>, key: T -> int, id: int, x: nat)
    requires x < |s| - 1 && key(s[x]) == id && key(s[|s| - 1]) != id
    ensures Skipped(s, key, id, x) <==> Skipped(SwapRemove(s, x), key, id, x + 1)
  {
    hide SkippedAt;
    var t := SwapRemove(s, x);
    LastNotSkipped(s, key, id, x);
    NotSkippedItself(s, key, id, x);
    if Skipped(s, key, id, x) {
      var q: nat :| x <= q < |s| && SkippedAt(s, key, id, x, q);
      SkippedAtAfterSwap(s, key, id, x, q);
      assert x + 1 <= q < |t|;
    }
    if Skipped(t, key, id, x + 1) {
      var q: nat :| x + 1 <= q < |t| && SkippedAt(t, key, id, x + 1, q);
      SkippedAtAfterSwap(s, key, id, x, q);
      assert x <= q < |s|;
    }
  }

  lemma LastNotSkipped<T>(s: seq<T>, key: T -> int, id: int, x: nat)
    requires x < |s| && key(s[|s| - 1]) != id
    ensures !SkippedAt(s, key, id, x, |s| - 1)
  {
  }

  lemma SkippedLast<T>(s: seq<T>, key: T -> int, id: int, x: nat)
    requires x < |s| - 1 && key(s[x]) == id && key(s[|s| - 1]) == id
    ensures Skipped(s, key, id, x)
  {
    MatchesFront(s, key, id, x, |s| - 1);
    assert SkippedAt(s, key, id, x, |s| - 1);
  }

  lemma {:induction false} PassPrefix<T>(s: seq<T>, key: T -> int, id: int, x: nat)
    requires x <= |s|
    ensures x <= |Pass(s, key, id, x)| && Pass(s, key, id, x)[..x] == s[..x]
    decreases |s| - x
  {
    if x < |s| {
      if key(s[x]) != id {
        PassPrefix(s, key, id, x + 1);
        assert Pass(s, key, id, x)[..x] == Pass(s, key, id, x)[..x + 1][..x] == s[..x + 1][..x];
      } else if x < |s| - 1 {
        var t := SwapRemove(s, x);
        PassPrefix(t, key, id, x + 1);
        assert Pass(s, key, id, x)[..x] == Pass(t, key, id, x + 1)[..x + 1][..x] == t[..x + 1][..x] == s[..x];
      }
    }
  }

  lemma PassKeeps<T>(s: seq<T>, key: T -> int, id: int, x: nat)
    requires x < |s|
    ensures x < |Pass(s, key, id, x + 1)| && Pass(s, key, id, x + 1)[x] == s[x]
  {
    PassPrefix(s, key, id, x + 1);
    assert Pass(s, key, id, x + 1)[x] == Pass(s, key, id, x + 1)[..x + 1][x] == s[..x + 1][x];
  }

  /** The pass removes the id if and only if no match is skipped; other entries are
      conserved in any case. */
  lemma {:induction false} PassGone<T(!new)>(s: seq<T>, key: T -> int, id: int, x: nat)
    requires x <= |s| && forall i :: 0 <= i < x ==> key(s[i]) != id
    ensures Conserves(s, Pass(s, key, id, x), key, id)
    ensures Gone(Pass(s, key, id, x), key, id) <==> !Skipped(s, key, id, x)
    decreases |s| - x
  {
    if x < |s| {
      var t := SwapRemove(s, x);
      if key(s[x]) != id {
        SkippedNext(s, key, id, x);
        PassGone(s, key, id, x + 1);
      } else {
        SwapRemoveConserves(s, x, key, id);
        if x == |s| - 1 {
          assert Matches(s, key, id, x, x) == 0;
        } else {
          PassStepGone(s, key, id, x);
        }
      }
    }
  }

  lemma {:induction false} PassStepGone<T(!new)>(s: seq<T>, key: T -> int, id: int, x: nat)
    requires x < |s| - 1 && key(s[x]) == id && forall i :: 0 <= i < x ==> key(s[i]) != id
    ensures Conserves(s, Pass(s, key, id, x), key, id)
    ensures Gone(Pass(s, key, id, x), key, id) <==> !Skipped(s, key, id, x)
    decreases |s| - x, 0
  {
    hide SwapRemove, Skipped, Conserves;
    var t := SwapRemove(s, x);
    SwapRemoveConserves(s, x, key, id);
    SwapRemoveAt(s, x);
    if key(s[|s| - 1]) != id {
      SkippedAfterSwap(s, key, id, x);
      PassGone(t, key, id, x + 1);
    } else {
      SkippedLast(s, key, id, x);
      PassConserves(t, key, id, x + 1);
      PassKeeps(t, key, id, x);
    }
    ConservesTransitive(s, t, Pass(s, key, id, x), key, id);
  }

  lemma SwapRemoveAt<T>(s: seq<T>, x: nat)
    requires x < |s| - 1
    ensures SwapRemove(s, x)[x] == s[|s| - 1]
    ensures forall i :: 0 <= i < x ==> SwapRemove(s, x)[i] == s[i]
  {
  }

  lemma {:induction false} PassConserves<T(!new)>(s: seq<T>, key: T -> int, id: int, x: nat)
    requires x <= |s|
    ensures Conserves(s, Pass(s, key, id, x), key, id)
    decreases |s| - x
  {
    if x < |s| {
      if key(s[x]) != id {
        PassConserves(s, key, id, x + 1);
      } else {
        SwapRemoveConserves(s, x, key, id);
        if x < |s| - 1 {
          PassConserves(SwapRemove(s, x), key, id, x + 1);
          ConservesTransitive(s, SwapRemove(s, x), Pass(s, key, id, x), key, id);
        }
      }
    }
  }

  /** With distinct ids nothing is skipped. */
  lemma DistinctNotSkipped<T>(s: seq<T>, key: T -> int, id: int)
    requires forall i, j :: 0 <= i < j < |s| ==> key(s[i]) != key(s[j])
    ensures !Skipped(s, key, id, 0) && Matches(s, key, id, 0, |s|) <= 1
  {
    forall q | 0 <= q < |s| ensures !SkippedAt(s, key, id, 0, q) {
      NoMatches(s, key, id, 0, q);
    }
    AtMostOne(s, key, id, |s|);
  }

  lemma {:induction false} AtMostOne<T>(s: seq<T>, key: T -> int, id: int, n: nat)
    requires n <= |s| && forall i, j :: 0 <= i < j < |s| ==> key(s[i]) != key(s[j])
    ensures Matches(s, key, id, 0, n) <= 1
  {
    if n > 0 {
      AtMostOne(s, key, id, n - 1);
      if key(s[n - 1]) == id {
        NoMatches(s, key, id, 0, n - 1);
      }
    }
  }

  /** Of two entries with the same id, removing the first match leaves one. */
  lemma RemoveFirstMissesOne()
    ensures RemoveFirst([7, 7], (d: int) => d, 7, 0) == [7]
  {
    assert SwapRemove([7, 7], 0) == [7];
  }

  /** And so does the single pass. */
  lemma PassMissesOne()
    ensures Pass([7, 7], (d: int) => d, 7, 0) == [7]
  {
    assert SwapRemove([7, 7], 0) == [7];
  }
}
