/**
 sortoutScenario and sortoutSchedule: entries of unknown devices are cleared, then
 the holes are shifted out, one place at a time, in as many passes as there are
 places.
 */
module Compaction {
  /** A record; device id 0 marks a hole, `data` stands for the other fields. */
  datatype Slot = Slot(did: int, data: int)

  const ZERO := Slot(0, 0)
  const SCENARIO_GATEWAY_DID := 13572468

  predicate Hole(s: Slot) {
    s.did == 0
  }

  /** The entries that are no holes, in order. */
  function Keep(s: seq<Slot>): (r: seq<Slot>)
    ensures |r| <= |s|
  {
    if s == [] then []
    else Keep(s[..|s| - 1]) + if Hole(s[|s| - 1]) then [] else [s[|s| - 1]]
  }

  /** The holes before position i. */
  function Holes(s: seq<Slot>, i: nat): (r: nat)
    requires i <= |s|
    ensures r <= i
  {
    if i == 0 then 0 else Holes(s, i - 1) + if Hole(s[i - 1]) then 1 else 0
  }

  /** The first hole from position i on, or the length. */
  function FirstHole(s: seq<Slot>, i: nat): (h: nat)
    requires i <= |s|
    ensures i <= h <= |s| && (h < |s| ==> Hole(s[h])) && forall k :: i <= k < h ==> !Hole(s[k])
    decreases |s| - i
  {
    if i == |s| || Hole(s[i]) then i else FirstHole(s, i + 1)
  }

  /** One pass takes out the first hole, unless it is the last place. */
  function Shift(s: seq<Slot>): (r: seq<Slot>)
    ensures |r| == |s|
  {
    var h := FirstHole(s, 0);
    if h + 1 < |s| then s[..h] + s[h + 1..] + [ZERO] else s
  }

  function Passes(s: seq<Slot>, j: nat): (r: seq<Slot>)
    ensures |r| == |s|
  {
    if j == 0 then s else Shift(Passes(s, j - 1))
  }

  // ----- what a pass does

  lemma {:induction false} NoHolesBefore(s: seq<Slot>, i: nat)
    requires i <= |s|
    ensures Holes(s, i) == 0 <==> forall k :: 0 <= k < i ==> !Hole(s[k])
  {
    if i > 0 {
      NoHolesBefore(s, i - 1);
    }
  }

  lemma {:induction false} HolesAgree(s: seq<Slot>, t: seq<Slot>, i: nat)
    requires i <= |s| && i <= |t| && forall k :: 0 <= k < i ==> s[k] == t[k]
    ensures Holes(s, i) == Holes(t, i)
  {
    if i > 0 {
      HolesAgree(s, t, i - 1);
    }
  }

  /** Behind the hole that is taken out, one hole less is counted. */
  lemma {:induction false} HolesBehind(s: seq<Slot>, t: seq<Slot>, h: nat, i: nat)
    requires h < i <= |s| && i - 1 <= |t| && Hole(s[h])
    requires forall k :: 0 <= k < h ==> s[k] == t[k]
    requires forall k :: h <= k < i - 1 ==> t[k] == s[k + 1]
    ensures Holes(t, i - 1) == Holes(s, i) - 1
    decreases i
  {
    if i == h + 1 {
      HolesAgree(s, t, h);
    } else {
      HolesBehind(s, t, h, i - 1);
    }
  }

  /** An entry with a hole before it moves up one place. */
  lemma ShiftMoves(s: seq<Slot>, i: nat)
    requires i < |s| && !Hole(s[i])
    ensures var up := if Holes(s, i) > 0 then 1 else 0;
            Shift(s)[i - up] == s[i] && Holes(Shift(s), i - up) == Holes(s, i) - up
  {
    var h, t := FirstHole(s, 0), Shift(s);
    NoHolesBefore(s, i);
    if Holes(s, i) > 0 {
      assert h < i;
      assert forall k :: h <= k < i - 1 ==> t[k] == s[k + 1];
      HolesBehind(s, t, h, i);
    } else {
      assert i < h;
      HolesAgree(s, t, i);
    }
  }

  function Min(a: nat, b: nat): nat {
    if a < b then a else b
  }

  /** After j passes every entry has moved up by the number of holes before it, but
      by no more than j. */
  lemma {:induction false} PassesMove(s: seq<Slot>, j: nat, i: nat)
    requires i < |s| && !Hole(s[i])
    ensures var up := Min(j, Holes(s, i));
            Passes(s, j)[i - up] == s[i] && Holes(Passes(s, j), i - up) == Holes(s, i) - up
  {
    hide Shift;
    if j > 0 {
      PassesMove(s, j - 1, i);
      ShiftMoves(Passes(s, j - 1), i - Min(j - 1, Holes(s, i)));
    }
  }

  // ----- the entries that are kept

  lemma {:induction false} KeepConcat(s: seq<Slot>, t: seq<Slot>)
    ensures Keep(s + t) == Keep(s) + Keep(t)
  {
    if t == [] {
      assert s + t == s;
    } else {
      KeepConcat(s, t[..|t| - 1]);
      assert (s + t)[..|s + t| - 1] == s + t[..|t| - 1];
    }
  }

  lemma KeepShift(s: seq<Slot>)
    ensures Keep(Shift(s)) == Keep(s)
  {
    hide Keep;
    var h := FirstHole(s, 0);
    if h + 1 < |s| {
      var a, b := s[..h], s[h + 1..];
      assert s == a + ([s[h]] + b);
      KeepOne(s[h]);
      KeepOne(ZERO);
      KeepConcat(a, [s[h]] + b);
      KeepConcat([s[h]], b);
      KeepConcat(a + b, [ZERO]);
      KeepConcat(a, b);
    }
  }

  lemma KeepOne(e: Slot)
    ensures Keep([e]) == if Hole(e) then [] else [e]
  {
    assert [e][..0] == [];
  }

  lemma {:induction false} KeepPasses(s: seq<Slot>, j: nat)
    ensures Keep(Passes(s, j)) == Keep(s)
  {
    hide Keep, Shift;
    if j > 0 {
      KeepPasses(s, j - 1);
      KeepShift(Passes(s, j - 1));
    }
  }

  /** The m-th entry that is kept has m kept entries before it. */
  lemma {:induction false} KeepAt(s: seq<Slot>, n: nat, i: nat)
    requires i < n <= |s| && !Hole(s[i])
    ensures |Keep(s[..n])| == n - Holes(s, n)
    ensures i - Holes(s, i) < |Keep(s[..n])| && Keep(s[..n])[i - Holes(s, i)] == s[i]
    decreases n
  {
    assert s[..n][..n - 1] == s[..n - 1];
    if i < n - 1 {
      KeepAt(s, n - 1, i);
    } else {
      KeepLength(s, n - 1);
    }
  }

  lemma {:induction false} KeepLength(s: seq<Slot>, n: nat)
    requires n <= |s|
    ensures |Keep(s[..n])| == n - Holes(s, n)
  {
    if n > 0 {
      assert s[..n][..n - 1] == s[..n - 1];
      KeepLength(s, n - 1);
    }
  }

  lemma {:induction false} KeptAt(s: seq<Slot>, n: nat, m: nat) returns (i: nat)
    requires n <= |s| && m < |Keep(s[..n])|
    ensures i < n && !Hole(s[i]) && i - Holes(s, i) == m
  {
    assert s[..n][..n - 1] == s[..n - 1];
    KeepLength(s, n - 1);
    if m < |Keep(s[..n - 1])| {
      i := KeptAt(s, n - 1, m);
    } else {
      i := n - 1;
    }
  }

  /** After as many passes as there are places the kept entries stand at the front,
      in order, and only holes follow. */
  lemma PassesSort(s: seq<Slot>)
    ensures var t, k := Passes(s, |s|), |Keep(s)|;
            t[..k] == Keep(s) && forall p :: k <= p < |s| ==> Hole(t[p])
  {
    var t, kept := Passes(s, |s|), Keep(s);
    assert s[..|s|] == s;
    forall m | 0 <= m < |kept| ensures t[m] == kept[m] && !Hole(t[m]) {
      var i := KeptAt(s, |s|, m);
      PassesMove(s, |s|, i);
      KeepAt(s, |s|, i);
    }
    KeepPasses(s, |s|);
    RestAreHoles(t, |kept|);
  }

  lemma RestAreHoles(t: seq<Slot>, k: nat)
    requires k == |Keep(t)| && forall m :: 0 <= m < k ==> !Hole(t[m])
    ensures forall p :: k <= p < |t| ==> Hole(t[p])
  {
    assert t[..|t|] == t;
    NoHolesBefore(t, k);
    forall p | k <= p < |t| ensures Hole(t[p]) {
      if !Hole(t[p]) {
        KeepAt(t, |t|, p);
        HolesStep(t, k, p);
      }
    }
  }

  lemma {:induction false} HolesStep(t: seq<Slot>, k: nat, p: nat)
    requires k <= p <= |t|
    ensures Holes(t, p) - Holes(t, k) <= p - k
  {
    if k < p {
      HolesStep(t, k, p - 1);
    }
  }

  // ----- the code

  /** The entries of devices that are registered, and those of one other id. */
  function Cleared(s: seq<Slot>, registered: set<int>, spared: set<int>): (r: seq<Slot>)
    ensures |r| == |s|
  {
    seq(|s|, i requires 0 <= i < |s| => if s[i].did in registered || s[i].did in spared then s[i] else ZERO)
  }

  /** The entries that are in use and whose device is one of these, in order. */
  function Known(s: seq<Slot>, ids: set<int>): seq<Slot> {
    if s == [] then [] else (if s[0].did != 0 && s[0].did in ids then [s[0]] else []) + Known(s[1..], ids)
  }

  lemma {:induction false} KeepsKnown(s: seq<Slot>, registered: set<int>, spared: set<int>)
    ensures Keep(Cleared(s, registered, spared)) == Known(s, registered + spared)
  {
    var t := Cleared(s, registered, spared);
    if s != [] {
      KeepsKnown(s[1..], registered, spared);
      assert t == [t[0]] + Cleared(s[1..], registered, spared);
      KeepConcat([t[0]], Cleared(s[1..], registered, spared));
      KeepOne(t[0]);
    }
  }

  method ClearUnknown(list: array<Slot>, registered: set<int>, spared: set<int>)
    modifies list
    ensures list[..] == Cleared(old(list[..]), registered, spared)
  {
    for i := 0 to list.Length
      invariant forall k :: 0 <= k < i ==> list[k] == Cleared(old(list[..]), registered, spared)[k]
      invariant forall k :: i <= k < list.Length ==> list[k] == old(list[k])
    {
      if list[i].did in spared {
        continue;
      }
      if list[i].did !in registered {
        list[i] := ZERO;
      }
    }
  }

  /** The list in the course of a pass: the hole has moved from h to i. */
  function Shifting(s: seq<Slot>, h: nat, i: nat): (r: seq<Slot>)
    requires h <= |s| && i <= |s| && (h < i ==> i < |s|)
    ensures |r| == |s|
  {
    if i <= h then s
    else seq(|s|, k requires 0 <= k < |s| => if h <= k < i then s[k + 1] else if k == i then ZERO else s[k])
  }

  lemma ShiftingEnds(s: seq<Slot>)
    requires s != []
    ensures Shifting(s, FirstHole(s, 0), |s| - 1) == Shift(s)
  {
    hide FirstHole;
    var h := FirstHole(s, 0);
    if h + 1 < |s| {
      ShiftAt(s, h);
    }
  }

  lemma ShiftAt(s: seq<Slot>, h: nat)
    requires h + 1 < |s|
    ensures Shifting(s, h, |s| - 1) == s[..h] + s[h + 1..] + [ZERO]
  {
    var n := |s| - 1;
    var t, r := Shifting(s, h, n), s[..h] + s[h + 1..] + [ZERO];
    forall k | 0 <= k < |s| ensures t[k] == r[k] {
      ShiftedAt(s, h, k);
    }
  }

  lemma ShiftedAt(s: seq<Slot>, h: nat, k: nat)
    requires h < |s| && k < |s|
    ensures (s[..h] + s[h + 1..] + [ZERO])[k] == if k < h then s[k] else if k < |s| - 1 then s[k + 1] else ZERO
  {
    var b := s[h + 1..];
    assert h <= k < |s| - 1 ==> b[k - h] == s[k + 1];
  }

  /** The inner loop. */
  method ShiftOnce(list: array<Slot>)
    modifies list
    ensures list[..] == Shift(old(list[..]))
  {
    ghost var was := list[..];
    ghost var h := FirstHole(was, 0);
    if list.Length > 0 {
      ShiftingEnds(was);
    }
    var i := 0;
    while i < list.Length - 1
      invariant 0 <= i && (list.Length > 0 ==> i < list.Length) && (list.Length == 0 ==> i == 0)
      invariant list[..] == Shifting(was, h, i)
      decreases list.Length - i
    {
      assert list[i] == Shifting(was, h, i)[i] && list[i + 1] == Shifting(was, h, i)[i + 1];
      if list[i].did == 0 {
        assert i >= h;
        assert list[i + 1] == was[i + 1];
        list[i] := list[i + 1];
        list[i + 1] := ZERO;
      } else {
        assert i < h;
      }
      i := i + 1;
    }
  }

  /** The passes, and the count of the entries in use. */
  method Compact(list: array<Slot>) returns (count: nat)
    modifies list
    ensures list[..] == Passes(old(list[..]), list.Length)
    ensures count == |Keep(old(list[..]))| <= list.Length && list[..count] == Keep(old(list[..]))
    ensures forall p :: count <= p < list.Length ==> Hole(list[p])
  {
    ghost var was := list[..];
    for j := 0 to list.Length
      invariant list[..] == Passes(was, j)
    {
      ShiftOnce(list);
    }
    PassesSort(was);
    ghost var k := |Keep(was)|;
    assert forall p :: 0 <= p < list.Length ==> list[p] == list[..][p];
    KeptAreNoHoles(was);
    count := list.Length;
    for i := 0 to list.Length
      invariant i <= k && count == list.Length
    {
      if list[i].did == 0 {
        count := i;
        break;
      }
      assert i < k;
    }
  }

  lemma {:induction false} KeptAreNoHoles(s: seq<Slot>)
    ensures forall m :: 0 <= m < |Keep(s)| ==> !Hole(Keep(s)[m])
  {
    if s != [] {
      KeptAreNoHoles(s[..|s| - 1]);
    }
  }

  /** The scenarios of the gateway itself are spared. */
  method SortoutScenario(list: array<Slot>, registered: set<int>) returns (srcCount: nat)
    modifies list
    ensures srcCount <= list.Length && list[..srcCount] == Known(old(list[..]), registered + {13572468})
    ensures forall p :: srcCount <= p < list.Length ==> list[p].did == 0
  {
    KeepsKnown(list[..], registered, {SCENARIO_GATEWAY_DID});
    ClearUnknown(list, registered, {SCENARIO_GATEWAY_DID});
    srcCount := Compact(list);
  }

  method SortoutSchedule(list: array<Slot>, registered: set<int>) returns (paCount: nat)
    modifies list
    ensures paCount <= list.Length && list[..paCount] == Known(old(list[..]), registered)
    ensures forall p :: paCount <= p < list.Length ==> list[p].did == 0
  {
    KeepsKnown(list[..], registered, {});
    assert registered + {} == registered;
    ClearUnknown(list, registered, {});
    paCount := Compact(list);
  }
}
