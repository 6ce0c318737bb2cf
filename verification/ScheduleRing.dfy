/**
 The schedules of power adapters: every 30 seconds the starts and stops of the minute
 are looked up, and a ring of the last 48 codes keeps each from being commanded
 twice.
 */
module ScheduleRing {
  import opened Sequences

  const MAXDEVICENUM: nat := 48
  const SCHEDULE_MAX_TARGET: nat := 16
  const MINUTES: nat := 1440

  // ----- codes

  /** get_last_time */
  function Code(minute: int, x: int, y: int, isStart: bool): int {
    if isStart then minute * 10000 + x * 100 + y + 99999999 else minute * 10000 + x * 100 + y + 88888888
  }

  /** A minute of the day, and the place of a schedule in its table. */
  predicate InRange(minute: int, x: int, y: int) {
    0 <= minute < MINUTES && 0 <= x < MAXDEVICENUM && 0 <= y < SCHEDULE_MAX_TARGET
  }

  lemma DecimalPlaces(a: int, b: int, c: int, a': int, b': int, c': int)
    requires 0 <= b < 100 && 0 <= c < 100 && 0 <= b' < 100 && 0 <= c' < 100
    ensures a * 10000 + b * 100 + c == a' * 10000 + b' * 100 + c' <==> a == a' && b == b' && c == c'
  {
  }

  /** Codes fit an int; two starts, or two stops, share a code only if they agree in
      minute and place. */
  lemma CodesOfAKind(minute: int, x: int, y: int, minute': int, x': int, y': int, isStart: bool)
    requires InRange(minute, x, y) && InRange(minute', x', y')
    ensures 0 < Code(minute, x, y, isStart) < 0x8000_0000
    ensures Code(minute, x, y, isStart) == Code(minute', x', y', isStart) <==> minute == minute' && x == x' && y == y'
  {
    DecimalPlaces(minute, x, y, minute', x', y');
  }

  /** A start and a stop do share codes: the stop is that of 1111 minutes later, 11
      devices and 11 schedules further on. */
  lemma StartMeetsStop(minute: int, x: int, y: int, minute': int, x': int, y': int)
    requires InRange(minute, x, y) && InRange(minute', x', y')
    ensures Code(minute, x, y, true) == Code(minute', x', y', false) <==>
            minute' == minute + 1111 && x' == x + 11 && y' == y + 11
  {
    DecimalPlaces(minute + 1111, x + 11, y + 11, minute', x', y');
  }

  // ----- the last 48 codes

  predicate Recent(h: seq<int>, code: int) {
    code in LastOf(h, MAXDEVICENUM)
  }

  /** The codes recorded when these are asked for one after the other. */
  function Recorded(cs: seq<int>): seq<int> {
    if cs == [] then []
    else Handle(Recorded(cs[..|cs| - 1]), cs[|cs| - 1])
  }

  /** A recent code is refused, another one is recorded, and its command sent. */
  function Handle(h: seq<int>, code: int): seq<int> {
    if Recent(h, code) then h else h + [code]
  }

  /** The command of the i-th code asked for is sent. */
  predicate Sent(cs: seq<int>, i: nat)
    requires i < |cs|
  {
    !Recent(Recorded(cs[..i]), cs[i])
  }

  lemma RecordedStep(cs: seq<int>, i: nat)
    requires i < |cs|
    ensures Recorded(cs[..i + 1]) == if Sent(cs, i) then Recorded(cs[..i]) + [cs[i]] else Recorded(cs[..i])
  {
    assert cs[..i + 1][..i] == cs[..i];
  }

  lemma {:induction false} RecordedGrows(cs: seq<int>, i: nat, j: nat)
    requires i <= j <= |cs|
    ensures Recorded(cs[..i]) <= Recorded(cs[..j])
  {
    hide Recorded, Sent;
    if i < j {
      RecordedGrows(cs, i, j - 1);
      RecordedStep(cs, j - 1);
    }
  }

  /** A code that is not sent again is recorded once only. */
  lemma {:induction false} RecordedOnce(cs: seq<int>, i: nat, j: nat)
    requires i < j <= |cs| && Sent(cs, i)
    requires forall k :: i < k < j && cs[k] == cs[i] ==> !Sent(cs, k)
    ensures var p, h := |Recorded(cs[..i])|, Recorded(cs[..j]);
            && p < |h| && h[p] == cs[i] && Recorded(cs[..i]) <= h
            && forall q :: p < q < |h| ==> h[q] != cs[i]
  {
    hide Recorded, Sent;
    if i + 1 < j {
      RecordedOnce(cs, i, j - 1);
      RecordedStep(cs, j - 1);
    } else {
      RecordedStep(cs, i);
    }
  }

  lemma RecentAt(h: seq<int>, p: nat)
    requires p < |h| && forall q :: p < q < |h| ==> h[q] != h[p]
    ensures Recent(h, h[p]) <==> |h| - p <= MAXDEVICENUM
  {
    var n := MAXDEVICENUM;
    if |h| > n {
      assert forall k :: 0 <= k < n ==> LastOf(h, n)[k] == h[|h| - n + k];
      if p >= |h| - n {
        assert LastOf(h, n)[p - (|h| - n)] == h[p];
      }
    }
  }

  /** A code that was sent is sent again exactly when 48 or more other codes have been
      recorded since. */
  lemma SentAgain(cs: seq<int>, i: nat, j: nat)
    requires i < j < |cs| && cs[j] == cs[i] && Sent(cs, i)
    requires forall k :: i < k < j && cs[k] == cs[i] ==> !Sent(cs, k)
    ensures Sent(cs, j) <==> |Recorded(cs[..j])| - |Recorded(cs[..i + 1])| >= 48
  {
    hide Recorded, Recent;
    RecordedOnce(cs, i, j);
    RecordedStep(cs, i);
    RecentAt(Recorded(cs[..j]), |Recorded(cs[..i])|);
  }

  /** Hence at most once while fewer than 48 other codes come in between. */
  lemma {:induction false} SentOnce(cs: seq<int>, i: nat, j: nat)
    requires i < j < |cs| && cs[j] == cs[i] && Sent(cs, i)
    requires |Recorded(cs[..j])| - |Recorded(cs[..i + 1])| < MAXDEVICENUM
    ensures !Sent(cs, j)
    decreases j
  {
    hide Recorded, Sent;
    forall k | i < k < j && cs[k] == cs[i] ensures !Sent(cs, k) {
      RecordedGrows(cs, k, j);
      SentOnce(cs, i, k);
    }
    SentAgain(cs, i, j);
  }

  // ----- the table

  /** A schedule of a power adapter; bit 0 of `week` is Monday, bit 6 Sunday. */
  datatype Schedule = Schedule(on: bool, week: bv16, start: int, end: int)

  datatype Adapter = Adapter(registered: bool, schedules: seq<Schedule>)

  function DayBit(wday: int): bv16 {
    if wday == 0 then 0x40 else if wday == 1 then 0x01 else if wday == 2 then 0x02 else if wday == 3 then 0x04
    else if wday == 4 then 0x08 else if wday == 5 then 0x10 else if wday == 6 then 0x20 else 0
  }

  predicate SameWeekday(week: bv16, wday: int) {
    0 <= wday <= 6 && week & DayBit(wday) == DayBit(wday)
  }

  /** The codes that one schedule asks for in a minute: the stop comes before the
      start. */
  function Asked(a: Adapter, x: nat, y: nat, minute: int, wday: int): (r: seq<int>)
    requires y < |a.schedules|
    ensures |r| <= 1
  {
    var s := a.schedules[y];
    if !s.on || !SameWeekday(s.week, wday) || !a.registered then []
    else if s.start < minute < s.end then []
    else if minute == s.end then [Code(minute, x, y, false)]
    else if minute == s.start then [Code(minute, x, y, true)]
    else []
  }

  /** All codes asked for up to schedule y of adapter x, in the order of the table. */
  function AskedUpTo(table: seq<Adapter>, x: nat, y: nat, minute: int, wday: int): seq<int>
    requires x <= |table| && (if x < |table| then y <= |table[x].schedules| else y == 0)
    decreases x, y
  {
    if y > 0 then AskedUpTo(table, x, y - 1, minute, wday) + Asked(table[x], x, y - 1, minute, wday)
    else if x > 0 then AskedUpTo(table, x - 1, |table[x - 1].schedules|, minute, wday)
    else []
  }

  function AskedInTick(table: seq<Adapter>, minute: int, wday: int): seq<int> {
    AskedUpTo(table, |table|, 0, minute, wday)
  }

  /** The codes of these that are sent after others were asked for. */
  function SentOf(before: seq<int>, cs: seq<int>): seq<int> {
    if cs == [] then []
    else
      var i := |cs| - 1;
      SentOf(before, cs[..i]) + if Sent(before + cs, |before| + i) then [cs[i]] else []
  }

  // ----- the code

  class Scheduler {
    const lastSchedule: array<int>
    var index: int
    var lastMday: int
    /** the codes asked for since the last reset */
    ghost var asked: seq<int>

    /** The ring holds the last 48 codes recorded, zeros where there are fewer. */
    ghost predicate Valid()
      reads this, lastSchedule
    {
      var h := Recorded(asked);
      && lastSchedule.Length == MAXDEVICENUM
      && index == |h| % MAXDEVICENUM
      && (forall i :: 0 <= i < MAXDEVICENUM ==> lastSchedule[i] == Slot(h, i))
      && (forall c :: c in h ==> c > 0)
    }

    constructor ()
      ensures Valid() && asked == [] && lastMday == -1 && fresh(lastSchedule)
    {
      lastSchedule := new int[MAXDEVICENUM](_ => 0);
      index := 0;
      lastMday := -1;
      asked := [];
      new;
      SlotsOfNothing();
    }

    /** reset_last_schedule, once a day */
    method Reset()
      requires lastSchedule.Length == MAXDEVICENUM
      modifies this, lastSchedule
      ensures Valid() && asked == [] && lastMday == old(lastMday)
    {
      for i := 0 to MAXDEVICENUM
        invariant lastMday == old(lastMday)
        invariant forall k :: 0 <= k < i ==> lastSchedule[k] == 0
      {
        lastSchedule[i] := 0;
      }
      index := 0;
      asked := [];
      SlotsOfNothing();
    }

    /** check_last_schedule */
    method Check(code: int) returns (r: int)
      requires Valid() && code > 0
      ensures r == if Recent(Recorded(asked), code) then 0 else 1
    {
      hide Recorded, Recent;
      ghost var h := Recorded(asked);
      RecentInSlots(h, code);
      for i := 0 to MAXDEVICENUM
        invariant forall k :: 0 <= k < i ==> Slot(h, k) != code
      {
        if lastSchedule[i] == code {
          return 0;
        }
      }
      r := 1;
    }

    /** check_last_schedule, and add_last_schedule if the code may be sent */
    method Ask(code: int) returns (sent: bool)
      requires Valid() && code > 0
      modifies this, lastSchedule
      ensures Valid() && asked == old(asked) + [code] && lastMday == old(lastMday)
      ensures sent <==> !Recent(Recorded(old(asked)), code)
    {
      hide Recorded;
      ghost var h := Recorded(asked);
      AskedOne(asked, code);
      var r := Check(code);
      sent := r == 1;
      asked := asked + [code];
      if sent {
        SlotsOfOneMore(h, code);
        lastSchedule[index] := code;
        index := index + 1;
        if index < 0 || index >= MAXDEVICENUM {
          index := 0;
        }
      }
    }

    /** arrangeSchedule as far as starts and stops go: on a new day everything recorded is
        forgotten first. */
    method ArrangeSchedule(table: seq<Adapter>, mday: int, minute: int, wday: int) returns (commands: seq<int>)
      requires Valid() && minute >= 0
      modifies this, lastSchedule
      ensures Valid() && lastMday == mday
      ensures var before := if old(lastMday) == mday then old(asked) else [];
              && asked == before + AskedInTick(table, minute, wday)
              && commands == SentOf(before, AskedInTick(table, minute, wday))
    {
      if lastMday != mday {
        Reset();
        lastMday := mday;
      }
      commands := Tick(table, minute, wday);
    }

    /** What is sent in one tick. */
    method Tick(table: seq<Adapter>, minute: int, wday: int) returns (commands: seq<int>)
      requires Valid() && minute >= 0
      modifies this, lastSchedule
      ensures Valid() && asked == old(asked) + AskedInTick(table, minute, wday) && lastMday == old(lastMday)
      ensures commands == SentOf(old(asked), AskedInTick(table, minute, wday))
    {
      hide SentOf, Valid;
      ghost var before := asked;
      commands := [];
      SentOfNothing(before);
      var x := 0;
      while x < |table|
        invariant 0 <= x <= |table| && Valid() && lastMday == old(lastMday)
        invariant asked == before + AskedUpTo(table, x, 0, minute, wday)
        invariant commands == SentOf(before, AskedUpTo(table, x, 0, minute, wday))
      {
        var y := 0;
        while y < |table[x].schedules|
          invariant 0 <= y <= |table[x].schedules| && Valid() && lastMday == old(lastMday)
          invariant asked == before + AskedUpTo(table, x, y, minute, wday)
          invariant commands == SentOf(before, AskedUpTo(table, x, y, minute, wday))
        {
          commands := TickOne(table, x, y, minute, wday, before, commands);
          y := y + 1;
        }
        x := x + 1;
      }
    }

    method TickOne(table: seq<Adapter>, x: nat, y: nat, minute: int, wday: int, ghost before: seq<int>,
                   sentSoFar: seq<int>)
      returns (commands: seq<int>)
      requires x < |table| && y < |table[x].schedules| && minute >= 0
      requires Valid() && asked == before + AskedUpTo(table, x, y, minute, wday)
      requires sentSoFar == SentOf(before, AskedUpTo(table, x, y, minute, wday))
      modifies this, lastSchedule
      ensures Valid() && asked == before + AskedUpTo(table, x, y + 1, minute, wday) && lastMday == old(lastMday)
      ensures commands == SentOf(before, AskedUpTo(table, x, y + 1, minute, wday))
    {
      hide Valid, AskedUpTo, SentOf, Recent;
      ghost var cs := AskedUpTo(table, x, y, minute, wday);
      AskedNext(table, x, y, minute, wday);
      commands := sentSoFar;
      var s := table[x].schedules[y];
      if s.on && SameWeekday(s.week, wday) && table[x].registered {
        if minute > s.start && minute < s.end {
        } else if minute == s.end {
          var sent := Ask(Code(minute, x, y, false));
          SentOfOneMore(before, cs, Code(minute, x, y, false));
          commands := if sent then commands + [Code(minute, x, y, false)] else commands;
          assert before + cs + [Code(minute, x, y, false)] == before + (cs + [Code(minute, x, y, false)]);
          return;
        } else if minute == s.start {
          var sent := Ask(Code(minute, x, y, true));
          SentOfOneMore(before, cs, Code(minute, x, y, true));
          commands := if sent then commands + [Code(minute, x, y, true)] else commands;
          assert before + cs + [Code(minute, x, y, true)] == before + (cs + [Code(minute, x, y, true)]);
          return;
        }
      }
      assert cs + [] == cs;
    }
  }

  lemma AskedNext(table: seq<Adapter>, x: nat, y: nat, minute: int, wday: int)
    requires x < |table| && y < |table[x].schedules|
    ensures AskedUpTo(table, x, y + 1, minute, wday) ==
            AskedUpTo(table, x, y, minute, wday) + Asked(table[x], x, y, minute, wday)
  {
  }

  lemma SentOfNothing(before: seq<int>)
    ensures SentOf(before, []) == []
  {
  }

  lemma SentOfOneMore(before: seq<int>, cs: seq<int>, code: int)
    ensures SentOf(before, cs + [code]) ==
            SentOf(before, cs) + if Recent(Recorded(before + cs), code) then [] else [code]
  {
    hide Recent, Recorded;
    assert (cs + [code])[..|cs|] == cs;
    assert (before + (cs + [code]))[..|before| + |cs|] == before + cs;
  }

  lemma AskedOne(asked: seq<int>, code: int)
    ensures Recorded(asked + [code]) == Handle(Recorded(asked), code)
  {
    assert (asked + [code])[..|asked|] == asked;
  }

  /** What place i of the ring holds after the codes h: the last one recorded there. */
  function Slot(h: seq<int>, i: nat): int
    requires i < MAXDEVICENUM
  {
    if i >= |h| then 0 else h[LastAt(|h|, i)]
  }

  /** The last number below n that is i modulo 48. */
  function LastAt(n: nat, i: nat): (p: nat)
    requires i < MAXDEVICENUM && i < n
    ensures p < n <= p + MAXDEVICENUM && p % MAXDEVICENUM == i
  {
    var r := (n - 1 - i) % MAXDEVICENUM;
    LastAtRemainder(n, i, r);
    n - 1 - r
  }

  lemma LastAtRemainder(n: nat, i: nat, r: nat)
    requires i < MAXDEVICENUM && i < n && r == (n - 1 - i) % MAXDEVICENUM
    ensures (n - 1 - r) % MAXDEVICENUM == i
  {
    assert n - 1 - r == MAXDEVICENUM * ((n - 1 - i) / MAXDEVICENUM) + i;
  }

  lemma LastAtUnique(n: nat, i: nat, p: nat)
    requires i < MAXDEVICENUM && p < n <= p + MAXDEVICENUM && p % MAXDEVICENUM == i
    ensures i < n && LastAt(n, i) == p
  {
    var q := LastAt(n, i);
    assert p - q == MAXDEVICENUM * (p / MAXDEVICENUM - q / MAXDEVICENUM);
  }

  lemma SlotsOfNothing()
    ensures Recorded([]) == [] && forall i :: 0 <= i < MAXDEVICENUM ==> Slot([], i) == 0
  {
  }

  lemma SlotsOfOneMore(h: seq<int>, code: int)
    ensures forall i :: 0 <= i < MAXDEVICENUM ==>
              Slot(h + [code], i) == if i == |h| % MAXDEVICENUM then code else Slot(h, i)
  {
    forall i | 0 <= i < MAXDEVICENUM
      ensures Slot(h + [code], i) == if i == |h| % MAXDEVICENUM then code else Slot(h, i)
    {
      if i == |h| % MAXDEVICENUM {
        LastAtUnique(|h| + 1, i, |h|);
      } else if i < |h| {
        LastAtUnique(|h| + 1, i, LastAt(|h|, i));
      }
    }
  }

  /** A code is recent exactly when some place of the ring holds it. */
  lemma RecentInSlots(h: seq<int>, code: int)
    requires code > 0
    ensures Recent(h, code) <==> exists i :: 0 <= i < MAXDEVICENUM && Slot(h, i) == code
  {
    hide LastAt;
    var n := MAXDEVICENUM;
    var first := if |h| <= n then 0 else |h| - n;
    if Recent(h, code) {
      var k :| 0 <= k < |LastOf(h, n)| && LastOf(h, n)[k] == code;
      LastOfAt(h, n, first + k);
      var i := (first + k) % n;
      LastAtUnique(|h|, i, first + k);
      assert Slot(h, i) == code;
    }
    if i :| 0 <= i < n && Slot(h, i) == code {
      LastOfAt(h, n, LastAt(|h|, i));
    }
  }

  lemma LastOfAt(h: seq<int>, n: nat, p: nat)
    requires p < |h| <= p + n
    ensures var first := if |h| <= n then 0 else |h| - n;
            first <= p && p - first < |LastOf(h, n)| && LastOf(h, n)[p - first] == h[p]
  {
  }
}
