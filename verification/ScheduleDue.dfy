/**
 Which starts and stops that are due in a tick are commanded. In the first tick of its
 minute a stop is lost exactly when the start whose code it shares, of 1111 minutes before,
 11 adapters and 11 schedules back, is among the last 48 commands of the day. A start is
 lost to the stop it meets in the same way, but then the clock has been set back.
 */
module ScheduleDue {
  import opened Sequences
  import opened ScheduleRing
  import opened ScheduleRuns

  /** Schedule y of adapter x applies on the day of the tick. */
  predicate Applies(t: Moment, x: nat, y: nat) {
    && x < |t.table| && y < |t.table[x].schedules| && t.table[x].registered
    && t.table[x].schedules[y].on && SameWeekday(t.table[x].schedules[y].week, t.wday)
  }

  predicate StopDue(t: Moment, x: nat, y: nat) {
    Applies(t, x, y) && t.table[x].schedules[y].end == t.minute
  }

  /** A schedule that stops in the minute it starts in is only stopped. */
  predicate StartDue(t: Moment, x: nat, y: nat) {
    Applies(t, x, y) && t.table[x].schedules[y].start == t.minute && t.table[x].schedules[y].end != t.minute
  }

  predicate Due(t: Moment, x: nat, y: nat, isStart: bool) {
    if isStart then StartDue(t, x, y) else StopDue(t, x, y)
  }

  function CodeOf(t: Moment, x: nat, y: nat, isStart: bool): int {
    Code(t.minute, x, y, isStart)
  }

  lemma DueIsAsked(t: Moment, x: nat, y: nat, isStart: bool)
    requires Due(t, x, y, isStart)
    ensures x < |t.table| && y < |t.table[x].schedules|
    ensures Asked(t.table[x], x, y, t.minute, t.wday) == [CodeOf(t, x, y, isStart)]
  {
    hide SameWeekday, Code;
  }

  // ----- what was commanded before a place in the table is reached

  /** The day's commands so far, those of this tick for earlier places included. */
  function SoFar(ticks: seq<Moment>, i: nat, x: nat, y: nat): seq<int>
    requires i < |ticks| && x < |ticks[i].table| && y < |ticks[i].table[x].schedules|
  {
    var t := ticks[i];
    (if i > 0 && ticks[i - 1].mday == t.mday then DayCommands(ticks, i - 1) else [])
    + SentOf(Before(ticks, i), AskedUpTo(t.table, x, y, t.minute, t.wday))
  }

  lemma {:induction false} SoFarIsRecorded(ticks: seq<Moment>, i: nat, x: nat, y: nat)
    requires i < |ticks| && x < |ticks[i].table| && y < |ticks[i].table[x].schedules|
    ensures var t := ticks[i];
            SoFar(ticks, i, x, y) == Recorded(Before(ticks, i) + AskedUpTo(t.table, x, y, t.minute, t.wday))
  {
    hide Recorded, SentOf, AskedUpTo, AskedAt;
    var t := ticks[i];
    SentIsRecorded(Before(ticks, i), AskedUpTo(t.table, x, y, t.minute, t.wday));
    RecordedNothing();
    if i > 0 && ticks[i - 1].mday == t.mday {
      DayIsRecorded(ticks, i - 1);
    }
  }

  /** The places after (x, y). */
  lemma {:induction false} AskedSplit(table: seq<Adapter>, x: nat, y: nat, minute: nat, wday: int)
    returns (post: seq<int>)
    requires x <= |table| && (if x < |table| then y <= |table[x].schedules| else y == 0)
    ensures AskedInTick(table, minute, wday) == AskedUpTo(table, x, y, minute, wday) + post
    decreases |table| - x, if x < |table| then |table[x].schedules| - y else 0
  {
    hide Asked;
    var here := AskedUpTo(table, x, y, minute, wday);
    if x == |table| {
      post := [];
      assert here + [] == here;
    } else if y < |table[x].schedules| {
      post := AskedSplit(table, x, y + 1, minute, wday);
      AskedNext(table, x, y, minute, wday);
      var own := Asked(table[x], x, y, minute, wday);
      assert here + own + post == here + (own + post);
      post := own + post;
    } else {
      post := AskedSplit(table, x + 1, 0, minute, wday);
    }
  }

  lemma {:induction false} SentFrom(before: seq<int>, cs: seq<int>, c: int)
    requires c in SentOf(before, cs)
    ensures c in cs
  {
    hide Sent;
    var i := |cs| - 1;
    if c in SentOf(before, cs[..i]) {
      SentFrom(before, cs[..i], c);
    }
  }

  /** A code that is asked for once is sent exactly if it was not recent then. */
  lemma {:induction false} SentAt(before: seq<int>, pre: seq<int>, c: int, post: seq<int>)
    requires c !in pre && c !in post
    ensures c in SentOf(before, pre + [c] + post) <==> !Recent(Recorded(before + pre), c)
  {
    hide SentOf, Recent, Recorded;
    if post == [] {
      assert pre + [c] + [] == pre + [c];
      SentOfOneMore(before, pre, c);
      if c in SentOf(before, pre) {
        SentFrom(before, pre, c);
      }
    } else {
      var k := |post| - 1;
      SentAt(before, pre, c, post[..k]);
      assert pre + [c] + post == (pre + [c] + post[..k]) + [post[k]];
      SentOfOneMore(before, pre + [c] + post[..k], post[k]);
    }
  }

  /** In any tick: a start or stop that is due is commanded if and only if its code is not
      among the last 48 of the day's commands so far. */
  lemma {:induction false} DueIsCommanded(ticks: seq<Moment>, i: nat, x: nat, y: nat, isStart: bool)
    requires i < |ticks| && TableFits(ticks[i].table) && ticks[i].minute < MINUTES && Due(ticks[i], x, y, isStart)
    ensures x < |ticks[i].table| && y < |ticks[i].table[x].schedules|
    ensures CodeOf(ticks[i], x, y, isStart) in CommandsAt(ticks, i) <==>
            CodeOf(ticks[i], x, y, isStart) !in LastOf(SoFar(ticks, i, x, y), MAXDEVICENUM)
  {
    hide Recorded, SentOf, AskedUpTo, Before, SoFar, CodeOf, Due, TableFits;
    var t, c := ticks[i], CodeOf(ticks[i], x, y, isStart);
    DueIsAsked(t, x, y, isStart);
    var pre := AskedUpTo(t.table, x, y, t.minute, t.wday);
    var post := AskedSplit(t.table, x, y + 1, t.minute, t.wday);
    AskedNext(t.table, x, y, t.minute, t.wday);
    AskedAtDistinct(t);
    var all := AskedAt(t);
    assert all == pre + [c] + post;
    OnceInSplit(pre, c, post);
    SentAt(Before(ticks, i), pre, c, post);
    SoFarIsRecorded(ticks, i, x, y);
  }

  lemma OnceInSplit(pre: seq<int>, c: int, post: seq<int>)
    requires Distinct(pre + [c] + post)
    ensures c !in pre && c !in post
  {
    var all := pre + [c] + post;
    assert all[|pre|] == c;
    forall k | 0 <= k < |pre| ensures pre[k] != c {
      assert all[k] == pre[k];
    }
    forall k | 0 <= k < |post| ensures post[k] != c {
      assert all[|pre| + 1 + k] == post[k];
    }
  }

  // ----- whose code it can be

  lemma {:induction false} AskedIsDue(t: Moment, x: nat, y: nat, k: nat) returns (x': nat, y': nat, isStart: bool)
    requires x <= |t.table| && (if x < |t.table| then y <= |t.table[x].schedules| else y == 0)
    requires k < |AskedUpTo(t.table, x, y, t.minute, t.wday)|
    ensures Due(t, x', y', isStart) && (x' < x || (x' == x && y' < y))
    ensures AskedUpTo(t.table, x, y, t.minute, t.wday)[k] == CodeOf(t, x', y', isStart)
    decreases x, y
  {
    hide Code, SameWeekday;
    if y > 0 {
      if k < |AskedUpTo(t.table, x, y - 1, t.minute, t.wday)| {
        x', y', isStart := AskedIsDue(t, x, y - 1, k);
      } else {
        x', y', isStart := x, y - 1, t.minute != t.table[x].schedules[y - 1].end;
      }
    } else {
      x', y', isStart := AskedIsDue(t, x - 1, |t.table[x - 1].schedules|, k);
    }
  }

  predicate InLimits(t: Moment) {
    TableFits(t.table) && t.minute < MINUTES
  }

  /** No earlier tick of the day is of this minute. */
  predicate FirstOfMinute(ticks: seq<Moment>, i: nat)
    requires i < |ticks|
  {
    && InLimits(ticks[i])
    && (forall j :: 0 <= j < i && SameDay(ticks, j, i) ==> InLimits(ticks[j]) && ticks[j].minute != ticks[i].minute)
  }

  /** The minute is later than those of the day's ticks so far. */
  predicate LaterMinute(ticks: seq<Moment>, i: nat)
    requires i < |ticks|
  {
    && InLimits(ticks[i])
    && (forall j :: 0 <= j < i && SameDay(ticks, j, i) ==> InLimits(ticks[j]) && ticks[j].minute < ticks[i].minute)
  }

  lemma {:induction false} DayFrom(ticks: seq<Moment>, i: nat, c: int) returns (j: nat)
    requires i < |ticks| && c in DayCommands(ticks, i)
    ensures j <= i && SameDay(ticks, j, i) && c in CommandsAt(ticks, j)
  {
    hide CommandsAt;
    if c in CommandsAt(ticks, i) {
      j := i;
    } else {
      j := DayFrom(ticks, i - 1, c);
    }
  }

  /** A code among the day's commands so far is that of a start or stop due before: at an
      earlier place of this tick, or in an earlier tick of the day that commanded it. */
  lemma {:induction false} CommandedWasDue(ticks: seq<Moment>, i: nat, x: nat, y: nat, c: int)
    returns (j: nat, x': nat, y': nat, isStart: bool)
    requires i < |ticks| && x < |ticks[i].table| && y < |ticks[i].table[x].schedules|
    requires c in SoFar(ticks, i, x, y)
    ensures j <= i && SameDay(ticks, j, i)
    ensures Due(ticks[j], x', y', isStart) && c == CodeOf(ticks[j], x', y', isStart)
    ensures if j == i then x' < x || (x' == x && y' < y) else c in CommandsAt(ticks, j)
  {
    hide SentOf, AskedUpTo, DayCommands, CodeOf, Due, Before;
    var t := ticks[i];
    var here := AskedUpTo(t.table, x, y, t.minute, t.wday);
    if c in SentOf(Before(ticks, i), here) {
      SentFrom(Before(ticks, i), here, c);
      var k :| 0 <= k < |here| && here[k] == c;
      j := i;
      x', y', isStart := AskedIsDue(t, x, y, k);
    } else {
      j := DayFrom(ticks, i - 1, c);
      assert SameDay(ticks, j, i);
      var t' := ticks[j];
      SentFrom(Before(ticks, j), AskedAt(t'), c);
      var k :| 0 <= k < |AskedAt(t')| && AskedAt(t')[k] == c;
      x', y', isStart := AskedIsDue(t', |t'.table|, 0, k);
    }
  }

  lemma DueInRange(t: Moment, x: nat, y: nat, isStart: bool)
    requires TableFits(t.table) && t.minute < MINUTES && Due(t, x, y, isStart)
    ensures InRange(t.minute, x, y)
  {
    hide SameWeekday;
  }

  /** t' is 1111 minutes before t, and (x', y') 11 adapters and 11 schedules before (x, y). */
  predicate Before1111(t': Moment, x': nat, y': nat, t: Moment, x: nat, y: nat) {
    t'.minute + 1111 == t.minute && x' + 11 == x && y' + 11 == y
  }

  /** The start and the stop of one code; which one is (x, y) says isStart. */
  predicate Meets(t: Moment, x: nat, y: nat, isStart: bool, t': Moment, x': nat, y': nat) {
    && Due(t', x', y', !isStart)
    && if isStart then Before1111(t, x, y, t', x', y') else Before1111(t', x', y', t, x, y)
  }

  /** In the first tick of a minute the code of a start that is due can only be that of an
      earlier stop, and the code of a stop that of an earlier start. */
  lemma {:induction false} SharedCode(ticks: seq<Moment>, i: nat, x: nat, y: nat, isStart: bool)
    returns (j: nat, x': nat, y': nat)
    requires i < |ticks| && FirstOfMinute(ticks, i) && Due(ticks[i], x, y, isStart)
    requires x < |ticks[i].table| && y < |ticks[i].table[x].schedules|
    requires CodeOf(ticks[i], x, y, isStart) in SoFar(ticks, i, x, y)
    ensures j < i && SameDay(ticks, j, i) && Meets(ticks[i], x, y, isStart, ticks[j], x', y')
    ensures CodeOf(ticks[j], x', y', !isStart) in CommandsAt(ticks, j)
  {
    hide SoFar, Code, Applies, TableFits, InRange, CommandsAt, SameDay;
    var isStart';
    j, x', y', isStart' := CommandedWasDue(ticks, i, x, y, CodeOf(ticks[i], x, y, isStart));
    var t, t' := ticks[i], ticks[j];
    DueInRange(t, x, y, isStart);
    DueInRange(t', x', y', isStart');
    if isStart == isStart' {
      CodesOfAKind(t.minute, x, y, t'.minute, x', y', isStart);
    } else if isStart {
      StartMeetsStop(t.minute, x, y, t'.minute, x', y');
    } else {
      StartMeetsStop(t'.minute, x', y', t.minute, x, y);
    }
  }

  lemma LaterIsFirst(ticks: seq<Moment>, i: nat)
    requires i < |ticks| && LaterMinute(ticks, i)
    ensures FirstOfMinute(ticks, i)
  {
    hide SameDay, InLimits;
  }

  // ----- starts and stops

  /** In the first tick of a minute a stop that is due is commanded if and only if the start
      of 1111 minutes before, 11 adapters and 11 schedules back, is not among the last 48 of
      the day's commands so far. */
  lemma {:induction false} StopIsCommanded(ticks: seq<Moment>, i: nat, x: nat, y: nat)
    requires i < |ticks| && FirstOfMinute(ticks, i) && StopDue(ticks[i], x, y)
    ensures x < |ticks[i].table| && y < |ticks[i].table[x].schedules|
    ensures CodeOf(ticks[i], x, y, false) in CommandsAt(ticks, i) <==>
            Code(ticks[i].minute - 1111, x - 11, y - 11, true) !in LastOf(SoFar(ticks, i, x, y), MAXDEVICENUM)
  {
    hide CommandsAt, SoFar, StopDue, TableFits, SameDay;
    DueIsCommanded(ticks, i, x, y, false);
  }

  /** And a start that is due if and only if the stop of 1111 minutes later, 11 adapters and
      11 schedules on, is not: that of a clock that has been set back. */
  lemma {:induction false} StartIsCommanded(ticks: seq<Moment>, i: nat, x: nat, y: nat)
    requires i < |ticks| && FirstOfMinute(ticks, i) && StartDue(ticks[i], x, y)
    ensures x < |ticks[i].table| && y < |ticks[i].table[x].schedules|
    ensures CodeOf(ticks[i], x, y, true) in CommandsAt(ticks, i) <==>
            Code(ticks[i].minute + 1111, x + 11, y + 11, false) !in LastOf(SoFar(ticks, i, x, y), MAXDEVICENUM)
  {
    hide CommandsAt, SoFar, StartDue, TableFits, SameDay;
    DueIsCommanded(ticks, i, x, y, true);
  }

  lemma InLastOf(h: seq<int>, c: int)
    requires c in LastOf(h, MAXDEVICENUM)
    ensures c in h
  {
  }

  /** What is lost is lost to the start or stop of the same code: that was due, and
      commanded, in an earlier tick of the day. */
  lemma {:induction false} LostToOther(ticks: seq<Moment>, i: nat, x: nat, y: nat, isStart: bool)
    returns (j: nat, x': nat, y': nat)
    requires i < |ticks| && FirstOfMinute(ticks, i) && Due(ticks[i], x, y, isStart)
    requires CodeOf(ticks[i], x, y, isStart) !in CommandsAt(ticks, i)
    ensures j < i && SameDay(ticks, j, i) && Meets(ticks[i], x, y, isStart, ticks[j], x', y')
    ensures CodeOf(ticks[j], x', y', !isStart) in CommandsAt(ticks, j)
  {
    hide CommandsAt, SoFar, CodeOf, Due, TableFits, SameDay, Meets;
    DueIsCommanded(ticks, i, x, y, isStart);
    InLastOf(SoFar(ticks, i, x, y), CodeOf(ticks[i], x, y, isStart));
    j, x', y' := SharedCode(ticks, i, x, y, isStart);
  }

  /** While the clock goes forward, every start that is due is commanded. */
  lemma {:induction false} LaterStartIsCommanded(ticks: seq<Moment>, i: nat, x: nat, y: nat)
    requires i < |ticks| && LaterMinute(ticks, i) && StartDue(ticks[i], x, y)
    ensures CodeOf(ticks[i], x, y, true) in CommandsAt(ticks, i)
  {
    hide CommandsAt, CodeOf, StartDue, TableFits, SameDay;
    LaterIsFirst(ticks, i);
    if CodeOf(ticks[i], x, y, true) !in CommandsAt(ticks, i) {
      var _, _, _ := LostToOther(ticks, i, x, y, true);
    }
  }

  // ----- minutes in which all is new

  /** The other start or stop of the code was commanded earlier that day, and that is
      among the last 48 commands before the tick. */
  predicate Met(ticks: seq<Moment>, i: nat, x: nat, y: nat, isStart: bool, j: nat, x': nat, y': nat)
    requires j < i < |ticks|
  {
    && SameDay(ticks, j, i) && Meets(ticks[i], x, y, isStart, ticks[j], x', y')
    && CodeOf(ticks[j], x', y', !isStart) in LastOf(Recorded(Before(ticks, i)), MAXDEVICENUM)
  }

  ghost predicate NoneMet(ticks: seq<Moment>, i: nat)
    requires i < |ticks|
  {
    forall x: nat, y: nat, isStart, j: nat, x': nat, y': nat ::
      j < i && Due(ticks[i], x, y, isStart) ==> !Met(ticks, i, x, y, isStart, j, x', y')
  }

  /** This is exactly when no code of the first tick of a minute is recent, and hence when
      all that is due is commanded. */
  lemma {:induction false} NoneMetIsNew(ticks: seq<Moment>, i: nat)
    requires i < |ticks| && FirstOfMinute(ticks, i)
    ensures NewCodes(ticks, i) <==> NoneMet(ticks, i)
    ensures NewCodes(ticks, i) ==> CommandsAt(ticks, i) == AskedAt(ticks[i])
  {
    hide SentOf, Recorded, Before, AskedInTick, Due, TableFits, CodeOf, Meets, SameDay;
    var t, h := ticks[i], Recorded(Before(ticks, i));
    if NewCodes(ticks, i) {
      AskedAtDistinct(t);
      AllSent(Before(ticks, i), AskedAt(t));
      forall x: nat, y: nat, isStart, j: nat, x': nat, y': nat | j < i && Due(t, x, y, isStart)
        ensures !Met(ticks, i, x, y, isStart, j, x', y')
      {
        DueInTick(t, x, y, isStart);
        if Meets(t, x, y, isStart, ticks[j], x', y') {
          SameCode(t, x, y, isStart, ticks[j], x', y');
        }
      }
    }
    if NoneMet(ticks, i) {
      forall c | c in AskedAt(t) ensures !Recent(h, c) {
        if Recent(h, c) {
          RecentIsMet(ticks, i, c);
        }
      }
    }
  }

  lemma SameCode(t: Moment, x: nat, y: nat, isStart: bool, t': Moment, x': nat, y': nat)
    requires Meets(t, x, y, isStart, t', x', y')
    ensures CodeOf(t', x', y', !isStart) == CodeOf(t, x, y, isStart)
  {
    hide Due;
  }

  lemma {:induction false} RecentIsMet(ticks: seq<Moment>, i: nat, c: int)
    requires i < |ticks| && FirstOfMinute(ticks, i) && c in AskedAt(ticks[i])
    requires c in LastOf(Recorded(Before(ticks, i)), MAXDEVICENUM)
    ensures !NoneMet(ticks, i)
  {
    hide SentOf, Recorded, Before, AskedUpTo, Due, TableFits, SoFar, CodeOf, Meets, SameDay;
    var t := ticks[i];
    var x, y, isStart := TickIsDue(t, c);
    DueIsAsked(t, x, y, isStart);
    InLastOf(Recorded(Before(ticks, i)), c);
    SentIsRecorded(Before(ticks, i), AskedUpTo(t.table, x, y, t.minute, t.wday));
    SoFarIsRecorded(ticks, i, x, y);
    var j, x', y' := SharedCode(ticks, i, x, y, isStart);
    SameCode(t, x, y, isStart, ticks[j], x', y');
    assert Met(ticks, i, x, y, isStart, j, x', y');
  }

  lemma DueInTick(t: Moment, x: nat, y: nat, isStart: bool)
    requires Due(t, x, y, isStart)
    ensures CodeOf(t, x, y, isStart) in AskedAt(t)
  {
    hide AskedUpTo, Due;
    DueIsAsked(t, x, y, isStart);
    var post := AskedSplit(t.table, x, y + 1, t.minute, t.wday);
    AskedNext(t.table, x, y, t.minute, t.wday);
    var pre := AskedUpTo(t.table, x, y, t.minute, t.wday);
    assert AskedAt(t)[|pre|] == CodeOf(t, x, y, isStart);
  }

  lemma TickIsDue(t: Moment, c: int) returns (x: nat, y: nat, isStart: bool)
    requires c in AskedAt(t)
    ensures Due(t, x, y, isStart) && c == CodeOf(t, x, y, isStart)
  {
    hide AskedUpTo, Due, CodeOf;
    var k :| 0 <= k < |AskedAt(t)| && AskedAt(t)[k] == c;
    x, y, isStart := AskedIsDue(t, |t.table|, 0, k);
  }

  // ----- a stop that is lost

  /** Twelve adapters: the first one is to start at midnight, the last one, in its twelfth
      schedule, to stop at 18:31. */
  function Twelve(): (table: seq<Adapter>)
    ensures |table| == 12
  {
    var off := seq(11, _ => Schedule(false, 0, 0, 0));
    seq(12, x => if x == 0 then Adapter(true, [Schedule(true, 0x7f, 0, 600)])
                 else if x == 11 then Adapter(true, off + [Schedule(true, 0x7f, 1000, 1111)])
                 else Adapter(true, []))
  }

  function MidnightAndEvening(): seq<Moment> {
    [Moment(Twelve(), 1, 0, 1), Moment(Twelve(), 1, 1111, 1)]
  }

  /** Nothing but (x0, y0) is due. */
  ghost predicate OnlyDue(t: Moment, x0: nat, y0: nat) {
    forall x: nat, y: nat, isStart :: Due(t, x, y, isStart) ==> x == x0 && y == y0
  }

  lemma {:induction false} OnlyAsked(t: Moment, x: nat, y: nat, x0: nat, y0: nat, isStart: bool)
    requires x <= |t.table| && (if x < |t.table| then y <= |t.table[x].schedules| else y == 0)
    requires OnlyDue(t, x0, y0) && Due(t, x0, y0, isStart)
    ensures AskedUpTo(t.table, x, y, t.minute, t.wday) ==
            if x0 < x || (x0 == x && y0 < y) then [CodeOf(t, x0, y0, isStart)] else []
    decreases x, y
  {
    hide Code, SameWeekday, Asked;
    if y > 0 {
      OnlyAsked(t, x, y - 1, x0, y0, isStart);
      AskedNext(t.table, x, y - 1, t.minute, t.wday);
      if x == x0 && y - 1 == y0 {
        DueIsAsked(t, x0, y0, isStart);
      } else {
        NotDueNotAsked(t, x, y - 1);
      }
    } else if x > 0 {
      DueIsAsked(t, x0, y0, isStart);
      OnlyAsked(t, x - 1, |t.table[x - 1].schedules|, x0, y0, isStart);
    }
  }

  lemma NotDueNotAsked(t: Moment, x: nat, y: nat)
    requires x < |t.table| && y < |t.table[x].schedules| && !Due(t, x, y, true) && !Due(t, x, y, false)
    ensures Asked(t.table[x], x, y, t.minute, t.wday) == []
  {
    hide Code, SameWeekday;
  }

  lemma EveryMonday()
    ensures SameWeekday(0x7f, 1)
  {
    assert 0x7f as bv16 & 0x01 == 0x01;
  }

  lemma MidnightDue()
    ensures var t := MidnightAndEvening()[0]; StartDue(t, 0, 0) && OnlyDue(t, 0, 0)
  {
    hide SameWeekday;
    EveryMonday();
  }

  lemma EveningDue()
    ensures var t := MidnightAndEvening()[1]; StopDue(t, 11, 11) && OnlyDue(t, 11, 11)
  {
    hide SameWeekday;
    EveryMonday();
  }

  lemma {:induction false} AskedAgain(ticks: seq<Moment>, c: int)
    requires |ticks| == 2 && ticks[0].mday == ticks[1].mday
    requires AskedAt(ticks[0]) == AskedAt(ticks[1]) == [c]
    ensures CommandsAt(ticks, 0) == [c] && CommandsAt(ticks, 1) == []
  {
    hide SentOf, AskedAt, Recorded;
    RecordedNothing();
    AllSent([], [c]);
    assert [] + [c] == [c];
    assert Before(ticks, 1) == Before(ticks, 0) + [c] == [c];
    NoneSent([c], [c]);
  }

  lemma OneAsked(t: Moment, x0: nat, y0: nat, isStart: bool)
    requires OnlyDue(t, x0, y0) && Due(t, x0, y0, isStart)
    ensures AskedAt(t) == [CodeOf(t, x0, y0, isStart)]
  {
    hide Code, OnlyDue, AskedUpTo;
    DueIsAsked(t, x0, y0, isStart);
    OnlyAsked(t, |t.table|, 0, x0, y0, isStart);
  }

  /** A run of two ticks: the start at midnight is commanded, the stop that is due in the
      evening is not. */
  lemma StopIsLost()
    ensures var ticks := MidnightAndEvening();
            && StopDue(ticks[1], 11, 11)
            && CommandsAt(ticks, 0) == [Code(0, 0, 0, true)] && CommandsAt(ticks, 1) == []
  {
    hide Twelve, StartDue, StopDue, OnlyDue, Code, AskedAt, CommandsAt;
    var ticks := MidnightAndEvening();
    MidnightDue();
    EveningDue();
    OneAsked(ticks[0], 0, 0, true);
    OneAsked(ticks[1], 11, 11, false);
    StartMeetsStop(0, 0, 0, 1111, 11, 11);
    AskedAgain(ticks, Code(0, 0, 0, true));
  }

  /** With the clock set back from the evening to midnight, it is the start that is lost. */
  lemma StartIsLost()
    ensures var ticks := [MidnightAndEvening()[1], MidnightAndEvening()[0]];
            && StartDue(ticks[1], 0, 0)
            && CommandsAt(ticks, 0) == [Code(1111, 11, 11, false)] && CommandsAt(ticks, 1) == []
  {
    hide Twelve, StartDue, StopDue, OnlyDue, Code, AskedAt, CommandsAt;
    var ticks := [MidnightAndEvening()[1], MidnightAndEvening()[0]];
    MidnightDue();
    EveningDue();
    OneAsked(ticks[0], 11, 11, false);
    OneAsked(ticks[1], 0, 0, true);
    StartMeetsStop(0, 0, 0, 1111, 11, 11);
    AskedAgain(ticks, Code(0, 0, 0, true));
  }
}
