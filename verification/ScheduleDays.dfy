/**
 The schedules as their owner sets them: days of the week by name, and the order of the
 tables in which starts and stops are asked for.
 */
module ScheduleDays {
  import opened ScheduleRing
  import opened ScheduleRuns
  import opened ScheduleDue

  // ----- days of the week

  function Bit(ticked: bool, mask: bv16): bv16 {
    if ticked then mask else 0
  }

  /** The bits of a schedule for the days Monday to Sunday; bits above the seventh mean
      nothing. */
  function WeekOf(days: seq<bool>, high: bv16): bv16
    requires |days| == 7
  {
    Bit(days[0], 0x01) | Bit(days[1], 0x02) | Bit(days[2], 0x04) | Bit(days[3], 0x08)
    | Bit(days[4], 0x10) | Bit(days[5], 0x20) | Bit(days[6], 0x40) | (high & 0xff80)
  }

  predicate Has(w: bv16, mask: bv16) {
    w & mask == mask
  }

  lemma BitsRead(a: bool, b: bool, c: bool, d: bool, e: bool, f: bool, g: bool, high: bv16)
    ensures var w := Bit(a, 0x01) | Bit(b, 0x02) | Bit(c, 0x04) | Bit(d, 0x08) | Bit(e, 0x10) | Bit(f, 0x20)
                     | Bit(g, 0x40) | (high & 0xff80);
            && (Has(w, 0x01) <==> a) && (Has(w, 0x02) <==> b) && (Has(w, 0x04) <==> c) && (Has(w, 0x08) <==> d)
            && (Has(w, 0x10) <==> e) && (Has(w, 0x20) <==> f) && (Has(w, 0x40) <==> g)
  {
  }

  lemma DaysRead(days: seq<bool>, high: bv16)
    requires |days| == 7
    ensures var w := WeekOf(days, high);
            && (Has(w, 0x01) <==> days[0]) && (Has(w, 0x02) <==> days[1]) && (Has(w, 0x04) <==> days[2])
            && (Has(w, 0x08) <==> days[3]) && (Has(w, 0x10) <==> days[4]) && (Has(w, 0x20) <==> days[5])
            && (Has(w, 0x40) <==> days[6])
  {
    hide Has, Bit;
    BitsRead(days[0], days[1], days[2], days[3], days[4], days[5], days[6], high);
  }

  lemma DayMasks(w: bv16, wday: int)
    ensures 0 <= wday <= 6 ==>
              (SameWeekday(w, wday) <==>
               Has(w, if wday == 0 then 0x40 else if wday == 1 then 0x01 else if wday == 2 then 0x02
                      else if wday == 3 then 0x04 else if wday == 4 then 0x08 else if wday == 5 then 0x10 else 0x20))
    ensures SameWeekday(w, wday) ==> 0 <= wday <= 6
  {
  }

  /** The clock counts the days from Sunday, 0, to Saturday, 6. */
  lemma DayIsRead(days: seq<bool>, high: bv16, wday: int)
    requires |days| == 7
    ensures SameWeekday(WeekOf(days, high), wday) <==> 0 <= wday <= 6 && days[(wday + 6) % 7]
  {
    hide WeekOf, SameWeekday, Has;
    DaysRead(days, high);
    DayMasks(WeekOf(days, high), wday);
    if 0 <= wday <= 6 {
      assert (wday + 6) % 7 == if wday == 0 then 6 else wday - 1;
    }
  }

  /** On which days and in which minutes a schedule of a registered adapter starts and stops. */
  lemma DueOnItsDays(t: Moment, x: nat, y: nat, days: seq<bool>, high: bv16, start: int, end: int)
    requires x < |t.table| && t.table[x].registered && y < |t.table[x].schedules| && |days| == 7
    requires t.table[x].schedules[y] == Schedule(true, WeekOf(days, high), start, end)
    ensures var today := 0 <= t.wday <= 6 && days[(t.wday + 6) % 7];
            && (Due(t, x, y, true) <==> today && t.minute == start != end)
            && (Due(t, x, y, false) <==> today && t.minute == end)
  {
    hide WeekOf, SameWeekday;
    DayIsRead(days, high, t.wday);
  }

  // ----- codes

  /** The decimal digits of a code name the minute, the adapter and the schedule. */
  lemma CodeDigits(minute: int, x: int, y: int, isStart: bool)
    requires InRange(minute, x, y)
    ensures var n := Code(minute, x, y, isStart) - if isStart then 99999999 else 88888888;
            n / 10000 == minute && n / 100 % 100 == x && n % 100 == y
  {
    var n := minute * 10000 + x * 100 + y;
    assert n == 100 * (100 * minute + x) + y;
    assert n / 100 == 100 * minute + x;
  }

  // ----- the order of the tables

  predicate InFront(x: nat, y: nat, x': nat, y': nat) {
    x < x' || (x == x' && y <= y')
  }

  /** What is asked for between two places. */
  lemma {:induction false} AskedBetween(table: seq<Adapter>, x: nat, y: nat, x': nat, y': nat, minute: int, wday: int)
    returns (mid: seq<int>)
    requires x < |table| && y <= |table[x].schedules| && x' < |table| && y' <= |table[x'].schedules|
    requires InFront(x, y, x', y')
    ensures AskedUpTo(table, x', y', minute, wday) == AskedUpTo(table, x, y, minute, wday) + mid
    decreases x', y'
  {
    hide Asked;
    var here := AskedUpTo(table, x, y, minute, wday);
    if x == x' && y == y' {
      mid := [];
      assert here + [] == here;
    } else if y' > 0 {
      mid := AskedBetween(table, x, y, x', y' - 1, minute, wday);
      AskedNext(table, x', y' - 1, minute, wday);
      var own := Asked(table[x'], x', y' - 1, minute, wday);
      assert here + mid + own == here + (mid + own);
      mid := mid + own;
    } else {
      mid := AskedBetween(table, x, y, x' - 1, |table[x' - 1].schedules|, minute, wday);
    }
  }

  /** Of two that are due in one tick, that of the lower adapter, or of the same adapter and
      the lower schedule, is asked for first. */
  lemma TableOrder(t: Moment, x: nat, y: nat, isStart: bool, x': nat, y': nat, isStart': bool)
    requires Due(t, x, y, isStart) && Due(t, x', y', isStart') && InFront(x, y + 1, x', y')
    ensures exists i, j :: 0 <= i < j < |AskedAt(t)| && AskedAt(t)[i] == CodeOf(t, x, y, isStart)
                           && AskedAt(t)[j] == CodeOf(t, x', y', isStart')
  {
    hide AskedUpTo, Asked, Code;
    DueIsAsked(t, x, y, isStart);
    DueIsAsked(t, x', y', isStart');
    var pre := AskedUpTo(t.table, x, y, t.minute, t.wday);
    AskedNext(t.table, x, y, t.minute, t.wday);
    var mid := AskedBetween(t.table, x, y + 1, x', y', t.minute, t.wday);
    AskedNext(t.table, x', y', t.minute, t.wday);
    var post := AskedSplit(t.table, x', y' + 1, t.minute, t.wday);
    var c, c' := CodeOf(t, x, y, isStart), CodeOf(t, x', y', isStart');
    assert AskedAt(t) == pre + [c] + mid + [c'] + post;
    assert AskedAt(t)[|pre|] == c && AskedAt(t)[|pre| + 1 + |mid|] == c';
  }
}
