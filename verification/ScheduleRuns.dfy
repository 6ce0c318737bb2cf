/**
 Runs of the schedules: any sequence of ticks, with tables that may change in between.
 What was commanded on one day is exactly what the ring's history records, so the same
 code comes again only after 48 others; and what that means for one minute.
 */
module ScheduleRuns {
  import opened Sequences
  import opened ScheduleRing

  /** One call of arrangeSchedule. */
  datatype Moment = Moment(table: seq<Adapter>, mday: int, minute: nat, wday: int)

  function AskedAt(t: Moment): seq<int> {
    AskedInTick(t.table, t.minute, t.wday)
  }

  /** No new day begins between both ticks. A later month with the same day number is
      another day. */
  predicate SameDay(ticks: seq<Moment>, j: nat, i: nat)
    requires j <= i < |ticks|
  {
    forall k :: j <= k <= i ==> ticks[k].mday == ticks[i].mday
  }

  /** Codes asked for on the day of tick i, before that tick. */
  function Before(ticks: seq<Moment>, i: nat): seq<int>
    requires i < |ticks|
  {
    if i > 0 && ticks[i - 1].mday == ticks[i].mday then Before(ticks, i - 1) + AskedAt(ticks[i - 1]) else []
  }

  /** The commands of tick i. */
  function CommandsAt(ticks: seq<Moment>, i: nat): seq<int>
    requires i < |ticks|
  {
    SentOf(Before(ticks, i), AskedAt(ticks[i]))
  }

  /** All commands of the day of tick i, up to that tick. */
  function DayCommands(ticks: seq<Moment>, i: nat): seq<int>
    requires i < |ticks|
  {
    (if i > 0 && ticks[i - 1].mday == ticks[i].mday then DayCommands(ticks, i - 1) else []) + CommandsAt(ticks, i)
  }

  // ----- what is commanded is what is recorded

  lemma RecordedNothing()
    ensures Recorded([]) == []
  {
  }

  lemma {:induction false} SentIsRecorded(before: seq<int>, cs: seq<int>)
    ensures Recorded(before + cs) == Recorded(before) + SentOf(before, cs)
  {
    hide Recorded, Sent;
    if cs == [] {
      assert before + [] == before;
    } else {
      var i := |cs| - 1;
      SentIsRecorded(before, cs[..i]);
      RecordedStep(before + cs, |before| + i);
      assert (before + cs)[..|before| + i] == before + cs[..i];
      assert (before + cs)[..|before| + i + 1] == before + cs;
      assert Recorded(before) + SentOf(before, cs[..i]) + [] == Recorded(before) + SentOf(before, cs[..i]);
    }
  }

  /** The day's commands are the codes recorded since midnight. */
  lemma {:induction false} DayIsRecorded(ticks: seq<Moment>, i: nat)
    requires i < |ticks|
    ensures DayCommands(ticks, i) == Recorded(Before(ticks, i) + AskedAt(ticks[i]))
  {
    hide Recorded, SentOf, AskedAt;
    SentIsRecorded(Before(ticks, i), AskedAt(ticks[i]));
    RecordedNothing();
    if i > 0 && ticks[i - 1].mday == ticks[i].mday {
      DayIsRecorded(ticks, i - 1);
    }
  }

  // ----- the same command comes again only after 48 others

  /** Equal codes are more than 48 places apart. */
  predicate Spaced(h: seq<int>) {
    forall p, q :: 0 <= p < q < |h| && h[p] == h[q] ==> q - p > MAXDEVICENUM
  }

  lemma InLast(h: seq<int>, p: nat, n: nat)
    requires p < |h| <= p + n
    ensures h[p] in LastOf(h, n)
  {
    var first := if |h| <= n then 0 else |h| - n;
    assert LastOf(h, n)[p - first] == h[p];
  }

  lemma SpacedOneMore(h: seq<int>, code: int)
    requires Spaced(h)
    ensures Spaced(Handle(h, code))
  {
    forall p | 0 <= p < |h| && |h| <= p + MAXDEVICENUM ensures Recent(h, h[p]) {
      InLast(h, p, MAXDEVICENUM);
    }
  }

  lemma {:induction false} RecordedSpaced(cs: seq<int>)
    ensures Spaced(Recorded(cs))
  {
    hide Spaced, Handle;
    if cs == [] {
      assert Spaced(Recorded(cs)) by { NothingSpaced(); }
    } else {
      RecordedSpaced(cs[..|cs| - 1]);
      SpacedOneMore(Recorded(cs[..|cs| - 1]), cs[|cs| - 1]);
    }
  }

  lemma NothingSpaced()
    ensures Spaced([])
  {
  }

  /** Over any run of ticks: between two commands of one day for the same start or stop
      at least 48 others were sent. */
  lemma {:induction false} CommandsSpaced(ticks: seq<Moment>, i: nat)
    requires i < |ticks|
    ensures Spaced(DayCommands(ticks, i))
  {
    hide Spaced, DayCommands, Recorded;
    DayIsRecorded(ticks, i);
    RecordedSpaced(Before(ticks, i) + AskedAt(ticks[i]));
  }

  // ----- one minute

  /** No code twice among those asked for. */
  predicate Distinct(cs: seq<int>) {
    forall i, j :: 0 <= i < j < |cs| ==> cs[i] != cs[j]
  }

  /** The table is within the limits of the program. */
  predicate TableFits(table: seq<Adapter>) {
    |table| <= MAXDEVICENUM && forall x :: 0 <= x < |table| ==> |table[x].schedules| <= SCHEDULE_MAX_TARGET
  }

  lemma {:induction false} AskedPlace(table: seq<Adapter>, x: nat, y: nat, minute: nat, wday: int, k: nat)
    returns (x': nat, y': nat, isStart: bool)
    requires TableFits(table) && x <= |table| && (if x < |table| then y <= |table[x].schedules| else y == 0)
    requires k < |AskedUpTo(table, x, y, minute, wday)|
    ensures x' < |table| && y' < |table[x'].schedules| && (x' < x || (x' == x && y' < y))
    ensures AskedUpTo(table, x, y, minute, wday)[k] == Code(minute, x', y', isStart)
    ensures !isStart ==> table[x'].schedules[y'].end == minute
    decreases x, y
  {
    hide Code;
    if y > 0 {
      if k < |AskedUpTo(table, x, y - 1, minute, wday)| {
        x', y', isStart := AskedPlace(table, x, y - 1, minute, wday, k);
      } else {
        x', y', isStart := x, y - 1, minute != table[x].schedules[y - 1].end;
      }
    } else {
      x', y', isStart := AskedPlace(table, x - 1, |table[x - 1].schedules|, minute, wday, k);
    }
  }

  lemma {:induction false} AskedDistinct(table: seq<Adapter>, x: nat, y: nat, minute: nat, wday: int)
    requires TableFits(table) && minute < MINUTES
    requires x <= |table| && (if x < |table| then y <= |table[x].schedules| else y == 0)
    ensures Distinct(AskedUpTo(table, x, y, minute, wday))
    decreases x, y
  {
    hide Code;
    if y > 0 {
      AskedDistinct(table, x, y - 1, minute, wday);
      var cs := AskedUpTo(table, x, y - 1, minute, wday);
      forall k | 0 <= k < |cs|
        ensures cs[k] != Code(minute, x, y - 1, true) && cs[k] != Code(minute, x, y - 1, false)
      {
        var x', y', isStart := AskedPlace(table, x, y - 1, minute, wday, k);
        PlacesDiffer(minute, x', y', isStart, x, y - 1, true);
        PlacesDiffer(minute, x', y', isStart, x, y - 1, false);
      }
    } else if x > 0 {
      AskedDistinct(table, x - 1, |table[x - 1].schedules|, minute, wday);
    }
  }

  /** In one minute no start meets a stop. */
  lemma PlacesDiffer(minute: int, x: int, y: int, isStart: bool, x': int, y': int, isStart': bool)
    requires InRange(minute, x, y) && InRange(minute, x', y') && (x, y) != (x', y')
    ensures Code(minute, x, y, isStart) != Code(minute, x', y', isStart')
  {
    hide Code, InRange;
    if isStart == isStart' {
      CodesOfAKind(minute, x, y, minute, x', y', isStart);
    } else if isStart {
      StartMeetsStop(minute, x, y, minute, x', y');
    } else {
      StartMeetsStop(minute, x', y', minute, x, y);
    }
  }

  /** Distinct codes none of which is recent are all sent. */
  lemma {:induction false} AllSent(before: seq<int>, cs: seq<int>)
    requires Distinct(cs) && forall c :: c in cs ==> !Recent(Recorded(before), c)
    ensures SentOf(before, cs) == cs && Recorded(before + cs) == Recorded(before) + cs
  {
    hide Recorded, Sent, Recent;
    SentIsRecorded(before, cs);
    if cs != [] {
      var i := |cs| - 1;
      AllSent(before, cs[..i]);
      OnlyLater(Recorded(before), cs[..i], cs[i]);
      assert (before + cs)[..|before| + i] == before + cs[..i];
      assert Sent(before + cs, |before| + i) by { SentMeans(before + cs, |before| + i); }
    }
  }

  lemma SentMeans(cs: seq<int>, i: nat)
    requires i < |cs|
    ensures Sent(cs, i) <==> !Recent(Recorded(cs[..i]), cs[i])
  {
  }

  lemma OnlyLater(h: seq<int>, later: seq<int>, c: int)
    requires !Recent(h, c) && c !in later
    ensures !Recent(h + later, c)
  {
    var n := MAXDEVICENUM;
    var all := LastOf(h + later, n);
    forall k | 0 <= k < |all| ensures all[k] != c {
      var p := |h + later| - |all| + k;
      assert all[k] == (h + later)[p];
      if p < |h| {
        InLast(h, p, n);
      }
    }
  }

  /** Recent codes are not sent. */
  lemma {:induction false} NoneSent(before: seq<int>, cs: seq<int>)
    requires forall c :: c in cs ==> Recent(Recorded(before), c)
    ensures SentOf(before, cs) == [] && Recorded(before + cs) == Recorded(before)
  {
    hide Recorded, Sent, Recent;
    SentIsRecorded(before, cs);
    if cs != [] {
      var i := |cs| - 1;
      NoneSent(before, cs[..i]);
      assert (before + cs)[..|before| + i] == before + cs[..i];
      assert !Sent(before + cs, |before| + i) by { SentMeans(before + cs, |before| + i); }
    }
    assert Recorded(before) + [] == Recorded(before);
  }

  /** More than 48 distinct codes, just recorded, push each other out one by one. */
  lemma {:induction false} AllSentAgain(before: seq<int>, g: seq<int>, cs: seq<int>, n: nat)
    requires Distinct(cs) && n <= |cs| && |cs| > MAXDEVICENUM && Recorded(before) == g + cs
    ensures SentOf(before, cs[..n]) == cs[..n] && Recorded(before + cs[..n]) == g + cs + cs[..n]
  {
    hide Recorded, Sent, Recent;
    SentIsRecorded(before, cs[..n]);
    if n > 0 {
      var i := n - 1;
      AllSentAgain(before, g, cs, i);
      assert cs[..n][..i] == cs[..i];
      PushedOut(g, cs, i);
      assert (before + cs[..n])[..|before| + i] == before + cs[..i];
      assert Sent(before + cs[..n], |before| + i) by { SentMeans(before + cs[..n], |before| + i); }
      assert cs[..i] + [cs[i]] == cs[..n];
    }
  }

  lemma PushedOut(g: seq<int>, cs: seq<int>, i: nat)
    requires Distinct(cs) && i < |cs| && |cs| > MAXDEVICENUM
    ensures !Recent(g + cs + cs[..i], cs[i])
  {
    var all, h := LastOf(g + cs + cs[..i], MAXDEVICENUM), g + cs + cs[..i];
    forall k | 0 <= k < |all| ensures all[k] != cs[i] {
      var p := |h| - |all| + k;
      assert all[k] == h[p];
      assert if p < |g| + |cs| then h[p] == cs[p - |g|] else h[p] == cs[p - |g| - |cs|];
    }
  }

  /** What a minute's codes leave behind, and what asking for them again sends. */
  lemma AskedTwice(before: seq<int>, g: seq<int>, cs: seq<int>)
    requires Distinct(cs) && Recorded(before) == g + cs
    ensures SentOf(before, cs) == if |cs| <= MAXDEVICENUM then [] else cs
    ensures Recorded(before + cs) == (if |cs| <= MAXDEVICENUM then g else g + cs) + cs
  {
    hide Recorded, SentOf;
    if |cs| <= MAXDEVICENUM {
      forall c | c in cs ensures Recent(Recorded(before), c) {
        var k :| 0 <= k < |cs| && cs[k] == c;
        InLast(g + cs, |g| + k, MAXDEVICENUM);
      }
      NoneSent(before, cs);
    } else {
      AllSentAgain(before, g, cs, |cs|);
      assert cs[..|cs|] == cs;
    }
  }

  predicate SameFrom(ticks: seq<Moment>, first: nat, k: nat)
    requires first <= k < |ticks|
  {
    forall j :: first <= j <= k ==> ticks[j] == ticks[first]
  }

  /** None of the codes due is among the last 48 commands of the day. */
  predicate NewCodes(ticks: seq<Moment>, i: nat)
    requires i < |ticks|
  {
    forall c :: c in AskedAt(ticks[i]) ==> !Recent(Recorded(Before(ticks, i)), c)
  }

  lemma {:induction false} LeavesBehind(ticks: seq<Moment>, first: nat, k: nat) returns (g: seq<int>)
    requires first <= k < |ticks| && SameFrom(ticks, first, k) && NewCodes(ticks, first)
    requires TableFits(ticks[first].table) && ticks[first].minute < MINUTES
    ensures Recorded(Before(ticks, k) + AskedAt(ticks[k])) == g + AskedAt(ticks[first])
    ensures CommandsAt(ticks, k) ==
            if k == first || |AskedAt(ticks[first])| > MAXDEVICENUM then AskedAt(ticks[first]) else []
    decreases k
  {
    hide Recorded, SentOf, Recent, TableFits, AskedAt;
    var cs := AskedAt(ticks[first]);
    assert Distinct(cs) by { AskedAtDistinct(ticks[first]); }
    if k == first {
      AllSent(Before(ticks, first), cs);
      g := Recorded(Before(ticks, first));
    } else {
      g := LeavesBehind(ticks, first, k - 1);
      AskedTwice(Before(ticks, k), g, cs);
      g := if |cs| <= MAXDEVICENUM then g else g + cs;
    }
  }

  lemma AskedAtDistinct(t: Moment)
    requires TableFits(t.table) && t.minute < MINUTES
    ensures Distinct(AskedAt(t))
  {
    AskedDistinct(t.table, |t.table|, 0, t.minute, t.wday);
  }

  // ----- a minute that is new

  lemma {:induction false} RecordedFrom(cs: seq<int>, c: int)
    requires c in Recorded(cs)
    ensures c in cs
  {
    hide Recent;
    var i := |cs| - 1;
    if c in Recorded(cs[..i]) {
      RecordedFrom(cs[..i], c);
    }
  }

  lemma {:induction false} BeforeFrom(ticks: seq<Moment>, i: nat, c: int) returns (j: nat)
    requires i < |ticks| && c in Before(ticks, i)
    ensures j < i && SameDay(ticks, j, i) && c in AskedAt(ticks[j])
  {
    hide AskedAt;
    if c in AskedAt(ticks[i - 1]) {
      j := i - 1;
    } else {
      j := BeforeFrom(ticks, i - 1, c);
    }
  }

  /** No stop is due that could share its code with a start 1111 minutes before. */
  predicate NoClash(t: Moment) {
    t.minute < 1111 ||
    forall x, y :: 11 <= x < |t.table| && 11 <= y < |t.table[x].schedules| ==> t.table[x].schedules[y].end != t.minute
  }

  lemma EarlierDiffers(t: Moment, t': Moment, c: int)
    requires TableFits(t.table) && TableFits(t'.table) && t.minute < t'.minute < MINUTES && NoClash(t')
    requires c in AskedAt(t)
    ensures c !in AskedAt(t')
  {
    hide Code, TableFits;
    if c in AskedAt(t') {
      var k :| 0 <= k < |AskedAt(t)| && AskedAt(t)[k] == c;
      var k' :| 0 <= k' < |AskedAt(t')| && AskedAt(t')[k'] == c;
      var x, y, isStart := AskedPlace(t.table, |t.table|, 0, t.minute, t.wday, k);
      var x', y', isStart' := AskedPlace(t'.table, |t'.table|, 0, t'.minute, t'.wday, k');
      CodesDiffer(t, x, y, isStart, t', x', y', isStart');
    }
  }

  lemma CodesDiffer(t: Moment, x: nat, y: nat, isStart: bool, t': Moment, x': nat, y': nat, isStart': bool)
    requires TableFits(t.table) && TableFits(t'.table) && t.minute < t'.minute < MINUTES && NoClash(t')
    requires x < |t.table| && y < |t.table[x].schedules| && x' < |t'.table| && y' < |t'.table[x'].schedules|
    requires !isStart' ==> t'.table[x'].schedules[y'].end == t'.minute
    ensures Code(t.minute, x, y, isStart) != Code(t'.minute, x', y', isStart')
  {
    hide Code;
    if isStart == isStart' {
      CodesOfAKind(t.minute, x, y, t'.minute, x', y', isStart);
    } else if isStart {
      StartMeetsStop(t.minute, x, y, t'.minute, x', y');
    } else {
      StartMeetsStop(t'.minute, x', y', t.minute, x, y);
    }
  }

  /** A minute that comes after the earlier ticks of its day, and in which no stop can
      meet an earlier start, is new. */
  lemma {:induction false} LaterIsNew(ticks: seq<Moment>, i: nat)
    requires i < |ticks| && ticks[i].minute < MINUTES && NoClash(ticks[i])
    requires TableFits(ticks[i].table)
    requires forall j :: 0 <= j < i && SameDay(ticks, j, i) ==>
                           TableFits(ticks[j].table) && ticks[j].minute < ticks[i].minute
    ensures NewCodes(ticks, i)
  {
    hide Recorded, AskedAt, TableFits, NoClash;
    var before := Before(ticks, i);
    forall c | c in AskedAt(ticks[i]) ensures !Recent(Recorded(before), c) {
      if c in Recorded(before) {
        RecordedFrom(before, c);
        var j := BeforeFrom(ticks, i, c);
        EarlierDiffers(ticks[j], ticks[i], c);
      }
    }
  }

  /** However many ticks fall into a minute that is new: with at most 48 starts and stops
      due each is commanded in the first tick and never again; with more, every tick
      commands all of them again. */
  lemma {:induction false} OnceInMinute(ticks: seq<Moment>, first: nat, k: nat)
    requires first <= k < |ticks| && SameFrom(ticks, first, k) && NewCodes(ticks, first)
    requires TableFits(ticks[first].table) && ticks[first].minute < MINUTES
    ensures CommandsAt(ticks, k) ==
            if k == first || |AskedAt(ticks[first])| > MAXDEVICENUM then AskedAt(ticks[first]) else []
  {
    var _ := LeavesBehind(ticks, first, k);
  }

  // ----- a crowded minute

  /** Two schedules for each of the 48 adapters, all due at one in the morning. */
  function Crowd(): Moment {
    var two := [Schedule(true, 0x7f, 60, 120), Schedule(true, 0x7f, 60, 180)];
    Moment(seq(MAXDEVICENUM, _ => Adapter(true, two)), 1, 60, 1)
  }

  lemma {:induction false} CrowdAsks(x: nat)
    requires x <= MAXDEVICENUM
    ensures |AskedUpTo(Crowd().table, x, 0, 60, 1)| == 2 * x
  {
    if x > 0 {
      CrowdAsks(x - 1);
      var table := Crowd().table;
      assert AskedUpTo(table, x, 0, 60, 1) == AskedUpTo(table, x - 1, 2, 60, 1);
      assert 0x7f as bv16 & 0x01 == 0x01;
      AskedNext(table, x - 1, 0, 60, 1);
      AskedNext(table, x - 1, 1, 60, 1);
    }
  }

  /** The second tick of the minute commands all 96 starts a second time. */
  lemma CrowdStartsTwice()
    ensures var ticks := [Crowd(), Crowd()];
            |CommandsAt(ticks, 0)| == 96 && CommandsAt(ticks, 1) == CommandsAt(ticks, 0)
  {
    hide SentOf, Crowd;
    var ticks := [Crowd(), Crowd()];
    CrowdAsks(MAXDEVICENUM);
    CrowdFits();
    LaterIsNew(ticks, 0);
    OnceInMinute(ticks, 0, 0);
    OnceInMinute(ticks, 0, 1);
  }

  lemma CrowdFits()
    ensures var t := Crowd(); TableFits(t.table) && |t.table| == MAXDEVICENUM && t.minute == 60 && t.wday == 1
  {
  }

  // ----- the code

  /** Any run of ticks from the start of the program. */
  method RunTicks(ticks: seq<Moment>) returns (commands: seq<seq<int>>)
    ensures |commands| == |ticks|
    ensures forall i :: 0 <= i < |ticks| ==> commands[i] == CommandsAt(ticks, i) && Spaced(DayCommands(ticks, i))
  {
    hide SentOf, AskedInTick, DayCommands, Spaced;
    var g := new Scheduler();
    commands := [];
    var n := 0;
    while n < |ticks|
      invariant 0 <= n <= |ticks| && g.Valid() && fresh(g) && fresh(g.lastSchedule)
      invariant |commands| == n && forall i :: 0 <= i < n ==> commands[i] == CommandsAt(ticks, i)
      invariant if n == 0 then g.asked == [] else
                  g.lastMday == ticks[n - 1].mday && g.asked == Before(ticks, n - 1) + AskedAt(ticks[n - 1])
    {
      var t := ticks[n];
      var now := g.ArrangeSchedule(t.table, t.mday, t.minute, t.wday);
      commands := commands + [now];
      n := n + 1;
    }
    forall i | 0 <= i < |ticks| ensures Spaced(DayCommands(ticks, i)) {
      CommandsSpaced(ticks, i);
    }
  }
}
