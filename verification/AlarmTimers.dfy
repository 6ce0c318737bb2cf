/**
 Runs of the alarm system in which timers end on their own: an entry delay starts a
 timer with an id of its own, and leaving the delay does not stop it. Any entry timer
 that still runs may end at any moment; there is at most one exit timer, which runs in
 the exit delay only, and at most one siren timer.
 */
module AlarmTimers {
  import opened AlarmModel

  /** own: the timer of the present entry delay; entry: every entry timer that runs. */
  datatype Timed = Timed(sys: System, own: nat, entry: set<nat>, siren: bool)

  /** A command or motion, or the end of a timer. */
  datatype Action = Happens(e: Event) | EntryEnds(id: nat) | ExitEnds | SirenEnds

  predicate Possible(t: Timed, a: Action) {
    match a
    case Happens(e) => e.Command? || e.Motion?
    case EntryEnds(id) => id in t.entry
    case ExitEnds => t.sys.phase.Exiting?
    case SirenEnds => t.siren
  }

  function EventOf(a: Action): Event {
    match a
    case Happens(e) => e
    case EntryEnds(_) => EntryTimeUp
    case ExitEnds => ExitTimeUp
    case SirenEnds => SirenTimeUp
  }

  predicate Entering(t: Timed) {
    t.sys.phase.Entering?
  }

  /** The entry timers: a delay that begins adds a fresh one, an end takes one away,
      and nothing else changes them. */
  predicate EntryTimersMove(t: Timed, a: Action, t': Timed) {
    if Entering(t') && !Entering(t) then
      t'.own !in t.entry && t'.entry == t.entry + {t'.own}
    else
      && t'.entry == (if a.EntryEnds? then t.entry - {a.id} else t.entry)
      && (Entering(t') ==> t'.own == t.own)
  }

  predicate SirenTimerMoves(t: Timed, a: Action, t': Timed) {
    t'.siren ==
    if t'.sys.alarms > t.sys.alarms then true
    else if a.SirenEnds? || (a.Happens? && IsDisarm(a.e)) then false
    else t.siren
  }

  /** A timer that does not run cannot end. */
  predicate Next(t: Timed, a: Action, t': Timed, rule: bool) {
    if Possible(t, a) then
      t'.sys == Step(t.sys, EventOf(a), rule) && EntryTimersMove(t, a, t') && SirenTimerMoves(t, a, t')
    else
      t' == t
  }

  predicate Trace(ts: seq<Timed>, acts: seq<Action>, rule: bool) {
    && |ts| == |acts| + 1
    && forall i :: 0 <= i < |acts| ==> Next(ts[i], acts[i], ts[i + 1], rule)
  }

  /** What the model sees of a run. */
  function Seen(ts: seq<Timed>, acts: seq<Action>): seq<Event>
    requires |ts| == |acts| + 1
  {
    if acts == [] then []
    else
      var last := |acts| - 1;
      Seen(ts[..|ts| - 1], acts[..last]) + if Possible(ts[last], acts[last]) then [EventOf(acts[last])] else []
  }

  lemma {:induction false} TraceIsRun(ts: seq<Timed>, acts: seq<Action>, rule: bool)
    requires Trace(ts, acts, rule)
    ensures ts[|acts|].sys == Run(ts[0].sys, Seen(ts, acts), rule)
  {
    if acts != [] {
      var last := |acts| - 1;
      TraceIsRun(ts[..|ts| - 1], acts[..last], rule);
      var seen := Seen(ts[..|ts| - 1], acts[..last]);
      if Possible(ts[last], acts[last]) {
        assert Seen(ts, acts)[..|seen|] == seen;
      } else {
        assert Seen(ts, acts) == seen;
      }
    }
  }

  // ----- disarming is final, whichever timers still run

  predicate Disarms(a: Action) {
    a.Happens? && IsDisarm(a.e)
  }

  predicate Arms(a: Action) {
    a.Happens? && IsArm(a.e)
  }

  /** In any run, from any state, with any timers still running: from a disarm command
      up to the next arm command the system is disarmed and raises no alarm. */
  lemma {:induction false} DisarmedUntilArmed(ts: seq<Timed>, acts: seq<Action>, rule: bool, i: nat, j: nat)
    requires Trace(ts, acts, rule) && i < j <= |acts|
    requires Disarms(acts[i]) && forall k :: i < k < j ==> !Arms(acts[k])
    ensures ts[j].sys.phase.Disarmed? && ts[j].sys.alarms == ts[i].sys.alarms
    decreases j
  {
    assert Next(ts[j - 1], acts[j - 1], ts[j], rule);
    if i + 1 < j {
      DisarmedUntilArmed(ts, acts, rule, i, j - 1);
    }
  }

  // ----- how long an entry delay lasts

  predicate StartsDelay(s: System, e: Event, rule: bool) {
    e.Motion? && !s.phase.Entering? && Step(s, e, rule).phase.Entering?
  }

  /** The delay that begins with action i ends with action j, the end of a timer. */
  predicate DelayEnds(ts: seq<Timed>, acts: seq<Action>, i: nat, j: nat)
    requires |ts| == |acts| + 1
  {
    && i < j < |acts|
    && !Entering(ts[i]) && (forall k :: i < k <= j ==> Entering(ts[k])) && !Entering(ts[j + 1])
    && acts[j].EntryEnds?
  }

  predicate CutShort(ts: seq<Timed>, acts: seq<Action>, i: nat, j: nat)
    requires |ts| == |acts| + 1
  {
    DelayEnds(ts, acts, i, j) && acts[j].id != ts[i + 1].own
  }

  /** During a delay nothing but its own timer is added to the entry timers. */
  lemma {:induction false} NoOtherTimerStarts(ts: seq<Timed>, acts: seq<Action>, rule: bool, i: nat, j: nat)
    requires Trace(ts, acts, rule) && i < j <= |acts|
    requires !Entering(ts[i]) && forall k :: i < k <= j ==> Entering(ts[k])
    ensures ts[j].own == ts[i + 1].own && ts[j].entry <= ts[i].entry + {ts[i + 1].own}
    decreases j
  {
    assert Next(ts[j - 1], acts[j - 1], ts[j], rule);
    if i + 1 < j {
      NoOtherTimerStarts(ts, acts, rule, i, j - 1);
    }
  }

  /** In any run, a delay that another timer ends was cut short by one that had been
      running before the delay began. */
  lemma CutShortByEarlier(ts: seq<Timed>, acts: seq<Action>, rule: bool, i: nat, j: nat)
    requires Trace(ts, acts, rule) && CutShort(ts, acts, i, j)
    ensures acts[j].id in ts[i].entry
    ensures ts[j + 1].sys.alarms == ts[j].sys.alarms + 1
  {
    NoOtherTimerStarts(ts, acts, rule, i, j);
    assert Next(ts[j], acts[j], ts[j + 1], rule);
  }

  /** In a run that begins without entry timers, a timer that runs is the own one of an
      earlier delay and has not ended since. */
  lemma {:induction false} PendingStartedEarlier(ts: seq<Timed>, acts: seq<Action>, rule: bool, j: nat, id: nat)
    returns (i: nat)
    requires Trace(ts, acts, rule) && j <= |acts| && ts[0].entry == {} && id in ts[j].entry
    ensures i < j && !Entering(ts[i]) && Entering(ts[i + 1]) && ts[i + 1].own == id
    ensures forall k :: i < k < j ==> acts[k] != EntryEnds(id)
  {
    assert Next(ts[j - 1], acts[j - 1], ts[j], rule);
    if id in ts[j - 1].entry {
      i := PendingStartedEarlier(ts, acts, rule, j - 1, id);
    } else {
      i := j - 1;
    }
  }

  lemma {:induction false} FreshId(used: set<nat>) returns (n: nat)
    ensures forall id :: id in used ==> id < n
  {
    n := 0;
    if used != {} {
      var id :| id in used;
      n := FreshId(used - {id});
      n := if n <= id then id + 1 else n;
      assert used == used - {id} + {id};
    }
  }

  ghost predicate CanBeCutShort(t: Timed, e: Event, rule: bool) {
    exists ts: seq<Timed>, acts: seq<Action>, j: nat ::
      && Trace(ts, acts, rule) && ts[0] == t && acts != [] && acts[0] == Happens(e)
      && CutShort(ts, acts, 0, j)
  }

  /** The delay that motion starts can be ended by a timer other than its own if and only
      if an entry timer runs at that moment; any such timer can end it. */
  lemma CutShortIff(t: Timed, e: Event, rule: bool)
    requires StartsDelay(t.sys, e, rule)
    ensures CanBeCutShort(t, e, rule) <==> t.entry != {}
  {
    if CanBeCutShort(t, e, rule) {
      var ts: seq<Timed>, acts: seq<Action>, j: nat :|
        && Trace(ts, acts, rule) && ts[0] == t && acts != [] && acts[0] == Happens(e)
        && CutShort(ts, acts, 0, j);
      CutShortByEarlier(ts, acts, rule, 0, j);
    }
    if t.entry != {} {
      var id :| id in t.entry;
      CutShortBy(t, e, rule, id);
    }
  }

  lemma CutShortBy(t: Timed, e: Event, rule: bool, id: nat)
    requires StartsDelay(t.sys, e, rule) && id in t.entry
    ensures CanBeCutShort(t, e, rule)
  {
    var own := FreshId(t.entry);
    var during := Timed(Step(t.sys, e, rule), own, t.entry + {own}, t.siren);
    var after := Timed(Step(during.sys, EntryTimeUp, rule), 0, during.entry - {id}, true);
    var acts := [Happens(e), EntryEnds(id)];
    assert Next(t, acts[0], during, rule);
    assert Next(during, acts[1], after, rule);
    assert Trace([t, during, after], acts, rule);
    assert CutShort([t, during, after], acts, 0, 1);
  }
}
