/**
 What a user of the alarm system is promised, by the flags of the sensors, the numbers of the
 commands and the seconds on the clock: when motion raises an alarm, what a delay ends in and
 which mode an arm command leads to.
 */
module AlarmLaws {
  import opened AlarmModel
  import opened AlarmTimers

  // ----- motion

  /** The sensor is watched in the mode that the system is armed in. */
  predicate Watched(s: System, inArm: bool, inPartArm: bool) {
    (s.phase == Armed(Full) && inArm) || (s.phase == Armed(Part) && inPartArm)
  }

  /** Motion raises an alarm if and only if the sensor is known, watched and without a delay and
      the siren is silent; it starts an entry delay if and only if there is one; otherwise it
      changes nothing. */
  lemma MotionRaises(s: System, known: bool, inArm: bool, inPartArm: bool, noDelay: bool, entryDelay: int, rule: bool)
    ensures var s' := Step(s, Motion(known, inArm, inPartArm, noDelay, entryDelay), rule);
            var seen := known && !s.siren && Watched(s, inArm, inPartArm);
            && (s'.alarms > s.alarms <==> seen && (noDelay || entryDelay <= 0))
            && (s'.alarms > s.alarms ==> s' == System(s.phase, true, s.alarms + 1))
            && (!s.phase.Entering? && s'.phase.Entering? <==> seen && !noDelay && entryDelay > 0)
            && (!s.phase.Entering? && s'.phase.Entering? ==> s' == System(Entering(s.phase.mode), false, s.alarms))
            && (!seen ==> s' == s)
  {
  }

  // ----- entry delays

  predicate EndsOrDisarms(a: Action) {
    a.EntryEnds? || Disarms(a)
  }

  /** A delay lasts, with its own timer running and no alarm, as long as no entry timer ends and
      no disarm command is given. */
  lemma {:induction false} DelayLasts(ts: seq<Timed>, acts: seq<Action>, rule: bool, i: nat, j: nat)
    requires Trace(ts, acts, rule) && i < j <= |acts| && !ts[i].sys.phase.Entering? && ts[i + 1].sys.phase.Entering?
    requires forall k :: i < k < j ==> !EndsOrDisarms(acts[k])
    ensures ts[j].sys.phase.Entering? && ts[j].sys.phase == ts[i + 1].sys.phase && ts[j].sys.alarms == ts[i].sys.alarms
    ensures ts[j].own == ts[i + 1].own && ts[j].own in ts[j].entry
    decreases j
  {
    assert Next(ts[j - 1], acts[j - 1], ts[j], rule);
    if i + 1 < j {
      DelayLasts(ts, acts, rule, i, j - 1);
    }
  }

  /** In any run, a delay whose timer ends before a disarm command adds one alarm and leaves the
      system armed as it was; one that a disarm command ends adds none, up to the next arm
      command. */
  lemma DelayDecides(ts: seq<Timed>, acts: seq<Action>, rule: bool, i: nat, j: nat, end: nat)
    requires Trace(ts, acts, rule) && i < j < |acts| && !ts[i].sys.phase.Entering? && ts[i + 1].sys.phase.Entering?
    requires forall k :: i < k < j ==> !EndsOrDisarms(acts[k])
    requires j < end <= |acts| && forall k :: j < k < end ==> !Arms(acts[k])
    ensures acts[j] == EntryEnds(ts[i + 1].own) ==>
              && ts[j + 1].sys.alarms == ts[i].sys.alarms + 1 && ts[j + 1].sys.siren
              && ts[j + 1].sys.phase == Armed(ts[i + 1].sys.phase.mode)
    ensures Disarms(acts[j]) ==> ts[end].sys.phase.Disarmed? && ts[end].sys.alarms == ts[i].sys.alarms
  {
    DelayLasts(ts, acts, rule, i, j);
    assert Next(ts[j], acts[j], ts[j + 1], rule);
    if Disarms(acts[j]) {
      DisarmedUntilArmed(ts, acts, rule, j, end);
    }
  }

  // ----- commands: 0 disarms, 1 arms fully, 2 arms in part

  function Asked(cmd: int): Mode
    requires cmd in {1, 2}
  {
    if cmd == 1 then Full else Part
  }

  /** A disarm command always leads to the same state; of an armed system an arm command changes
      the mode, and in a delay it changes nothing; other commands never do. */
  lemma CommandsInArm(s: System, cmd: int, now: nat, contactOpen: bool, exitDelay: int, rule: bool)
    ensures var s' := Step(s, Command(cmd, now, contactOpen, exitDelay), rule);
            && (cmd == 0 ==> s' == System(Disarmed(0), false, s.alarms))
            && (cmd in {1, 2} && s.phase.Armed? ==> s' == System(Armed(Asked(cmd)), s.siren, s.alarms))
            && (cmd in {1, 2} && (s.phase.Exiting? || s.phase.Entering?) ==> s' == s)
            && (cmd !in {0, 1, 2} ==> s' == s)
  {
  }

  /** Neither a command nor the end of the exit delay. */
  predicate Quiet(e: Event) {
    !e.Command? && !e.ExitTimeUp?
  }

  lemma {:induction false} QuietKeeps(s: System, es: seq<Event>, rule: bool)
    requires s.phase.Disarmed? || s.phase.Exiting?
    requires forall i :: 0 <= i < |es| ==> Quiet(es[i])
    ensures Run(s, es, rule).phase == s.phase && Run(s, es, rule).alarms == s.alarms
  {
    if es != [] {
      QuietKeeps(s, es[..|es| - 1], rule);
    }
  }

  lemma RunEnds(s: System, first: Event, es: seq<Event>, last: Event, rule: bool)
    ensures Run(s, [first] + es + [last], rule) == Step(Run(Step(s, first, rule), es, rule), last, rule)
  {
    assert ([first] + es + [last])[..|es| + 1] == [first] + es;
    RunConcat(s, [first], es, rule);
    assert Run(s, [first][..0], rule) == s;
  }

  /** An arm command with all contacts closed, or of a customer without the rule, is obeyed: with
      an exit delay the system is armed in the mode asked for when that delay is over, whatever
      moves meanwhile, and without one at once. */
  lemma ArmIsObeyed(s: System, cmd: int, now: nat, contactOpen: bool, exitDelay: int, es: seq<Event>, rule: bool)
    requires s.phase.Disarmed? && cmd in {1, 2} && !(rule && contactOpen)
    requires forall i :: 0 <= i < |es| ==> Quiet(es[i])
    ensures exitDelay > 0 ==>
              Run(s, [Command(cmd, now, contactOpen, exitDelay)] + es + [ExitTimeUp], rule)
              == System(Armed(Asked(cmd)), false, s.alarms)
    ensures exitDelay <= 0 ==>
              Step(s, Command(cmd, now, contactOpen, exitDelay), rule) == System(Armed(Asked(cmd)), false, s.alarms)
  {
    if exitDelay > 0 {
      var arm := Command(cmd, now, contactOpen, exitDelay);
      RunEnds(s, arm, es, ExitTimeUp, rule);
      QuietKeeps(Step(s, arm, rule), es, rule);
    }
  }

  /** Under the rule, the first arm command with a contact open is refused; a second one up to
      30 seconds later arms at once, exit delay or not, and a later one is refused again. */
  lemma SecondArmForces(s: System, cmd: int, now: nat, exitDelay: int, es: seq<Event>,
                        cmd': int, now': nat, exitDelay': int)
    requires s.phase == Disarmed(0) && cmd in {1, 2} && cmd' in {1, 2}
    requires forall i :: 0 <= i < |es| ==> Quiet(es[i])
    ensures var first, second := Command(cmd, now, true, exitDelay), Command(cmd', now', true, exitDelay');
            var end := Run(s, [first] + es + [second], true);
            && end.phase == (if now' <= now + 30 then Armed(Asked(cmd')) else Disarmed(now' + 30))
            && end.alarms == s.alarms && (now' <= now + 30 ==> !end.siren)
  {
    var first, second := Command(cmd, now, true, exitDelay), Command(cmd', now', true, exitDelay');
    RunEnds(s, first, es, second, true);
    QuietKeeps(Step(s, first, true), es, true);
  }

  /** A closed contact lets the next arm command through even while a refusal stands. */
  lemma ClosedContactArms(s: System, cmd: int, now: nat, exitDelay: int, rule: bool)
    requires s.phase.Disarmed? && cmd in {1, 2}
    ensures Step(s, Command(cmd, now, false, exitDelay), rule).phase ==
            if exitDelay > 0 then Exiting(Asked(cmd)) else Armed(Asked(cmd))
  {
  }

  // ----- the siren

  /** The siren is on from an alarm until its time is up, it is switched, a disarm command or
      a new arming. */
  lemma SirenSounds(s: System, e: Event, rule: bool)
    ensures var s' := Step(s, e, rule);
            && (s'.siren && !s.siren ==> s'.alarms > s.alarms || e == SirenSwitched(true))
            && (!s'.siren && s.siren ==>
                  || e.SirenTimeUp? || e == SirenSwitched(false) || IsDisarm(e)
                  || (s'.phase.Armed? && !s.phase.Armed?))
            && (e.SirenTimeUp? ==> s' == System(s.phase, false, s.alarms))
  {
  }
}
