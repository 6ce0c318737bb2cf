/**
 What the alarm system does, seen from outside: arm and disarm commands, motion, and
 delays that end. Timers and their ids do not appear here.
 */
module AlarmModel {
  const FORCE_ARM_TIME: nat := 30

  const C_DISARM := 0
  const C_ARM := 1
  const C_PARTARM := 2

  /** Disarmed(t): with t > 0, an arm command with a contact open is obeyed up to time
      t. Exiting(mode) is the delay before arming, Entering(mode) the delay before
      the alarm of a system armed in that mode. */
  datatype Mode = Full | Part
  datatype Phase = Disarmed(forceUntil: nat) | Armed(mode: Mode) | Exiting(mode: Mode) | Entering(mode: Mode)

  datatype System = System(phase: Phase, siren: bool, alarms: nat)

  datatype Event =
    | Command(cmd: int, now: nat, contactOpen: bool, exitDelay: int)
    | Motion(known: bool, inArm: bool, inPartArm: bool, noDelay: bool, entryDelay: int)
    | ExitTimeUp
    | EntryTimeUp
    | SirenTimeUp
    | SirenSwitched(on: bool)

  predicate IsArm(e: Event) {
    e.Command? && e.cmd in {C_ARM, C_PARTARM}
  }

  predicate IsDisarm(e: Event) {
    e.Command? && e.cmd == C_DISARM
  }

  function ModeOf(cmd: int): Mode {
    if cmd == C_PARTARM then Part else Full
  }

  /** The contact rules of one customer: with a contact open the first arm command
      only warns. */
  predicate Refused(forceUntil: nat, now: nat) {
    forceUntil == 0 || now > forceUntil
  }

  function Arm(s: System, e: Event, contactRule: bool): System
    requires IsArm(e) && s.phase.Disarmed?
  {
    var mode := ModeOf(e.cmd);
    var guarded := contactRule && e.contactOpen;
    if guarded && Refused(s.phase.forceUntil, e.now) then s.(phase := Disarmed(e.now + FORCE_ARM_TIME))
    else if guarded || e.exitDelay <= 0 then s.(phase := Armed(mode), siren := false)
    else s.(phase := Exiting(mode))
  }

  function OnCommand(s: System, e: Event, contactRule: bool): System
    requires e.Command?
  {
    if IsDisarm(e) then s.(phase := Disarmed(0), siren := false)
    else if !IsArm(e) then s
    else match s.phase
      case Disarmed(_) => Arm(s, e, contactRule)
      case Armed(_) => s.(phase := Armed(ModeOf(e.cmd)))
      case Exiting(_) => s
      case Entering(_) => s
  }

  function Alarm(s: System, mode: Mode): System {
    System(Armed(mode), true, s.alarms + 1)
  }

  function OnMotion(s: System, e: Event): System
    requires e.Motion?
  {
    if s.phase.Armed? && e.known && (if s.phase.mode == Full then e.inArm else e.inPartArm) && !s.siren then
      if e.noDelay || e.entryDelay <= 0 then Alarm(s, s.phase.mode) else s.(phase := Entering(s.phase.mode))
    else s
  }

  function Step(s: System, e: Event, contactRule: bool): System {
    match e
    case Command(_, _, _, _) => OnCommand(s, e, contactRule)
    case Motion(_, _, _, _, _) => OnMotion(s, e)
    case ExitTimeUp => if s.phase.Exiting? then s.(phase := Armed(s.phase.mode), siren := false) else s
    case EntryTimeUp => if s.phase.Entering? then Alarm(s, s.phase.mode) else s
    case SirenTimeUp => s.(siren := false)
    case SirenSwitched(on) => s.(siren := on)
  }

  function Run(s: System, es: seq<Event>, contactRule: bool): System {
    if es == [] then s else Step(Run(s, es[..|es| - 1], contactRule), es[|es| - 1], contactRule)
  }

  lemma {:induction false} RunConcat(s: System, a: seq<Event>, b: seq<Event>, rule: bool)
    ensures Run(s, a + b, rule) == Run(Run(s, a, rule), b, rule)
  {
    if b == [] {
      assert a + [] == a;
    } else {
      assert (a + b)[..|a + b| - 1] == a + b[..|b| - 1];
      RunConcat(s, a, b[..|b| - 1], rule);
    }
  }

  // ----- safety

  lemma {:induction false} StaysDisarmed(s: System, es: seq<Event>, rule: bool)
    requires s.phase.Disarmed? && forall i :: 0 <= i < |es| ==> !IsArm(es[i])
    ensures Run(s, es, rule).phase.Disarmed? && Run(s, es, rule).alarms == s.alarms
  {
    if es != [] {
      StaysDisarmed(s, es[..|es| - 1], rule);
    }
  }

  /** In any run, from any state: once a disarm command has been given, the system is
      disarmed and raises no alarm until the next arm command, whatever delays may
      still end. */
  lemma DisarmIsFinal(s: System, before: seq<Event>, e: Event, after: seq<Event>, rule: bool)
    requires IsDisarm(e) && forall i :: 0 <= i < |after| ==> !IsArm(after[i])
    ensures var at := Run(s, before + [e], rule);
            var end := Run(s, before + [e] + after, rule);
            at.phase.Disarmed? && end.phase.Disarmed? && end.alarms == Run(s, before, rule).alarms
  {
    assert (before + [e])[..|before|] == before;
    var at := Run(s, before + [e], rule);
    RunConcat(s, before + [e], after, rule);
    StaysDisarmed(at, after, rule);
  }

  /** An alarm is raised only by motion in an armed system whose siren is silent, or
      at the end of an entry delay; the system is armed as before afterwards. */
  lemma AlarmsAreEarned(s: System, e: Event, rule: bool)
    ensures var s' := Step(s, e, rule);
            && s.alarms <= s'.alarms <= s.alarms + 1
            && (s'.alarms > s.alarms ==>
                  && (s.phase.Armed? || s.phase.Entering?) && s'.phase == Armed(s.phase.mode) && s'.siren
                  && (e.EntryTimeUp? || (e.Motion? && e.known && !s.siren)))
  {
  }

  /** No alarm in a run from a disarmed system without an earlier arm command that no
      disarm command followed. */
  lemma {:induction false} AlarmNeedsArm(s: System, es: seq<Event>, rule: bool) returns (i: nat)
    requires s.phase.Disarmed? && !Run(s, es, rule).phase.Disarmed?
    ensures i < |es| && IsArm(es[i]) && forall j :: i < j < |es| ==> !IsDisarm(es[j])
  {
    var before := Run(s, es[..|es| - 1], rule);
    if before.phase.Disarmed? {
      i := |es| - 1;
    } else {
      i := AlarmNeedsArm(s, es[..|es| - 1], rule);
    }
  }

  // ----- the mode

  /** A delay neither changes the mode nor ends in another one: what is armed at the
      end is what the command asked for, or what was armed before. */
  predicate InMode(p: Phase, mode: Mode) {
    !p.Disarmed? && p.mode == mode
  }

  lemma {:induction false} ModeIsKept(s: System, es: seq<Event>, rule: bool, mode: Mode)
    requires InMode(s.phase, mode)
    requires forall i :: 0 <= i < |es| ==> !es[i].Command? || (IsArm(es[i]) && ModeOf(es[i].cmd) == mode)
    ensures InMode(Run(s, es, rule).phase, mode)
  {
    if es != [] {
      ModeIsKept(s, es[..|es| - 1], rule, mode);
    }
  }

  // ----- open contacts

  predicate Warned(e: Event, until: nat) {
    IsArm(e) && e.contactOpen && e.now + FORCE_ARM_TIME == until
  }

  /** The permission to arm with a contact open comes from an earlier arm command
      that was refused. */
  lemma {:induction false} PermissionWasGiven(s: System, es: seq<Event>, rule: bool) returns (i: nat)
    requires s.phase == Disarmed(0) && Run(s, es, rule).phase.Disarmed? && Run(s, es, rule).phase.forceUntil > 0
    ensures i < |es| && Warned(es[i], Run(s, es, rule).phase.forceUntil)
    ensures Run(s, es[..i], rule).phase.Disarmed?
  {
    var last := |es| - 1;
    var before := Run(s, es[..last], rule);
    var after := Run(s, es, rule);
    if before.phase == after.phase {
      i := PermissionWasGiven(s, es[..last], rule);
      assert es[..last][..i] == es[..i];
    } else {
      i := last;
    }
  }

  /** Under the contact rule a system is armed with a contact open only if an earlier
      arm command, at most FORCE_ARM_TIME before, was refused for the same reason. */
  lemma ForcedArmWasAnnounced(s: System, es: seq<Event>, e: Event) returns (i: nat)
    requires s.phase == Disarmed(0) && Run(s, es, true).phase.Disarmed?
    requires IsArm(e) && e.contactOpen && !Step(Run(s, es, true), e, true).phase.Disarmed?
    ensures i < |es| && IsArm(es[i]) && es[i].contactOpen && e.now <= es[i].now + FORCE_ARM_TIME
    ensures Run(s, es[..i], true).phase.Disarmed?
  {
    i := PermissionWasGiven(s, es, true);
  }
}
