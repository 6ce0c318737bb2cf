/**
 The alarm system with its timers. A timer that is started gets a fresh id, stored
 in a variable; when it ends, the handler compares the value the variable has by
 then. The timer of an entry delay is never deleted.
 */
module AlarmSystem {
  import opened AlarmModel
  import opened AlarmTimers

  datatype State = StDisarm | StArm | StPartArm | StExitDelay | StEntryDelay

  /** The variable a timer was started with. */
  datatype Var = ExitVar | EntryVar | SirenVar

  function StateOf(mode: Mode): State {
    if mode == Full then StArm else StPartArm
  }

  class Gateway {
    const contactRule: bool
    var armState: State
    var exitdelayTarget: Mode
    var entrydelayState: Mode
    var waitForceArm: nat
    var sirenState: bool
    var exitdelayT: nat
    var exitdelayCurrentT: nat
    var entrydelayT: nat
    var sirenT: nat
    var sirenCurrentT: nat
    /** timers that run, by the variable they were started with */
    var exitTimers: set<nat>
    var entryTimers: set<nat>
    var sirenTimers: set<nat>
    var nextId: nat
    /** alarms raised so far */
    ghost var alarms: nat

    ghost predicate Valid()
      reads this
    {
      && TimersMatch()
      && (if armState == StExitDelay then exitdelayT in exitTimers else exitdelayT == 0)
      && (if armState == StEntryDelay then entrydelayT in entryTimers else entrydelayT == 0)
      && (armState == StExitDelay ==> waitForceArm == 0 && exitdelayCurrentT == exitdelayT)
    }

    /** Only the exit timer and the siren timer started last may run; of the timers of
        entry delays, any. No id is in use twice. */
    ghost predicate TimersMatch()
      reads this
    {
      && exitTimers <= {exitdelayT} && exitTimers <= {exitdelayCurrentT}
      && sirenTimers <= {sirenT} && sirenTimers <= {sirenCurrentT}
      && entryTimers !! {exitdelayT, exitdelayCurrentT, sirenT, sirenCurrentT}
      && (exitdelayCurrentT != 0 ==> exitdelayCurrentT != sirenT && exitdelayCurrentT != sirenCurrentT)
      && (exitdelayT != 0 ==> exitdelayT != entrydelayT && exitdelayT != sirenT && exitdelayT != sirenCurrentT)
      && (entrydelayT != 0 ==> entrydelayT != sirenT)
      && IdsUsed()
    }

    ghost predicate IdsUsed()
      reads this
    {
      && 0 !in exitTimers + entryTimers + sirenTimers
      && (forall id :: id in entryTimers ==> id < nextId)
      && exitdelayT < nextId && exitdelayCurrentT < nextId && entrydelayT < nextId
      && sirenT < nextId && sirenCurrentT < nextId
    }

    ghost function Phase(): Phase
      reads this
    {
      match armState
      case StDisarm => Disarmed(waitForceArm)
      case StArm => Armed(Full)
      case StPartArm => Armed(Part)
      case StExitDelay => Exiting(exitdelayTarget)
      case StEntryDelay => Entering(entrydelayState)
    }

    ghost function View(): System
      reads this
    {
      System(Phase(), sirenState, alarms)
    }

    ghost function Now(): Timed
      reads this
    {
      Timed(View(), entrydelayT, entryTimers, sirenTimers != {})
    }

    constructor (contactRule: bool)
      ensures Now() == Timed(System(Disarmed(0), false, 0), 0, {}, false)
      ensures Valid() && View() == System(Disarmed(0), false, 0)
      ensures this.contactRule == contactRule
    {
      this.contactRule := contactRule;
      armState, exitdelayTarget, entrydelayState, waitForceArm, sirenState := StDisarm, Full, Full, 0, false;
      exitdelayT, exitdelayCurrentT, entrydelayT, sirenT, sirenCurrentT := 0, 0, 0, 0, 0;
      exitTimers, entryTimers, sirenTimers, nextId, alarms := {}, {}, {}, 1, 0;
    }

    // ----- timers

    function Read(v: Var): nat
      reads this
    {
      match v
      case ExitVar => exitdelayT
      case EntryVar => entrydelayT
      case SirenVar => sirenT
    }

    method Write(v: Var, id: nat)
      modifies this`exitdelayT, this`entrydelayT, this`sirenT
      ensures exitdelayT == (if v == ExitVar then id else old(exitdelayT))
      ensures entrydelayT == (if v == EntryVar then id else old(entrydelayT))
      ensures sirenT == (if v == SirenVar then id else old(sirenT))
    {
      match v {
        case ExitVar => exitdelayT := id;
        case EntryVar => entrydelayT := id;
        case SirenVar => sirenT := id;
      }
    }

    ghost function Running(v: Var): set<nat>
      reads this
    {
      match v
      case ExitVar => exitTimers
      case EntryVar => entryTimers
      case SirenVar => sirenTimers
    }

    /** The variable gets a new id in any case; a timer of 0 seconds never ends. */
    method MakeTimer(v: Var, seconds: int)
      modifies this`exitdelayT, this`entrydelayT, this`sirenT, this`exitTimers,
               this`entryTimers, this`sirenTimers, this`nextId
      ensures nextId == old(nextId) + 1
      ensures exitdelayT == if v == ExitVar then old(nextId) else old(exitdelayT)
      ensures entrydelayT == if v == EntryVar then old(nextId) else old(entrydelayT)
      ensures sirenT == if v == SirenVar then old(nextId) else old(sirenT)
      ensures exitTimers == old(exitTimers) + if v == ExitVar && seconds != 0 then {old(nextId)} else {}
      ensures entryTimers == old(entryTimers) + if v == EntryVar && seconds != 0 then {old(nextId)} else {}
      ensures sirenTimers == old(sirenTimers) + if v == SirenVar && seconds != 0 then {old(nextId)} else {}
    {
      var id := nextId;
      nextId := nextId + 1;
      Write(v, id);
      if seconds != 0 {
        match v {
          case ExitVar => exitTimers := exitTimers + {id};
          case EntryVar => entryTimers := entryTimers + {id};
          case SirenVar => sirenTimers := sirenTimers + {id};
        }
      }
    }

    method KillTimer(id: nat)
      modifies this`exitTimers, this`entryTimers, this`sirenTimers
      ensures exitTimers == old(exitTimers) - if id == 0 then {} else {id}
      ensures entryTimers == old(entryTimers) - if id == 0 then {} else {id}
      ensures sirenTimers == old(sirenTimers) - if id == 0 then {} else {id}
    {
      if id == 0 {
        return;
      }
      Remove(id);
    }

    method Remove(id: nat)
      modifies this`exitTimers, this`entryTimers, this`sirenTimers
      ensures exitTimers == old(exitTimers) - {id}
      ensures entryTimers == old(entryTimers) - {id}
      ensures sirenTimers == old(sirenTimers) - {id}
    {
      exitTimers := exitTimers - {id};
      entryTimers := entryTimers - {id};
      sirenTimers := sirenTimers - {id};
    }

    // ----- arming and disarming

    method SystemArm()
      modifies this`sirenState, this`armState
      ensures armState == StateOf(exitdelayTarget) && !sirenState
    {
      sirenState := false;
      armState := StateOf(exitdelayTarget);
    }

    method StopSirenTimer()
      requires TimersMatch()
      modifies this`sirenT, this`sirenCurrentT, this`exitTimers, this`entryTimers, this`sirenTimers
      ensures TimersMatch() && sirenTimers == {} && exitTimers == old(exitTimers) && entryTimers == old(entryTimers)
    {
      if sirenCurrentT != 0 {
        KillTimer(sirenCurrentT);
        sirenCurrentT, sirenT := 0, 0;
      }
    }

    method SystemDisarm()
      requires TimersMatch()
      modifies this`armState, this`sirenState, this`sirenT, this`sirenCurrentT,
               this`exitTimers, this`entryTimers, this`sirenTimers
      ensures TimersMatch() && armState == StDisarm && !sirenState && sirenTimers == {}
      ensures exitTimers == old(exitTimers) && entryTimers == old(entryTimers)
    {
      armState := StDisarm;
      sirenState := false;
      StopSirenTimer();
    }

    method ExitDelay(seconds: int)
      requires TimersMatch() && exitdelayT == 0 && seconds > 0
      modifies this`exitdelayT, this`exitdelayCurrentT, this`entrydelayT, this`sirenT,
               this`exitTimers, this`entryTimers, this`sirenTimers, this`nextId
      ensures TimersMatch() && exitdelayCurrentT == exitdelayT && exitdelayT in exitTimers
      ensures entrydelayT == old(entrydelayT) && entryTimers == old(entryTimers) && sirenTimers == old(sirenTimers)
    {
      MakeTimer(ExitVar, seconds);
      exitdelayCurrentT := exitdelayT;
    }

    method StopExitDelay()
      requires TimersMatch() && exitdelayT == exitdelayCurrentT
      modifies this`exitdelayT, this`exitdelayCurrentT, this`entrydelayT, this`sirenT,
               this`exitTimers, this`entryTimers, this`sirenTimers, this`nextId
      ensures TimersMatch() && exitdelayT == 0 && exitTimers == {}
      ensures entrydelayT == old(entrydelayT) && entryTimers == old(entryTimers)
    {
      KillTimer(exitdelayCurrentT);
      MakeTimer(ExitVar, 0);
      exitdelayT := 0;
      exitdelayCurrentT := 0;
    }

    /** The timer goes on running. */
    method StopEntryDelay()
      requires TimersMatch()
      modifies this`exitdelayT, this`entrydelayT, this`sirenT, this`exitTimers,
               this`entryTimers, this`sirenTimers, this`nextId
      ensures TimersMatch() && entrydelayT == 0 && exitdelayT == old(exitdelayT)
      ensures exitTimers == old(exitTimers) && entryTimers == old(entryTimers)
    {
      MakeTimer(EntryVar, 0);
      entrydelayT := 0;
    }

    /** The part of armCommand for each state. */
    method ArmCommand(cmd: int, now: nat, contactOpen: bool, exitDelay: int)
      requires Valid()
      modifies this
      ensures Valid() && View() == Step(old(View()), Command(cmd, now, contactOpen, exitDelay), contactRule)
      ensures entryTimers == old(entryTimers) && (armState == StEntryDelay ==> entrydelayT == old(entrydelayT))
      ensures sirenTimers == if cmd == C_DISARM then {} else old(sirenTimers)
    {
      hide Valid, View;
      if armState == StDisarm {
        CommandInDisarm(cmd, now, contactOpen, exitDelay);
      } else if armState == StArm || armState == StPartArm {
        CommandInArm(cmd, now, contactOpen, exitDelay);
      } else if armState == StExitDelay {
        CommandInExitDelay(cmd, now, contactOpen, exitDelay);
      } else {
        CommandInEntryDelay(cmd, now, contactOpen, exitDelay);
      }
    }

    method CommandInDisarm(cmd: int, now: nat, contactOpen: bool, exitDelay: int)
      requires Valid() && armState == StDisarm
      modifies this
      ensures Valid() && View() == Step(old(View()), Command(cmd, now, contactOpen, exitDelay), contactRule)
      ensures entryTimers == old(entryTimers) && (armState == StEntryDelay ==> entrydelayT == old(entrydelayT))
      ensures sirenTimers == if cmd == C_DISARM then {} else old(sirenTimers)
    {
      if cmd == C_DISARM {
        SystemDisarm();
        waitForceArm := 0;
      } else if cmd == C_ARM || cmd == C_PARTARM {
        ArmFromDisarm(cmd, now, contactOpen, exitDelay);
      }
    }

    method CommandInArm(cmd: int, now: nat, contactOpen: bool, exitDelay: int)
      requires Valid() && (armState == StArm || armState == StPartArm)
      modifies this
      ensures Valid() && View() == Step(old(View()), Command(cmd, now, contactOpen, exitDelay), contactRule)
      ensures entryTimers == old(entryTimers) && (armState == StEntryDelay ==> entrydelayT == old(entrydelayT))
      ensures sirenTimers == if cmd == C_DISARM then {} else old(sirenTimers)
    {
      waitForceArm := 0;
      if armState == StArm {
        if cmd == C_DISARM {
          SystemDisarm();
        } else if cmd == C_PARTARM {
          armState := StPartArm;
        }
      } else {
        if cmd == C_DISARM {
          SystemDisarm();
        } else if cmd == C_ARM {
          armState := StArm;
        }
      }
    }

    method CommandInExitDelay(cmd: int, now: nat, contactOpen: bool, exitDelay: int)
      requires Valid() && armState == StExitDelay
      modifies this
      ensures Valid() && View() == Step(old(View()), Command(cmd, now, contactOpen, exitDelay), contactRule)
      ensures entryTimers == old(entryTimers) && (armState == StEntryDelay ==> entrydelayT == old(entrydelayT))
      ensures sirenTimers == if cmd == C_DISARM then {} else old(sirenTimers)
    {
      if cmd == C_DISARM {
        waitForceArm := 0;
        StopExitDelay();
        SystemDisarm();
      } else if cmd == C_ARM || cmd == C_PARTARM {
        // Arming at once from here is dead code: waitForceArm is 0.
        if waitForceArm > 0 && now <= waitForceArm {
          assert false;
        }
      }
    }

    method CommandInEntryDelay(cmd: int, now: nat, contactOpen: bool, exitDelay: int)
      requires Valid() && armState == StEntryDelay
      modifies this
      ensures Valid() && View() == Step(old(View()), Command(cmd, now, contactOpen, exitDelay), contactRule)
      ensures entryTimers == old(entryTimers) && (armState == StEntryDelay ==> entrydelayT == old(entrydelayT))
      ensures sirenTimers == if cmd == C_DISARM then {} else old(sirenTimers)
    {
      if cmd == C_DISARM {
        waitForceArm := 0;
        StopEntryDelay();
        SystemDisarm();
      }
    }

    method ArmFromDisarm(cmd: int, now: nat, contactOpen: bool, exitDelay: int)
      requires Valid() && armState == StDisarm && cmd in {C_ARM, C_PARTARM}
      modifies this
      ensures Valid() && View() == Step(old(View()), Command(cmd, now, contactOpen, exitDelay), contactRule)
      ensures entryTimers == old(entryTimers) && (armState == StEntryDelay ==> entrydelayT == old(entrydelayT))
      ensures sirenTimers == if cmd == C_DISARM then {} else old(sirenTimers)
    {
      hide OnMotion, Alarm;
      if contactRule && contactOpen && waitForceArm == 0 {
        waitForceArm := now + FORCE_ARM_TIME;
      } else if contactRule && contactOpen && waitForceArm > 0 && now <= waitForceArm {
        ArmAtOnce(ModeOf(cmd));
      } else if contactRule && contactOpen && waitForceArm > 0 && now > waitForceArm {
        waitForceArm := now + FORCE_ARM_TIME;
      } else if exitDelay > 0 {
        ArmLater(ModeOf(cmd), exitDelay);
      } else {
        ArmAtOnce(ModeOf(cmd));
      }
    }

    method ArmAtOnce(mode: Mode)
      requires Valid() && armState == StDisarm
      modifies this`exitdelayTarget, this`sirenState, this`armState
      ensures Valid() && View() == old(View()).(phase := Armed(mode), siren := false)
    {
      exitdelayTarget := mode;
      SystemArm();
    }

    method ArmLater(mode: Mode, exitDelay: int)
      requires Valid() && armState == StDisarm && exitDelay > 0
      modifies this
      ensures Valid() && View() == old(View()).(phase := Exiting(mode))
      ensures entryTimers == old(entryTimers) && sirenTimers == old(sirenTimers) && armState == StExitDelay
    {
      exitdelayTarget := mode;
      armState := StExitDelay;
      waitForceArm := 0;
      ExitDelay(exitDelay);
    }

    // ----- motion and alarm

    /** triggerAlarm(0, 0); the siren sounds for `duration` seconds, 180 at most. */
    method TriggerAlarm(duration: int)
      requires TimersMatch()
      modifies this`sirenState, this`sirenT, this`sirenCurrentT, this`exitdelayT, this`entrydelayT,
               this`exitTimers, this`entryTimers, this`sirenTimers, this`nextId, this`alarms
      ensures TimersMatch() && sirenState && alarms == old(alarms) + 1 && sirenTimers == {sirenT}
      ensures exitdelayT == old(exitdelayT) && entrydelayT == old(entrydelayT)
      ensures exitTimers == old(exitTimers) && entryTimers == old(entryTimers)
    {
      StopSirenTimer();
      MakeTimer(SirenVar, if 0 < duration <= 180 then duration else 180);
      sirenCurrentT := sirenT;
      sirenState := true;
      alarms := alarms + 1;
    }

    method EntryDelay(noDelay: bool, entryDelay: int, duration: int)
      requires Valid() && (armState == StArm || armState == StPartArm) && !sirenState
      modifies this
      ensures Valid() && waitForceArm == old(waitForceArm)
      ensures noDelay || entryDelay <= 0 ==> View() == Alarm(old(View()), old(Phase()).mode)
      ensures noDelay || entryDelay <= 0 ==> entryTimers == old(entryTimers) && sirenTimers != {}
      ensures !(noDelay || entryDelay <= 0) ==>
                && View() == old(View()).(phase := Entering(old(Phase()).mode))
                && entrydelayT !in old(entryTimers) && entryTimers == old(entryTimers) + {entrydelayT}
                && sirenTimers == old(sirenTimers)
    {
      if noDelay {
        TriggerAlarm(duration);
      } else if entryDelay > 0 {
        entrydelayState := if armState == StArm then Full else Part;
        armState := StEntryDelay;
        MakeTimer(EntryVar, entryDelay);
      } else {
        TriggerAlarm(duration);
      }
    }

    /** ipc_motionEvent. The flags are those of the device in the registry. */
    method MotionEvent(known: bool, inArm: bool, inPartArm: bool, noDelay: bool, entryDelay: int, duration: int)
      requires Valid()
      modifies this
      ensures Valid() && View() == Step(old(View()), Motion(known, inArm, inPartArm, noDelay, entryDelay), contactRule)
      ensures if Phase().Entering? && !old(Phase()).Entering? then
                entrydelayT !in old(entryTimers) && entryTimers == old(entryTimers) + {entrydelayT}
              else
                entryTimers == old(entryTimers) && (Phase().Entering? ==> entrydelayT == old(entrydelayT))
      ensures if alarms > old(alarms) then sirenTimers != {} else sirenTimers == old(sirenTimers)
    {
      if !known {
        return;
      }
      if armState == StPartArm || armState == StArm {
        if (armState == StArm && inArm) || (armState == StPartArm && inPartArm) {
          if !sirenState {
            EntryDelay(noDelay, entryDelay, duration);
          }
        }
      }
    }

    // ----- timers that end

    function EventOf(v: Var): Event {
      match v
      case ExitVar => ExitTimeUp
      case EntryVar => EntryTimeUp
      case SirenVar => SirenTimeUp
    }

    /** timerHandler for a timer that ends: its variable, not its id, decides. */
    method TimerHandler(id: nat, v: Var, duration: int)
      requires Valid() && id in Running(v)
      modifies this
      ensures Valid() && View() == Step(old(View()), EventOf(v), contactRule)
      ensures entryTimers == old(entryTimers) - if v == EntryVar then {id} else {}
      ensures armState == StEntryDelay ==> entrydelayT == old(entrydelayT)
      ensures if alarms > old(alarms) then sirenTimers != {}
              else sirenTimers == if v == SirenVar then {} else old(sirenTimers)
    {
      hide OnCommand, OnMotion, Alarm;
      var value := Read(v);
      if value == 0 {
        Remove(id);
      } else if value == exitdelayT {
        ExitTimer(id);
      } else if value == entrydelayT {
        EntryTimer(id, duration);
      } else if value == sirenT {
        SirenTimer(id);
      }
    }

    method ExitTimer(id: nat)
      requires Valid() && id in exitTimers
      modifies this
      ensures Valid() && View() == Step(old(View()), ExitTimeUp, contactRule)
      ensures entryTimers == old(entryTimers) && sirenTimers == old(sirenTimers)
      ensures armState == StEntryDelay ==> entrydelayT == old(entrydelayT)
    {
      hide OnCommand, OnMotion, Alarm;
      Remove(id);
      exitdelayT := 0;
      SystemArm();
    }

    method EntryTimer(id: nat, duration: int)
      requires Valid() && id in entryTimers && entrydelayT != 0
      modifies this
      ensures Valid() && View() == Step(old(View()), EntryTimeUp, contactRule)
      ensures entryTimers == old(entryTimers) - {id} && sirenTimers != {}
      ensures alarms == old(alarms) + 1 && armState != StEntryDelay
    {
      hide OnCommand, OnMotion;
      Remove(id);
      armState := StateOf(entrydelayState);
      TriggerAlarm(duration);
      entrydelayT := 0;
    }

    method SirenTimer(id: nat)
      requires Valid() && id in sirenTimers
      modifies this
      ensures Valid() && View() == Step(old(View()), SirenTimeUp, contactRule)
      ensures entryTimers == old(entryTimers) && sirenTimers == {}
      ensures armState == StEntryDelay ==> entrydelayT == old(entrydelayT)
    {
      hide OnCommand, OnMotion, Alarm;
      Remove(id);
      sirenState := false;
      sirenT := 0;
    }
  }

  // ----- runs

  /** Takes one action of a run; a timer that does not run cannot end. */
  method Act(g: Gateway, a: Action, duration: int)
    requires g.Valid()
    modifies g
    ensures g.Valid() && Next(old(g.Now()), a, g.Now(), g.contactRule)
  {
    if a.Happens? {
      ActOutside(g, a.e, duration);
    } else {
      ActTimer(g, a, duration);
    }
  }

  method ActOutside(g: Gateway, e: Event, duration: int)
    requires g.Valid()
    modifies g
    ensures g.Valid() && Next(old(g.Now()), Happens(e), g.Now(), g.contactRule)
  {
    hide Step;
    AlarmsAreEarned(g.View(), e, g.contactRule);
    MotionEnters(g.View(), e, g.contactRule);
    match e {
      case Command(cmd, now, contactOpen, exitDelay) =>
        g.ArmCommand(cmd, now, contactOpen, exitDelay);
      case Motion(known, inArm, inPartArm, noDelay, entryDelay) =>
        g.MotionEvent(known, inArm, inPartArm, noDelay, entryDelay, duration);
      case _ =>
    }
  }

  method ActTimer(g: Gateway, a: Action, duration: int)
    requires g.Valid() && !a.Happens?
    modifies g
    ensures g.Valid() && Next(old(g.Now()), a, g.Now(), g.contactRule)
  {
    hide Step;
    AlarmsAreEarned(g.View(), EventOf(a), g.contactRule);
    MotionEnters(g.View(), EventOf(a), g.contactRule);
    match a {
      case EntryEnds(id) =>
        if id in g.entryTimers {
          g.TimerHandler(id, EntryVar, duration);
        }
      case ExitEnds =>
        if g.exitTimers != {} {
          g.TimerHandler(g.exitdelayT, ExitVar, duration);
        }
      case SirenEnds =>
        if g.sirenTimers != {} {
          g.TimerHandler(g.sirenT, SirenVar, duration);
        }
    }
  }

  /** Only motion starts an entry delay. */
  lemma MotionEnters(s: System, e: Event, rule: bool)
    ensures Step(s, e, rule).phase.Entering? ==> s.phase.Entering? || e.Motion?
  {
  }

  /** Any run of commands, motion and timers that end, entry timers of cancelled delays
      included. */
  method Drive(g: Gateway, acts: seq<Action>, duration: int) returns (ghost ts: seq<Timed>)
    requires g.Valid()
    modifies g
    ensures g.Valid() && Trace(ts, acts, g.contactRule)
    ensures ts[0] == old(g.Now()) && ts[|acts|] == g.Now()
    ensures g.View() == Run(old(g.View()), Seen(ts, acts), g.contactRule)
    ensures forall i :: 0 <= i < |acts| && Disarms(acts[i]) && (forall k :: i < k < |acts| ==> !Arms(acts[k])) ==>
                          g.armState == StDisarm && g.alarms == ts[i].sys.alarms
  {
    ts := [g.Now()];
    var n := 0;
    while n < |acts|
      invariant 0 <= n <= |acts| && g.Valid()
      invariant Trace(ts, acts[..n], g.contactRule) && ts[0] == old(g.Now()) && ts[n] == g.Now()
    {
      Act(g, acts[n], duration);
      ts := ts + [g.Now()];
      n := n + 1;
    }
    assert acts[..n] == acts;
    TraceIsRun(ts, acts, g.contactRule);
    forall i | 0 <= i < |acts| && Disarms(acts[i]) && (forall k :: i < k < |acts| ==> !Arms(acts[k]))
      ensures g.armState == StDisarm && g.alarms == ts[i].sys.alarms
    {
      DisarmedUntilArmed(ts, acts, g.contactRule, i, |acts|);
    }
  }

  // ----- an entry delay that is cut short

  /** Whenever an entry timer still runs, it can end the delay that motion starts next:
      the alarm is raised while the timer of the delay itself still runs. */
  method CutDelayShort(g: Gateway, e: Event, id: nat, duration: int)
    requires g.Valid() && StartsDelay(g.View(), e, g.contactRule) && id in g.entryTimers
    modifies g
    ensures g.Valid() && g.View() == Alarm(old(g.View()), old(g.View()).phase.mode)
    ensures exists own :: own != id && own !in old(g.entryTimers) && g.entryTimers == old(g.entryTimers) + {own} - {id}
  {
    g.MotionEvent(e.known, e.inArm, e.inPartArm, e.noDelay, e.entryDelay, duration);
    ghost var own := g.entrydelayT;
    g.TimerHandler(id, EntryVar, duration);
    assert own != id && own !in old(g.entryTimers) && g.entryTimers == old(g.entryTimers) + {own} - {id};
  }

  /** Arms at once; then motion starts an entry delay. */
  method ArmThenEnter(g: Gateway) returns (timer: nat)
    requires g.Valid() && !g.contactRule && g.Phase().Disarmed? && !g.sirenState
    modifies g
    ensures g.Valid() && g.View() == System(Entering(Full), false, old(g.alarms))
    ensures timer == g.entrydelayT && timer !in old(g.entryTimers) && g.entryTimers == old(g.entryTimers) + {timer}
  {
    g.ArmCommand(C_ARM, 0, false, 0);
    g.MotionEvent(true, true, true, false, 30, 60);
    timer := g.entrydelayT;
  }

  /** Two entry delays with a disarm command between them: the timer of the first one
      is still running and ends the second one; its own timer then does nothing. */
  method EntryDelayCutShort(g: Gateway)
    requires g.Valid() && !g.contactRule && g.View() == System(Disarmed(0), false, 0)
    modifies g
    ensures g.Valid() && g.View() == System(Armed(Full), true, 1) && g.entryTimers == old(g.entryTimers)
  {
    var first := ArmThenEnter(g);
    g.ArmCommand(C_DISARM, 10, false, 0);
    var second := ArmThenEnter(g);
    assert g.View() == System(Entering(Full), false, 0);
    g.TimerHandler(first, EntryVar, 60);
    assert g.View() == System(Armed(Full), true, 1);
    g.TimerHandler(second, EntryVar, 60);
  }
}
