/**
 What the gateway promises about a command for the radio module: when it is sent, how often it
 is tried again and that it is over once it has been acknowledged.
 */
module RfLaws {
  import opened RfModel

  // ----- one step

  /** An acknowledgement of the device that was sent to last ends the wait for it: the next
      command is sent, or nothing waits any more. Any other one changes nothing. */
  lemma AckEndsWait(m: Model, did: nat)
    ensures var m' := Step(m, Acked(did));
            if m.busy && did == m.current.did then
              if m.queue == [] then m' == Model([], m.current, false, m.sent)
              else
                var q := m.queue[0];
                m' == Model(m.queue[1..], q, true, m.sent + [Command(q.did, q.kind, q.cmd)])
            else m' == m
  {
  }

  /** Nothing waits: the command is sent at once. Something does: it waits at the end, unless
      120 others do or it waits already; the test device is not asked. A command for the
      module itself is sent in any case and changes nothing else. */
  lemma SubmitSendsOrWaits(m: Model, did: nat, kind: nat, cmd: nat)
    ensures var m' := Step(m, Submitted(did, kind, cmd));
            var waits := exists i :: 0 <= i < |m.queue| && m.queue[i].did == did && m.queue[i].cmd == cmd;
            var refused := did != 0x12345678 && (|m.queue| == 120 || waits);
            && (kind == 100 ==> m' == m.(sent := m.sent + [Command(did, kind, cmd)]))
            && (kind != 100 && m.busy ==> m' == if refused then m else m.(queue := m.queue + [Item(did, kind, cmd, 0)]))
            && (kind != 100 && !m.busy ==>
                  var bad := did % 256 == 0xd2 && (cmd == 0xff || kind in {1, 2, 3, 6, 17, 18});
                  m' == Model(if bad then [] else m.queue, Item(did, kind, cmd, 0), !bad,
                              m.sent + [Command(did, kind, cmd)]))
  {
    assert Repeated(m.queue, did, cmd) <==>
           exists i :: 0 <= i < |m.queue| && m.queue[i].did == did && m.queue[i].cmd == cmd;
  }

  /** A melody empties the queue and sends no command. */
  lemma MelodyForgets(m: Model)
    ensures Step(m, Played) == Model([], m.current, false, m.sent)
  {
  }

  // ----- a command that was acknowledged

  predicate Is(c: Command, did: nat, cmd: nat) {
    c.did == did && c.cmd == cmd
  }

  /** The command neither waits nor is its answer awaited. */
  predicate Over(m: Model, did: nat, cmd: nat) {
    !Repeated(m.queue, did, cmd) && (m.busy ==> !SameCommand(m.current, did, cmd))
  }

  /** No command of this kind among those sent from place k on. */
  predicate NoneFrom(sent: seq<Command>, k: nat, did: nat, cmd: nat) {
    forall i :: k <= i < |sent| ==> !Is(sent[i], did, cmd)
  }

  predicate Submits(e: Event, did: nat, cmd: nat) {
    e.Submitted? && e.did == did && e.cmd == cmd
  }

  lemma InsertKeepsOver(q: seq<Item>, item: Item, did: nat, cmd: nat)
    requires !Repeated(q, did, cmd) && !SameCommand(item, did, cmd)
    ensures !Repeated(Insert(q, item), did, cmd)
  {
    hide Accepts;
  }

  lemma NextKeepsOver(m: Model, did: nat, cmd: nat)
    requires m.queue != [] && !Repeated(m.queue, did, cmd)
    ensures var m' := Next(m); Over(m', did, cmd) && |m'.sent| == |m.sent| + 1 && m.sent <= m'.sent
    ensures !Is(Next(m).sent[|m.sent|], did, cmd)
  {
    RepeatedTail(m.queue, did, cmd);
  }

  lemma StepKeepsOver(m: Model, e: Event, did: nat, cmd: nat)
    requires Over(m, did, cmd) && !Submits(e, did, cmd)
    ensures var m' := Step(m, e); Over(m', did, cmd) && m.sent <= m'.sent && NoneFrom(m'.sent, |m.sent|, did, cmd)
  {
    hide Repeated, Accepts, Resets, Next;
    match e
    case Submitted(d, k, c) =>
      AppendedOver(m.queue, Item(d, k, c, 0), did, cmd);
    case Acked(d) =>
      if m.busy && d == m.current.did && m.queue != [] {
        NextKeepsOver(m, did, cmd);
      }
    case TimedOut(alive) =>
      if m.busy {
        var failed := m.current.(errCount := m.current.errCount + 1);
        InsertNonempty(m.queue, failed);
        InsertKeepsOver(m.queue, failed, did, cmd);
        if failed.errCount <= RetryLimit(alive) {
          NextKeepsOver(m.(current := failed, queue := Insert(m.queue, failed)), did, cmd);
        } else if m.queue != [] {
          NextKeepsOver(m.(current := failed), did, cmd);
        }
      }
    case Played =>
      AppendedOver(m.queue, m.current, did, cmd);
  }

  lemma AppendedOver(q: seq<Item>, item: Item, did: nat, cmd: nat)
    ensures !Repeated([], did, cmd)
    ensures !Repeated(q, did, cmd) && !SameCommand(item, did, cmd) ==> !Repeated(q + [item], did, cmd)
  {
  }

  lemma {:induction false} OverUntilSubmitted(m: Model, es: seq<Event>, did: nat, cmd: nat)
    requires Over(m, did, cmd) && forall i :: 0 <= i < |es| ==> !Submits(es[i], did, cmd)
    ensures var m' := Run(m, es); Over(m', did, cmd) && m.sent <= m'.sent && NoneFrom(m'.sent, |m.sent|, did, cmd)
  {
    hide Over, Step, Submits;
    if es != [] {
      var k := |es| - 1;
      OverUntilSubmitted(m, es[..k], did, cmd);
      StepKeepsOver(Run(m, es[..k]), es[k], did, cmd);
    }
  }

  /** Once a command that waits nowhere else has been acknowledged, it is not sent again in any
      run, whatever else is submitted, unless it is submitted again itself. */
  lemma AckedIsOver(m: Model, es: seq<Event>)
    requires m.busy && !Repeated(m.queue, m.current.did, m.current.cmd)
    requires forall i :: 0 <= i < |es| ==> !Submits(es[i], m.current.did, m.current.cmd)
    ensures var end := Run(Step(m, Acked(m.current.did)), es);
            m.sent <= end.sent && NoneFrom(end.sent, |m.sent|, m.current.did, m.current.cmd)
  {
    hide Over, Repeated, Submits, Run;
    var did, cmd := m.current.did, m.current.cmd;
    var m' := Step(m, Acked(did));
    assert Over(m', did, cmd) && m.sent <= m'.sent && NoneFrom(m'.sent, |m.sent|, did, cmd) by {
      if m.queue != [] {
        NextKeepsOver(m, did, cmd);
      } else {
        AppendedOver([], m.current, did, cmd);
        IdleIsOver(m', did, cmd);
      }
    }
    OverUntilSubmitted(m', es, did, cmd);
  }

  lemma IdleIsOver(m: Model, did: nat, cmd: nat)
    requires !m.busy && !Repeated(m.queue, did, cmd)
    ensures Over(m, did, cmd)
  {
  }

  // ----- how often a command is tried

  function Attempts(alive: bool): nat {
    if alive then 4 else 2
  }

  function Times(c: Command, n: nat): (r: seq<Command>)
    ensures |r| == n
  {
    seq(n, _ => c)
  }

  function Silence(alive: bool, n: nat): (es: seq<Event>)
    ensures |es| == n
  {
    seq(n, _ => TimedOut(alive))
  }

  /** A command that nobody answers, alone in the queue: it is sent four times to a device that
      counts as alive and twice to another one, and then given up. */
  lemma {:induction false} LoneCommandIsTried(m: Model, did: nat, kind: nat, cmd: nat, alive: bool, n: nat)
    requires !m.busy && m.queue == [] && kind != 100 && !Resets(did, kind, cmd)
    ensures var end := Run(Step(m, Submitted(did, kind, cmd)), Silence(alive, n));
            && end.queue == [] && (end.busy <==> n < Attempts(alive))
            && end.sent == m.sent + Times(Command(did, kind, cmd),
                                          if n < Attempts(alive) then n + 1 else Attempts(alive))
            && (end.busy ==> end.current == Item(did, kind, cmd, n))
  {
    hide Resets, Accepts, Repeated;
    var c := Command(did, kind, cmd);
    if n == 0 {
      assert Times(c, 1) == [c];
    } else {
      LoneCommandIsTried(m, did, kind, cmd, alive, n - 1);
      assert Silence(alive, n)[..n - 1] == Silence(alive, n - 1);
      var before := Run(Step(m, Submitted(did, kind, cmd)), Silence(alive, n - 1));
      if before.busy && n < Attempts(alive) {
        EmptyAccepts(did, cmd);
        assert Times(c, n + 1) == Times(c, n) + [c];
      }
    }
  }

  lemma EmptyAccepts(did: nat, cmd: nat)
    ensures Accepts([], did, cmd)
  {
  }

  /** How often the command was sent. */
  function Sends(sent: seq<Command>, did: nat, cmd: nat): nat {
    if sent == [] then 0
    else Sends(sent[..|sent| - 1], did, cmd) + if Is(sent[|sent| - 1], did, cmd) then 1 else 0
  }

  function Submissions(es: seq<Event>, did: nat, cmd: nat): nat {
    if es == [] then 0
    else Submissions(es[..|es| - 1], did, cmd) + if Submits(es[|es| - 1], did, cmd) then 1 else 0
  }

  /** The attempts an item has left, `all` for one that has not failed. */
  function Left(item: Item, all: nat, did: nat, cmd: nat): nat {
    if SameCommand(item, did, cmd) && item.errCount < all then all - item.errCount else 0
  }

  function QueueLeft(q: seq<Item>, did: nat, cmd: nat): nat {
    if q == [] then 0 else Left(q[0], 4, did, cmd) + QueueLeft(q[1..], did, cmd)
  }

  /** What was sent and what may still be. */
  function Budget(m: Model, did: nat, cmd: nat): nat {
    Sends(m.sent, did, cmd) + QueueLeft(m.queue, did, cmd) + if m.busy then Left(m.current, 3, did, cmd) else 0
  }

  predicate Counts(item: Item) {
    0 <= item.errCount <= 3
  }

  predicate Counted(m: Model) {
    (m.busy ==> Counts(m.current)) && forall i :: 0 <= i < |m.queue| ==> Counts(m.queue[i])
  }

  lemma {:induction false} QueueLeftSnoc(q: seq<Item>, item: Item, did: nat, cmd: nat)
    ensures QueueLeft(q + [item], did, cmd) == QueueLeft(q, did, cmd) + Left(item, 4, did, cmd)
  {
    if q != [] {
      QueueLeftSnoc(q[1..], item, did, cmd);
      assert (q + [item])[1..] == q[1..] + [item];
    }
  }

  lemma SendsSnoc(sent: seq<Command>, c: Command, did: nat, cmd: nat)
    ensures Sends(sent + [c], did, cmd) == Sends(sent, did, cmd) + if Is(c, did, cmd) then 1 else 0
  {
  }

  lemma LeftOne(item: Item, did: nat, cmd: nat)
    requires Counts(item)
    ensures Left(item, 4, did, cmd) == Left(item, 3, did, cmd) + if Is(CommandOf(item), did, cmd) then 1 else 0
  {
  }

  lemma NextBudget(m: Model, did: nat, cmd: nat)
    requires m.queue != [] && Counts(m.queue[0])
    ensures Budget(Next(m), did, cmd) == Sends(m.sent, did, cmd) + QueueLeft(m.queue, did, cmd)
  {
    hide Sends, Left, Counts;
    SendsSnoc(m.sent, CommandOf(m.queue[0]), did, cmd);
    LeftOne(m.queue[0], did, cmd);
  }

  lemma LeftAfterFailure(item: Item, did: nat, cmd: nat)
    requires Counts(item)
    ensures Left(item.(errCount := item.errCount + 1), 4, did, cmd) == Left(item, 3, did, cmd)
  {
  }

  lemma SubmitBudget(m: Model, did: nat, kind: nat, cmd: nat, d: nat, c: nat)
    requires Counted(m)
    ensures var m' := Submit(m, did, kind, cmd).0;
            Counted(m') && Budget(m', d, c) <= Budget(m, d, c) + if did == d && cmd == c then 4 else 0
  {
    hide Sends, Accepts, Resets, QueueLeft;
    var item := Item(did, kind, cmd, 0);
    SendsSnoc(m.sent, CommandOf(item), d, c);
    QueueLeftSnoc(m.queue, item, d, c);
    assert QueueLeft([], d, c) == 0 by { NoneLeft(d, c); }
  }

  lemma NoneLeft(did: nat, cmd: nat)
    ensures QueueLeft([], did, cmd) == 0 && Sends([], did, cmd) == 0
  {
  }

  lemma TimeoutBudget(m: Model, alive: bool, did: nat, cmd: nat)
    requires Counted(m)
    ensures var m' := Timeout(m, alive); Counted(m') && Budget(m', did, cmd) <= Budget(m, did, cmd)
  {
    hide Sends, Accepts, QueueLeft, Left;
    if m.busy {
      var failed := m.current.(errCount := m.current.errCount + 1);
      LeftAfterFailure(m.current, did, cmd);
      QueueLeftSnoc(m.queue, failed, did, cmd);
      InsertNonempty(m.queue, failed);
      var q := if failed.errCount > RetryLimit(alive) then m.queue else Insert(m.queue, failed);
      if q != [] {
        NextBudget(m.(current := failed, queue := q), did, cmd);
      }
    }
  }

  lemma StepBudget(m: Model, e: Event, did: nat, cmd: nat)
    requires Counted(m)
    ensures var m' := Step(m, e);
            Counted(m') && Budget(m', did, cmd) <= Budget(m, did, cmd) + if Submits(e, did, cmd) then 4 else 0
  {
    hide Sends, QueueLeft, Left;
    match e
    case Submitted(d, k, c) => SubmitBudget(m, d, k, c, did, cmd);
    case Acked(d) =>
      if m.queue != [] {
        NextBudget(m, did, cmd);
      }
    case TimedOut(alive) => TimeoutBudget(m, alive, did, cmd);
    case Played => NoneLeft(did, cmd);
  }

  lemma {:induction false} RunBudget(es: seq<Event>, did: nat, cmd: nat)
    ensures var m := Run(Idle(), es); Counted(m) && Budget(m, did, cmd) <= 4 * Submissions(es, did, cmd)
  {
    hide Counted, Budget, Step, Submits;
    if es == [] {
      IdleBudget(did, cmd);
    } else {
      var k := |es| - 1;
      RunBudget(es[..k], did, cmd);
      StepBudget(Run(Idle(), es[..k]), es[k], did, cmd);
    }
  }

  lemma IdleBudget(did: nat, cmd: nat)
    ensures Counted(Idle()) && Budget(Idle(), did, cmd) == 0
  {
  }

  /** In no run is a command sent more than four times for each time it was submitted. */
  lemma SentFourTimes(es: seq<Event>, did: nat, cmd: nat)
    ensures Sends(Run(Idle(), es).sent, did, cmd) <= 4 * Submissions(es, did, cmd)
  {
    hide Sends, Submissions, Run, Counted;
    RunBudget(es, did, cmd);
  }
}
