/**
 The transmit queue of the radio module: what the steps of the gateway (a command,
 an acknowledgement, a time-out, a melody) do to the queue of commands that wait.
 */
module RfModel {
  const TXITEMMAX: nat := 120
  const TYPE_MCU_COMMAND: nat := 100
  const TEST_DID: nat := 0x12345678
  const ALIVE_SENSOR_RETRY := 3
  const DEAD_SENSOR_RETRY := 1

  datatype Item = Item(did: nat, kind: nat, cmd: nat, errCount: int)

  datatype Command = Command(did: nat, kind: nat, cmd: nat)

  function CommandOf(item: Item): Command {
    Command(item.did, item.kind, item.cmd)
  }

  /** RFModuleWrite sends a radio packet for this command: the pairing command, or
      one for a siren, power adapter, on-board thermometer, vibration sensor or door
      chime. */
  predicate SendsPacket(kind: nat, cmd: nat) {
    kind != TYPE_MCU_COMMAND && (cmd == 0xff || kind in {1, 2, 3, 6, 17, 18})
  }

  /** The packet starts with the lowest byte of the device id; 0xD2 there is taken
      for a melody and resets the queue. */
  predicate Resets(did: nat, kind: nat, cmd: nat) {
    SendsPacket(kind, cmd) && did % 256 == 0xd2
  }

  predicate Sendable(did: nat, kind: nat) {
    did != 0 && kind != 0
  }

  predicate Clean(item: Item) {
    Sendable(item.did, item.kind) && !Resets(item.did, item.kind, item.cmd)
  }

  predicate SameCommand(item: Item, did: nat, cmd: nat) {
    item.did == did && item.cmd == cmd
  }

  predicate Repeated(q: seq<Item>, did: nat, cmd: nat) {
    exists i :: 0 <= i < |q| && SameCommand(q[i], did, cmd)
  }

  /** checkRepeatCmd lets the command in. */
  predicate Accepts(q: seq<Item>, did: nat, cmd: nat) {
    |q| != TXITEMMAX && !Repeated(q, did, cmd)
  }

  function Insert(q: seq<Item>, item: Item): seq<Item> {
    if Accepts(q, item.did, item.cmd) then q + [item] else q
  }

  /** The waiting commands in order, the one sent last, whether its answer is
      awaited, and all that was sent. */
  datatype Model = Model(queue: seq<Item>, current: Item, busy: bool, sent: seq<Command>)

  // ----- steps

  /** The first waiting command is sent. */
  function Next(m: Model): Model
    requires m.queue != []
  {
    Model(m.queue[1..], m.queue[0], true, m.sent + [CommandOf(m.queue[0])])
  }

  function Submit(m: Model, did: nat, kind: nat, cmd: nat): (Model, int) {
    var item := Item(did, kind, cmd, 0);
    if kind == TYPE_MCU_COMMAND then (m.(sent := m.sent + [CommandOf(item)]), 1)
    else if m.busy then
      if did != TEST_DID && !Accepts(m.queue, did, cmd) then (m, 0)
      else (m.(queue := m.queue + [item]), 1)
    else
      (Model(if Resets(did, kind, cmd) then [] else m.queue, item, !Resets(did, kind, cmd),
             m.sent + [CommandOf(item)]), 1)
  }

  /** An acknowledgement of device did. */
  function Ack(m: Model, did: nat): Model {
    if !m.busy || did != m.current.did then m
    else if m.queue == [] then m.(busy := false)
    else Next(m)
  }

  function RetryLimit(alive: bool): int {
    if alive then ALIVE_SENSOR_RETRY else DEAD_SENSOR_RETRY
  }

  /** The time for an answer is up; `alive` says whether the device counts as alive. */
  function Timeout(m: Model, alive: bool): Model {
    if !m.busy then m
    else
      var failed := m.current.(errCount := m.current.errCount + 1);
      var m' := m.(current := failed);
      if failed.errCount > RetryLimit(alive) then
        if m.queue == [] then m'.(busy := false) else Next(m')
      else
        InsertNonempty(m.queue, failed);
        Next(m'.(queue := Insert(m.queue, failed)))
  }

  lemma InsertNonempty(q: seq<Item>, item: Item)
    ensures Insert(q, item) != []
  {
  }

  /** A melody is played. */
  function Melody(m: Model): Model {
    m.(queue := [], busy := false)
  }

  datatype Event = Submitted(did: nat, kind: nat, cmd: nat) | Acked(did: nat) | TimedOut(alive: bool) | Played

  function Step(m: Model, e: Event): Model {
    match e
    case Submitted(did, kind, cmd) => Submit(m, did, kind, cmd).0
    case Acked(did) => Ack(m, did)
    case TimedOut(alive) => Timeout(m, alive)
    case Played => Melody(m)
  }

  function Run(m: Model, es: seq<Event>): Model {
    if es == [] then m else Step(Run(m, es[..|es| - 1]), es[|es| - 1])
  }

  // ----- the invariant

  predicate Distinct(q: seq<Item>) {
    forall i, j :: 0 <= i < j < |q| ==> !(q[i].did == q[j].did && q[i].cmd == q[j].cmd)
  }

  predicate Fresh(item: Item) {
    Clean(item) && 0 <= item.errCount <= ALIVE_SENSOR_RETRY
  }

  predicate AllFresh(q: seq<Item>) {
    forall i :: 0 <= i < |q| ==> Fresh(q[i])
  }

  predicate Good(m: Model) {
    && |m.queue| <= TXITEMMAX
    && Distinct(m.queue)
    && AllFresh(m.queue)
    && (m.busy ==> Fresh(m.current))
    && (!m.busy ==> m.queue == [])
  }

  lemma InsertGood(q: seq<Item>, item: Item)
    requires |q| <= TXITEMMAX && Distinct(q) && Fresh(item)
    requires forall i :: 0 <= i < |q| ==> Fresh(q[i])
    ensures var q' := Insert(q, item);
            |q'| <= TXITEMMAX && Distinct(q') && forall i :: 0 <= i < |q'| ==> Fresh(q'[i])
  {
    hide Fresh;
    if Accepts(q, item.did, item.cmd) {
      forall i | 0 <= i < |q| ensures !SameCommand(q[i], item.did, item.cmd) {
      }
    }
  }

  lemma NextGood(m: Model)
    requires m.queue != [] && |m.queue| <= TXITEMMAX && Distinct(m.queue)
    requires forall i :: 0 <= i < |m.queue| ==> Fresh(m.queue[i])
    ensures Good(Next(m))
  {
    hide Fresh;
  }

  /** What a submitted command must be for the invariant to survive. Idle, it is sent at
      once, and a reset does no harm. Busy, it is refused, or it passes the checks, which
      the test device skips, and will not reset the queue when it is sent from there. */
  predicate KeepsGood(m: Model, did: nat, kind: nat, cmd: nat) {
    kind == TYPE_MCU_COMMAND ||
    if m.busy then
      (did != TEST_DID && !Accepts(m.queue, did, cmd)) || (Accepts(m.queue, did, cmd) && Clean(Item(did, kind, cmd, 0)))
    else
      Resets(did, kind, cmd) || Sendable(did, kind)
  }

  lemma SubmitKeepsGood(m: Model, did: nat, kind: nat, cmd: nat)
    requires Good(m)
    ensures Good(Submit(m, did, kind, cmd).0) <==> KeepsGood(m, did, kind, cmd)
  {
    hide Resets, Sendable, Accepts, Distinct;
    var item := Item(did, kind, cmd, 0);
    if kind != TYPE_MCU_COMMAND {
      if m.busy {
        QueuedGood(m.queue, item);
      } else {
        assert Distinct([]) by { NothingDistinct(); }
      }
    }
  }

  lemma NothingDistinct()
    ensures Distinct([])
  {
  }

  /** An item fits behind a queue exactly if the checks let it in. */
  lemma QueuedGood(q: seq<Item>, item: Item)
    requires |q| <= TXITEMMAX && Distinct(q) && AllFresh(q)
    ensures |q + [item]| <= TXITEMMAX && Distinct(q + [item]) && AllFresh(q + [item]) <==>
            Accepts(q, item.did, item.cmd) && Fresh(item)
  {
    hide Fresh;
    var q' := q + [item];
    if Accepts(q, item.did, item.cmd) {
      forall i | 0 <= i < |q| ensures !SameCommand(q[i], item.did, item.cmd) {
      }
    }
    if |q'| <= TXITEMMAX && Distinct(q') {
      forall i | 0 <= i < |q| ensures !SameCommand(q[i], item.did, item.cmd) {
        assert q'[i] == q[i] && q'[|q|] == item;
      }
    }
    assert AllFresh(q') ==> Fresh(q'[|q|]);
  }

  /** Two equal commands for the test device wait in the queue at once. */
  lemma TestDeviceRepeats()
    ensures var m := Run(Model([], Item(0, 0, 0, 0), false, []),
                         [Submitted(1, 3, 1), Submitted(TEST_DID, 3, 1), Submitted(TEST_DID, 3, 1)]);
            |m.queue| == 2 && m.queue[0] == m.queue[1] && !Good(m)
  {
    var m := Model([], Item(0, 0, 0, 0), false, []);
    var a, b, c := Submitted(1, 3, 1), Submitted(TEST_DID, 3, 1), Submitted(TEST_DID, 3, 1);
    assert [a, b, c][..2] == [a, b] && [a, b][..1] == [a] && [a][..0] == [];
    var m1 := Step(m, a);
    assert Run(m, [a]) == m1 by {
      assert Run(m, []) == m;
    }
    var m2 := Step(m1, b);
    assert Run(m, [a, b]) == m2;
    assert Run(m, [a, b, c]) == Step(m2, c);
    var q := Step(m2, c).queue;
    assert q[0].did == q[1].did && q[0].cmd == q[1].cmd;
  }

  /** Nothing but a submitted command can break the invariant. */
  predicate EventKeepsGood(m: Model, e: Event) {
    e.Submitted? ==> KeepsGood(m, e.did, e.kind, e.cmd)
  }

  lemma StepGood(m: Model, e: Event)
    requires Good(m)
    ensures Good(Step(m, e)) <==> EventKeepsGood(m, e)
  {
    hide KeepsGood, Submit, Timeout;
    match e
    case Submitted(did, kind, cmd) =>
      SubmitKeepsGood(m, did, kind, cmd);
    case Acked(did) =>
      if m.busy && did == m.current.did && m.queue != [] {
        NextGood(m);
      }
    case TimedOut(alive) =>
      TimeoutGood(m, alive);
    case Played =>
  }

  lemma TimeoutGood(m: Model, alive: bool)
    requires Good(m)
    ensures Good(Timeout(m, alive))
  {
    if m.busy {
      var failed := m.current.(errCount := m.current.errCount + 1);
      if failed.errCount > RetryLimit(alive) {
        if m.queue != [] {
          NextGood(m.(current := failed));
        }
      } else {
        InsertGood(m.queue, failed);
        InsertNonempty(m.queue, failed);
        NextGood(m.(current := failed, queue := Insert(m.queue, failed)));
      }
    }
  }

  predicate AlwaysGood(m: Model, es: seq<Event>) {
    forall n :: 0 <= n <= |es| ==> Good(Run(m, es[..n]))
  }

  predicate AllKeepGood(m: Model, es: seq<Event>) {
    forall n :: 0 <= n < |es| ==> EventKeepsGood(Run(m, es[..n]), es[n])
  }

  lemma RunStep(m: Model, es: seq<Event>, n: nat)
    requires n < |es|
    ensures Run(m, es[..n + 1]) == Step(Run(m, es[..n]), es[n])
  {
    assert es[..n + 1][..n] == es[..n];
  }

  lemma {:induction false} RunGoodUpTo(m: Model, es: seq<Event>, n: nat)
    requires Good(m) && AllKeepGood(m, es) && n <= |es|
    ensures Good(Run(m, es[..n]))
  {
    hide Good, EventKeepsGood, Step;
    if n > 0 {
      RunGoodUpTo(m, es, n - 1);
      RunStep(m, es, n - 1);
      StepGood(Run(m, es[..n - 1]), es[n - 1]);
    }
  }

  /** In any run of commands, acknowledgements, time-outs and melodies the invariant holds
      throughout if and only if every submitted command keeps it at its time. */
  lemma RunGood(m: Model, es: seq<Event>)
    requires Good(m)
    ensures AlwaysGood(m, es) <==> AllKeepGood(m, es)
  {
    hide Good, EventKeepsGood, Step;
    if AllKeepGood(m, es) {
      forall n | 0 <= n <= |es| ensures Good(Run(m, es[..n])) {
        RunGoodUpTo(m, es, n);
      }
    }
    if AlwaysGood(m, es) {
      forall n | 0 <= n < |es| ensures EventKeepsGood(Run(m, es[..n]), es[n]) {
        assert Good(Run(m, es[..n + 1]));
        RunStep(m, es, n);
        StepGood(Run(m, es[..n]), es[n]);
      }
    }
  }

  // ----- time-outs end

  function Tries(item: Item): int {
    1 + ALIVE_SENSOR_RETRY - item.errCount
  }

  function QueueTries(q: seq<Item>): int {
    if q == [] then 0 else Tries(q[0]) + QueueTries(q[1..])
  }

  /** The attempts that are left. */
  function Measure(m: Model): int {
    if m.busy then Tries(m.current) + QueueTries(m.queue) else 0
  }

  lemma {:induction false} QueueTriesBounds(q: seq<Item>)
    requires forall i :: 0 <= i < |q| ==> Fresh(q[i])
    ensures |q| <= QueueTries(q) <= 4 * |q|
  {
    if q != [] {
      QueueTriesBounds(q[1..]);
    }
  }

  lemma {:induction false} QueueTriesSnoc(q: seq<Item>, item: Item)
    ensures QueueTries(q + [item]) == QueueTries(q) + Tries(item)
  {
    if q != [] {
      QueueTriesSnoc(q[1..], item);
      assert (q + [item])[1..] == q[1..] + [item];
    }
  }

  lemma MeasureBounds(m: Model)
    requires Good(m)
    ensures 0 <= Measure(m) <= 4 * (|m.queue| + 1)
    ensures m.busy <==> Measure(m) > 0
  {
    QueueTriesBounds(m.queue);
  }

  lemma TimeoutDecreases(m: Model, alive: bool)
    requires Good(m) && m.busy
    ensures Measure(Timeout(m, alive)) < Measure(m)
  {
    hide Accepts;
    var failed := m.current.(errCount := m.current.errCount + 1);
    QueueTriesBounds(m.queue);
    QueueTriesSnoc(m.queue, failed);
    InsertNonempty(m.queue, failed);
  }

  function TimedOutOnly(alive: seq<bool>): (es: seq<Event>)
    ensures |es| == |alive|
  {
    seq(|alive|, i requires 0 <= i < |alive| => TimedOut(alive[i]))
  }

  lemma {:induction false} TimeoutsDecrease(m: Model, alive: seq<bool>)
    requires Good(m)
    ensures var m' := Run(m, TimedOutOnly(alive));
            Good(m') && (m'.busy ==> Measure(m') + |alive| <= Measure(m))
  {
    hide Good, Measure;
    if alive != [] {
      var before, last := alive[..|alive| - 1], alive[|alive| - 1];
      TimeoutsDecrease(m, before);
      assert TimedOutOnly(alive)[..|alive| - 1] == TimedOutOnly(before);
      var m' := Run(m, TimedOutOnly(before));
      TimeoutGood(m', last);
      if m'.busy {
        TimeoutDecreases(m', last);
      }
    }
  }

  /** With n commands waiting, 4 (n + 1) time-outs in a row end with the queue empty
      and no answer awaited, whichever devices count as alive at which time. */
  lemma TimeoutsReachIdle(m: Model, alive: seq<bool>)
    requires Good(m) && |alive| >= 4 * (|m.queue| + 1)
    ensures var m' := Run(m, TimedOutOnly(alive)); !m'.busy && m'.queue == []
  {
    TimeoutsDecrease(m, alive);
    MeasureBounds(m);
    MeasureBounds(Run(m, TimedOutOnly(alive)));
  }

  // ----- what happens to a command that failed

  /** A command that still has an attempt left is queued or sent again after a
      time-out, unless the queue is full: then it is lost without notice. */
  lemma RetryIsKept(m: Model, alive: bool)
    requires Good(m) && m.busy && m.current.errCount < RetryLimit(alive)
    ensures var m' := Timeout(m, alive);
            (Repeated(m'.queue, m.current.did, m.current.cmd) || SameCommand(m'.current, m.current.did, m.current.cmd))
            <==> |m.queue| < TXITEMMAX || Repeated(m.queue, m.current.did, m.current.cmd)
  {
    var did, cmd := m.current.did, m.current.cmd;
    var failed := m.current.(errCount := m.current.errCount + 1);
    var q := Insert(m.queue, failed);
    InsertNonempty(m.queue, failed);
    assert Repeated(q, did, cmd) <==> |m.queue| < TXITEMMAX || Repeated(m.queue, did, cmd) by {
      if Accepts(m.queue, did, cmd) {
        assert SameCommand(q[|m.queue|], did, cmd);
      }
    }
    RepeatedTail(q, did, cmd);
  }

  lemma RepeatedTail(q: seq<Item>, did: nat, cmd: nat)
    requires q != []
    ensures Repeated(q, did, cmd) <==> SameCommand(q[0], did, cmd) || Repeated(q[1..], did, cmd)
  {
    if Repeated(q, did, cmd) {
      var i :| 0 <= i < |q| && SameCommand(q[i], did, cmd);
      assert i > 0 ==> SameCommand(q[1..][i - 1], did, cmd);
    }
    if Repeated(q[1..], did, cmd) {
      var i :| 0 <= i < |q| - 1 && SameCommand(q[1..][i], did, cmd);
      assert SameCommand(q[i + 1], did, cmd);
    }
  }

  /** Commands for n different sirens. */
  function Flood(n: nat): (es: seq<Event>)
    ensures |es| == n
  {
    seq(n, i requires 0 <= i < n => Submitted(i + 1, 3, 1))
  }

  function Waiting(n: nat): (q: seq<Item>)
    ensures |q| == n
  {
    seq(n, i requires 0 <= i < n => Item(i + 2, 3, 1, 0))
  }

  function Idle(): Model {
    Model([], Item(0, 0, 0, 0), false, [])
  }

  lemma {:induction false} FloodFills(n: nat)
    requires n <= TXITEMMAX
    ensures Run(Idle(), Flood(n + 1)) == Model(Waiting(n), Item(1, 3, 1, 0), true, [Command(1, 3, 1)])
  {
    var before := Run(Idle(), Flood(n));
    assert Flood(n + 1)[..n] == Flood(n);
    assert Flood(n + 1)[n] == Submitted(n + 1, 3, 1);
    if n == 0 {
      assert before == Idle();
      assert Waiting(0) == [];
    } else {
      FloodFills(n - 1);
      assert !Repeated(before.queue, n + 1, 1);
      assert Waiting(n) == Waiting(n - 1) + [Item(n + 1, 3, 1, 0)];
    }
  }

  /** After 121 commands for different sirens the queue is full, and the first command is
      lost at its first time-out, with attempts left. */
  lemma RetryIsLost()
    ensures var m := Run(Idle(), Flood(TXITEMMAX + 1));
            var m' := Timeout(m, true);
            && m.busy && m.current == Item(1, 3, 1, 0) && |m.queue| == TXITEMMAX
            && !Repeated(m'.queue, 1, 1) && !SameCommand(m'.current, 1, 1)
  {
    FloodFills(TXITEMMAX);
    InsertNonempty(Waiting(TXITEMMAX), Item(1, 3, 1, 1));
  }

  /** A command for the test device is then queued all the same, as the 121st one. */
  lemma TestDeviceOverfills()
    ensures |Submit(Run(Idle(), Flood(TXITEMMAX + 1)), TEST_DID, 3, 1).0.queue| == TXITEMMAX + 1
  {
    FloodFills(TXITEMMAX);
  }

  // ----- first come, first served

  /** The step ends the wait for the current command. */
  predicate Advances(m: Model, e: Event) {
    m.busy && (e.TimedOut? || (e.Acked? && e.did == m.current.did))
  }

  predicate AllAdvance(m: Model, es: seq<Event>) {
    forall i :: 0 <= i < |es| ==> Advances(Run(m, es[..i]), es[i])
  }

  function Commands(q: seq<Item>): (r: seq<Command>)
    ensures |r| == |q|
  {
    seq(|q|, i requires 0 <= i < |q| => CommandOf(q[i]))
  }

  lemma AdvanceSendsFirst(m: Model, e: Event)
    requires m.queue != [] && Advances(m, e)
    ensures var m' := Step(m, e);
            && m'.busy && m'.sent == m.sent + [CommandOf(m.queue[0])]
            && m.queue[1..] <= m'.queue
  {
    if e.TimedOut? {
      var failed := m.current.(errCount := m.current.errCount + 1);
      if failed.errCount <= RetryLimit(e.alive) {
        assert Insert(m.queue, failed)[1..] == m.queue[1..] || Insert(m.queue, failed)[1..] == m.queue[1..] + [failed];
      }
    }
  }

  lemma AdvancePrefix(m: Model, es: seq<Event>)
    requires es != [] && AllAdvance(m, es)
    ensures var k := |es| - 1;
            AllAdvance(m, es[..k]) && Advances(Run(m, es[..k]), es[k])
  {
    hide Advances, Run;
    var before := es[..|es| - 1];
    forall i | 0 <= i < |before| ensures Advances(Run(m, before[..i]), before[i]) {
      assert before[..i] == es[..i];
    }
  }

  /** Waiting commands are sent in the order in which they were queued, one per step
      that ends a wait, before anything queued later. */
  lemma {:induction false} FirstComeFirstServed(m: Model, es: seq<Event>)
    requires |es| <= |m.queue| && AllAdvance(m, es)
    ensures Run(m, es).sent == m.sent + Commands(m.queue[..|es|])
    ensures Behind(m.queue, |es|, Run(m, es).queue)
  {
    hide Advances, AllAdvance, Step, Behind, Commands;
    if es == [] {
      NothingServed(m);
    } else {
      var k := |es| - 1;
      AdvancePrefix(m, es);
      FirstComeFirstServed(m, es[..k]);
      ServeOne(m, Run(m, es[..k]), es[k], k);
    }
  }

  /** The queue q' begins with what is in q from k on. */
  predicate Behind(q: seq<Item>, k: nat, q': seq<Item>)
    requires k <= |q|
  {
    q[k..] <= q'
  }

  lemma NothingServed(m: Model)
    ensures m.sent == m.sent + Commands(m.queue[..0]) && Behind(m.queue, 0, m.queue)
  {
  }

  lemma ServeOne(m: Model, m': Model, e: Event, k: nat)
    requires k < |m.queue| && Advances(m', e)
    requires m'.sent == m.sent + Commands(m.queue[..k]) && Behind(m.queue, k, m'.queue)
    ensures Step(m', e).sent == m.sent + Commands(m.queue[..k + 1])
    ensures Behind(m.queue, k + 1, Step(m', e).queue)
  {
    hide Step, Advances, Commands;
    assert m'.queue[0] == m.queue[k..][0] == m.queue[k];
    AdvanceSendsFirst(m', e);
    OneMore(m.queue, k);
    PrefixTail(m.queue, k, m'.queue, Step(m', e).queue);
    var c := [CommandOf(m.queue[k])];
    assert m.sent + Commands(m.queue[..k]) + c == m.sent + (Commands(m.queue[..k]) + c);
  }

  lemma OneMore(q: seq<Item>, k: nat)
    requires k < |q|
    ensures Commands(q[..k + 1]) == Commands(q[..k]) + [CommandOf(q[k])]
  {
  }

  lemma PrefixTail(q: seq<Item>, k: nat, q': seq<Item>, q'': seq<Item>)
    requires k < |q| && q[k..] <= q' && q'[1..] <= q''
    ensures q[k + 1..] <= q''
  {
    assert forall i :: k + 1 <= i < |q| ==> q[i] == q[k..][i - k] == q'[i - k] == q'[1..][i - k - 1] == q''[i - k - 1];
  }
}
