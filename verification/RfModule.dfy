/**
 The ring buffer behind the transmit queue, as the code keeps it: an array of 120
 entries, a read and a write position and a count.
 */
module RfModule {
  import opened RfModel

  function Slot(read: int, i: int): int {
    if read + i >= TXITEMMAX then read + i - TXITEMMAX else read + i
  }

  /** Sending a waiting command keeps count and positions in step. */
  predicate KeepsPositions(item: Item, read: int) {
    if Sendable(item.did, item.kind) then !Resets(item.did, item.kind, item.cmd) else read + 1 < TXITEMMAX
  }

  function Failed(item: Item): Item {
    item.(errCount := item.errCount + 1)
  }

  /** What waits after a time-out, before the next command is sent: the one that failed
      is queued again if it has an attempt left. */
  function Retried(m: Model, alive: bool): (q: seq<Item>)
    ensures m.queue != [] || m.current.errCount < RetryLimit(alive) ==> q != []
  {
    if m.current.errCount < RetryLimit(alive) then
      InsertNonempty(m.queue, Failed(m.current));
      Insert(m.queue, Failed(m.current))
    else m.queue
  }

  class RfQueue {
    const txqueue: array<Item>
    var txreadpos: int
    var txwritepos: int
    var txCount: int
    var currenttx: Item
    var uartbusy: bool
    /** the commands given to RFModuleWrite */
    ghost var sent: seq<Command>

    /** The count and the positions agree. */
    ghost predicate Valid()
      reads this
    {
      && txqueue.Length == TXITEMMAX
      && 0 <= txreadpos < TXITEMMAX && 0 <= txCount <= TXITEMMAX
      && txwritepos == (txreadpos + txCount) % TXITEMMAX
    }

    ghost function Queue(): (q: seq<Item>)
      requires Valid()
      reads this, txqueue
      ensures |q| == txCount
    {
      seq(txCount, i requires 0 <= i < txCount reads this, txqueue requires Valid() => txqueue[Slot(txreadpos, i)])
    }

    ghost function State(): Model
      requires Valid()
      reads this, txqueue
    {
      Model(Queue(), currenttx, uartbusy, sent)
    }

    constructor ()
      ensures Valid() && fresh(txqueue)
      ensures State() == Model([], Item(0, 0, 0, 0), false, [])
    {
      var none := Item(0, 0, 0, 0);
      txqueue := new Item[TXITEMMAX](_ => none);
      txreadpos, txwritepos, txCount := 0, 0, 0;
      currenttx, uartbusy, sent := none, false, [];
    }

    method CheckRepeatCmd(did: nat, cmd: nat) returns (r: int)
      requires Valid()
      ensures r == if Accepts(Queue(), did, cmd) then 1 else 0
    {
      if txCount == TXITEMMAX {
        return 0;
      }
      var x := 0;
      while x < txCount
        invariant 0 <= x <= txCount
        invariant forall i :: 0 <= i < x ==> !SameCommand(Queue()[i], did, cmd)
        decreases txCount - x
      {
        var idx := txreadpos + x;
        if idx >= TXITEMMAX {
          idx := idx - TXITEMMAX;
        }
        if txqueue[idx].did == did {
          if txqueue[idx].cmd == cmd {
            assert SameCommand(Queue()[x], did, cmd);
            return 0;
          }
        }
        x := x + 1;
      }
      r := 1;
    }

    /** The entry is written and the write position moved on. With a full queue this
        overwrites the oldest entry and the count leaves its range. */
    method Append(item: Item)
      requires Valid()
      modifies this`txwritepos, this`txCount, txqueue
      ensures Valid() <==> old(txCount) < TXITEMMAX
      ensures old(txCount) < TXITEMMAX ==> Queue() == old(Queue()) + [item]
      ensures txCount == old(txCount) + 1
    {
      txqueue[txwritepos] := item;
      txwritepos := txwritepos + 1;
      txCount := txCount + 1;
      if txwritepos >= TXITEMMAX || txwritepos < 0 {
        txwritepos := 0;
      }
      assert old(txCount) < TXITEMMAX ==> Valid() && Queue() == old(Queue()) + [item];
    }

    method InsertToQueue(tx: Item)
      requires Valid()
      modifies this`txwritepos, this`txCount, txqueue
      ensures Valid() && Queue() == Insert(old(Queue()), tx)
    {
      var r := CheckRepeatCmd(tx.did, tx.cmd);
      if r == 0 {
        return;
      }
      Append(tx);
    }

    /** RFModuleWrite, as far as the queue goes: a packet that starts with 0xD2
        resets it. */
    method RFModuleWrite(did: nat, kind: nat, cmd: nat)
      modifies this`txreadpos, this`txwritepos, this`txCount, this`uartbusy, this`sent
      ensures sent == old(sent) + [Command(did, kind, cmd)]
      ensures Resets(did, kind, cmd) ==> txreadpos == txwritepos == txCount == 0 && !uartbusy
      ensures !Resets(did, kind, cmd) ==> unchanged(this`txreadpos, this`txwritepos, this`txCount, this`uartbusy)
    {
      sent := sent + [Command(did, kind, cmd)];
      if SendsPacket(kind, cmd) {
        PutTxBuffer(did % 256);
      }
    }

    /** The reset in PutTxBuffer, before a packet with this first byte is written. */
    method PutTxBuffer(first: nat)
      modifies this`txreadpos, this`txwritepos, this`txCount, this`uartbusy
      ensures first == 0xd2 ==> txreadpos == txwritepos == txCount == 0 && !uartbusy
      ensures first != 0xd2 ==> unchanged(this`txreadpos, this`txwritepos, this`txCount, this`uartbusy)
    {
      if first == 0xd2 {
        txwritepos := 0;
        txreadpos := 0;
        txCount := 0;
        uartbusy := false;
      }
    }

    /** The positions after a command that resets the queue was sent from it. */
    ghost predicate AfterReset()
      reads this
    {
      txreadpos == 1 && txwritepos == 0 && txCount == 0 && uartbusy
    }

    /** Sends the first waiting command. The positions stay in step if and only if
        the command does not reset the queue on its way out and, where an entry
        without device or type is skipped, the read position need not wrap. */
    method WriteNextOnQueue()
      requires Valid() && txCount > 0
      modifies this
      ensures Valid() <==> KeepsPositions(old(Queue())[0], old(txreadpos))
      ensures Clean(old(Queue())[0]) ==> State() == Next(old(State()))
      ensures Sendable(old(Queue())[0].did, old(Queue())[0].kind) && !Clean(old(Queue())[0]) ==> AfterReset()
      ensures !Sendable(old(Queue())[0].did, old(Queue())[0].kind) && Valid() ==>
                State() == old(State()).(queue := old(Queue())[1..])
    {
      var did, kind, cmd := txqueue[txreadpos].did, txqueue[txreadpos].kind, txqueue[txreadpos].cmd;
      ghost var item := Queue()[0];
      assert item == txqueue[txreadpos];
      if did != 0 && kind != 0 {
        currenttx := Item(did, kind, cmd, if txqueue[txreadpos].errCount != 0 then txqueue[txreadpos].errCount else 0);
        RFModuleWrite(did, kind, cmd);
        txreadpos := txreadpos + 1;
        txCount := txCount - 1;
        if txreadpos >= TXITEMMAX || txreadpos < 0 {
          txreadpos := 0;
        }
        if txCount < 0 {
          txCount := 0;
        }
        uartbusy := true;
      } else {
        txreadpos := txreadpos + 1;
        txCount := txCount - 1;
      }
      assert Valid() ==> Queue() == old(Queue())[1..];
    }

    /** writeCommand. A command for the test device that the checks would have
        refused is queued all the same: the result is then outside the queue's
        range if the queue was full. */
    method WriteCommand(did: nat, kind: nat, cmd: nat) returns (r: int)
      requires Valid()
      modifies this, txqueue
      ensures Valid() <==> !(kind != TYPE_MCU_COMMAND && old(uartbusy) && did == TEST_DID && old(txCount) == TXITEMMAX)
      ensures Valid() ==> (State(), r) == Submit(old(State()), did, kind, cmd)
    {
      if kind == TYPE_MCU_COMMAND {
        RFModuleWrite(did, kind, cmd);
        assert Queue() == old(Queue());
        return 1;
      }
      if uartbusy {
        if did != TEST_DID {
          var ok := CheckRepeatCmd(did, cmd);
          if ok == 0 {
            return 0;
          }
        }
        Append(Item(did, kind, cmd, 0));
        return 1;
      }
      currenttx := Item(did, kind, cmd, 0);
      uartbusy := true;
      RFModuleWrite(did, kind, cmd);
      assert Valid() && Queue() == if Resets(did, kind, cmd) then [] else old(Queue());
      r := 1;
    }

    /** The acknowledgement part of DecodeRFMessage. */
    method Acknowledge(did: nat)
      requires Valid()
      modifies this
      ensures old(uartbusy) && did == old(currenttx).did && old(txCount) > 0 ==>
                var item := old(Queue())[0];
                && (Valid() <==> KeepsPositions(item, old(txreadpos)))
                && (Sendable(item.did, item.kind) && !Clean(item) ==> AfterReset())
                && (!Sendable(item.did, item.kind) && Valid() ==> State() == old(State()).(queue := old(Queue())[1..]))
      ensures !old(uartbusy) || did != old(currenttx).did || old(txCount) == 0 || Clean(old(Queue())[0]) ==>
                Valid() && State() == Ack(old(State()), did)
    {
      if uartbusy && did == currenttx.did {
        if txCount > 0 {
          WriteNextOnQueue();
        } else {
          uartbusy := false;
          assert Queue() == old(Queue());
        }
      }
    }

    /** checkAckfromWrite and its thread form, when the time for an answer is up. */
    method CheckAckFromWrite(alive: bool)
      requires Valid()
      modifies this, txqueue
      ensures !old(uartbusy) || (old(txCount) == 0 && old(currenttx).errCount >= RetryLimit(alive)) ==>
                Valid() && State() == Timeout(old(State()), alive)
      ensures old(uartbusy) && (old(txCount) > 0 || old(currenttx).errCount < RetryLimit(alive)) ==>
                var waiting := Retried(old(State()), alive);
                var item := waiting[0];
                && (Valid() <==> KeepsPositions(item, old(txreadpos)))
                && (Clean(item) ==> State() == Timeout(old(State()), alive))
                && (Sendable(item.did, item.kind) && !Clean(item) ==> AfterReset())
                && (!Sendable(item.did, item.kind) && Valid() ==>
                      State() == old(State()).(queue := waiting[1..], current := Failed(old(currenttx))))
    {
      if !uartbusy {
        return;
      }
      var retryTimes := if alive then ALIVE_SENSOR_RETRY else DEAD_SENSOR_RETRY;
      currenttx := currenttx.(errCount := currenttx.errCount + 1);
      assert Queue() == old(Queue());
      if currenttx.errCount > retryTimes {
        if txCount == 0 {
          uartbusy := false;
          assert Queue() == old(Queue());
          return;
        }
        WriteNextOnQueue();
      } else {
        InsertNonempty(Queue(), currenttx);
        InsertToQueue(currenttx);
        WriteNextOnQueue();
      }
    }

    /** A melody is played. */
    method PlayMelody()
      requires Valid()
      modifies this
      ensures Valid() && State() == Melody(old(State()))
    {
      PutTxBuffer(0xd2);
      assert Queue() == [];
    }
  }

  // ----- runs

  /** Device and type of every command are given. */
  predicate Named(e: Event) {
    e.Submitted? ==> Sendable(e.did, e.kind)
  }

  predicate AllNamed(m: Model) {
    && (forall i :: 0 <= i < |m.queue| ==> Sendable(m.queue[i].did, m.queue[i].kind))
    && (m.busy ==> Sendable(m.current.did, m.current.kind))
  }

  predicate ResetsItem(item: Item) {
    Resets(item.did, item.kind, item.cmd)
  }

  /** Breaks the ring: a command for the test device when the queue is full, and a
      command that resets the queue while it is sent from it. */
  predicate Breaks(m: Model, e: Event) {
    match e
    case Submitted(did, kind, _) => kind != TYPE_MCU_COMMAND && m.busy && did == TEST_DID && |m.queue| == TXITEMMAX
    case Acked(did) => m.busy && did == m.current.did && m.queue != [] && ResetsItem(m.queue[0])
    case TimedOut(alive) =>
      m.busy && (m.queue != [] || m.current.errCount < RetryLimit(alive)) && ResetsItem(Retried(m, alive)[0])
    case Played => false
  }

  lemma StepNamed(m: Model, e: Event)
    requires AllNamed(m) && Named(e)
    ensures AllNamed(Step(m, e))
  {
    hide Sendable, Resets, Accepts, Repeated;
    if e.TimedOut? {
      InsertNonempty(m.queue, Failed(m.current));
    }
  }

  lemma {:induction false} RunNamed(m: Model, es: seq<Event>)
    requires AllNamed(m) && forall i :: 0 <= i < |es| ==> Named(es[i])
    ensures AllNamed(Run(m, es))
  {
    hide AllNamed, Named, Step;
    if es != [] {
      RunNamed(m, es[..|es| - 1]);
      StepNamed(Run(m, es[..|es| - 1]), es[|es| - 1]);
    }
  }

  /** One event: the ring stays in step with the model if and only if the event does not
      break it. */
  method DriveStep(q: RfQueue, e: Event)
    requires q.Valid() && AllNamed(q.State()) && Named(e)
    modifies q, q.txqueue
    ensures q.Valid() <==> !Breaks(old(q.State()), e)
    ensures q.Valid() ==> q.State() == Step(old(q.State()), e)
  {
    hide Resets, Accepts;
    match e {
      case Submitted(did, kind, cmd) => var r := q.WriteCommand(did, kind, cmd);
      case Acked(did) => q.Acknowledge(did);
      case TimedOut(alive) => q.CheckAckFromWrite(alive);
      case Played => q.PlayMelody();
    }
  }

  /** Any run of named events, up to the first one that breaks the ring, which is event
      n: before it the positions agree with the count and the ring holds the queue of the
      model. */
  method Drive(es: seq<Event>) returns (q: RfQueue, n: nat)
    requires forall i :: 0 <= i < |es| ==> Named(es[i])
    ensures n <= |es| && forall i :: 0 <= i < n ==> !Breaks(Run(Idle(), es[..i]), es[i])
    ensures n < |es| ==> Breaks(Run(Idle(), es[..n]), es[n])
    ensures q.Valid() <==> n == |es|
    ensures q.Valid() ==> q.State() == Run(Idle(), es)
  {
    hide AllNamed, Named, Step, Breaks, Run;
    q := new RfQueue();
    n := 0;
    RunNothing(Idle());
    while n < |es|
      invariant 0 <= n <= |es| && forall i :: 0 <= i < n ==> !Breaks(Run(Idle(), es[..i]), es[i])
      invariant fresh(q) && fresh(q.txqueue) && q.Valid() && q.State() == Run(Idle(), es[..n])
    {
      assert AllNamed(Idle()) by { IdleNamed(); }
      RunNamed(Idle(), es[..n]);
      RunStep(Idle(), es, n);
      DriveStep(q, es[n]);
      if Breaks(Run(Idle(), es[..n]), es[n]) {
        return;
      }
      n := n + 1;
    }
    assert es[..|es|] == es;
  }

  lemma RunNothing(m: Model)
    ensures Run(m, []) == m
  {
  }

  lemma IdleNamed()
    ensures AllNamed(Idle())
  {
  }

  /** Two commands: the second one, for a device id that ends in 0xD2, is sent from
      the queue and resets it; the read position is then one ahead, and the next
      command to be queued is not the next one to be sent. */
  method ResetWhileSending() returns (q: RfQueue)
    ensures q.AfterReset() && !q.Valid()
  {
    q := new RfQueue();
    var r := q.WriteCommand(1, 3, 1);
    r := q.WriteCommand(0xd2, 3, 1);
    assert q.Queue() == [Item(0xd2, 3, 1, 0)];
    q.Acknowledge(1);
  }
}
