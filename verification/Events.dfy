/**
 The event history: recorded events fill a page of 100; a full page becomes the old
 page and the next one starts empty. A query without payload returns what both hold
 of the last 100 events.
 */
module Events {
  import opened Sequences

  const MAXEVENT: nat := 100

  datatype Event = Event(did: int, time: int, status: int, model: int, gwstate: int)

  /** An event that reaches the gateway: whether it is to be saved, and whether the
      gateway is in test mode. */
  datatype Report = Report(event: Event, save: bool, testMode: bool)

  // ----- a window that slides

  lemma LastSlides<T>(s: seq<T>, e: T, n: nat)
    ensures LastOf(LastOf(s, n) + [e], n) == LastOf(s + [e], n)
  {
  }

  // ----- two pages

  /** The page in use, and the full page before it, if any. */
  datatype Pages = Pages(full: seq<Event>, page: seq<Event>) {
    predicate Valid() {
      |page| < MAXEVENT && |full| in {0, MAXEVENT}
    }
  }

  function Record(p: Pages, e: Event): (r: Pages)
    requires p.Valid()
    ensures r.Valid()
  {
    if |p.page| + 1 >= MAXEVENT then Pages(p.page + [e], []) else Pages(p.full, p.page + [e])
  }

  function Handle(p: Pages, r: Report): (p': Pages)
    requires p.Valid()
    ensures p'.Valid()
  {
    if r.save && !r.testMode then Record(p, r.event) else p
  }

  /** What a query returns. */
  function Window(p: Pages): seq<Event>
    requires p.Valid()
  {
    if p.full == [] then p.page else p.full[|p.page|..] + p.page
  }

  lemma RecordSlides(p: Pages, e: Event)
    requires p.Valid()
    ensures Window(Record(p, e)) == LastOf(Window(p) + [e], MAXEVENT)
  {
    var w := Window(p) + [e];
    if |p.page| + 1 < MAXEVENT && p.full != [] {
      assert p.full[|p.page|..][1..] == p.full[|p.page| + 1..];
      assert w[1..] == p.full[|p.page|..][1..] + p.page + [e];
    } else if |p.page| + 1 >= MAXEVENT && p.full != [] {
      assert w[1..] == p.page + [e];
    }
  }

  function Run(rs: seq<Report>): (p: Pages)
    ensures p.Valid()
  {
    if rs == [] then Pages([], []) else Handle(Run(rs[..|rs| - 1]), rs[|rs| - 1])
  }

  /** The events of a run that are recorded. */
  function Recorded(rs: seq<Report>): seq<Event> {
    if rs == [] then []
    else
      var r := rs[|rs| - 1];
      Recorded(rs[..|rs| - 1]) + if r.save && !r.testMode then [r.event] else []
  }

  /** After any run of recorded, rejected and test-mode events a query returns exactly
      the last 100 recorded ones, in order. */
  lemma {:induction false} RunWindow(rs: seq<Report>)
    ensures Window(Run(rs)) == LastOf(Recorded(rs), 100)
  {
    if rs != [] {
      var before, r := rs[..|rs| - 1], rs[|rs| - 1];
      RunWindow(before);
      if r.save && !r.testMode {
        RecordSlides(Run(before), r.event);
        LastSlides(Recorded(before), r.event, MAXEVENT);
      } else {
        assert Recorded(rs) == Recorded(before);
      }
    }
  }

  // ----- the code

  class History {
    const evtlist: array<Event>
    const oldEvtlist: array<Event>
    var evtcount: int
    var isOldEvtExist: bool

    ghost predicate Valid()
      reads this
    {
      evtlist.Length == MAXEVENT && oldEvtlist.Length == MAXEVENT && evtlist != oldEvtlist
      && 0 <= evtcount < MAXEVENT
    }

    ghost function View(): (p: Pages)
      requires Valid()
      reads this, evtlist, oldEvtlist
      ensures p.Valid()
    {
      Pages(if isOldEvtExist then oldEvtlist[..] else [], evtlist[..evtcount])
    }

    constructor ()
      ensures Valid() && View() == Pages([], []) && fresh(evtlist) && fresh(oldEvtlist)
    {
      var none := Event(0, 0, 0, 0, 0);
      evtlist := new Event[MAXEVENT](_ => none);
      oldEvtlist := new Event[MAXEVENT](_ => none);
      evtcount, isOldEvtExist := 0, false;
    }

    /** The recording part of newEvent. In test mode the entry is taken back. */
    method NewEvent(e: Event, save: bool, testMode: bool)
      requires Valid()
      modifies this, evtlist, oldEvtlist
      ensures Valid() && View() == Handle(old(View()), Report(e, save, testMode))
    {
      ghost var was := View();
      if save {
        evtlist[evtcount] := e;
        evtcount := evtcount + 1;
        assert evtlist[..evtcount] == was.page + [e];
      }
      if testMode {
        if save {
          evtcount := evtcount - 1;
          assert evtlist[..evtcount] == was.page;
        }
        return;
      }
      if !save {
        return;
      }
      if evtcount >= MAXEVENT {
        CopyPage();
        isOldEvtExist := true;
        evtcount := 0;
      }
    }

    /** memcpy of the page to the old page */
    method CopyPage()
      requires evtlist.Length == oldEvtlist.Length == MAXEVENT && evtlist != oldEvtlist
      modifies oldEvtlist
      ensures oldEvtlist[..] == evtlist[..]
    {
      for i := 0 to MAXEVENT
        invariant oldEvtlist[..i] == evtlist[..i]
      {
        oldEvtlist[i] := evtlist[i];
      }
    }

    /** getevent without a payload */
    method GetEvent() returns (sent: seq<Event>)
      requires Valid()
      ensures sent == Window(View())
    {
      if !isOldEvtExist {
        sent := if evtcount > 0 then evtlist[..evtcount] else [];
      } else {
        var num := MAXEVENT - evtcount;
        var none := Event(0, 0, 0, 0, 0);
        var evtmp := new Event[MAXEVENT](_ => none);
        if num > 0 {
          for i := 0 to num
            invariant evtmp[..i] == oldEvtlist[evtcount..evtcount + i]
          {
            evtmp[i] := oldEvtlist[evtcount + i];
          }
        }
        if evtcount > 0 {
          for i := 0 to evtcount
            invariant evtmp[..num] == oldEvtlist[evtcount..]
            invariant evtmp[num..num + i] == evtlist[..i]
          {
            evtmp[num + i] := evtlist[i];
          }
        }
        sent := evtmp[..];
        assert sent == evtmp[..num] + evtmp[num..num + evtcount];
        assert sent == oldEvtlist[evtcount..] + evtlist[..evtcount];
      }
    }
  }

  /** A run of events, and a query at its end. */
  method Replay(rs: seq<Report>) returns (sent: seq<Event>)
    ensures sent == LastOf(Recorded(rs), 100)
  {
    var h := new History();
    var i := 0;
    while i < |rs|
      invariant 0 <= i <= |rs|
      invariant fresh(h) && fresh(h.evtlist) && fresh(h.oldEvtlist) && h.Valid() && h.View() == Run(rs[..i])
    {
      h.NewEvent(rs[i].event, rs[i].save, rs[i].testMode);
      assert rs[..i + 1][..i] == rs[..i];
      i := i + 1;
    }
    assert rs[..|rs|] == rs;
    sent := h.GetEvent();
    RunWindow(rs);
  }
}
