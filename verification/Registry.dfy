/**
 The registry of the gateway and deleteDev, which takes a device out of every list
 that can name it.
 */
module Registry {
  import opened SwapList

  /** A device, siren or schedule record; `data` stands for its other fields. */
  datatype Entry = Entry(did: int, data: int)

  datatype Scenario = Scenario(did: int, data: int, targets: seq<Entry>)

  datatype Zone = Zone(data: int, dids: seq<int>)

  const ENTRY_KEY := (e: Entry) => e.did
  const SCENARIO_KEY := (s: Scenario) => s.did
  const ID_KEY := (d: int) => d

  /** s with the entries of an id taken out of a list; their order may change. */
  ghost predicate Cleaned<T(!new)>(s: seq<T>, t: seq<T>, key: T -> int, id: int) {
    Gone(t, key, id) && Conserves(s, t, key, id)
  }

  ghost predicate ScenarioCleaned(s: Scenario, t: Scenario, id: int) {
    t.did == s.did && t.data == s.data && Cleaned(s.targets, t.targets, ENTRY_KEY, id)
  }

  /** The scenarios of other sources are kept, each without the id among its targets. */
  ghost predicate ScenariosCleaned(s: seq<Scenario>, t: seq<Scenario>, id: int) {
    exists kept: seq<Scenario> ::
      && Cleaned(s, kept, SCENARIO_KEY, id) && |kept| == |t|
      && forall x :: 0 <= x < |t| ==> ScenarioCleaned(kept[x], t[x], id)
  }

  ghost predicate ZonesCleaned(s: seq<Zone>, t: seq<Zone>, id: int) {
    && |s| == |t|
    && forall x :: 0 <= x < |t| ==> t[x].data == s[x].data && Cleaned(s[x].dids, t[x].dids, ID_KEY, id)
  }

  /** The loop over the targets of one scenario, and over the devices of one hotkey:
      it starts over after each entry removed. */
  method RemoveAll<T(!new)>(list: seq<T>, key: T -> int, id: int) returns (r: seq<T>)
    ensures Cleaned(list, r, key, id)
  {
    r := list;
    var y := 0;
    while y < |r|
      invariant 0 <= y <= |r| && Conserves(list, r, key, id)
      invariant forall i :: 0 <= i < y ==> key(r[i]) != id
      decreases |r|, |r| - y
    {
      if key(r[y]) == id {
        SwapRemoveConserves(r, y, key, id);
        ConservesTransitive(list, r, SwapRemove(r, y), key, id);
        r := SwapRemove(r, y);
        y := 0;
      } else {
        y := y + 1;
      }
    }
  }

  /** The last entry in use is copied over entry x. */
  method MoveLast<T>(list: array<T>, count: nat, x: nat) returns (count': nat)
    requires x < count <= list.Length
    modifies list
    ensures count' == count - 1 && list[..count'] == SwapRemove(old(list[..count]), x)
  {
    if count - 1 != x {
      list[x] := list[count - 1];
    }
    count' := count - 1;
  }

  class Gateway {
    const devlist: array<Entry>
    var devcount: nat
    const scenariolist: array<Scenario>
    var srcCount: nat
    const sirenlist: array<Entry>
    var sirencount: nat
    const paProplist: array<Entry>
    var paCount: nat
    const zonelist: array<Zone>
    var zoneCount: nat

    ghost predicate Valid()
      reads this
    {
      && devcount <= devlist.Length && srcCount <= scenariolist.Length && sirencount <= sirenlist.Length
      && paCount <= paProplist.Length && zoneCount <= zonelist.Length
      && devlist != sirenlist && devlist != paProplist && sirenlist != paProplist
    }

    function Devices(): seq<Entry>
      requires Valid()
      reads this, devlist
    {
      devlist[..devcount]
    }

    function Scenarios(): seq<Scenario>
      requires Valid()
      reads this, scenariolist
    {
      scenariolist[..srcCount]
    }

    function Sirens(): seq<Entry>
      requires Valid()
      reads this, sirenlist
    {
      sirenlist[..sirencount]
    }

    function Schedules(): seq<Entry>
      requires Valid()
      reads this, paProplist
    {
      paProplist[..paCount]
    }

    function Zones(): seq<Zone>
      requires Valid()
      reads this, zonelist
    {
      zonelist[..zoneCount]
    }

    method IsDevRegister(id: int) returns (r: bool)
      requires Valid()
      ensures r <==> !Gone(Devices(), ENTRY_KEY, id)
    {
      for x := 0 to devcount
        invariant forall i :: 0 <= i < x ==> ENTRY_KEY(Devices()[i]) != id
      {
        if devlist[x].did == id {
          assert ENTRY_KEY(Devices()[x]) == id;
          return true;
        }
      }
      r := false;
    }

    method DeleteDevice(id: int) returns (found: bool)
      requires Valid()
      modifies this`devcount, devlist
      ensures Valid() && found == !Gone(old(Devices()), ENTRY_KEY, id)
      ensures Devices() == RemoveFirst(old(Devices()), ENTRY_KEY, id, 0)
    {
      ghost var was := Devices();
      var x := 0;
      while x < devcount
        invariant x <= devcount && Valid() && Devices() == was
        invariant forall i :: 0 <= i < x ==> ENTRY_KEY(was[i]) != id
        invariant RemoveFirst(was, ENTRY_KEY, id, 0) == RemoveFirst(was, ENTRY_KEY, id, x)
        decreases devcount - x
      {
        assert devlist[x] == was[x];
        if devlist[x].did == id {
          devcount := MoveLast(devlist, devcount, x);
          return true;
        }
        x := x + 1;
      }
      found := false;
    }

    method DeleteScenarios(id: int)
      requires Valid()
      modifies this`srcCount, scenariolist
      ensures Valid() && Cleaned(old(Scenarios()), Scenarios(), SCENARIO_KEY, id)
    {
      ghost var was := Scenarios();
      var x := 0;
      while x < srcCount
        invariant x <= srcCount && Valid() && Conserves(was, Scenarios(), SCENARIO_KEY, id)
        invariant forall i :: 0 <= i < x ==> SCENARIO_KEY(Scenarios()[i]) != id
        decreases srcCount, srcCount - x
      {
        ghost var s := Scenarios();
        assert scenariolist[x] == s[x];
        if scenariolist[x].did == id {
          SwapRemoveConserves(s, x, SCENARIO_KEY, id);
          ConservesTransitive(was, s, SwapRemove(s, x), SCENARIO_KEY, id);
          srcCount := MoveLast(scenariolist, srcCount, x);
          x := 0;
        } else {
          x := x + 1;
        }
      }
    }

    method DeleteTargets(id: int)
      requires Valid()
      modifies scenariolist
      ensures Valid() && |Scenarios()| == |old(Scenarios())|
      ensures forall x :: 0 <= x < srcCount ==> ScenarioCleaned(old(Scenarios())[x], Scenarios()[x], id)
    {
      ghost var was := Scenarios();
      var x := 0;
      while x < srcCount
        invariant x <= srcCount
        invariant forall i :: 0 <= i < x ==> ScenarioCleaned(was[i], scenariolist[i], id)
        invariant forall i :: x <= i < srcCount ==> scenariolist[i] == was[i]
        decreases srcCount - x
      {
        var targets := RemoveAll(scenariolist[x].targets, ENTRY_KEY, id);
        scenariolist[x] := scenariolist[x].(targets := targets);
        x := x + 1;
      }
    }

    method DeleteSirens(id: int)
      requires Valid()
      modifies this`sirencount, sirenlist
      ensures Valid() && Sirens() == Pass(old(Sirens()), ENTRY_KEY, id, 0)
    {
      ghost var was := Sirens();
      var x := 0;
      while x < sirencount
        invariant x <= sirencount + 1 && Valid()
        invariant Pass(was, ENTRY_KEY, id, 0) == if x <= sirencount then Pass(Sirens(), ENTRY_KEY, id, x) else Sirens()
        decreases sirencount - x
      {
        ghost var s := Sirens();
        assert sirenlist[x] == s[x];
        if sirenlist[x].did == id {
          sirencount := MoveLast(sirenlist, sirencount, x);
        }
        x := x + 1;
      }
    }

    method DeleteSchedules(id: int)
      requires Valid()
      modifies this`paCount, paProplist
      ensures Valid() && Schedules() == Pass(old(Schedules()), ENTRY_KEY, id, 0)
    {
      ghost var was := Schedules();
      var x := 0;
      while x < paCount
        invariant x <= paCount + 1 && Valid()
        invariant Pass(was, ENTRY_KEY, id, 0) ==
                  if x <= paCount then Pass(Schedules(), ENTRY_KEY, id, x) else Schedules()
        decreases paCount - x
      {
        ghost var s := Schedules();
        assert paProplist[x] == s[x];
        if paProplist[x].did == id {
          paCount := MoveLast(paProplist, paCount, x);
        }
        x := x + 1;
      }
    }

    method DeleteHotkeys(id: int)
      requires Valid()
      modifies zonelist
      ensures Valid() && ZonesCleaned(old(Zones()), Zones(), id)
    {
      ghost var was := Zones();
      var x := 0;
      while x < zoneCount
        invariant x <= zoneCount
        invariant forall i :: 0 <= i < x ==>
                                zonelist[i].data == was[i].data && Cleaned(was[i].dids, zonelist[i].dids, ID_KEY, id)
        invariant forall i :: x <= i < zoneCount ==> zonelist[i] == was[i]
        decreases zoneCount - x
      {
        var dids := RemoveAll(zonelist[x].dids, ID_KEY, id);
        zonelist[x] := zonelist[x].(dids := dids);
        x := x + 1;
      }
    }

    /** Afterwards the id names no scenario source, target or hotkey device, and no
        device, siren or schedule unless it named more than one before: a second
        device of that id stays, and so does a siren or schedule that the single
        pass skips. All other entries are conserved. */
    method DeleteDev(id: int) returns (found: bool)
      requires Valid()
      modifies this, devlist, scenariolist, sirenlist, paProplist, zonelist
      ensures Valid() && found == !Gone(old(Devices()), ENTRY_KEY, id)
      ensures Conserves(old(Devices()), Devices(), ENTRY_KEY, id)
      ensures Gone(Devices(), ENTRY_KEY, id) <==> Matches(old(Devices()), ENTRY_KEY, id, 0, |old(Devices())|) <= 1
      ensures ScenariosCleaned(old(Scenarios()), Scenarios(), id)
      ensures Gone(Scenarios(), SCENARIO_KEY, id)
      ensures Conserves(old(Sirens()), Sirens(), ENTRY_KEY, id)
      ensures Gone(Sirens(), ENTRY_KEY, id) <==> !Skipped(old(Sirens()), ENTRY_KEY, id, 0)
      ensures Conserves(old(Schedules()), Schedules(), ENTRY_KEY, id)
      ensures Gone(Schedules(), ENTRY_KEY, id) <==> !Skipped(old(Schedules()), ENTRY_KEY, id, 0)
      ensures ZonesCleaned(old(Zones()), Zones(), id)
    {
      hide Conserves, Gone, Matches, Skipped, Pass, RemoveFirst, ScenarioCleaned, ZonesCleaned;
      RemoveFirstGone(Devices(), ENTRY_KEY, id, 0);
      PassGone(Sirens(), ENTRY_KEY, id, 0);
      PassGone(Schedules(), ENTRY_KEY, id, 0);
      found := DeleteDevice(id);
      DeleteScenarios(id);
      ghost var kept := Scenarios();
      DeleteTargets(id);
      DeleteSirens(id);
      DeleteSchedules(id);
      DeleteHotkeys(id);
      SourcesGone(kept, Scenarios(), id);
    }
  }

  lemma SourcesGone(kept: seq<Scenario>, t: seq<Scenario>, id: int)
    requires Gone(kept, SCENARIO_KEY, id) && |kept| == |t|
    requires forall x :: 0 <= x < |t| ==> ScenarioCleaned(kept[x], t[x], id)
    ensures Gone(t, SCENARIO_KEY, id)
  {
    forall x | 0 <= x < |t| ensures SCENARIO_KEY(t[x]) != id {
      assert ScenarioCleaned(kept[x], t[x], id);
    }
  }

  predicate DistinctIds(s: seq<Entry>) {
    forall i, j :: 0 <= i < j < |s| ==> s[i].did != s[j].did
  }

  /** With distinct ids in the lists of devices, sirens and schedules, the id is gone
      from everywhere, and the device is no longer registered. */
  method DeleteFromDistinct(g: Gateway, id: int) returns (found: bool, registered: bool)
    requires g.Valid() && DistinctIds(g.Devices()) && DistinctIds(g.Sirens()) && DistinctIds(g.Schedules())
    modifies g, g.devlist, g.scenariolist, g.sirenlist, g.paProplist, g.zonelist
    ensures g.Valid() && Cleaned(old(g.Devices()), g.Devices(), ENTRY_KEY, id)
    ensures ScenariosCleaned(old(g.Scenarios()), g.Scenarios(), id) && Gone(g.Scenarios(), SCENARIO_KEY, id)
    ensures Cleaned(old(g.Sirens()), g.Sirens(), ENTRY_KEY, id)
            && Cleaned(old(g.Schedules()), g.Schedules(), ENTRY_KEY, id)
    ensures ZonesCleaned(old(g.Zones()), g.Zones(), id)
    ensures found == !Gone(old(g.Devices()), ENTRY_KEY, id) && !registered
  {
    DistinctNotSkipped(g.Devices(), ENTRY_KEY, id);
    DistinctNotSkipped(g.Sirens(), ENTRY_KEY, id);
    DistinctNotSkipped(g.Schedules(), ENTRY_KEY, id);
    found := g.DeleteDev(id);
    registered := g.IsDevRegister(id);
  }
}
