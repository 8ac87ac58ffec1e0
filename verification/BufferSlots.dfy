/** What the cache of `BufferCache` means slot by slot, and what happens to each imported handle. */
module BufferSlots {
  import opened BufferCache
  import opened Counting

  // ---------------------------------------------------------------- every slot is its own little automaton

  function Resized(r: Lookup, k: Slot, count: nat): Lookup {
    if k.index >= count then BadParameter else if r.Found? then r else Found(0)
  }

  /** What a slot of a display just added answers. */
  function Fresh(k: Slot): Lookup {
    if k.cache.Buffers? || k.cache.SidebandStream? then BadLayer else BadParameter
  }

  /** The next answer of slot `k`, from its own last answer and the event alone. */
  function SlotStep(k: Slot, r: Lookup, e: Event): Lookup {
    match e
    case Import => r
    case Update(j, h) => if j == k && r.Found? then Found(h) else r
    case SetSlotCount(d, n) =>
      if d == k.display && k.cache.ClientTargets? && !r.BadDisplay? then Resized(r, k, n) else r
    case CreateLayer(d, l, n) =>
      if d != k.display || r.BadDisplay? then r
      else if k.cache == Buffers(l) then Resized(r, k, n)
      else if k.cache == SidebandStream(l) then Resized(r, k, 1)
      else r
    case DestroyLayer(d, l) =>
      if d == k.display && !r.BadDisplay? && (k.cache == Buffers(l) || k.cache == SidebandStream(l)) then BadLayer
      else r
    case CreateVirtual(d, n) =>
      if d != k.display then r
      else if k.cache.OutputBuffers? then Resized(r, k, n)
      else if r.BadDisplay? then Fresh(k)
      else r
    case Connect(d) => if d == k.display && r.BadDisplay? then Fresh(k) else r
    case Remove(d) => if d == k.display then BadDisplay else r
    case Teardown => BadDisplay
  }

  lemma PutFind(d: DisplayData, j: Slot, h: nat, k: Slot)
    requires j.display == k.display && FindIn(d, j).Found?
    ensures FindIn(Put(d, j, h), k) == if j == k then Found(h) else FindIn(d, k)
  {
  }

  lemma UpdateSlots(s: State, j: Slot, h: nat, k: Slot)
    ensures Find(Store(s, j, h).displays, k) == SlotStep(k, Find(s.displays, k), Update(j, h))
  {
    if j.display == k.display && Find(s.displays, j).Found? {
      PutFind(s.displays[j.display], j, h, k);
    }
  }

  lemma SetLayerFind(d: DisplayData, l: nat, layer: LayerBuffers, k: Slot)
    ensures FindIn(d.(layers := d.layers[l := layer]), k) ==
      if k.cache == Buffers(l) then Entry(layer.buffers, k.index)
      else if k.cache == SidebandStream(l) then Entry([layer.sideband], k.index)
      else FindIn(d, k)
  {
  }

  lemma ResizedEntry(entries: seq<nat>, n: nat, k: Slot)
    ensures Entry(Resize(entries, n), k.index) == Resized(Entry(entries, k.index), k, n)
  {
  }

  lemma SetDisplayFind(s: State, d: nat, data: DisplayData, cleared: multiset<nat>, k: Slot)
    ensures Find(SetDisplay(s, d, data, cleared).displays, k) ==
      if k.display == d then FindIn(data, k) else Find(s.displays, k)
  {
  }

  lemma AddLayerSlots(s: State, d: nat, l: nat, n: nat, k: Slot)
    ensures Find(AddLayer(s, d, l, n).displays, k) == SlotStep(k, Find(s.displays, k), CreateLayer(d, l, n))
  {
    if d in s.displays {
      var data := s.displays[d];
      var layer := if l in data.layers then data.layers[l] else LayerBuffers([], 0);
      var sized := layer.(buffers := Resize(layer.buffers, n));
      SetDisplayFind(s, d, data.(layers := data.layers[l := sized]), Cut(layer.buffers, n), k);
      SetLayerFind(data, l, sized, k);
      ResizedEntry(layer.buffers, n, k);
    }
  }

  lemma DropLayerSlots(s: State, d: nat, l: nat, k: Slot)
    ensures Find(DropLayer(s, d, l).displays, k) == SlotStep(k, Find(s.displays, k), DestroyLayer(d, l))
  {
    if d in s.displays && l in s.displays[d].layers {
      var data := s.displays[d];
      SetDisplayFind(s, d, data.(layers := data.layers - {l}), LayerHandles(data.layers[l]), k);
    }
  }

  lemma SizeTargetsSlots(s: State, d: nat, n: nat, k: Slot)
    ensures Find(SizeTargets(s, d, n).displays, k) == SlotStep(k, Find(s.displays, k), SetSlotCount(d, n))
  {
  }

  lemma AddVirtualSlots(s: State, d: nat, n: nat, k: Slot)
    ensures Find(AddVirtual(s, d, n).displays, k) == SlotStep(k, Find(s.displays, k), CreateVirtual(d, n))
  {
  }

  /** Nested vectors and maps come to independent slots: no event moves, shares or swaps entries. */
  lemma SlotsIndependent(s: State, e: Event, k: Slot)
    requires Enabled(s, e)
    ensures Find(Step(s, e).displays, k) == SlotStep(k, Find(s.displays, k), e)
  {
    match e
    case Update(j, h) => UpdateSlots(s, j, h, k);
    case SetSlotCount(d, n) => SizeTargetsSlots(s, d, n, k);
    case CreateVirtual(d, n) => AddVirtualSlots(s, d, n, k);
    case CreateLayer(d, l, n) => AddLayerSlots(s, d, l, n, k);
    case DestroyLayer(d, l) => DropLayerSlots(s, d, l, k);
    case Import =>
    case Connect(d) =>
    case Remove(d) =>
    case Teardown =>
  }

  /** The answer of slot `k` after the first `n` events. */
  function SlotAt(k: Slot, r: Lookup, events: seq<Event>, n: nat): Lookup
    requires n <= |events|
  {
    if n == 0 then r else SlotStep(k, SlotAt(k, r, events, n - 1), events[n - 1])
  }

  lemma {:induction false} SlotAtShift(k: Slot, r: Lookup, events: seq<Event>, n: nat)
    requires n < |events|
    ensures SlotAt(k, SlotStep(k, r, events[0]), events[1..], n) == SlotAt(k, r, events, n + 1)
  {
    if n == 0 {
    } else {
      SlotAtShift(k, r, events, n - 1);
    }
  }

  lemma {:induction false} RunSlots(s: State, events: seq<Event>, k: Slot)
    requires ValidRun(s, events)
    ensures Find(Exec(s, events).displays, k) == SlotAt(k, Find(s.displays, k), events, |events|)
    decreases |events|
  {
    if events == [] {
    } else {
      SlotsIndependent(s, events[0], k);
      RunSlots(Step(s, events[0]), events[1..], k);
      SlotAtShift(k, Find(s.displays, k), events, |events| - 1);
    }
  }

  lemma {:induction false} SlotLastUpdate(k: Slot, r: Lookup, events: seq<Event>, n: nat) returns (j: nat)
    requires n <= |events| && !r.Found?
    requires SlotAt(k, r, events, n).Found? && SlotAt(k, r, events, n).handle != 0
    ensures j < n && events[j] == Update(k, SlotAt(k, r, events, n).handle) && SlotAt(k, r, events, j).Found?
    ensures forall i :: j < i < n ==> !(events[i].Update? && events[i].slot == k)
    ensures forall i :: j < i <= n ==> SlotAt(k, r, events, i) == SlotAt(k, r, events, n)
  {
    if events[n - 1].Update? && events[n - 1].slot == k && SlotAt(k, r, events, n - 1).Found? {
      j := n - 1;
    } else {
      assert SlotAt(k, r, events, n - 1) == SlotAt(k, r, events, n);
      j := SlotLastUpdate(k, r, events, n - 1);
    }
  }

  /** A cached lookup answers with the handle of the last successful update of that slot, and the slot has
      existed, untouched, ever since. */
  lemma LookupIsLastUpdate(events: seq<Event>, k: Slot) returns (j: nat)
    requires ValidRun(EMPTY, events)
    requires Find(Exec(EMPTY, events).displays, k).Found? && Find(Exec(EMPTY, events).displays, k).handle != 0
    ensures j < |events| && events[j] == Update(k, Find(Exec(EMPTY, events).displays, k).handle)
    ensures forall i :: j < i < |events| ==> !(events[i].Update? && events[i].slot == k)
    ensures forall i :: j < i <= |events| ==>
      SlotAt(k, BadDisplay, events, i) == Find(Exec(EMPTY, events).displays, k)
  {
    RunSlots(EMPTY, events, k);
    j := SlotLastUpdate(k, BadDisplay, events, |events|);
  }

  // ---------------------------------------------------------------- counting and finding agree

  lemma EntryCount(entries: seq<nat>, i: nat)
    requires i < |entries|
    ensures multiset(entries)[entries[i]] >= 1
  {
    assert entries[i] in entries;
  }

  lemma FoundInDisplay(d: DisplayData, k: Slot)
    requires FindIn(d, k).Found?
    ensures HandleCount(d, FindIn(d, k).handle) >= 1
  {
    var h := FindIn(d, k).handle;
    DisplayCount(d, h);
    match k.cache
    case ClientTargets => EntryCount(d.clientTargets, k.index);
    case OutputBuffers => EntryCount(d.outputBuffers, k.index);
    case Buffers(l) =>
      EntryCount(d.layers[l].buffers, k.index);
      CountDrop(d.layers, LayerHandles, l, h);
    case SidebandStream(l) =>
      CountDrop(d.layers, LayerHandles, l, h);
  }

  lemma FoundIsCounted(s: State, k: Slot)
    requires Find(s.displays, k).Found?
    ensures Count(s.displays, DisplayHandles, Find(s.displays, k).handle) >= 1
  {
    FoundInDisplay(s.displays[k.display], k);
    CountDrop(s.displays, DisplayHandles, k.display, Find(s.displays, k).handle);
  }

  lemma EmptyCount<V>(m: map<nat, V>, f: V -> multiset<nat>, h: nat)
    requires m == map[]
    ensures Count(m, f, h) == 0
  {
    assert Table(m, f) == map[];
  }

  lemma {:induction false} CountWhere<V>(m: map<nat, V>, f: V -> multiset<nat>, h: nat) returns (k: nat)
    requires Count(m, f, h) >= 1
    ensures k in m && f(m[k])[h] >= 1
    decreases |m|
  {
    assert m != map[] by {
      EmptyCount(map[], f, h);
    }
    k :| k in m;
    CountDrop(m, f, k, h);
    if f(m[k])[h] == 0 {
      k := CountWhere(m - {k}, f, h);
    }
  }

  lemma EntryWhere(entries: seq<nat>, h: nat) returns (i: nat)
    requires multiset(entries)[h] >= 1
    ensures i < |entries| && entries[i] == h
  {
    assert h in entries;
    i :| 0 <= i < |entries| && entries[i] == h;
  }

  lemma LayerWhere(layers: map<nat, LayerBuffers>, h: nat) returns (l: nat)
    requires Count(layers, LayerHandles, h) >= 1
    ensures l in layers && (layers[l].sideband == h || multiset(layers[l].buffers)[h] >= 1)
  {
    l := CountWhere(layers, LayerHandles, h);
  }

  lemma CountedIsFound(s: State, h: nat) returns (k: Slot)
    requires Count(s.displays, DisplayHandles, h) >= 1
    ensures Find(s.displays, k) == Found(h)
  {
    var d := CountWhere(s.displays, DisplayHandles, h);
    DisplayCount(s.displays[d], h);
    k := DisplayWhere(s, d, h);
  }

  lemma DisplayWhere(s: State, d: nat, h: nat) returns (k: Slot)
    requires d in s.displays
    requires multiset(s.displays[d].clientTargets)[h] + multiset(s.displays[d].outputBuffers)[h] +
             Count(s.displays[d].layers, LayerHandles, h) >= 1
    ensures Find(s.displays, k) == Found(h)
  {
    var i, l;
    var data := s.displays[d];
    if multiset(data.clientTargets)[h] >= 1 {
      i := EntryWhere(data.clientTargets, h);
      k := Slot(d, ClientTargets, i);
    } else if multiset(data.outputBuffers)[h] >= 1 {
      i := EntryWhere(data.outputBuffers, h);
      k := Slot(d, OutputBuffers, i);
    } else {
      l := LayerWhere(data.layers, h);
      if data.layers[l].sideband == h {
        k := Slot(d, SidebandStream(l), 0);
      } else {
        i := EntryWhere(data.layers[l].buffers, h);
        k := Slot(d, Buffers(l), i);
      }
    }
  }

  // ---------------------------------------------------------------- ownership

  ghost predicate AllAccounted(s: State) {
    forall h :: h > 0 ==> Accounted(s, h)
  }

  predicate Holds(s: State, k: Slot, h: nat) {
    Find(s.displays, k) == Found(h)
  }

  /** No two slots hold the same handle. */
  ghost predicate Distinct(s: State) {
    forall j, k, h :: h > 0 && Holds(s, j, h) && Holds(s, k, h) ==> j == k
  }

  lemma NewHolder(s: State, e: Event, k: Slot, h: nat)
    requires Enabled(s, e) && AllAccounted(s) && h > 0 && Holds(Step(s, e), k, h)
    ensures Holds(s, k, h) || (e == Update(k, h) && Find(s.displays, k).Found? && forall j :: !Holds(s, j, h))
  {
    SlotsIndependent(s, e, k);
    if !Holds(s, k, h) {
      SlotGains(k, Find(s.displays, k), e, h);
      assert Accounted(s, h);
      InFlightUnheld(s, h);
    }
  }

  /** A slot comes to a handle only by an update of it. */
  lemma SlotGains(k: Slot, r: Lookup, e: Event, h: nat)
    requires h > 0 && SlotStep(k, r, e) == Found(h) && r != Found(h)
    ensures e == Update(k, h) && r.Found?
  {
  }

  lemma InFlightUnheld(s: State, h: nat)
    requires Accounted(s, h) && h in s.inFlight
    ensures forall j :: !Holds(s, j, h)
  {
    forall j ensures !Holds(s, j, h) {
      if Holds(s, j, h) {
        FoundIsCounted(s, j);
      }
    }
  }

  lemma StepDistinct(s: State, e: Event)
    requires Enabled(s, e) && AllAccounted(s) && Distinct(s)
    ensures Distinct(Step(s, e))
  {
    var t := Step(s, e);
    forall j, k, h | h > 0 && Holds(t, j, h) && Holds(t, k, h) ensures j == k {
      NewHolder(s, e, j, h);
      NewHolder(s, e, k, h);
    }
  }

  lemma StepAccountsAll(s: State, e: Event)
    requires Enabled(s, e) && AllAccounted(s)
    ensures AllAccounted(Step(s, e))
  {
    forall h | h > 0 ensures Accounted(Step(s, e), h) {
      assert Accounted(s, h);
      StepAccounts(s, e, h);
    }
  }

  lemma {:induction false} RunOwns(s: State, events: seq<Event>)
    requires ValidRun(s, events) && AllAccounted(s) && Distinct(s)
    ensures AllAccounted(Exec(s, events)) && Distinct(Exec(s, events))
    decreases |events|
  {
    if events == [] {
    } else {
      StepAccountsAll(s, events[0]);
      StepDistinct(s, events[0]);
      RunOwns(Step(s, events[0]), events[1..]);
    }
  }

  lemma EmptyAccounted()
    ensures AllAccounted(EMPTY) && Distinct(EMPTY)
  {
    forall h | h > 0 ensures Accounted(EMPTY, h) {
      assert Table(EMPTY.displays, DisplayHandles) == map[];
    }
  }

  /** In every reachable state a cached handle is in one slot only, has been imported, is not freed and not
      leaked; and no handle is ever freed twice. */
  lemma CachedHandlesOwned(events: seq<Event>, j: Slot, k: Slot, h: nat)
    requires ValidRun(EMPTY, events) && h > 0
    ensures var s := Exec(EMPTY, events);
      && s.cleared[h] <= 1
      && (Holds(s, j, h) && Holds(s, k, h) ==> j == k)
      && (Holds(s, k, h) ==> h < s.next && s.cleared[h] == 0 && h !in s.leaked && h !in s.inFlight)
  {
    EmptyAccounted();
    RunOwns(EMPTY, events);
    var s := Exec(EMPTY, events);
    assert Accounted(s, h);
    if Holds(s, k, h) {
      FoundIsCounted(s, k);
    }
  }

  predicate Loses(s: State, e: Event, k: Slot, h: nat)
    requires Enabled(s, e)
  {
    Holds(s, k, h) && !Holds(Step(s, e), k, h)
  }

  lemma StillHeld(s: State, e: Event, k: Slot, h: nat)
    requires Enabled(s, e) && AllAccounted(s) && h > 0 && Holds(s, k, h) && Holds(Step(s, e), k, h)
    ensures Step(s, e).cleared[h] == s.cleared[h] == 0
  {
    assert Accounted(s, h);
    StepAccounts(s, e, h);
    FoundIsCounted(s, k);
    FoundIsCounted(Step(s, e), k);
  }

  lemma LostIsFreed(s: State, e: Event, k: Slot, h: nat)
    requires Enabled(s, e) && AllAccounted(s) && Distinct(s) && h > 0 && Loses(s, e, k, h)
    ensures s.cleared[h] == 0 && Step(s, e).cleared[h] == 1
  {
    var t := Step(s, e);
    assert Accounted(s, h);
    FoundIsCounted(s, k);
    StepSeen(s, e, h);
    if Count(t.displays, DisplayHandles, h) >= 1 {
      var j := CountedIsFound(t, h);
      assert Holds(t, j, h);
      NewHolder(s, e, j, h);
    }
  }

  lemma UnheldNotFreed(s: State, e: Event, h: nat)
    requires Enabled(s, e) && AllAccounted(s) && h > 0 && forall k :: !Holds(s, k, h)
    ensures Step(s, e).cleared[h] == s.cleared[h]
  {
    var t := Step(s, e);
    assert Accounted(s, h);
    StepSeen(s, e, h);
    if Count(s.displays, DisplayHandles, h) >= 1 {
      var j := CountedIsFound(s, h);
      assert Holds(s, j, h);
    }
    if e.Update? && e.handle == h && Find(s.displays, e.slot).Found? {
      SlotsIndependent(s, e, e.slot);
      FoundIsCounted(t, e.slot);
      StepAccounts(s, e, h);
    } else if Count(t.displays, DisplayHandles, h) >= 1 {
      var j := CountedIsFound(t, h);
      NewHolder(s, e, j, h);
    }
  }

  /** Whatever the event - overwriting, growing, shrinking, destroying a layer or a display, teardown - a
      handle is freed by it exactly when a slot stops holding it: growth frees nothing, shrinking frees
      exactly the slots cut off. */
  lemma FreedExactlyWhenLost(s: State, e: Event, h: nat)
    requires Enabled(s, e) && AllAccounted(s) && Distinct(s) && h > 0
    ensures Step(s, e).cleared[h] == s.cleared[h] + One(exists k :: Loses(s, e, k, h))
  {
    if k :| Holds(s, k, h) {
      if Loses(s, e, k, h) {
        LostIsFreed(s, e, k, h);
      } else {
        StillHeld(s, e, k, h);
        assert forall j :: Holds(s, j, h) ==> j == k;
      }
    } else {
      UnheldNotFreed(s, e, h);
    }
  }

  // ---------------------------------------------------------------- leaks

  /** Some update of `h` in the run names a slot that does not exist at that moment. */
  predicate MissesSlot(s: State, events: seq<Event>, h: nat)
    requires ValidRun(s, events)
    decreases |events|
  {
    events != [] &&
    ((events[0].Update? && events[0].handle == h && !Find(s.displays, events[0].slot).Found?) ||
     MissesSlot(Step(s, events[0]), events[1..], h))
  }

  lemma {:induction false} LeakedIffMissed(s: State, events: seq<Event>, h: nat)
    requires ValidRun(s, events) && h > 0
    ensures h in Exec(s, events).leaked <==> h in s.leaked || MissesSlot(s, events, h)
    decreases |events|
  {
    if events == [] {
    } else {
      LeakedIffMissed(Step(s, events[0]), events[1..], h);
    }
  }

  /** Once the client is gone and no command is under way, every handle it ever imported has been freed
      exactly once, if and only if no update of it came to a slot that did not exist. */
  lemma FreedAfterTeardownIff(events: seq<Event>, h: nat)
    requires ValidRun(EMPTY, events) && 0 < h < Exec(EMPTY, events).next && h !in Exec(EMPTY, events).inFlight
    ensures Step(Exec(EMPTY, events), Teardown).cleared[h] == One(!MissesSlot(EMPTY, events, h))
  {
    EmptyAccounted();
    RunOwns(EMPTY, events);
    LeakedIffMissed(EMPTY, events, h);
    var s := Exec(EMPTY, events);
    assert Accounted(s, h);
    StepAccounts(s, Teardown, h);
    var none: Displays := map[];
    assert Table(none, DisplayHandles) == map[];
  }

  /** Such a run: the display is gone when the imported buffer is to be remembered. */
  lemma UpdateAfterRemovalLeaks()
    ensures var events := [Connect(1), SetSlotCount(1, 1), Remove(1), Import, Update(Slot(1, ClientTargets, 0), 1)];
      && ValidRun(EMPTY, events) && MissesSlot(EMPTY, events, 1)
      && 1 in Exec(EMPTY, events).leaked && Exec(EMPTY, events).cleared[1] == 0
  {
    var update := [Update(Slot(1, ClientTargets, 0), 1)];
    var events := [Connect(1), SetSlotCount(1, 1), Remove(1), Import] + update;
    var connected := Step(EMPTY, Connect(1));
    var sized := Step(connected, SetSlotCount(1, 1));
    var removed := Step(sized, Remove(1));
    RemovedGone(connected, sized, removed);
    var imported := Step(removed, Import);
    assert update[1..] == [];
    assert ValidRun(imported, update) && MissesSlot(imported, update, 1);
    assert Exec(imported, update) == Store(imported, Slot(1, ClientTargets, 0), 1);
    RunCons(removed, Import, update, 1);
    RunCons(sized, Remove(1), [Import] + update, 1);
    RunCons(connected, SetSlotCount(1, 1), [Remove(1)] + ([Import] + update), 1);
    RunCons(EMPTY, Connect(1), [SetSlotCount(1, 1)] + ([Remove(1)] + ([Import] + update)), 1);
    assert events == [Connect(1)] + ([SetSlotCount(1, 1)] + ([Remove(1)] + ([Import] + update)));
  }

  lemma RemovedGone(connected: State, sized: State, removed: State)
    requires connected == Step(EMPTY, Connect(1)) && sized == Step(connected, SetSlotCount(1, 1))
    requires removed == Step(sized, Remove(1))
    ensures removed.displays == map[] && removed.next == 1 && removed.inFlight == {} && removed.leaked == {}
    ensures removed.cleared[1] == 0
  {
    RemovedLeavesNothing(connected, sized);
    EmptyAccounted();
    assert Accounted(EMPTY, 1);
    StepAccounts(EMPTY, Connect(1), 1);
    StepAccounts(connected, SetSlotCount(1, 1), 1);
    StepAccounts(sized, Remove(1), 1);
  }

  lemma RemovedLeavesNothing(connected: State, sized: State)
    requires connected == Step(EMPTY, Connect(1)) && sized == Step(connected, SetSlotCount(1, 1))
    ensures var removed := Step(sized, Remove(1));
      removed.displays == map[] && removed.next == 1 && removed.inFlight == {} && removed.leaked == {}
  {
    assert sized.displays.Keys == {1};
  }

  lemma RunCons(s: State, e: Event, rest: seq<Event>, h: nat)
    requires Enabled(s, e) && ValidRun(Step(s, e), rest)
    ensures ValidRun(s, [e] + rest) && Exec(s, [e] + rest) == Exec(Step(s, e), rest)
    ensures MissesSlot(Step(s, e), rest, h) ==> MissesSlot(s, [e] + rest, h)
  {
    assert ([e] + rest)[1..] == rest;
  }
}
