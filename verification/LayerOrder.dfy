/** What moving, adding and removing layers does to the stack of `LayerStack`, and when its table lets
    the driver down. */
module LayerOrder {
  import opened LayerStack

  // ---------------------------------------------------------------- relative order

  /** What is known of a layer that is on the display. */
  function Get(s: State, id: nat): Layer
    requires IndexOf(s.layers, id) < |s.layers|
  {
    s.layers[IndexOf(s.layers, id)]
  }

  predicate OnDisplay(s: State, id: nat) {
    IndexOf(s.layers, id) < |s.layers|
  }

  /** The stack position of layers is their z and arrival order, nothing else. */
  lemma PositionIsOrder(s: State, a: nat, b: nat)
    requires Inv(s) && OnDisplay(s, a) && OnDisplay(s, b)
    ensures IndexOf(s.layers, a) < IndexOf(s.layers, b) <==> Before(Get(s, a), Get(s, b))
  {
    var i, j := IndexOf(s.layers, a), IndexOf(s.layers, b);
    if j < i {
      assert Before(s.layers[j], s.layers[i]);
    }
  }

  lemma RemoveGet(layers: seq<Layer>, i: nat, id: nat)
    requires i < |layers| && DistinctIds(layers) && IndexOf(layers, id) < |layers| && id != layers[i].id
    ensures IndexOf(RemoveAt(layers, i), id) < |layers| - 1
    ensures RemoveAt(layers, i)[IndexOf(RemoveAt(layers, i), id)] == layers[IndexOf(layers, id)]
  {
    RemoveIndex(layers, i, id);
    var r := RemoveAt(layers, i);
    var k := IndexOf(r, id);
    IndexUnique(layers, if k < i then k else k + 1);
  }

  lemma InsertGet(layers: seq<Layer>, layer: Layer, id: nat)
    requires DistinctIds(layers) && IndexOf(layers, id) < |layers| && IndexOf(layers, layer.id) == |layers|
    ensures IndexOf(Insert(layers, layer), id) < |layers| + 1
    ensures Insert(layers, layer)[IndexOf(Insert(layers, layer), id)] == layers[IndexOf(layers, id)]
  {
    InsertIndex(layers, layer, id);
    var p, r := UpperBound(layers, layer.z, 0), Insert(layers, layer);
    var k := IndexOf(r, id);
    IndexUnique(layers, if k < p then k else k - 1);
  }

  lemma InsertedGet(layers: seq<Layer>, layer: Layer)
    requires DistinctIds(layers) && IndexOf(layers, layer.id) == |layers|
    ensures IndexOf(Insert(layers, layer), layer.id) == UpperBound(layers, layer.z, 0)
  {
    InsertDistinct(layers, layer);
    IndexUnique(Insert(layers, layer), UpperBound(layers, layer.z, 0));
  }

  /** An event that leaves layer `id` where it is. */
  predicate LeavesAlone(e: Event, id: nat) {
    !(e.Destroy? && e.id == id) && !(e.SetZ? && e.id == id)
  }

  lemma OthersKeptSetZ(s: State, moved: nat, z: nat, id: nat)
    requires Inv(s) && OnDisplay(s, id) && id != moved
    ensures OnDisplay(SetLayerZOrder(s, moved, z), id) && Get(SetLayerZOrder(s, moved, z), id) == Get(s, id)
  {
    var i := IndexOf(s.layers, moved);
    if Live(s, moved) && s.layers[i].z != z {
      RemoveKeeps(s.layers, i, s.clock);
      RemoveGet(s.layers, i, id);
      InsertGet(RemoveAt(s.layers, i), s.layers[i].(z := z, since := s.clock), id);
    }
  }

  lemma OthersKeptDestroy(s: State, gone: nat, id: nat)
    requires Inv(s) && OnDisplay(s, id) && id != gone
    ensures OnDisplay(DestroyLayer(s, gone), id) && Get(DestroyLayer(s, gone), id) == Get(s, id)
  {
    if Live(s, gone) {
      RemoveGet(s.layers, IndexOf(s.layers, gone), id);
    }
  }

  lemma OthersKeptCreate(s: State, id: nat)
    requires Inv(s) && OnDisplay(s, id)
    ensures OnDisplay(CreateLayer(s), id) && Get(CreateLayer(s), id) == Get(s, id)
  {
    assert IndexOf(s.layers, s.nextId) == |s.layers|;
    InsertGet(s.layers, NewLayer(s.nextId, s.clock), id);
  }

  /** Where a layer stands among the others. */
  predicate SamePlace(a: Layer, b: Layer) {
    a.id == b.id && a.z == b.z && a.since == b.since
  }

  lemma SamePlacesGet(s: State, t: State, id: nat)
    requires SamePlaces(s.layers, t.layers) && OnDisplay(s, id)
    ensures OnDisplay(t, id) && SamePlace(Get(t, id), Get(s, id))
  {
    SamePlacesIndex(s.layers, t.layers, id);
  }

  lemma InPlace(s: State, e: Event)
    requires !e.Create? && !e.Destroy? && !e.SetZ?
    ensures SamePlaces(s.layers, Step(s, e).layers)
  {
  }

  lemma PlaceKept(s: State, e: Event, id: nat)
    requires Inv(s) && OnDisplay(s, id) && LeavesAlone(e, id)
    ensures OnDisplay(Step(s, e), id) && SamePlace(Get(Step(s, e), id), Get(s, id))
  {
    if e.Create? {
      OthersKeptCreate(s, id);
    } else if e.Destroy? {
      OthersKeptDestroy(s, e.id, id);
    } else if e.SetZ? {
      OthersKeptSetZ(s, e.id, e.z, id);
    } else {
      InPlace(s, e);
      SamePlacesGet(s, Step(s, e), id);
    }
  }

  lemma {:induction false} RunPlaceKept(s: State, events: seq<Event>, id: nat)
    requires Inv(s) && OnDisplay(s, id) && forall i :: 0 <= i < |events| ==> LeavesAlone(events[i], id)
    ensures OnDisplay(Exec(s, events), id) && SamePlace(Get(Exec(s, events), id), Get(s, id))
    decreases |events|
  {
    if events == [] || s.fault {
    } else {
      assert LeavesAlone(events[0], id);
      StepKeeps(s, events[0]);
      PlaceKept(s, events[0], id);
      RunPlaceKept(Step(s, events[0]), events[1..], id);
    }
  }

  /** Whatever is done to other layers - created, moved, destroyed, validated, accepted, any number of
      times - two layers left alone keep their order. */
  lemma RelativeOrderKept(s: State, events: seq<Event>, a: nat, b: nat)
    requires Inv(s) && OnDisplay(s, a) && OnDisplay(s, b)
    requires forall i :: 0 <= i < |events| ==> LeavesAlone(events[i], a) && LeavesAlone(events[i], b)
    ensures var t := Exec(s, events);
      && OnDisplay(t, a) && OnDisplay(t, b)
      && (IndexOf(t.layers, a) < IndexOf(t.layers, b) <==> IndexOf(s.layers, a) < IndexOf(s.layers, b))
  {
    RunKeeps(s, events);
    RunPlaceKept(s, events, a);
    RunPlaceKept(s, events, b);
    PositionIsOrder(s, a, b);
    PositionIsOrder(Exec(s, events), a, b);
  }

  /** A layer given a new z lands above every layer of that z or less and below every layer of more. */
  lemma MovedLastAmongEquals(s: State, id: nat, z: nat, other: nat)
    requires Inv(s) && OnDisplay(s, id) && Get(s, id).z != z && OnDisplay(s, other) && other != id
    ensures var t := SetLayerZOrder(s, id, z);
      && OnDisplay(t, id) && Get(t, id).z == z && OnDisplay(t, other)
      && (IndexOf(t.layers, other) < IndexOf(t.layers, id) <==> Get(s, other).z <= z)
  {
    var t, i := SetLayerZOrder(s, id, z), IndexOf(s.layers, id);
    RemoveKeeps(s.layers, i, s.clock);
    InsertedGet(RemoveAt(s.layers, i), s.layers[i].(z := z, since := s.clock));
    OthersKeptSetZ(s, id, z, other);
    SetZKeeps(s, id, z);
    PositionIsOrder(t, other, id);
  }

  // ---------------------------------------------------------------- null entries

  /** A null entry comes to be exactly by accepting a change for a layer that has been destroyed since it
      was validated. */
  lemma NullEntryIff(s: State, e: Event, id: nat)
    requires Inv(s) && !(id in s.table && !s.table[id])
    ensures (id in Step(s, e).table && !Step(s, e).table[id]) <==>
      e.Accept? && s.layers != [] && s.validated && id in s.changes && id !in s.table
  {
    if !e.Accept? {
      TableStep(s, e, id);
    }
  }

  lemma TableStep(s: State, e: Event, id: nat)
    requires !e.Accept?
    ensures id in Step(s, e).table ==> Step(s, e).table[id] || (id in s.table && !s.table[id])
  {
  }

  /** Destroying or moving a layer compares a null pointer exactly when that layer's entry is null and
      any other layer is on the display. */
  lemma FaultIff(s: State, e: Event)
    requires !s.fault
    ensures Step(s, e).fault <==>
      (e.Destroy? || e.SetZ?) && e.id in s.table && !s.table[e.id] && s.layers != []
  {
  }

  // ---------------------------------------------------------------- runs that never compare a null pointer

  predicate NoNull(s: State) {
    forall id :: id in s.table ==> s.table[id]
  }

  /** Every layer with an outstanding change is still there. */
  predicate ChangesLive(s: State) {
    forall id :: id in s.changes ==> id in s.table
  }

  predicate NullFreeRun(s: State, events: seq<Event>)
    decreases |events|
  {
    NoNull(s) && (events == [] || NullFreeRun(Step(s, events[0]), events[1..]))
  }

  /** Changes are accepted only while all the layers they are for are there. */
  predicate Careful(s: State, e: Event) {
    e.Accept? && s.layers != [] && s.validated ==> ChangesLive(s)
  }

  predicate CarefulRun(s: State, events: seq<Event>)
    decreases |events|
  {
    events == [] || (Careful(s, events[0]) && CarefulRun(Step(s, events[0]), events[1..]))
  }

  lemma CarefulStep(s: State, e: Event)
    requires NoNull(s)
    ensures NoNull(Step(s, e)) <==> Careful(s, e)
  {
    if e.Accept? {
      AcceptNulls(s);
    } else {
      forall id | id in Step(s, e).table ensures Step(s, e).table[id] {
        TableStep(s, e, id);
      }
    }
  }

  lemma AcceptNulls(s: State)
    requires NoNull(s)
    ensures NoNull(AcceptChanges(s)) <==> s.layers == [] || !s.validated || ChangesLive(s)
  {
    if id :| id in s.changes && id !in s.table {
      assert s.layers != [] && s.validated ==> id in AcceptChanges(s).table;
    }
  }

  /** A run has no null entry at any time exactly when no change is accepted for a layer that is gone. */
  lemma {:induction false} NullFreeIff(s: State, events: seq<Event>)
    requires NoNull(s)
    ensures NullFreeRun(s, events) <==> CarefulRun(s, events)
    decreases |events|
  {
    if events == [] {
    } else {
      CarefulStep(s, events[0]);
      if NoNull(Step(s, events[0])) {
        NullFreeIff(Step(s, events[0]), events[1..]);
      }
    }
  }

  /** The validation reaches PostPrepareLayerStack. */
  predicate Completes(s: State, e: Event) {
    e.Prepare? && s.layers != []
  }

  predicate TakesEffect(s: State, e: Event) {
    e.Accept? && s.layers != [] && s.validated
  }

  /** `dirty`: a layer has been destroyed since a validation last ran to its end. */
  predicate DirtyAfter(s: State, e: Event, dirty: bool) {
    e.Destroy? || (dirty && !Completes(s, e))
  }

  /** After destroying a layer the client has a validation run to its end before it accepts. */
  predicate Disciplined(s: State, events: seq<Event>, dirty: bool)
    decreases |events|
  {
    events == [] ||
    (!(TakesEffect(s, events[0]) && dirty) &&
     Disciplined(Step(s, events[0]), events[1..], DirtyAfter(s, events[0], dirty)))
  }

  lemma ChangesLiveStep(s: State, e: Event)
    requires Inv(s) && !e.Destroy? && (ChangesLive(s) || Completes(s, e))
    ensures ChangesLive(Step(s, e))
  {
    if Completes(s, e) {
      PreparedLive(s);
    }
  }

  lemma PreparedLive(s: State)
    requires Inv(s)
    ensures ChangesLive(PostPrepare(s))
  {
    var t := PostPrepare(s);
    PrepareKeeps(s);
    forall id | id in t.changes ensures id in t.table {
      ChangeOnDisplay(t.layers, |t.layers|, id);
      assert Live(t, t.layers[IndexOf(t.layers, id)].id);
    }
  }

  lemma {:induction false} ChangeOnDisplay(layers: seq<Layer>, n: nat, id: nat)
    requires n <= |layers| && id in ChangesOf(layers, n)
    ensures IndexOf(layers, id) < |layers|
    decreases n
  {
    if id in ChangesOf(layers, n - 1) {
      ChangeOnDisplay(layers, n - 1, id);
    } else {
      assert layers[n - 1].id == id;
    }
  }

  /** Such a client never meets a null entry, so no null pointer is ever compared. */
  lemma {:induction false} DisciplinedRun(s: State, events: seq<Event>, dirty: bool)
    requires Inv(s) && NoNull(s) && !s.fault && Disciplined(s, events, dirty) && (dirty || ChangesLive(s))
    ensures NoNull(Exec(s, events)) && !Exec(s, events).fault
    decreases |events|
  {
    if events == [] {
    } else {
      var e := events[0];
      StepKeeps(s, e);
      CarefulStep(s, e);
      FaultIff(s, e);
      if !DirtyAfter(s, e, dirty) {
        ChangesLiveStep(s, e);
      }
      DisciplinedRun(Step(s, e), events[1..], DirtyAfter(s, e, dirty));
    }
  }

  /** From an empty display on: a validation that runs to its end between destroying and accepting is enough. */
  lemma DisciplinedNeverFaults(events: seq<Event>)
    requires Disciplined(EMPTY, events, false)
    ensures !Exec(EMPTY, events).fault && NoNull(Exec(EMPTY, events))
  {
    DisciplinedRun(EMPTY, events, false);
  }

  // ---------------------------------------------------------------- a layer destroyed with its change outstanding

  /** An acceptance takes effect in the run before any validation reaches its end. */
  predicate AcceptsFirst(s: State, events: seq<Event>)
    decreases |events|
  {
    events != [] && !s.fault && !Completes(s, events[0]) &&
    (TakesEffect(s, events[0]) || AcceptsFirst(Step(s, events[0]), events[1..]))
  }

  /** The layer is gone, and nothing brings its entry back. */
  predicate Forgotten(s: State, id: nat) {
    id < s.nextId && id !in s.table && id !in s.changes
  }

  predicate NullEntry(s: State, id: nat) {
    id in s.table && !s.table[id]
  }

  lemma {:induction false} ForgottenStays(s: State, events: seq<Event>, id: nat)
    requires Inv(s) && Forgotten(s, id)
    ensures Forgotten(Exec(s, events), id)
    decreases |events|
  {
    if events == [] || s.fault {
    } else {
      StepKeeps(s, events[0]);
      ForgottenStep(s, events[0], id);
      ForgottenStays(Step(s, events[0]), events[1..], id);
    }
  }

  lemma ForgottenStep(s: State, e: Event, id: nat)
    requires Inv(s) && Forgotten(s, id)
    ensures Forgotten(Step(s, e), id)
  {
    if Completes(s, e) {
      PreparedLive(s);
    }
  }

  lemma {:induction false} NullStays(s: State, events: seq<Event>, id: nat)
    requires NullEntry(s, id) && id < s.nextId && forall i :: 0 <= i < |events| ==> LeavesAlone(events[i], id)
    ensures NullEntry(Exec(s, events), id)
    decreases |events|
  {
    if events == [] || s.fault {
    } else {
      assert LeavesAlone(events[0], id);
      NullStep(s, events[0], id);
      NullStays(Step(s, events[0]), events[1..], id);
    }
  }

  lemma NullStep(s: State, e: Event, id: nat)
    requires NullEntry(s, id) && id < s.nextId && LeavesAlone(e, id)
    ensures NullEntry(Step(s, e), id) && id < Step(s, e).nextId
  {
  }

  lemma OutstandingStep(s: State, e: Event, id: nat)
    requires Inv(s) && id in s.changes && id !in s.table && LeavesAlone(e, id)
    ensures var t := Step(s, e);
      if Completes(s, e) then Forgotten(t, id)
      else if TakesEffect(s, e) then NullEntry(t, id) && id < t.nextId
      else id in t.changes && id !in t.table
  {
    if Completes(s, e) {
      PreparedLive(s);
    }
  }

  /** The change of a layer that is gone survives every validation that ends early and every refused one:
      what comes first, an acceptance or a validation that runs to its end, decides about the null entry. */
  lemma {:induction false} OutstandingDecided(s: State, events: seq<Event>, id: nat)
    requires Inv(s) && id in s.changes && id !in s.table
    requires forall i :: 0 <= i < |events| ==> LeavesAlone(events[i], id)
    ensures var t := Exec(s, events);
      && (NullEntry(t, id) <==> AcceptsFirst(s, events)) && (id in t.table <==> NullEntry(t, id))
    decreases |events|
  {
    if events == [] || s.fault {
    } else {
      var e := events[0];
      assert LeavesAlone(e, id);
      StepKeeps(s, e);
      OutstandingStep(s, e, id);
      if Completes(s, e) {
        ForgottenStays(Step(s, e), events[1..], id);
      } else if TakesEffect(s, e) {
        NullStays(Step(s, e), events[1..], id);
      } else {
        OutstandingDecided(Step(s, e), events[1..], id);
      }
    }
  }

  /** A layer destroyed while its change is outstanding, then anything done to the others: destroying it
      again compares a null pointer exactly when an acceptance has come first and a layer is on the display. */
  lemma DestroyedTwiceFaultsIff(s: State, id: nat, events: seq<Event>)
    requires Inv(s) && Live(s, id) && id in s.changes
    requires forall i :: 0 <= i < |events| ==> LeavesAlone(events[i], id)
    ensures var gone := DestroyLayer(s, id);
      var t := Exec(gone, events);
      !t.fault ==> (DestroyLayer(t, id).fault <==> AcceptsFirst(gone, events) && t.layers != [])
  {
    StepKeeps(s, Destroy(id));
    OutstandingDecided(DestroyLayer(s, id), events, id);
  }

  const SETUP := [Create, SdmChooses(0, Gpu), Prepare]
  const TYPED := NewLayer(0, 0).(sdm := Gpu, selected := Client)
  const OUTSTANDING := State([TYPED], map[0 := true], map[0 := Client], true, 1, 1, false)

  /** One layer and one validation lead to an outstanding change. */
  lemma OutstandingChangeReachable()
    ensures Exec(EMPTY, SETUP) == OUTSTANDING
  {
    var events := SETUP;
    var one := State([NewLayer(0, 0)], map[0 := true], map[], false, 1, 1, false);
    assert CreateLayer(EMPTY) == one;
    var two := one.(layers := [NewLayer(0, 0).(sdm := Gpu)]);
    assert Step(one, events[1]) == two;
    assert Selected(two.layers) == [TYPED];
    assert ChangesOf([TYPED], 0) == map[];
    assert PrepareLayers(two) == OUTSTANDING;
    assert Exec(two, events[2..]) == Exec(OUTSTANDING, events[2..][1..]) == OUTSTANDING;
    assert events[2..] == events[1..][1..];
  }

  const EMPTIED := OUTSTANDING.(layers := [], table := map[])
  const REPLACED := EMPTIED.(layers := [NewLayer(1, 1)], table := map[1 := true], nextId := 2, clock := 2)

  lemma LayerReplaced()
    ensures DestroyLayer(OUTSTANDING, 0) == EMPTIED && CreateLayer(EMPTIED) == REPLACED
  {
    assert Insert([], NewLayer(1, 1)) == [NewLayer(1, 1)];
  }

  /** The only layer is destroyed, the empty display validated, a layer created: accepting, and destroying
      the first again, compares a null pointer although the client has validated in between. */
  lemma EmptyValidationIsNotEnough()
    ensures var gone := Step(OUTSTANDING, Destroy(0));
      var back := Step(Step(gone, Prepare), Create);
      back.validated && Step(Step(back, Accept), Destroy(0)).fault
  {
    LayerReplaced();
  }

  /** So it does when the display is paused while it is validated, with its layers in place. */
  lemma BypassedValidationIsNotEnough()
    ensures var gone := Step(OUTSTANDING, Destroy(0));
      var back := Step(Step(gone, Create), PrepareBypassed);
      back.validated && Step(Step(back, Accept), Destroy(0)).fault
  {
    LayerReplaced();
  }
}
