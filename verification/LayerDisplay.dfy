/** The layer objects of one display, and the methods that update them in place; each is proved to do what
    `LayerStack` says. */
module LayerDisplay {
  import opened KeyOrder
  import opened LayerStack

  class HWCLayer {
    const id: nat
    var z: nat
    ghost var since: nat
    var clientRequested: Composition
    var deviceSelected: Composition
    var composition: SdmComposition   // what SDM chose
    var solidFill: bool
    var maskLayer: bool

    constructor (id: nat, ghost since: nat)
      ensures View() == NewLayer(id, since)
      ensures this.id == id && z == 0 && clientRequested == Device && deviceSelected == Device
      ensures !solidFill && !maskLayer
    {
      this.id, z, this.since := id, 0, since;
      clientRequested, deviceSelected, composition, solidFill, maskLayer := Device, Device, OtherSdm, false, false;
    }

    ghost function View(): Layer
      reads this
    {
      Layer(id, z, since, clientRequested, deviceSelected, composition, solidFill, maskLayer)
    }

    /** HWCLayer::SetComposition. */
    method SetComposition()
      modifies this`deviceSelected
      ensures View() == old(View()).(selected := Select(old(View())))
      ensures var decorated := composition == Sde && maskLayer && clientRequested == Decoration;
        && (deviceSelected == Decoration <==> decorated)
        && (deviceSelected == SolidColor <==> composition == Sde && solidFill && !decorated)
        && (deviceSelected == Client <==> composition == Gpu)
        && (deviceSelected == Cursor <==> composition == HwCursor)
        && deviceSelected != Invalid
    {
      var hwc := Device;
      match composition {
        case Gpu => hwc := Client;
        case HwCursor => hwc := Cursor;
        case _ =>
      }
      if composition == Sde && solidFill {
        hwc := SolidColor;
      }
      if composition == Sde && maskLayer && clientRequested == Decoration {
        hwc := Decoration;
      }
      deviceSelected := hwc;
    }
  }

  ghost function Views(layers: seq<HWCLayer>): (v: seq<Layer>)
    reads layers
    ensures |v| == |layers| && forall i :: 0 <= i < |layers| ==> v[i] == layers[i].View()
  {
    seq(|layers|, i requires 0 <= i < |layers| reads layers => layers[i].View())
  }

  ghost function Table(m: map<nat, HWCLayer?>): map<nat, bool> {
    map id | id in m :: m[id] != null
  }

  lemma TablePut(m: map<nat, HWCLayer?>, layer: HWCLayer)
    ensures Table(m[layer.id := layer]) == Table(m)[layer.id := true]
  {
  }

  lemma TableErase(m: map<nat, HWCLayer?>, id: nat)
    ensures Table(m - {id}) == Table(m) - {id}
  {
  }

  /** The set and the live entries of the map are the same layers under their own ids. */
  ghost predicate Linked(layers: seq<HWCLayer>, m: map<nat, HWCLayer?>) {
    && (forall i :: 0 <= i < |layers| ==> layers[i].id in m && m[layers[i].id] == layers[i])
    && (forall id :: id in m && m[id] != null ==> m[id] in layers && m[id].id == id)
  }

  function Inserted(layers: seq<HWCLayer>, p: nat, layer: HWCLayer): seq<HWCLayer>
    requires p <= |layers|
  {
    layers[..p] + [layer] + layers[p..]
  }

  function Removed(layers: seq<HWCLayer>, i: nat): seq<HWCLayer>
    requires i < |layers|
  {
    layers[..i] + layers[i + 1..]
  }

  predicate DistinctLayers(layers: seq<HWCLayer>) {
    forall i, j :: 0 <= i < j < |layers| ==> layers[i].id != layers[j].id
  }

  lemma LinkedInsert(layers: seq<HWCLayer>, m: map<nat, HWCLayer?>, p: nat, layer: HWCLayer)
    requires Linked(layers, m) && layer.id !in m && p <= |layers|
    ensures Linked(Inserted(layers, p, layer), m[layer.id := layer])
  {
    var r := Inserted(layers, p, layer);
    assert r[p] == layer;
    forall id | id in m && m[id] != null ensures m[id] in r {
      var i :| 0 <= i < |layers| && layers[i] == m[id];
      assert r[if i < p then i else i + 1] == m[id];
    }
  }

  lemma LinkedRemove(layers: seq<HWCLayer>, m: map<nat, HWCLayer?>, i: nat)
    requires Linked(layers, m) && DistinctLayers(layers) && i < |layers|
    ensures Linked(Removed(layers, i), m - {layers[i].id})
  {
    var r := Removed(layers, i);
    assert forall k :: 0 <= k < |r| ==> r[k] == layers[if k < i then k else k + 1];
    forall id | id in m && id != layers[i].id && m[id] != null ensures m[id] in r {
      var j :| 0 <= j < |layers| && layers[j] == m[id];
      assert r[if j < i then j else j - 1] == m[id];
    }
  }

  /** Taking the `i`-th layer out leaves the rest linked, and the map still has it. */
  ghost predicate Movable(layers: seq<HWCLayer>, m: map<nat, HWCLayer?>, i: nat)
    requires i < |layers|
  {
    && Linked(Removed(layers, i), m - {layers[i].id}) && layers[i] !in Removed(layers, i)
    && layers[i].id in m && m[layers[i].id] == layers[i]
  }

  lemma StaysMovable(layers: seq<HWCLayer>, m: map<nat, HWCLayer?>, i: nat)
    requires Linked(layers, m) && DistinctLayers(layers) && i < |layers|
    ensures Movable(layers, m, i)
  {
    LinkedRemove(layers, m, i);
  }

  class HWCDisplay {
    var layerSet: seq<HWCLayer>                // layer_set_, in the order of the multiset
    var layerMap: map<nat, HWCLayer?>          // layer_map_
    var layerChanges: map<nat, Composition>    // layer_changes_
    var validateDone: bool
    var nextId: nat
    ghost var clock: nat
    ghost var fault: bool                      // a null pointer has been compared

    constructor ()
      ensures Valid() && View() == EMPTY
    {
      layerSet, layerMap, layerChanges, validateDone, nextId, clock, fault := [], map[], map[], false, 0, 0, false;
      new;
      assert View().table == map[];
    }

    ghost function View(): State
      reads this, layerSet
    {
      State(Views(layerSet), Table(layerMap), layerChanges, validateDone, nextId, clock, fault)
    }

    ghost predicate Valid()
      reads this`layerSet, this`layerMap
    {
      Linked(layerSet, layerMap)
    }

    /** The scan of equal_range(layer) for the layer itself. */
    method FindInRange(layer: HWCLayer) returns (i: nat)
      requires Ordered(Views(layerSet)) && DistinctIds(Views(layerSet)) && layer in layerSet
      ensures i < |layerSet| && layerSet[i] == layer && i == IndexOf(Views(layerSet), layer.id)
    {
      ghost var v := Views(layerSet);
      ghost var at: nat :| at < |layerSet| && layerSet[at] == layer;
      IndexUnique(v, at);
      i := 0;
      while layerSet[i].z < layer.z
        invariant i <= at
        decreases |layerSet| - i
      {
        i := i + 1;
      }
      while layerSet[i] != layer
        invariant i <= at
        decreases |layerSet| - i
      {
        i := i + 1;
      }
      assert v[i] == v[at];
    }

    /** layer_set_.emplace(layer): behind its equals. */
    method Emplace(layer: HWCLayer) returns (ghost p: nat)
      modifies this`layerSet
      ensures p <= |old(layerSet)| && layerSet == Inserted(old(layerSet), p, layer)
      ensures Views(layerSet) == Insert(old(Views(layerSet)), layer.View())
    {
      ghost var v := Views(layerSet);
      var q := 0;
      while q < |layerSet| && layerSet[q].z <= layer.z
        invariant q <= |layerSet| && UpperBound(v, layer.z, 0) == UpperBound(v, layer.z, q)
      {
        q := q + 1;
      }
      p := q;
      layerSet := layerSet[..q] + [layer] + layerSet[q..];
      assert Views(layerSet) == v[..q] + [layer.View()] + v[q..];
    }

    /** layer_set_.erase(current). */
    method EraseAt(i: nat)
      requires i < |layerSet|
      modifies this`layerSet
      ensures layerSet == Removed(old(layerSet), i)
      ensures Views(layerSet) == RemoveAt(old(Views(layerSet)), i)
    {
      ghost var v := Views(layerSet);
      layerSet := layerSet[..i] + layerSet[i + 1..];
      assert Views(layerSet) == RemoveAt(v, i);
    }

    /** Puts a new layer into set and map. */
    method Link(layer: HWCLayer)
      requires Valid() && layer.id !in layerMap
      modifies this`layerSet, this`layerMap
      ensures Valid()
      ensures Views(layerSet) == Insert(old(Views(layerSet)), layer.View())
      ensures Table(layerMap) == Table(old(layerMap))[layer.id := true]
    {
      ghost var p := Emplace(layer);
      LinkedInsert(old(layerSet), layerMap, p, layer);
      TablePut(layerMap, layer);
      layerMap := layerMap[layer.id := layer];
    }

    method CreateLayer() returns (id: nat)
      requires Valid() && nextId !in layerMap
      modifies this
      ensures Valid() && id == old(nextId)
      ensures View() == old(LayerStack.CreateLayer(View()))
    {
      ghost var v := Views(layerSet);
      var layer := new HWCLayer(nextId, clock);
      id := nextId;
      nextId := nextId + 1;
      clock := clock + 1;
      assert Views(layerSet) == v;
      Link(layer);
    }

    /** Takes a layer out of the set and its entry out of the map. */
    method Unlink(layer: HWCLayer)
      requires Valid() && Ordered(Views(layerSet)) && DistinctIds(Views(layerSet)) && layer in layerSet
      modifies this`layerSet, this`layerMap
      ensures Valid()
      ensures IndexOf(old(Views(layerSet)), layer.id) < |old(layerSet)|
      ensures Views(layerSet) == RemoveAt(old(Views(layerSet)), IndexOf(old(Views(layerSet)), layer.id))
      ensures Table(layerMap) == Table(old(layerMap)) - {layer.id} && layerMap == old(layerMap) - {layer.id}
    {
      TableErase(layerMap, layer.id);
      DistinctViews(layerSet);
      var i := FindInRange(layer);
      LinkedRemove(layerSet, layerMap, i);
      layerMap := layerMap - {layer.id};
      EraseAt(i);
    }

    method DestroyLayer(id: nat) returns (error: Error)
      requires Valid() && Ordered(Views(layerSet)) && DistinctIds(Views(layerSet))
      modifies this
      ensures Valid() && View() == old(LayerStack.DestroyLayer(View(), id))
      ensures error == if id in old(layerMap) then None else BadLayer
      ensures layerMap == if id in old(layerMap) then old(layerMap) - {id} else old(layerMap)
      ensures fault == if id in old(layerMap) && old(layerMap)[id] == null then old(layerSet) != [] else old(fault)
    {
      if id !in layerMap {
        return BadLayer;
      }
      error := None;
      var layer := layerMap[id];
      if layer != null {
        Unlink(layer);
      } else {
        // equal_range(nullptr) compares the pointer unless the set is empty.
        TableErase(layerMap, id);
        layerMap := layerMap - {id};
        fault := layerSet != [];
      }
    }

    /** The second half: back into the set. */
    method Rejoin(layer: HWCLayer)
      requires Linked(layerSet, layerMap - {layer.id}) && layer.id in layerMap && layerMap[layer.id] == layer
      modifies this`layerSet
      ensures Valid() && Views(layerSet) == old(Insert(Views(layerSet), layer.View()))
    {
      ghost var p := Emplace(layer);
      LinkedInsert(old(layerSet), layerMap - {layer.id}, p, layer);
      assert (layerMap - {layer.id})[layer.id := layer] == layerMap;
    }

    /** The first half of a move, with the new z written while the layer is out of the set. */
    method TakeOut(layer: HWCLayer, i: nat, z: nat)
      requires i < |layerSet| && layerSet[i] == layer && layer !in Removed(layerSet, i)
      modifies this`layerSet, this`clock, layer`z, layer`since
      ensures layerSet == Removed(old(layerSet), i) && Views(layerSet) == old(RemoveAt(Views(layerSet), i))
      ensures layer.View() == old(layer.View().(z := z, since := clock)) && clock == old(clock) + 1
    {
      ghost var rest := RemoveAt(Views(layerSet), i);
      EraseAt(i);
      layer.z := z;
      layer.since := clock;
      clock := clock + 1;
      assert Views(layerSet) == rest;
    }

    /** A layer already in the set, moved to its new z: it comes last among its equals. */
    method Move(layer: HWCLayer, i: nat, z: nat)
      requires i < |layerSet| && layerSet[i] == layer && Movable(layerSet, layerMap, i)
      modifies this`layerSet, this`clock, layer`z, layer`since
      ensures Valid() && clock == old(clock) + 1
      ensures Views(layerSet) == old(Insert(RemoveAt(Views(layerSet), i), layer.View().(z := z, since := clock)))
    {
      TakeOut(layer, i, z);
      Rejoin(layer);
    }

    method PutAt(layer: HWCLayer, i: nat, z: nat)
      requires i < |layerSet| && layerSet[i] == layer && Movable(layerSet, layerMap, i)
      modifies this`layerSet, this`clock, layer`z, layer`since
      ensures Valid() && View() == old(MovedAt(View(), i, z))
    {
      assert Views(layerSet)[i] == layer.View();
      Move(layer, i, z);
    }

    /** SetLayerZOrder for a layer that is on the display. */
    method Reposition(layer: HWCLayer, z: nat)
      requires Valid() && Ordered(Views(layerSet)) && DistinctIds(Views(layerSet)) && layer in layerSet
      modifies this`layerSet, this`clock, layer`z, layer`since
      ensures Valid() && View() == old(LayerStack.SetLayerZOrder(View(), layer.id, z))
    {
      var i := FindInRange(layer);
      SetZAt(View(), layer.id, z, i);
      assert View().layers[i].z == layer.z;
      if layer.z != z {
        DistinctViews(layerSet);
        StaysMovable(layerSet, layerMap, i);
        PutAt(layer, i, z);
      }
    }

    method SetLayerZOrder(id: nat, z: nat) returns (error: Error)
      requires Valid() && Ordered(Views(layerSet)) && DistinctIds(Views(layerSet))
      modifies this, layerSet
      ensures Valid() && View() == old(LayerStack.SetLayerZOrder(View(), id, z))
      ensures error == if id in layerMap && layerMap[id] != null then None else BadLayer
      ensures error == None && old(layerMap[id].z) == z ==> layerSet == old(layerSet)
      ensures error == None ==> layerMap[id].z == z
      ensures error != None ==> layerSet == old(layerSet) && layerMap == old(layerMap)
    {
      if id !in layerMap {
        return BadLayer;
      }
      var layer := layerMap[id];
      if layer == null {
        // equal_range(nullptr) compares the pointer unless the set is empty.
        fault := layerSet != [];
        return BadLayer;
      }
      Reposition(layer, z);
      error := None;
    }

    /** PostPrepareLayerStack for one layer: it takes the type SDM chose for it. */
    method SelectOne(i: nat)
      requires DistinctLayers(layerSet) && i < |layerSet|
      modifies layerSet[i]
      ensures Views(layerSet) == old(Views(layerSet))[i := Select1(old(Views(layerSet)[i]))]
      ensures unchanged(`layerSet, `layerMap, `validateDone, `nextId, `clock, `fault)
    {
      ghost var v := Views(layerSet);
      layerSet[i].SetComposition();
      assert Views(layerSet) == v[i := Select1(v[i])];
    }

    /** PostPrepareLayerStack after `i` layers: `v` are the layers before it, `goal` as SDM chose for them. */
    ghost predicate Chosen(v: seq<Layer>, goal: seq<Layer>, i: nat, hasClient: bool, requests: set<nat>)
      reads this, layerSet
    {
      && i <= |layerSet| == |v| && DistinctLayers(layerSet) && goal == Selected(v)
      && Views(layerSet) == SelectedUpTo(v, i) && layerChanges == ChangesOf(goal, i)
      && hasClient == HasClient(goal, i) && requests == Requests(goal, i)
    }

    /** One turn of its loop. */
    method SelectNext(i: nat, hasClient: bool, requests: set<nat>, ghost v: seq<Layer>, ghost goal: seq<Layer>)
      returns (hasClient': bool, requests': set<nat>)
      requires i < |layerSet| && Chosen(v, goal, i, hasClient, requests)
      modifies this`layerChanges, layerSet
      ensures unchanged(`layerSet, `layerMap, `validateDone, `nextId, `clock, `fault)
      ensures Chosen(v, goal, i + 1, hasClient', requests')
    {
      var layer := layerSet[i];
      SelectOne(i);
      SelectedStep(v, i);
      assert layer.View() == goal[i];
      requests' := if layer.composition == Sde || layer.composition == Stitch then requests + {layer.id} else requests;
      hasClient' := hasClient || layer.deviceSelected == Client;
      Note(layer);
    }

    method SelectAll(ghost v: seq<Layer>, ghost goal: seq<Layer>) returns (hasClient: bool, requests: set<nat>)
      requires Chosen(v, goal, 0, false, {})
      modifies this`layerChanges, layerSet
      ensures unchanged(`layerSet, `layerMap, `validateDone, `nextId, `clock, `fault)
      ensures Chosen(v, goal, |v|, hasClient, requests)
    {
      hasClient, requests := false, {};
      for i := 0 to |layerSet|
        invariant unchanged(`layerSet, `layerMap, `validateDone, `nextId, `clock, `fault)
        invariant Chosen(v, goal, i, hasClient, requests)
      {
        hasClient, requests := SelectNext(i, hasClient, requests, v, goal);
      }
    }

    /** The layer's entry in the change list, if it has one. */
    method Note(layer: HWCLayer)
      modifies this`layerChanges
      ensures Views(layerSet) == old(Views(layerSet))
      ensures var l := layer.View();
        layerChanges == if l.requested != l.selected then old(layerChanges)[l.id := l.selected] else old(layerChanges)
    {
      ghost var v := Views(layerSet);
      if layer.clientRequested != layer.deviceSelected {
        layerChanges := layerChanges[layer.id := layer.deviceSelected];
      }
      assert Views(layerSet) == v;
    }

    method SelectCompositions() returns (hasClient: bool, requests: set<nat>)
      requires DistinctLayers(layerSet)
      modifies this`layerChanges, layerSet
      ensures unchanged(`layerSet, `layerMap, `validateDone, `nextId, `clock, `fault)
      ensures Views(layerSet) == old(Selected(Views(layerSet)))
      ensures layerChanges == old(ChangesOf(Selected(Views(layerSet)), |layerSet|))
      ensures hasClient == HasClient(Views(layerSet), |layerSet|)
      ensures requests == Requests(Views(layerSet), |layerSet|)
    {
      ghost var v := Views(layerSet);
      layerChanges := map[];
      assert Views(layerSet) == v;
      SelectedEnds(v);
      hasClient, requests := SelectAll(v, Selected(v));
    }

    /** A layer is left to the client. */
    ghost predicate SomeToClient()
      reads this`layerSet, layerSet
    {
      exists i :: 0 <= i < |layerSet| && layerSet[i].deviceSelected == Client
    }

    /** A layer is on a pipe of the display's own, so that the client's target must be cleared under it. */
    ghost predicate SomeOnPipe()
      reads this`layerSet, layerSet
    {
      exists i :: 0 <= i < |layerSet| && (layerSet[i].composition == Sde || layerSet[i].composition == Stitch)
    }

    lemma ChangesMean()
      ensures HasClient(Views(layerSet), |layerSet|) <==> SomeToClient()
      ensures |Requests(Views(layerSet), |layerSet|)| > 0 <==> SomeOnPipe()
    {
      HasClientMeans(Views(layerSet), |layerSet|);
      RequestsMean(Views(layerSet), |layerSet|);
      assert forall i :: 0 <= i < |layerSet| ==> Views(layerSet)[i] == layerSet[i].View();
    }

    method PostPrepareLayerStack() returns (numTypes: nat, numRequests: nat, hasChanges: bool)
      requires Valid() && DistinctIds(Views(layerSet))
      modifies this`layerChanges, this`validateDone, layerSet
      ensures Valid() && View() == old(PostPrepare(View()))
      ensures numTypes == |layerChanges| && numRequests == |Requests(Views(layerSet), |layerSet|)|
      ensures hasChanges == (layerChanges != map[] || (SomeToClient() && SomeOnPipe()))
    {
      ghost var v := Views(layerSet);
      DistinctViews(layerSet);
      validateDone := true;
      assert Views(layerSet) == v;
      var hasClient, requests := SelectCompositions();
      numTypes, numRequests := |layerChanges|, |requests|;
      ChangesMean();
      hasChanges := numTypes > 0 || (hasClient && numRequests > 0);
    }

    /** MarkLayersForGPUBypass for one layer. */
    method BypassOne(i: nat, ghost v: seq<Layer>)
      requires DistinctLayers(layerSet) && i < |layerSet| == |v| && Views(layerSet) == BypassedUpTo(v, i)
      modifies layerSet[i]
      ensures Views(layerSet) == BypassedUpTo(v, i + 1)
    {
      layerSet[i].composition := Sde;
    }

    method MarkLayersForGPUBypass()
      requires DistinctLayers(layerSet)
      modifies layerSet
      ensures Views(layerSet) == old(Bypassed(Views(layerSet)))
      ensures forall i :: 0 <= i < |layerSet| ==> layerSet[i].composition == Sde
    {
      ghost var v := Views(layerSet);
      for i := 0 to |layerSet|
        invariant Views(layerSet) == BypassedUpTo(v, i)
      {
        BypassOne(i, v);
      }
    }

    /** `bypass`: the display is paused or without resources; `accepted`: the driver took the layers. */
    method CommitOrPrepare(bypass: bool, accepted: bool) returns (error: Error, numTypes: nat, numRequests: nat)
      requires Valid() && DistinctIds(Views(layerSet))
      modifies this`layerChanges, this`validateDone, layerSet
      ensures Valid()
      ensures View() == old(Step(View(), Validation(bypass, accepted)))
      ensures validateDone <==> bypass || layerSet == [] || accepted
      ensures bypass || layerSet == [] || !accepted ==> layerChanges == old(layerChanges)
      ensures bypass || old(layerSet) == [] ==> error == None && numTypes == numRequests == 0
      ensures !bypass && old(layerSet) != [] && !accepted ==> error == BadDisplay && numTypes == numRequests == 0
      ensures !bypass && old(layerSet) != [] && accepted ==>
        && numTypes == |layerChanges| && numRequests == |Requests(Views(layerSet), |layerSet|)|
        && error == (if layerChanges != map[] || (SomeToClient() && SomeOnPipe()) then HasChanges else None)
    {
      error, numTypes, numRequests := None, 0, 0;
      assert |Views(layerSet)| == |layerSet|;
      if bypass || layerSet == [] {
        DistinctViews(layerSet);
        Exit(bypass);
      } else {
        error, numTypes, numRequests := AskDriver(accepted);
      }
    }

    /** The rest of it, once the driver is asked. */
    method AskDriver(accepted: bool) returns (error: Error, numTypes: nat, numRequests: nat)
      requires Valid() && DistinctIds(Views(layerSet))
      modifies this`layerChanges, this`validateDone, layerSet
      ensures Valid()
      ensures View() == if accepted then old(PostPrepare(View())) else old(View()).(validated := false)
      ensures !accepted ==> error == BadDisplay && numTypes == numRequests == 0
      ensures accepted ==>
        && numTypes == |layerChanges| && numRequests == |Requests(Views(layerSet), |layerSet|)|
        && error == (if layerChanges != map[] || (SomeToClient() && SomeOnPipe()) then HasChanges else None)
    {
      error, numTypes, numRequests := BadDisplay, 0, 0;
      if accepted {
        var hasChanges;
        numTypes, numRequests, hasChanges := PostPrepareLayerStack();
        error := if hasChanges then HasChanges else None;
      } else {
        Refuse();
      }
    }

    /** PreValidateDisplay sets exit_validate. */
    method Exit(bypass: bool)
      requires Valid() && DistinctLayers(layerSet)
      modifies this`validateDone, layerSet
      ensures Valid() && View() == old(if bypass then BypassLayers(View()) else View().(validated := true))
    {
      ghost var v := Views(layerSet);
      validateDone := true;
      assert Views(layerSet) == v;
      if bypass {
        MarkLayersForGPUBypass();
      }
    }

    method Refuse()
      requires Valid()
      modifies this`validateDone
      ensures Valid() && View() == old(View()).(validated := false)
    {
      ghost var v := Views(layerSet);
      validateDone := false;
      assert Views(layerSet) == v;
    }

    /** One turn of AcceptDisplayChanges' loop; operator[] leaves a null entry for a layer that is gone. */
    method ApplyOne(id: nat, composition: Composition)
      requires Valid() && DistinctLayers(layerSet)
      modifies this`layerMap, layerSet
      ensures Valid()
      ensures Views(layerSet) == old(Accepted(Views(layerSet), map[id := composition]))
      ensures Table(layerMap) == old(WithNulls(Table(layerMap), map[id := composition]))
      ensures layerSet == old(layerSet) && layerChanges == old(layerChanges)
    {
      ghost var v, m := Views(layerSet), layerMap;
      if id !in layerMap {
        layerMap := layerMap[id := null];
      }
      assert Table(layerMap) == WithNulls(Table(m), map[id := composition]);
      var layer := layerMap[id];
      if layer != null {
        Request(layer, composition);
      } else {
        assert forall i :: 0 <= i < |layerSet| ==> layerSet[i].id != id;
        assert Accepted(v, map[id := composition]) == v;
      }
    }

    /** HWCLayer::UpdateClientCompositionType on a layer of the set. */
    method Request(layer: HWCLayer, composition: Composition)
      requires DistinctLayers(layerSet) && layer in layerSet
      modifies layer`clientRequested
      ensures Views(layerSet) == old(Accepted(Views(layerSet), map[layer.id := composition]))
    {
      ghost var v := Views(layerSet);
      layer.clientRequested := composition;
      forall i | 0 <= i < |layerSet|
        ensures Views(layerSet)[i] == if v[i].id == layer.id then v[i].(requested := composition) else v[i] {
      }
    }

    method ApplyLeast(rest: map<nat, Composition>) returns (left: map<nat, Composition>)
      requires Valid() && DistinctLayers(layerSet) && rest != map[]
      modifies this`layerMap, layerSet
      ensures Valid() && |left| < |rest|
      ensures Accepted(Views(layerSet), left) == old(Accepted(Views(layerSet), rest))
      ensures WithNulls(Table(layerMap), left) == old(WithNulls(Table(layerMap), rest))
      ensures layerSet == old(layerSet) && layerChanges == old(layerChanges)
    {
      var id := Least(rest.Keys);
      AcceptOneByOne(Views(layerSet), Table(layerMap), rest, id);
      ApplyOne(id, rest[id]);
      left := rest - {id};
    }

    method ApplyChanges()
      requires Valid() && DistinctLayers(layerSet)
      modifies this`layerMap, layerSet
      ensures Valid() && layerSet == old(layerSet)
      ensures Views(layerSet) == old(Accepted(Views(layerSet), layerChanges))
      ensures Table(layerMap) == old(WithNulls(Table(layerMap), layerChanges))
    {
      var rest := layerChanges;
      while rest != map[]
        invariant Valid() && layerSet == old(layerSet)
        invariant Accepted(Views(layerSet), rest) == old(Accepted(Views(layerSet), layerChanges))
        invariant WithNulls(Table(layerMap), rest) == old(WithNulls(Table(layerMap), layerChanges))
        decreases |rest|
      {
        rest := ApplyLeast(rest);
      }
      AcceptNone(Views(layerSet), Table(layerMap));
    }

    method AcceptDisplayChanges() returns (error: Error)
      requires Valid() && DistinctIds(Views(layerSet))
      modifies this`layerMap, this`layerChanges, layerSet
      ensures Valid() && View() == old(AcceptChanges(View()))
      ensures error == if old(layerSet) != [] && !validateDone then NotValidated else None
      ensures layerSet == [] || !validateDone ==> layerChanges == old(layerChanges) && layerMap == old(layerMap)
      ensures layerSet != [] && validateDone ==> layerChanges == map[]
    {
      if layerSet == [] {
        return None;
      }
      if !validateDone {
        return NotValidated;
      }
      DistinctViews(layerSet);
      ApplyChanges();
      layerChanges := map[];
      error := None;
    }
  }

  /** The event of `LayerStack` that a call of CommitOrPrepare is. */
  function Validation(bypass: bool, accepted: bool): Event {
    if bypass then PrepareBypassed else if accepted then Prepare else PrepareRefused
  }

  function BypassedUpTo(layers: seq<Layer>, n: nat): (r: seq<Layer>)
    ensures |r| == |layers|
    ensures forall k :: 0 <= k < |layers| ==> r[k] == if k < n then layers[k].(sdm := Sde) else layers[k]
  {
    seq(|layers|, k requires 0 <= k < |layers| => if k < n then layers[k].(sdm := Sde) else layers[k])
  }

  /** The state with its `i`-th layer given a new z. */
  ghost function MovedAt(s: State, i: nat, z: nat): State
    requires i < |s.layers|
  {
    s.(layers := Insert(RemoveAt(s.layers, i), s.layers[i].(z := z, since := s.clock)), clock := s.clock + 1)
  }

  lemma SetZAt(s: State, id: nat, z: nat, i: nat)
    requires id in s.table && s.table[id] && i == IndexOf(s.layers, id) && i < |s.layers|
    ensures LayerStack.SetLayerZOrder(s, id, z) == if s.layers[i].z == z then s else MovedAt(s, i, z)
  {
  }

  lemma DistinctViews(layers: seq<HWCLayer>)
    requires DistinctIds(Views(layers))
    ensures DistinctLayers(layers)
  {
    var v := Views(layers);
    forall i, j | 0 <= i < j < |layers| ensures layers[i].id != layers[j].id {
      assert v[i].id != v[j].id;
    }
  }

  function Select1(l: Layer): Layer {
    l.(selected := Select(l))
  }

  function SelectedUpTo(layers: seq<Layer>, n: nat): (r: seq<Layer>)
    ensures |r| == |layers|
    ensures forall k :: 0 <= k < |layers| ==> r[k] == if k < n then Select1(layers[k]) else layers[k]
  {
    seq(|layers|, k requires 0 <= k < |layers| => if k < n then Select1(layers[k]) else layers[k])
  }

  lemma SelectedEnds(layers: seq<Layer>)
    ensures SelectedUpTo(layers, 0) == layers && SelectedUpTo(layers, |layers|) == Selected(layers)
  {
  }

  lemma SelectedStep(layers: seq<Layer>, i: nat)
    requires i < |layers|
    ensures SelectedUpTo(layers, i)[i := Select1(SelectedUpTo(layers, i)[i])] == SelectedUpTo(layers, i + 1)
  {
  }

  /** Some layer among the first `n` goes to the client. */
  function HasClient(layers: seq<Layer>, n: nat): bool
    requires n <= |layers|
  {
    n > 0 && (HasClient(layers, n - 1) || layers[n - 1].selected == Client)
  }

  /** The layers under which the client target must be cleared. */
  function Requests(layers: seq<Layer>, n: nat): set<nat>
    requires n <= |layers|
  {
    if n == 0 then {}
    else if layers[n - 1].sdm in {Sde, Stitch} then Requests(layers, n - 1) + {layers[n - 1].id}
    else Requests(layers, n - 1)
  }

  lemma {:induction false} HasClientMeans(layers: seq<Layer>, n: nat)
    requires n <= |layers|
    ensures HasClient(layers, n) <==> exists i :: 0 <= i < n && layers[i].selected == Client
    decreases n
  {
    if n == 0 {
    } else {
      HasClientMeans(layers, n - 1);
    }
  }

  lemma {:induction false} RequestsMean(layers: seq<Layer>, n: nat)
    requires n <= |layers|
    ensures |Requests(layers, n)| > 0 <==> exists i :: 0 <= i < n && (layers[i].sdm == Sde || layers[i].sdm == Stitch)
    decreases n
  {
    if n == 0 {
    } else {
      RequestsMean(layers, n - 1);
      assert layers[n - 1].sdm in {Sde, Stitch} ==> layers[n - 1].id in Requests(layers, n);
    }
  }

  lemma AcceptNone(layers: seq<Layer>, table: map<nat, bool>)
    ensures Accepted(layers, map[]) == layers && WithNulls(table, map[]) == table
  {
  }

  lemma AcceptOneByOne(layers: seq<Layer>, table: map<nat, bool>, changes: map<nat, Composition>, id: nat)
    requires id in changes
    ensures Accepted(Accepted(layers, map[id := changes[id]]), changes - {id}) == Accepted(layers, changes)
    ensures WithNulls(WithNulls(table, map[id := changes[id]]), changes - {id}) == WithNulls(table, changes)
  {
  }
}
