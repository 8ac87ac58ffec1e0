/** The composer client's buffer cache, updated in place; each method is proved to do what `BufferCache`
    says, down to every handle it frees. */
module ComposerClient {
  import opened KeyOrder
  import opened BufferCache

  /** What the client sent: nothing, a handle the importer accepts, or one it refuses. */
  datatype Input = NullHandle | Importable | Unimportable

  datatype Error = None | NoDisplay | NoLayer | NoSlot | NoResources | Rejected

  function ErrorOf(r: Lookup): Error {
    match r
    case Found(_) => None
    case BadDisplay => NoDisplay
    case BadLayer => NoLayer
    case BadParameter => NoSlot
  }

  /** Entries that are kept in front, cut off, or null. */
  predicate Sized(before: seq<nat>, after: seq<nat>, count: nat) {
    |after| == count && forall i :: 0 <= i < count ==> after[i] == if i < |before| then before[i] else 0
  }

  /** Entry `index` is read, or there is none. */
  predicate Reads(entries: seq<nat>, index: nat, error: Error, handle: nat) {
    if index < |entries| then error == None && handle == entries[index] else error == NoSlot
  }

  class AidlComposerClient {
    var displayData: map<nat, DisplayData>   // mDisplayData
    var next: nat                            // the handle the importer returns next
    ghost var inFlight: set<nat>
    ghost var leaked: set<nat>
    ghost var cleared: multiset<nat>

    constructor ()
      ensures View() == EMPTY
    {
      displayData, next, inFlight, leaked, cleared := map[], 1, {}, {}, multiset{};
    }

    ghost function View(): State
      reads this
    {
      State(displayData, next, inFlight, leaked, cleared)
    }

    /** BufferCacheEntry::clear. */
    method Clear(handle: nat)
      modifies this`cleared
      ensures cleared == old(cleared) + multiset{handle}
    {
      cleared := cleared + multiset{handle};
    }

    /** Destruction of a vector of entries. */
    method ClearAll(entries: seq<nat>)
      modifies this`cleared
      ensures cleared == old(cleared) + multiset(entries)
    {
      for i := 0 to |entries|
        invariant cleared == old(cleared) + multiset(entries[..i])
      {
        assert entries[..i + 1] == entries[..i] + [entries[i]];
        Clear(entries[i]);
      }
      assert entries[..|entries|] == entries;
    }

    method ResizeEntries(entries: seq<nat>, count: nat) returns (r: seq<nat>)
      modifies this`cleared
      ensures r == Resize(entries, count) && cleared == old(cleared) + Cut(entries, count)
      ensures Sized(entries, r, count)
      ensures cleared == old(cleared) + (if count < |entries| then multiset(entries[count..]) else multiset{})
    {
      if count <= |entries| {
        ClearAll(entries[count..]);
        return entries[..count];
      }
      r := entries;
      while |r| < count
        invariant |entries| <= |r| <= count
        invariant forall i :: 0 <= i < |r| ==> r[i] == if i < |entries| then entries[i] else 0
      {
        r := r + [0];
      }
    }

    /** Destruction of a layer's buffers and sideband stream. */
    method ClearLayer(layer: LayerBuffers)
      modifies this`cleared
      ensures cleared == old(cleared) + LayerHandles(layer)
    {
      ClearAll(layer.buffers);
      Clear(layer.sideband);
    }

    method ClearOneLayer(layers: map<nat, LayerBuffers>) returns (rest: map<nat, LayerBuffers>)
      requires layers != map[]
      modifies this`cleared
      ensures |rest| < |layers|
      ensures cleared + Sum(Table(rest, LayerHandles)) == old(cleared) + Sum(Table(layers, LayerHandles))
    {
      var l := Least(layers.Keys);
      TakeOut(layers, LayerHandles, l);
      ClearLayer(layers[l]);
      rest := layers - {l};
    }

    method ClearLayers(layers: map<nat, LayerBuffers>)
      modifies this`cleared
      ensures cleared == old(cleared) + Sum(Table(layers, LayerHandles))
    {
      var rest := layers;
      while rest != map[]
        invariant cleared + Sum(Table(rest, LayerHandles)) == old(cleared) + Sum(Table(layers, LayerHandles))
        decreases |rest|
      {
        rest := ClearOneLayer(rest);
      }
      assert Table(rest, LayerHandles) == map[];
    }

    method ClearDisplay(data: DisplayData)
      modifies this`cleared
      ensures cleared == old(cleared) + DisplayHandles(data)
    {
      ClearAll(data.clientTargets);
      ClearAll(data.outputBuffers);
      ClearLayers(data.layers);
    }

    /** lookupBufferCacheEntryLocked. */
    method LookupEntryLocked(slot: Slot) returns (error: Error, handle: nat)
      ensures error == ErrorOf(Find(displayData, slot))
      ensures error == None ==> Find(displayData, slot) == Found(handle)
      ensures error == NoDisplay <==> slot.display !in displayData
      ensures slot.display in displayData ==>
        var d := displayData[slot.display];
        match slot.cache {
          case ClientTargets => Reads(d.clientTargets, slot.index, error, handle)
          case OutputBuffers => Reads(d.outputBuffers, slot.index, error, handle)
          case Buffers(l) =>
            if l in d.layers then Reads(d.layers[l].buffers, slot.index, error, handle) else error == NoLayer
          case SidebandStream(l) =>
            if l in d.layers then Reads([d.layers[l].sideband], slot.index, error, handle) else error == NoLayer
        }
    {
      error, handle := NoSlot, 0;
      if slot.display !in displayData {
        return NoDisplay, 0;
      }
      var d := displayData[slot.display];
      match slot.cache {
        case ClientTargets =>
          if slot.index < |d.clientTargets| {
            return None, d.clientTargets[slot.index];
          }
        case OutputBuffers =>
          if slot.index < |d.outputBuffers| {
            return None, d.outputBuffers[slot.index];
          }
        case Buffers(l) =>
          if l !in d.layers {
            return NoLayer, 0;
          }
          if slot.index < |d.layers[l].buffers| {
            return None, d.layers[l].buffers[slot.index];
          }
        case SidebandStream(l) =>
          if l !in d.layers {
            return NoLayer, 0;
          }
          if slot.index == 0 {
            return None, d.layers[l].sideband;
          }
      }
    }

    method LookupBuffer(slot: Slot, useCache: bool, input: Input) returns (error: Error, handle: nat)
      modifies this`next, this`inFlight
      ensures useCache ==> View() == old(View()) && error == ErrorOf(Find(displayData, slot))
      ensures useCache && error == None ==> Find(displayData, slot) == Found(handle)
      ensures !useCache && input.Importable? ==>
        View() == Step(old(View()), Import) && error == None && handle == old(next)
      ensures !useCache && !input.Importable? ==> View() == old(View())
      ensures !useCache && input.NullHandle? ==> error == None && handle == 0
      ensures !useCache && input.Unimportable? ==> error == NoResources
    {
      if useCache {
        error, handle := LookupEntryLocked(slot);
        return;
      }
      match input {
        case NullHandle => return None, 0;
        case Unimportable => return NoResources, 0;
        case Importable =>
          error, handle := None, next;
          inFlight := inFlight + {next};
          next := next + 1;
      }
    }

    method UpdateBuffer(slot: Slot, useCache: bool, handle: nat) returns (error: Error)
      requires !useCache ==> handle == 0 || handle in inFlight
      modifies this
      ensures useCache ==> View() == old(View()) && error == None
      ensures !useCache ==>
        View() == Step(old(View()), Update(slot, handle)) && error == ErrorOf(old(Find(displayData, slot)))
    {
      error := None;
      if useCache {
        return;
      }
      inFlight := inFlight - {handle};
      var was;
      error, was := LookupEntryLocked(slot);
      if error != None {
        leaked := leaked + (if handle == 0 then {} else {handle});
        return;
      }
      Clear(was);
      displayData := displayData[slot.display := Put(displayData[slot.display], slot, handle)];
    }

    /** executeSetLayerBuffer, executeSetClientTarget and executeSetOutputBuffer: look the buffer up, hand
        it to the session, remember it whatever the session said. */
    method ExecuteSetBuffer(slot: Slot, input: Input, accepted: bool) returns (error: Error, shown: nat)
      modifies this
      ensures input.NullHandle? ==>
        && View() == old(View())
        && match old(Find(displayData, slot)) {
          case Found(h) => shown == h && error == (if accepted then None else Rejected)
          case bad => error == ErrorOf(bad)
        }
      ensures input.Unimportable? ==> View() == old(View()) && error == NoResources
      ensures input.Importable? ==>
        && shown == old(next)
        && View() == Store(Step(old(View()), Import), slot, shown)
        && error == if accepted then ErrorOf(old(Find(displayData, slot))) else Rejected
    {
      var useCache := input == NullHandle;
      shown := 0;
      error, shown := LookupBuffer(slot, useCache, input);
      if error == None {
        error := if accepted then None else Rejected;
        var updateError := UpdateBuffer(slot, useCache, shown);
        if error == None {
          error := updateError;
        }
      }
    }

    method SetClientTargetSlotCount(display: nat, count: nat) returns (error: Error)
      modifies this`displayData, this`cleared
      ensures View() == old(Step(View(), SetSlotCount(display, count)))
      ensures error == if display in old(displayData) then None else NoDisplay
      ensures display in old(displayData) ==>
        var was := old(displayData)[display];
        && display in displayData && Sized(was.clientTargets, displayData[display].clientTargets, count)
        && displayData ==
             old(displayData)[display := was.(clientTargets := displayData[display].clientTargets)]
    {
      if display !in displayData {
        return NoDisplay;
      }
      var d := displayData[display];
      var targets := ResizeEntries(d.clientTargets, count);
      displayData := displayData[display := d.(clientTargets := targets)];
      error := None;
    }

    /** `created`: the session made the layer. */
    method CreateLayer(display: nat, layer: nat, count: nat, created: bool) returns (error: Error)
      modifies this`displayData, this`cleared
      ensures View() == old(if created then Step(View(), Event.CreateLayer(display, layer, count)) else View())
      ensures error == if !created then Rejected else if display in old(displayData) then None else NoDisplay
      ensures created && display in old(displayData) ==>
        var was := old(displayData)[display];
        && display in displayData && layer in displayData[display].layers
        && displayData[display].layers.Keys == was.layers.Keys + {layer}
        && var l, now := if layer in was.layers then was.layers[layer] else LayerBuffers([], 0),
                         displayData[display].layers[layer];
           Sized(l.buffers, now.buffers, count) && now.sideband == l.sideband
    {
      if !created {
        return Rejected;
      }
      if display !in displayData {
        return NoDisplay;
      }
      var d := displayData[display];
      var buffers := if layer in d.layers then d.layers[layer] else LayerBuffers([], 0);
      var entries := ResizeEntries(buffers.buffers, count);
      displayData := displayData[display := d.(layers := d.layers[layer := buffers.(buffers := entries)])];
      error := None;
    }

    method DestroyLayer(display: nat, layer: nat, destroyed: bool) returns (error: Error)
      modifies this`displayData, this`cleared
      ensures View() == old(if destroyed then Step(View(), Event.DestroyLayer(display, layer)) else View())
      ensures error == if destroyed then None else Rejected
      ensures destroyed && display in old(displayData) ==>
        var was := old(displayData)[display];
        display in displayData && displayData[display].layers == was.layers - {layer}
    {
      if !destroyed {
        return Rejected;
      }
      if display in displayData {
        var d := displayData[display];
        if layer in d.layers {
          ClearLayer(d.layers[layer]);
          displayData := displayData[display := d.(layers := d.layers - {layer})];
        }
      }
      error := None;
    }

    method CreateVirtualDisplay(display: nat, count: nat, created: bool) returns (error: Error)
      modifies this`displayData, this`cleared
      ensures View() == old(if created then Step(View(), CreateVirtual(display, count)) else View())
      ensures error == if created then None else Rejected
      ensures created ==>
        var was := if display in old(displayData) then old(displayData)[display] else DisplayData(true, [], [], map[]);
        && display in displayData && Sized(was.outputBuffers, displayData[display].outputBuffers, count)
        && displayData[display] == was.(outputBuffers := displayData[display].outputBuffers)
    {
      if !created {
        return Rejected;
      }
      var d := if display in displayData then displayData[display] else NewDisplay(true);
      var outputs := ResizeEntries(d.outputBuffers, count);
      displayData := displayData[display := d.(outputBuffers := outputs)];
      error := None;
    }

    method EraseDisplay(display: nat)
      modifies this`displayData, this`cleared
      ensures View() == old(Step(View(), Remove(display))) && displayData == old(displayData) - {display}
    {
      if display in displayData {
        ClearDisplay(displayData[display]);
        displayData := displayData - {display};
      }
    }

    method OnHotplug(display: nat, connected: bool, registered: bool)
      modifies this`displayData, this`cleared
      ensures View() ==
        old(if !registered then View() else Step(View(), if connected then Connect(display) else Remove(display)))
      ensures displayData ==
        if !registered then old(displayData)
        else if !connected then old(displayData) - {display}
        else map[display := DisplayData(false, [], [], map[])] + old(displayData)
    {
      if !registered {
        return;
      }
      if connected {
        if display !in displayData {
          displayData := displayData[display := NewDisplay(false)];
        }
      } else {
        EraseDisplay(display);
      }
    }

    /** mDisplayData.clear() of the destructor. */
    method ClearDisplays()
      modifies this`displayData, this`cleared
      ensures View() == old(Step(View(), Teardown)) && displayData == map[]
    {
      while displayData != map[]
        invariant cleared + Cached(displayData) == old(cleared) + Cached(old(displayData))
        decreases |displayData|
      {
        ClearOneDisplay();
      }
      NothingCached();
    }

    method ClearOneDisplay()
      requires displayData != map[]
      modifies this`displayData, this`cleared
      ensures |displayData| < |old(displayData)|
      ensures cleared + Cached(displayData) == old(cleared) + Cached(old(displayData))
    {
      var d := Least(displayData.Keys);
      TakeOut(displayData, DisplayHandles, d);
      ClearDisplay(displayData[d]);
      displayData := displayData - {d};
    }
  }

  lemma NothingCached()
    ensures Cached(map[]) == multiset{}
  {
    var none: Displays := map[];
    assert Table(none, DisplayHandles) == map[];
  }

  lemma TakeOut<V>(m: map<nat, V>, f: V -> multiset<nat>, k: nat)
    requires k in m
    ensures Sum(Table(m, f)) == f(m[k]) + Sum(Table(m - {k}, f))
  {
    TablePut(m, f, k, m[k]);
    assert m[k := m[k]] == m;
  }
}
