/** The buffer handles a composer client has imported, cached by display, layer and slot.  Handle 0 is
    the null handle; every other handle is numbered when it is imported. */
module BufferCache {
  import opened Counting
  import opened KeyOrder

  datatype LayerBuffers = LayerBuffers(buffers: seq<nat>, sideband: nat)

  datatype DisplayData = DisplayData(isVirtual: bool, clientTargets: seq<nat>, outputBuffers: seq<nat>,
                                     layers: map<nat, LayerBuffers>)

  datatype Cache = ClientTargets | OutputBuffers | Buffers(layer: nat) | SidebandStream(layer: nat)

  datatype Slot = Slot(display: nat, cache: Cache, index: nat)

  datatype Lookup = Found(handle: nat) | BadDisplay | BadLayer | BadParameter

  type Displays = map<nat, DisplayData>

  /** `inFlight`: imported, not yet put into a slot.  `leaked`: imported, but there was no slot to put it
      in.  `cleared`: the handle of every cache entry ever cleared; clearing a null entry frees nothing. */
  datatype State = State(displays: Displays, next: nat, inFlight: set<nat>, leaked: set<nat>, cleared: multiset<nat>)

  datatype Event =
    | Import                                    // lookupBuffer without the cache, importer succeeds
    | Update(slot: Slot, handle: nat)           // updateBuffer
    | SetSlotCount(display: nat, count: nat)
    | CreateLayer(display: nat, layer: nat, count: nat)
    | DestroyLayer(display: nat, layer: nat)
    | CreateVirtual(display: nat, count: nat)
    | Connect(display: nat)
    | Remove(display: nat)                      // hotplug disconnect, or destroyVirtualDisplay
    | Teardown                                  // the client goes away

  const EMPTY := State(map[], 1, {}, {}, multiset{})

  // ---------------------------------------------------------------- operations

  function Entry(entries: seq<nat>, index: nat): Lookup {
    if index < |entries| then Found(entries[index]) else BadParameter
  }

  function FindIn(d: DisplayData, k: Slot): Lookup {
    match k.cache
    case ClientTargets => Entry(d.clientTargets, k.index)
    case OutputBuffers => Entry(d.outputBuffers, k.index)
    case Buffers(l) => if l in d.layers then Entry(d.layers[l].buffers, k.index) else BadLayer
    case SidebandStream(l) => if l in d.layers then Entry([d.layers[l].sideband], k.index) else BadLayer
  }

  /** lookupBufferCacheEntryLocked. */
  function Find(displays: Displays, k: Slot): Lookup {
    if k.display in displays then FindIn(displays[k.display], k) else BadDisplay
  }

  function Put(d: DisplayData, k: Slot, h: nat): DisplayData
    requires FindIn(d, k).Found?
  {
    match k.cache
    case ClientTargets => d.(clientTargets := d.clientTargets[k.index := h])
    case OutputBuffers => d.(outputBuffers := d.outputBuffers[k.index := h])
    case Buffers(l) => d.(layers := d.layers[l := d.layers[l].(buffers := d.layers[l].buffers[k.index := h])])
    case SidebandStream(l) => d.(layers := d.layers[l := d.layers[l].(sideband := h)])
  }

  /** std::vector::resize. */
  function Resize(entries: seq<nat>, count: nat): (r: seq<nat>)
    ensures |r| == count
    ensures forall i :: 0 <= i < count ==> r[i] == if i < |entries| then entries[i] else 0
  {
    if count <= |entries| then entries[..count] else entries + seq(count - |entries|, i => 0)
  }

  /** The handles resize clears. */
  function Cut(entries: seq<nat>, count: nat): multiset<nat> {
    if count <= |entries| then multiset(entries[count..]) else multiset{}
  }

  function NewDisplay(isVirtual: bool): DisplayData {
    DisplayData(isVirtual, [], [], map[])
  }

  function LayerHandles(l: LayerBuffers): multiset<nat> {
    multiset(l.buffers) + multiset{l.sideband}
  }

  function Table<V>(m: map<nat, V>, f: V -> multiset<nat>): map<nat, multiset<nat>> {
    map k | k in m :: f(m[k])
  }

  function DisplayHandles(d: DisplayData): multiset<nat> {
    multiset(d.clientTargets) + multiset(d.outputBuffers) + Sum(Table(d.layers, LayerHandles))
  }

  /** Every handle in the cache, with repetition. */
  function Cached(displays: Displays): multiset<nat> {
    Sum(Table(displays, DisplayHandles))
  }

  predicate Enabled(s: State, e: Event) {
    e.Update? ==> e.handle == 0 || e.handle in s.inFlight
  }

  function SetDisplay(s: State, d: nat, data: DisplayData, cleared: multiset<nat>): State {
    s.(displays := s.displays[d := data], cleared := s.cleared + cleared)
  }

  function Store(s: State, k: Slot, h: nat): State {
    var r := Find(s.displays, k);
    if r.Found? then
      SetDisplay(s, k.display, Put(s.displays[k.display], k, h), multiset{r.handle}).(inFlight := s.inFlight - {h})
    else s.(inFlight := s.inFlight - {h}, leaked := s.leaked + (if h == 0 then {} else {h}))
  }

  function AddLayer(s: State, d: nat, l: nat, count: nat): State {
    if d !in s.displays then s
    else
      var data := s.displays[d];
      var layer := if l in data.layers then data.layers[l] else LayerBuffers([], 0);
      SetDisplay(s, d, data.(layers := data.layers[l := layer.(buffers := Resize(layer.buffers, count))]),
                 Cut(layer.buffers, count))
  }

  function DropLayer(s: State, d: nat, l: nat): State {
    if d !in s.displays || l !in s.displays[d].layers then s
    else
      var data := s.displays[d];
      SetDisplay(s, d, data.(layers := data.layers - {l}), LayerHandles(data.layers[l]))
  }

  function SizeTargets(s: State, d: nat, count: nat): State {
    if d !in s.displays then s
    else
      var data := s.displays[d];
      SetDisplay(s, d, data.(clientTargets := Resize(data.clientTargets, count)), Cut(data.clientTargets, count))
  }

  function AddVirtual(s: State, d: nat, count: nat): State {
    var data := if d in s.displays then s.displays[d] else NewDisplay(true);
    SetDisplay(s, d, data.(outputBuffers := Resize(data.outputBuffers, count)), Cut(data.outputBuffers, count))
  }

  function DropDisplay(s: State, d: nat): State {
    if d !in s.displays then s
    else s.(displays := s.displays - {d}, cleared := s.cleared + DisplayHandles(s.displays[d]))
  }

  function Step(s: State, e: Event): State
    requires Enabled(s, e)
  {
    match e
    case Import => s.(next := s.next + 1, inFlight := s.inFlight + {s.next})
    case Update(k, h) => Store(s, k, h)
    case SetSlotCount(d, n) => SizeTargets(s, d, n)
    case CreateLayer(d, l, n) => AddLayer(s, d, l, n)
    case DestroyLayer(d, l) => DropLayer(s, d, l)
    case CreateVirtual(d, n) => AddVirtual(s, d, n)
    case Connect(d) => if d in s.displays then s else SetDisplay(s, d, NewDisplay(false), multiset{})
    case Remove(d) => DropDisplay(s, d)
    case Teardown => s.(displays := map[], cleared := s.cleared + Cached(s.displays))
  }

  predicate ValidRun(s: State, events: seq<Event>)
    decreases |events|
  {
    events == [] || (Enabled(s, events[0]) && ValidRun(Step(s, events[0]), events[1..]))
  }

  function Exec(s: State, events: seq<Event>): State
    requires ValidRun(s, events)
    decreases |events|
  {
    if events == [] then s else Exec(Step(s, events[0]), events[1..])
  }

  // ---------------------------------------------------------------- sums over maps

  function Sum(m: map<nat, multiset<nat>>): multiset<nat>
    decreases |m|
  {
    if m == map[] then multiset{}
    else
      var k := Least(m.Keys);
      m[k] + Sum(m - {k})
  }

  /** The order of summation does not matter: any key can be taken out first. */
  lemma {:induction false} SumRemove(m: map<nat, multiset<nat>>, k: nat)
    requires k in m
    ensures Sum(m) == m[k] + Sum(m - {k})
    decreases |m|
  {
    var j := Least(m.Keys);
    if j != k {
      SumRemove(m - {j}, k);
      SumRemove(m - {k}, j);
      assert m - {j} - {k} == m - {k} - {j};
    }
  }

  lemma SumPut(m: map<nat, multiset<nat>>, k: nat, v: multiset<nat>)
    ensures Sum(m[k := v]) == v + Sum(m - {k})
  {
    SumRemove(m[k := v], k);
    assert m[k := v] - {k} == m - {k};
  }

  // ---------------------------------------------------------------- conservation of handles

  lemma ResizeConserves(entries: seq<nat>, count: nat, h: nat)
    requires h != 0
    ensures multiset(Resize(entries, count))[h] + Cut(entries, count)[h] == multiset(entries)[h]
  {
    if count <= |entries| {
      assert entries == entries[..count] + entries[count..];
    } else {
      var zeros := seq(count - |entries|, i => 0);
      assert multiset(entries + zeros) == multiset(entries) + multiset(zeros);
      assert h !in zeros;
    }
  }

  lemma TablePut<V>(m: map<nat, V>, f: V -> multiset<nat>, k: nat, v: V)
    ensures Sum(Table(m[k := v], f)) == f(v) + Sum(Table(m - {k}, f))
  {
    SumPut(Table(m, f), k, f(v));
    assert Table(m[k := v], f) == Table(m, f)[k := f(v)];
    assert Table(m - {k}, f) == Table(m, f) - {k};
  }

  /** How often `h` occurs in the table. */
  function Count<V>(m: map<nat, V>, f: V -> multiset<nat>, h: nat): nat {
    Sum(Table(m, f))[h]
  }

  lemma CountPut<V>(m: map<nat, V>, f: V -> multiset<nat>, k: nat, v: V, h: nat)
    ensures Count(m[k := v], f, h) == f(v)[h] + Count(m - {k}, f, h)
  {
    TablePut(m, f, k, v);
  }

  lemma CountDrop<V>(m: map<nat, V>, f: V -> multiset<nat>, k: nat, h: nat)
    ensures Count(m, f, h) == (if k in m then f(m[k])[h] else 0) + Count(m - {k}, f, h)
  {
    if k in m {
      CountPut(m, f, k, m[k], h);
      assert m[k := m[k]] == m;
    } else {
      assert m - {k} == m;
    }
  }

  lemma CountReplace<V>(m: map<nat, V>, f: V -> multiset<nat>, k: nat, v: V, h: nat)
    ensures Count(m[k := v], f, h) + (if k in m then f(m[k])[h] else 0) == Count(m, f, h) + f(v)[h]
  {
    CountPut(m, f, k, v, h);
    CountDrop(m, f, k, h);
  }

  function HandleCount(d: DisplayData, h: nat): nat {
    DisplayHandles(d)[h]
  }

  /** How often `h` is in the cache or was cleared out of it. */
  function Seen(s: State, h: nat): nat {
    Count(s.displays, DisplayHandles, h) + s.cleared[h]
  }

  /** Replacing one display moves the count by what that display gained. */
  lemma SetDisplaySeen(s: State, d: nat, data: DisplayData, cleared: multiset<nat>, h: nat)
    ensures Seen(SetDisplay(s, d, data, cleared), h) + (if d in s.displays then HandleCount(s.displays[d], h) else 0) ==
            Seen(s, h) + HandleCount(data, h) + cleared[h]
  {
    CountReplace(s.displays, DisplayHandles, d, data, h);
  }

  lemma NewDisplayEmpty(isVirtual: bool)
    ensures DisplayHandles(NewDisplay(isVirtual)) == multiset{}
  {
    var none: map<nat, LayerBuffers> := map[];
    assert Table(none, LayerHandles) == map[];
  }

  lemma DisplayCount(d: DisplayData, h: nat)
    ensures HandleCount(d, h) ==
      multiset(d.clientTargets)[h] + multiset(d.outputBuffers)[h] + Count(d.layers, LayerHandles, h)
  {
  }

  lemma SetLayerHandles(d: DisplayData, l: nat, layer: LayerBuffers, h: nat)
    ensures HandleCount(d.(layers := d.layers[l := layer]), h) +
            (if l in d.layers then LayerHandles(d.layers[l])[h] else 0) ==
            HandleCount(d, h) + LayerHandles(layer)[h]
  {
    DisplayCount(d, h);
    DisplayCount(d.(layers := d.layers[l := layer]), h);
    CountReplace(d.layers, LayerHandles, l, layer, h);
  }

  lemma EntriesPut(entries: seq<nat>, i: nat, v: nat, h: nat)
    requires i < |entries|
    ensures multiset(entries[i := v])[h] + One(entries[i] == h) == multiset(entries)[h] + One(v == h)
  {
  }

  lemma PutTopCount(d: DisplayData, targets: seq<nat>, outputs: seq<nat>, h: nat)
    ensures HandleCount(d.(clientTargets := targets, outputBuffers := outputs), h) +
              multiset(d.clientTargets)[h] + multiset(d.outputBuffers)[h] ==
            HandleCount(d, h) + multiset(targets)[h] + multiset(outputs)[h]
  {
    DisplayCount(d, h);
    DisplayCount(d.(clientTargets := targets, outputBuffers := outputs), h);
  }

  lemma PutBufferCount(layer: LayerBuffers, i: nat, v: nat, h: nat)
    requires i < |layer.buffers|
    ensures LayerHandles(layer.(buffers := layer.buffers[i := v]))[h] + One(layer.buffers[i] == h) ==
            LayerHandles(layer)[h] + One(v == h)
  {
    EntriesPut(layer.buffers, i, v, h);
  }

  lemma PutSidebandCount(layer: LayerBuffers, v: nat, h: nat)
    ensures LayerHandles(layer.(sideband := v))[h] + One(layer.sideband == h) == LayerHandles(layer)[h] + One(v == h)
  {
  }

  lemma PutHandles(d: DisplayData, k: Slot, v: nat, h: nat)
    requires FindIn(d, k).Found?
    ensures HandleCount(Put(d, k, v), h) + One(FindIn(d, k).handle == h) == HandleCount(d, h) + One(v == h)
  {
    match k.cache
    case ClientTargets =>
      EntriesPut(d.clientTargets, k.index, v, h);
      PutTopCount(d, d.clientTargets[k.index := v], d.outputBuffers, h);
    case OutputBuffers =>
      EntriesPut(d.outputBuffers, k.index, v, h);
      PutTopCount(d, d.clientTargets, d.outputBuffers[k.index := v], h);
    case Buffers(l) =>
      PutBufferCount(d.layers[l], k.index, v, h);
      SetLayerHandles(d, l, d.layers[l].(buffers := d.layers[l].buffers[k.index := v]), h);
    case SidebandStream(l) =>
      PutSidebandCount(d.layers[l], v, h);
      SetLayerHandles(d, l, d.layers[l].(sideband := v), h);
  }

  lemma StoreSeen(s: State, k: Slot, v: nat, h: nat)
    ensures Seen(Store(s, k, v), h) == Seen(s, h) + One(Find(s.displays, k).Found? && v == h)
  {
    var r := Find(s.displays, k);
    if r.Found? {
      var d := s.displays[k.display];
      PutHandles(d, k, v, h);
      SetDisplaySeen(s, k.display, Put(d, k, v), multiset{r.handle}, h);
      assert multiset{r.handle}[h] == One(r.handle == h);
    }
  }

  lemma AddLayerSeen(s: State, d: nat, l: nat, count: nat, h: nat)
    requires h != 0
    ensures Seen(AddLayer(s, d, l, count), h) == Seen(s, h)
  {
    if d in s.displays {
      var data := s.displays[d];
      var layer := if l in data.layers then data.layers[l] else LayerBuffers([], 0);
      var sized := layer.(buffers := Resize(layer.buffers, count));
      ResizeConserves(layer.buffers, count, h);
      SetLayerHandles(data, l, sized, h);
      SetDisplaySeen(s, d, data.(layers := data.layers[l := sized]), Cut(layer.buffers, count), h);
    }
  }

  lemma DropLayerSeen(s: State, d: nat, l: nat, h: nat)
    ensures Seen(DropLayer(s, d, l), h) == Seen(s, h)
  {
    if d in s.displays && l in s.displays[d].layers {
      var data := s.displays[d];
      CountDrop(data.layers, LayerHandles, l, h);
      DisplayCount(data, h);
      DisplayCount(data.(layers := data.layers - {l}), h);
      SetDisplaySeen(s, d, data.(layers := data.layers - {l}), LayerHandles(data.layers[l]), h);
    }
  }

  lemma SizeTargetsSeen(s: State, d: nat, count: nat, h: nat)
    requires h != 0
    ensures Seen(SizeTargets(s, d, count), h) == Seen(s, h)
  {
    if d in s.displays {
      var data := s.displays[d];
      ResizeConserves(data.clientTargets, count, h);
      var resized := data.(clientTargets := Resize(data.clientTargets, count));
      SetDisplaySeen(s, d, resized, Cut(data.clientTargets, count), h);
    }
  }

  lemma AddVirtualSeen(s: State, d: nat, count: nat, h: nat)
    requires h != 0
    ensures Seen(AddVirtual(s, d, count), h) == Seen(s, h)
  {
    var data := if d in s.displays then s.displays[d] else NewDisplay(true);
    NewDisplayEmpty(true);
    ResizeConserves(data.outputBuffers, count, h);
    SetDisplaySeen(s, d, data.(outputBuffers := Resize(data.outputBuffers, count)), Cut(data.outputBuffers, count), h);
  }

  /** An event puts a handle into the cache, or takes it out to be cleared, only by storing it. */
  lemma StepSeen(s: State, e: Event, h: nat)
    requires Enabled(s, e) && h != 0
    ensures Seen(Step(s, e), h) == Seen(s, h) + One(e.Update? && e.handle == h && Find(s.displays, e.slot).Found?)
  {
    match e
    case Import =>
    case Update(k, v) => StoreSeen(s, k, v, h);
    case SetSlotCount(d, n) => SizeTargetsSeen(s, d, n, h);
    case CreateLayer(d, l, n) => AddLayerSeen(s, d, l, n, h);
    case DestroyLayer(d, l) => DropLayerSeen(s, d, l, h);
    case CreateVirtual(d, n) => AddVirtualSeen(s, d, n, h);
    case Connect(d) =>
      NewDisplayEmpty(false);
      SetDisplaySeen(s, d, NewDisplay(false), multiset{}, h);
    case Remove(d) =>
      if d in s.displays {
        CountDrop(s.displays, DisplayHandles, d, h);
      }
    case Teardown =>
      var none: Displays := map[];
      assert Table(none, DisplayHandles) == map[];
  }

  /** Each imported handle is in exactly one place: on its way to a slot, in one slot once, leaked, or
      freed once.  Handles not imported yet are nowhere. */
  predicate Accounted(s: State, h: nat) {
    One(h in s.inFlight) + One(h in s.leaked) + Seen(s, h) == One(h < s.next)
  }

  lemma StepAccounts(s: State, e: Event, h: nat)
    requires Enabled(s, e) && h != 0 && Accounted(s, h)
    ensures Accounted(Step(s, e), h)
  {
    StepSeen(s, e, h);
  }

  /** Conservation over every run of imports, updates, resizes, layer and display removals and teardown. */
  lemma {:induction false} HandlesConserved(s: State, events: seq<Event>, h: nat)
    requires ValidRun(s, events) && h != 0 && Accounted(s, h)
    ensures Accounted(Exec(s, events), h)
    decreases |events|
  {
    if events == [] {
    } else {
      StepAccounts(s, events[0], h);
      HandlesConserved(Step(s, events[0]), events[1..], h);
    }
  }
}
