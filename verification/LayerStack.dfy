/** The layers of one display: the table from id to layer, the set ordered by z, and the negotiation of
    composition types between client and driver.  Layers are named by their ids. */
module LayerStack {

  datatype Composition = Invalid | Client | Device | SolidColor | Cursor | Decoration

  datatype SdmComposition = Sde | Stitch | Gpu | HwCursor | OtherSdm

  /** `since`: when the layer last came to its z, on the clock of the history. */
  datatype Layer = Layer(id: nat, z: nat, since: nat, requested: Composition, selected: Composition,
                         sdm: SdmComposition, solidFill: bool, mask: bool)

  /** `table` is layer_map_: true for an entry that points to a layer, false for a null pointer.
      `fault`: a null pointer has been compared. */
  datatype State = State(layers: seq<Layer>, table: map<nat, bool>, changes: map<nat, Composition>, validated: bool,
                         nextId: nat, clock: nat, fault: bool)

  datatype Event =
    | Create
    | Destroy(id: nat)
    | SetZ(id: nat, z: nat)
    | SetRequested(id: nat, composition: Composition)
    | SetFlags(id: nat, solidFill: bool, mask: bool)
    | SdmChooses(id: nat, sdm: SdmComposition)
    | Prepare           // a validation that the driver, if it is asked, answers
    | PrepareBypassed   // a validation of a paused display, or without resources for it
    | PrepareRefused    // a validation that the driver, if it is asked, refuses
    | Accept

  datatype Error = None | BadLayer | BadDisplay | NotValidated | HasChanges

  const EMPTY := State([], map[], map[], false, 0, 0, false)

  // ---------------------------------------------------------------- operations

  /** Position of the layer, or |layers|. */
  function IndexOf(layers: seq<Layer>, id: nat): (i: nat)
    ensures i <= |layers| && (i < |layers| ==> layers[i].id == id)
    ensures forall j :: 0 <= j < i ==> layers[j].id != id
  {
    if layers == [] then 0 else if layers[0].id == id then 0 else 1 + IndexOf(layers[1..], id)
  }

  /** Where std::multiset inserts: behind every layer that is not above `z`. */
  function UpperBound(layers: seq<Layer>, z: nat, from: nat): (p: nat)
    requires from <= |layers|
    ensures from <= p <= |layers|
    ensures forall j :: from <= j < p ==> layers[j].z <= z
    ensures p < |layers| ==> layers[p].z > z
    decreases |layers| - from
  {
    if from == |layers| || layers[from].z > z then from else UpperBound(layers, z, from + 1)
  }

  function Insert(layers: seq<Layer>, layer: Layer): (r: seq<Layer>)
    ensures |r| == |layers| + 1
    ensures var p := UpperBound(layers, layer.z, 0);
      && r[p] == layer
      && (forall k :: 0 <= k < p ==> r[k] == layers[k])
      && (forall k :: p < k < |r| ==> r[k] == layers[k - 1])
  {
    var p := UpperBound(layers, layer.z, 0);
    layers[..p] + [layer] + layers[p..]
  }

  function RemoveAt(layers: seq<Layer>, i: nat): (r: seq<Layer>)
    requires i < |layers|
    ensures |r| == |layers| - 1
    ensures forall k :: 0 <= k < |r| ==> r[k] == layers[if k < i then k else k + 1]
  {
    layers[..i] + layers[i + 1..]
  }

  function NewLayer(id: nat, clock: nat): Layer {
    Layer(id, 0, clock, Device, Device, OtherSdm, false, false)
  }

  function CreateLayer(s: State): State {
    s.(layers := Insert(s.layers, NewLayer(s.nextId, s.clock)), table := s.table[s.nextId := true],
       nextId := s.nextId + 1, clock := s.clock + 1)
  }

  function DestroyLayer(s: State, id: nat): State {
    if id !in s.table then s
    else if !s.table[id] then s.(table := s.table - {id}, fault := s.layers != [])
    else
      var i := IndexOf(s.layers, id);
      s.(table := s.table - {id}, layers := if i < |s.layers| then RemoveAt(s.layers, i) else s.layers)
  }

  function SetLayerZOrder(s: State, id: nat, z: nat): State {
    if id !in s.table then s
    else if !s.table[id] then s.(fault := s.layers != [])
    else
      var i := IndexOf(s.layers, id);
      if i == |s.layers| || s.layers[i].z == z then s
      else s.(layers := Insert(RemoveAt(s.layers, i), s.layers[i].(z := z, since := s.clock)), clock := s.clock + 1)
  }

  /** HWCLayer::SetComposition. */
  function Select(l: Layer): Composition {
    if l.sdm.Sde? && l.mask && l.requested.Decoration? then Decoration
    else if l.sdm.Sde? && l.solidFill then SolidColor
    else match l.sdm
      case Gpu => Client
      case HwCursor => Cursor
      case _ => Device
  }

  function Selected(layers: seq<Layer>): (r: seq<Layer>)
    ensures |r| == |layers| && forall i :: 0 <= i < |layers| ==> r[i] == layers[i].(selected := Select(layers[i]))
  {
    seq(|layers|, i requires 0 <= i < |layers| => layers[i].(selected := Select(layers[i])))
  }

  /** layer_changes_ after the first `n` layers. */
  function ChangesOf(layers: seq<Layer>, n: nat): map<nat, Composition>
    requires n <= |layers|
  {
    if n == 0 then map[]
    else
      var l := layers[n - 1];
      if l.requested != l.selected then ChangesOf(layers, n - 1)[l.id := l.selected] else ChangesOf(layers, n - 1)
  }

  /** PostPrepareLayerStack: only here the changes of the last validation give way to new ones. */
  function PostPrepare(s: State): State {
    var layers := Selected(s.layers);
    s.(layers := layers, changes := ChangesOf(layers, |layers|), validated := true)
  }

  /** A validation of an empty display ends before the driver is asked: it counts as done, and the changes
      stay as they were. */
  function PrepareLayers(s: State): State {
    if s.layers == [] then s.(validated := true) else PostPrepare(s)
  }

  function Bypassed(layers: seq<Layer>): (r: seq<Layer>)
    ensures |r| == |layers| && forall i :: 0 <= i < |layers| ==> r[i] == layers[i].(sdm := Sde)
  {
    seq(|layers|, i requires 0 <= i < |layers| => layers[i].(sdm := Sde))
  }

  /** So does one of a paused display; its layers are marked to bypass the GPU. */
  function BypassLayers(s: State): State {
    s.(layers := Bypassed(s.layers), validated := true)
  }

  function Accepted(layers: seq<Layer>, changes: map<nat, Composition>): (r: seq<Layer>)
    ensures |r| == |layers|
    ensures forall i :: 0 <= i < |layers| ==>
      r[i] == if layers[i].id in changes then layers[i].(requested := changes[layers[i].id]) else layers[i]
  {
    seq(|layers|, i requires 0 <= i < |layers| =>
      if layers[i].id in changes then layers[i].(requested := changes[layers[i].id]) else layers[i])
  }

  /** operator[] of std::map leaves a null pointer for every changed layer that is gone. */
  function WithNulls(table: map<nat, bool>, changes: map<nat, Composition>): (t: map<nat, bool>)
    ensures t.Keys == table.Keys + changes.Keys
    ensures forall id :: id in table ==> t[id] == table[id]
    ensures forall id :: id in changes && id !in table ==> !t[id]
  {
    map id | id in table.Keys + changes.Keys :: if id in table then table[id] else false
  }

  function AcceptChanges(s: State): State {
    if s.layers == [] || !s.validated then s
    else s.(layers := Accepted(s.layers, s.changes), table := WithNulls(s.table, s.changes), changes := map[])
  }

  function Edit(s: State, id: nat, e: Event): State {
    var i := IndexOf(s.layers, id);
    if i == |s.layers| then s
    else
      var l := s.layers[i];
      match e
      case SetRequested(_, c) => s.(layers := s.layers[i := l.(requested := c)])
      case SetFlags(_, solid, mask) => s.(layers := s.layers[i := l.(solidFill := solid, mask := mask)])
      case SdmChooses(_, sdm) => s.(layers := s.layers[i := l.(sdm := sdm)])
      case _ => s
  }

  function Step(s: State, e: Event): State {
    match e
    case Create => CreateLayer(s)
    case Destroy(id) => DestroyLayer(s, id)
    case SetZ(id, z) => SetLayerZOrder(s, id, z)
    case SetRequested(id, _) => Edit(s, id, e)
    case SetFlags(id, _, _) => Edit(s, id, e)
    case SdmChooses(id, _) => Edit(s, id, e)
    case Prepare => PrepareLayers(s)
    case PrepareBypassed => BypassLayers(s)
    case PrepareRefused => s.(validated := s.layers == [])
    case Accept => AcceptChanges(s)
  }

  /** Runs stop at the first comparison of a null pointer. */
  function Exec(s: State, events: seq<Event>): State
    decreases |events|
  {
    if events == [] || s.fault then s else Exec(Step(s, events[0]), events[1..])
  }

  // ---------------------------------------------------------------- the table and the set agree

  predicate Before(a: Layer, b: Layer) {
    a.z < b.z || (a.z == b.z && a.since < b.since)
  }

  /** Ordered by z, and among equals by who came last to that z. */
  predicate Ordered(layers: seq<Layer>) {
    forall i, j :: 0 <= i < j < |layers| ==> Before(layers[i], layers[j])
  }

  predicate DistinctIds(layers: seq<Layer>) {
    forall i, j :: 0 <= i < j < |layers| ==> layers[i].id != layers[j].id
  }

  predicate Past(layers: seq<Layer>, clock: nat) {
    forall i :: 0 <= i < |layers| ==> layers[i].since < clock
  }

  predicate LiveIn(table: map<nat, bool>, id: nat) {
    id in table && table[id]
  }

  predicate Live(s: State, id: nat) {
    LiveIn(s.table, id)
  }

  ghost predicate TableFits(layers: seq<Layer>, table: map<nat, bool>) {
    && (forall i :: 0 <= i < |layers| ==> LiveIn(table, layers[i].id))
    && (forall id :: LiveIn(table, id) ==> IndexOf(layers, id) < |layers|)
  }

  ghost predicate TableAgrees(s: State) {
    TableFits(s.layers, s.table)
  }

  predicate IdsKnown(s: State) {
    (forall id :: id in s.table ==> id < s.nextId) && (forall id :: id in s.changes ==> id < s.nextId)
  }

  ghost predicate Inv(s: State) {
    Ordered(s.layers) && DistinctIds(s.layers) && Past(s.layers, s.clock) && TableAgrees(s) && IdsKnown(s)
  }

  lemma InsertOrdered(layers: seq<Layer>, layer: Layer)
    requires Ordered(layers) && Past(layers, layer.since)
    ensures Ordered(Insert(layers, layer))
  {
    var p := UpperBound(layers, layer.z, 0);
    assert forall j :: p <= j < |layers| ==> layers[j].z > layer.z;
  }

  lemma InsertDistinct(layers: seq<Layer>, layer: Layer)
    requires DistinctIds(layers) && IndexOf(layers, layer.id) == |layers|
    ensures DistinctIds(Insert(layers, layer))
  {
    var p, r := UpperBound(layers, layer.z, 0), Insert(layers, layer);
    forall i, j | 0 <= i < j < |r| ensures r[i].id != r[j].id {
      assert i != p ==> r[i] == layers[if i < p then i else i - 1];
      assert j != p ==> r[j] == layers[if j < p then j else j - 1];
    }
  }

  lemma IndexUnique(layers: seq<Layer>, i: nat)
    requires i < |layers| && DistinctIds(layers)
    ensures IndexOf(layers, layers[i].id) == i
  {
  }

  lemma InsertIndex(layers: seq<Layer>, layer: Layer, id: nat)
    ensures IndexOf(Insert(layers, layer), id) < |layers| + 1 <==> id == layer.id || IndexOf(layers, id) < |layers|
  {
    var p := UpperBound(layers, layer.z, 0);
    var r := Insert(layers, layer);
    if IndexOf(layers, id) < |layers| {
      var i := IndexOf(layers, id);
      assert r[if i < p then i else i + 1] == layers[i];
    }
    if IndexOf(r, id) < |r| && id != layer.id {
      var i := IndexOf(r, id);
      assert r[i] == layers[if i < p then i else i - 1];
    }
  }

  lemma RemoveIndex(layers: seq<Layer>, i: nat, id: nat)
    requires i < |layers| && DistinctIds(layers)
    ensures IndexOf(RemoveAt(layers, i), id) < |layers| - 1 <==> id != layers[i].id && IndexOf(layers, id) < |layers|
  {
    var r := RemoveAt(layers, i);
    var j := IndexOf(layers, id);
    if j < |layers| && j != i {
      assert r[if j < i then j else j - 1] == layers[j];
    }
    var k := IndexOf(r, id);
    if k < |r| {
      assert r[k] == layers[if k < i then k else k + 1];
    }
  }

  lemma RemoveKeeps(layers: seq<Layer>, i: nat, clock: nat)
    requires i < |layers| && Ordered(layers) && DistinctIds(layers) && Past(layers, clock)
    ensures Ordered(RemoveAt(layers, i)) && DistinctIds(RemoveAt(layers, i)) && Past(RemoveAt(layers, i), clock)
    ensures IndexOf(RemoveAt(layers, i), layers[i].id) == |layers| - 1
  {
    RemoveIndex(layers, i, layers[i].id);
  }

  /** Layers that differ only in what neither order nor names depend on. */
  predicate SamePlaces(a: seq<Layer>, b: seq<Layer>) {
    |a| == |b| && forall i :: 0 <= i < |a| ==> a[i].id == b[i].id && a[i].z == b[i].z && a[i].since == b[i].since
  }

  lemma SamePlacesIndex(a: seq<Layer>, b: seq<Layer>, id: nat)
    requires SamePlaces(a, b)
    ensures IndexOf(a, id) == IndexOf(b, id)
  {
    var i, j := IndexOf(a, id), IndexOf(b, id);
    assert i < |a| ==> b[i].id == id;
    assert j < |b| ==> a[j].id == id;
  }

  lemma SamePlacesKeeps(a: seq<Layer>, b: seq<Layer>, clock: nat)
    requires SamePlaces(a, b) && Ordered(a) && DistinctIds(a) && Past(a, clock)
    ensures Ordered(b) && DistinctIds(b) && Past(b, clock)
  {
    forall i, j | 0 <= i < j < |b| ensures Before(b[i], b[j]) && b[i].id != b[j].id {
      assert Before(a[i], a[j]);
    }
  }

  lemma CreateKeeps(s: State)
    requires Inv(s)
    ensures Inv(CreateLayer(s))
  {
    CreateOrdered(s.layers, s.nextId, s.clock, s.table);
    InsertTable(s.layers, s.table, NewLayer(s.nextId, s.clock));
  }

  lemma CreateOrdered(layers: seq<Layer>, id: nat, clock: nat, table: map<nat, bool>)
    requires Ordered(layers) && DistinctIds(layers) && Past(layers, clock) && TableFits(layers, table) && id !in table
    ensures var r := Insert(layers, NewLayer(id, clock)); Ordered(r) && DistinctIds(r) && Past(r, clock + 1)
  {
    assert IndexOf(layers, id) == |layers|;
    InsertOrdered(layers, NewLayer(id, clock));
    InsertDistinct(layers, NewLayer(id, clock));
  }

  lemma InsertTable(layers: seq<Layer>, table: map<nat, bool>, layer: Layer)
    requires TableFits(layers, table)
    ensures TableFits(Insert(layers, layer), table[layer.id := true])
  {
    var r, t := Insert(layers, layer), table[layer.id := true];
    var p := UpperBound(layers, layer.z, 0);
    forall k | 0 <= k < |r| ensures LiveIn(t, r[k].id) {
      assert k != p ==> LiveIn(table, layers[if k < p then k else k - 1].id);
    }
    forall id | LiveIn(t, id) ensures IndexOf(r, id) < |r| {
      assert id != layer.id ==> LiveIn(table, id);
      InsertIndex(layers, layer, id);
    }
  }

  lemma RemoveTable(layers: seq<Layer>, table: map<nat, bool>, i: nat)
    requires TableFits(layers, table) && DistinctIds(layers) && i < |layers|
    ensures TableFits(RemoveAt(layers, i), table - {layers[i].id})
  {
    var r, t := RemoveAt(layers, i), table - {layers[i].id};
    forall k | 0 <= k < |r| ensures LiveIn(t, r[k].id) {
      assert LiveIn(table, layers[if k < i then k else k + 1].id);
    }
    forall id | LiveIn(t, id) ensures IndexOf(r, id) < |r| {
      assert LiveIn(table, id);
      RemoveIndex(layers, i, id);
    }
  }

  lemma DestroyKeeps(s: State, id: nat)
    requires Inv(s)
    ensures Inv(DestroyLayer(s, id))
  {
    if Live(s, id) {
      var i := IndexOf(s.layers, id);
      RemoveKeeps(s.layers, i, s.clock);
      RemoveTable(s.layers, s.table, i);
    }
  }

  lemma MoveOrdered(layers: seq<Layer>, i: nat, layer: Layer)
    requires i < |layers| && layer.id == layers[i].id
    requires Ordered(layers) && DistinctIds(layers) && Past(layers, layer.since)
    ensures var moved := Insert(RemoveAt(layers, i), layer);
      Ordered(moved) && DistinctIds(moved) && Past(moved, layer.since + 1)
  {
    var rest := RemoveAt(layers, i);
    RemoveKeeps(layers, i, layer.since);
    InsertOrdered(rest, layer);
    InsertDistinct(rest, layer);
  }

  lemma MoveTable(layers: seq<Layer>, table: map<nat, bool>, i: nat, layer: Layer)
    requires TableFits(layers, table) && DistinctIds(layers) && i < |layers| && layer.id == layers[i].id
    ensures TableFits(Insert(RemoveAt(layers, i), layer), table)
  {
    RemoveTable(layers, table, i);
    InsertTable(RemoveAt(layers, i), table - {layer.id}, layer);
    PutBack(table, layer.id);
    assert LiveIn(table, layers[i].id);
  }

  lemma PutBack(table: map<nat, bool>, id: nat)
    ensures LiveIn(table, id) ==> (table - {id})[id := true] == table
  {
  }

  lemma SetZKeeps(s: State, id: nat, z: nat)
    requires Inv(s)
    ensures Inv(SetLayerZOrder(s, id, z))
  {
    var i := IndexOf(s.layers, id);
    if Live(s, id) && s.layers[i].z != z {
      var layer := s.layers[i].(z := z, since := s.clock);
      MoveOrdered(s.layers, i, layer);
      MoveTable(s.layers, s.table, i, layer);
    }
  }

  lemma SamePlacesTable(s: State, layers: seq<Layer>)
    requires TableAgrees(s) && SamePlaces(s.layers, layers)
    ensures TableAgrees(s.(layers := layers))
  {
    forall id ensures IndexOf(layers, id) == IndexOf(s.layers, id) {
      SamePlacesIndex(layers, s.layers, id);
    }
  }

  lemma ChangesKnown(s: State, layers: seq<Layer>, n: nat)
    requires n <= |layers| && forall i :: 0 <= i < n ==> layers[i].id < s.nextId
    ensures forall id :: id in ChangesOf(layers, n) ==> id < s.nextId
  {
  }

  lemma PrepareKeeps(s: State)
    requires Inv(s)
    ensures Inv(PrepareLayers(s)) && Inv(PostPrepare(s))
  {
    var layers := Selected(s.layers);
    SamePlacesKeeps(s.layers, layers, s.clock);
    SamePlacesTable(s, layers);
    ChangesKnown(s, layers, |layers|);
  }

  lemma BypassKeeps(s: State)
    requires Inv(s)
    ensures Inv(BypassLayers(s))
  {
    SamePlacesKeeps(s.layers, Bypassed(s.layers), s.clock);
    SamePlacesTable(s, Bypassed(s.layers));
  }

  lemma AcceptKeeps(s: State)
    requires Inv(s)
    ensures Inv(AcceptChanges(s))
  {
    var layers := Accepted(s.layers, s.changes);
    SamePlacesKeeps(s.layers, layers, s.clock);
    SamePlacesTable(s, layers);
  }

  lemma EditKeeps(s: State, id: nat, e: Event)
    requires Inv(s)
    ensures Inv(Edit(s, id, e))
  {
    var layers := Edit(s, id, e).layers;
    SamePlacesKeeps(s.layers, layers, s.clock);
    SamePlacesTable(s, layers);
  }

  /** Every operation keeps the stack sorted by z, equals in the order of their arrival at that z, ids
      distinct, and the set made of exactly the layers the table points to. */
  lemma StepKeeps(s: State, e: Event)
    requires Inv(s)
    ensures Inv(Step(s, e))
  {
    match e
    case Create => CreateKeeps(s);
    case Destroy(id) => DestroyKeeps(s, id);
    case SetZ(id, z) => SetZKeeps(s, id, z);
    case SetRequested(id, _) => EditKeeps(s, id, e);
    case SetFlags(id, _, _) => EditKeeps(s, id, e);
    case SdmChooses(id, _) => EditKeeps(s, id, e);
    case Prepare => PrepareKeeps(s);
    case PrepareBypassed => BypassKeeps(s);
    case PrepareRefused =>
    case Accept => AcceptKeeps(s);
  }

  /** In every reachable state the set is sorted and made of exactly the layers the table points to. */
  lemma ReachableSorted(events: seq<Event>)
    ensures Inv(Exec(EMPTY, events))
  {
    RunKeeps(EMPTY, events);
  }

  lemma {:induction false} RunKeeps(s: State, events: seq<Event>)
    requires Inv(s)
    ensures Inv(Exec(s, events))
    decreases |events|
  {
    if events == [] || s.fault {
    } else {
      StepKeeps(s, events[0]);
      RunKeeps(Step(s, events[0]), events[1..]);
    }
  }
}
