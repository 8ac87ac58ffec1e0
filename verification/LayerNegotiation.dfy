/** Validate and accept on the layers of `LayerStack`. */
module LayerNegotiation {
  import opened LayerStack

  function Differing(layers: seq<Layer>, n: nat): (c: nat)
    requires n <= |layers|
    ensures c <= n
  {
    if n == 0 then 0
    else Differing(layers, n - 1) + (if layers[n - 1].requested != layers[n - 1].selected then 1 else 0)
  }

  lemma {:induction false} ChangedIds(layers: seq<Layer>, n: nat, id: nat)
    requires n <= |layers| && id in ChangesOf(layers, n)
    ensures IndexOf(layers, id) < n
    decreases n
  {
    if id in ChangesOf(layers, n - 1) {
      ChangedIds(layers, n - 1, id);
    }
  }

  lemma {:induction false} ChangesExact(layers: seq<Layer>, n: nat, i: nat)
    requires i < n <= |layers| && DistinctIds(layers)
    ensures layers[i].id in ChangesOf(layers, n) <==> layers[i].requested != layers[i].selected
    ensures layers[i].id in ChangesOf(layers, n) ==> ChangesOf(layers, n)[layers[i].id] == layers[i].selected
    decreases n
  {
    if i < n - 1 {
      ChangesExact(layers, n - 1, i);
    } else if layers[i].id in ChangesOf(layers, n - 1) {
      ChangedIds(layers, n - 1, layers[i].id);
      IndexUnique(layers, i);
    }
  }

  lemma {:induction false} ChangesCounted(layers: seq<Layer>, n: nat)
    requires n <= |layers| && DistinctIds(layers)
    ensures |ChangesOf(layers, n)| == Differing(layers, n)
    decreases n
  {
    if n == 0 {
    } else {
      ChangesCounted(layers, n - 1);
      var id := layers[n - 1].id;
      if id in ChangesOf(layers, n - 1) {
        ChangedIds(layers, n - 1, id);
        IndexUnique(layers, n - 1);
      }
    }
  }

  /** After validation the change list holds exactly the layers whose requested and selected types differ,
      with the selected type, and as many of them. */
  lemma PrepareReports(s: State, i: nat)
    requires Inv(s) && i < |s.layers|
    ensures var t := PrepareLayers(s);
      && t.layers[i] == s.layers[i].(selected := Select(s.layers[i]))
      && (t.layers[i].id in t.changes <==> t.layers[i].requested != t.layers[i].selected)
      && (t.layers[i].id in t.changes ==> t.changes[t.layers[i].id] == t.layers[i].selected)
      && |t.changes| == Differing(t.layers, |t.layers|)
  {
    PrepareKeeps(s);
    ChangesExact(PrepareLayers(s).layers, |s.layers|, i);
    ChangesCounted(PrepareLayers(s).layers, |s.layers|);
  }

  // ---------------------------------------------------------------- accepting settles the negotiation

  /** What accepting the outstanding changes would make of layer `l` is what the driver selected. */
  predicate Settles(l: Layer, changes: map<nat, Composition>) {
    if l.id in changes then changes[l.id] == l.selected else l.requested == l.selected
  }

  predicate Settling(s: State) {
    forall i :: 0 <= i < |s.layers| ==> Settles(s.layers[i], s.changes)
  }

  predicate Agreed(s: State) {
    forall i :: 0 <= i < |s.layers| ==> s.layers[i].requested == s.layers[i].selected
  }

  lemma PrepareSettles(s: State)
    requires Inv(s)
    ensures Settling(PrepareLayers(s))
  {
    forall i | 0 <= i < |s.layers| ensures Settles(PrepareLayers(s).layers[i], PrepareLayers(s).changes) {
      PrepareReports(s, i);
    }
  }

  /** Between validation and acceptance, anything but a new request of the client. */
  predicate KeepsRequests(e: Event) {
    !e.SetRequested?
  }

  lemma SettlingKeptCreate(s: State)
    requires Inv(s) && Settling(s)
    ensures Settling(CreateLayer(s))
  {
    var layer := NewLayer(s.nextId, s.clock);
    assert s.nextId !in s.changes;
    var p, r := UpperBound(s.layers, 0, 0), Insert(s.layers, layer);
    forall k | 0 <= k < |r| ensures Settles(r[k], s.changes) {
      assert k != p ==> r[k] == s.layers[if k < p then k else k - 1];
    }
  }

  lemma SettlingKeptSetZ(s: State, id: nat, z: nat)
    requires Settling(s)
    ensures Settling(SetLayerZOrder(s, id, z))
  {
    var i := IndexOf(s.layers, id);
    if Live(s, id) && i < |s.layers| && s.layers[i].z != z {
      var layer, rest := s.layers[i].(z := z, since := s.clock), RemoveAt(s.layers, i);
      var p, r := UpperBound(rest, z, 0), Insert(rest, layer);
      assert Settles(layer, s.changes);
      forall k | 0 <= k < |r| ensures Settles(r[k], s.changes) {
        assert k != p ==> r[k] == rest[if k < p then k else k - 1];
      }
    }
  }

  lemma SettlingKept(s: State, e: Event)
    requires Inv(s) && Settling(s) && KeepsRequests(e)
    ensures Settling(Step(s, e))
  {
    match e
    case Create => SettlingKeptCreate(s);
    case SetZ(id, z) => SettlingKeptSetZ(s, id, z);
    case Prepare => PrepareSettles(s);
    case PrepareBypassed => SettlingKeptBypass(s);
    case PrepareRefused =>
    case Destroy(id) => SettlingKeptDestroy(s, id);
    case SetFlags(id, _, _) => SettlingKeptEdit(s, id, e);
    case SdmChooses(id, _) => SettlingKeptEdit(s, id, e);
    case Accept => SettlingKeptAccept(s);
  }

  lemma SettlingKeptBypass(s: State)
    requires Settling(s)
    ensures Settling(BypassLayers(s))
  {
    forall i | 0 <= i < |s.layers| ensures Settles(BypassLayers(s).layers[i], s.changes) {
      assert Settles(s.layers[i], s.changes);
    }
  }

  lemma SettlingKeptDestroy(s: State, id: nat)
    requires Settling(s)
    ensures Settling(DestroyLayer(s, id))
  {
  }

  lemma SettlingKeptEdit(s: State, id: nat, e: Event)
    requires Settling(s) && KeepsRequests(e)
    ensures Settling(Edit(s, id, e))
  {
  }

  lemma SettlingKeptAccept(s: State)
    requires Settling(s)
    ensures Settling(AcceptChanges(s))
  {
    forall i | 0 <= i < |s.layers| ensures Settles(AcceptChanges(s).layers[i], AcceptChanges(s).changes) {
      assert Settles(s.layers[i], s.changes);
    }
  }

  lemma {:induction false} RunSettling(s: State, events: seq<Event>)
    requires Inv(s) && Settling(s) && forall i :: 0 <= i < |events| ==> KeepsRequests(events[i])
    ensures Inv(Exec(s, events)) && Settling(Exec(s, events))
    decreases |events|
  {
    if events == [] || s.fault {
    } else {
      assert KeepsRequests(events[0]);
      StepKeeps(s, events[0]);
      SettlingKept(s, events[0]);
      RunSettling(Step(s, events[0]), events[1..]);
    }
  }

  /** Validate, then any layers created, moved, destroyed or validated again, whatever becomes of these
      validations, then accept: unless the last of them was refused, every layer on the display has agreed,
      the new ones included, and no change is left. */
  lemma AcceptAgrees(s: State, events: seq<Event>)
    requires Inv(s) && forall i :: 0 <= i < |events| ==> KeepsRequests(events[i])
    ensures var t := Exec(PrepareLayers(s), events);
      t.validated ==> Agreed(AcceptChanges(t)) && (t.layers != [] ==> AcceptChanges(t).changes == map[])
  {
    PrepareKeeps(s);
    PrepareSettles(s);
    RunSettling(PrepareLayers(s), events);
    var t := Exec(PrepareLayers(s), events);
    if t.validated {
      AcceptSettled(t);
    }
  }

  lemma AcceptSettled(s: State)
    requires Settling(s) && s.validated
    ensures Agreed(AcceptChanges(s)) && (s.layers != [] ==> AcceptChanges(s).changes == map[])
  {
    forall i | 0 <= i < |s.layers| ensures Settles(s.layers[i], s.changes) {
    }
  }

  /** The selected type, told from the layer: a decoration on a pipe of the display's own with its mask, else
      solid colour there, else what the kind of composition says. */
  lemma SelectedMeans(l: Layer)
    ensures Select(l) == Decoration <==> l.sdm == Sde && l.mask && l.requested == Decoration
    ensures Select(l) == SolidColor <==> l.sdm == Sde && l.solidFill && !(l.mask && l.requested == Decoration)
    ensures Select(l) == Client <==> l.sdm == Gpu
    ensures Select(l) == Cursor <==> l.sdm == HwCursor
    ensures Select(l) == Device <==>
      || l.sdm == Stitch || l.sdm == OtherSdm
      || (l.sdm == Sde && !l.solidFill && !(l.mask && l.requested == Decoration))
  {
  }

  /** The driver takes the layer as the client asked: each request with the composition that serves it. */
  predicate Granted(l: Layer) {
    match l.requested
    case SolidColor => l.sdm == Sde && l.solidFill
    case Decoration => l.sdm == Sde && l.mask
    case Client => l.sdm == Gpu
    case Cursor => l.sdm == HwCursor
    case Device => l.sdm == Stitch || l.sdm == OtherSdm || (l.sdm == Sde && !l.solidFill)
    case Invalid => false
  }

  /** A validation that runs to its end reports a change for a layer exactly when the layer is not granted
      what the client asked for. */
  lemma ReportedIff(s: State, i: nat)
    requires Inv(s) && i < |s.layers|
    ensures s.layers[i].id in Step(s, Prepare).changes <==> !Granted(s.layers[i])
  {
    PrepareReports(s, i);
    SelectedMeans(s.layers[i]);
  }

  /** What the client and the driver say about a layer reaches that layer and no other. */
  lemma EditReaches(s: State, id: nat, requested: Composition, solid: bool, mask: bool, sdm: SdmComposition)
    requires Inv(s) && IndexOf(s.layers, id) < |s.layers|
    ensures var i := IndexOf(s.layers, id);
      && Step(s, SetRequested(id, requested)).layers == s.layers[i := s.layers[i].(requested := requested)]
      && Step(s, SetFlags(id, solid, mask)).layers == s.layers[i := s.layers[i].(solidFill := solid, mask := mask)]
      && Step(s, SdmChooses(id, sdm)).layers == s.layers[i := s.layers[i].(sdm := sdm)]
  {
  }

  /** Having agreed to the driver's choice, the same choice is made again: also for solid colour, and for
      decoration, which depends on the request itself. */
  lemma SelectStable(l: Layer)
    ensures var chosen := l.(selected := Select(l), requested := Select(l)); Select(chosen) == chosen.requested
  {
  }

  /** Validate, accept, validate: with the driver's choices and the flags unchanged nothing is reported; on
      an empty display all three leave the changes as they were. */
  lemma RevalidateReportsNothing(s: State)
    requires Inv(s)
    ensures var t := PrepareLayers(AcceptChanges(PrepareLayers(s)));
      t.changes == (if s.layers == [] then s.changes else map[]) && Agreed(t)
  {
    var a := AcceptChanges(PrepareLayers(s));
    forall i | 0 <= i < |a.layers| ensures Select(a.layers[i]) == a.layers[i].requested {
      ChoiceRepeated(s, i);
    }
    NoChanges(PrepareLayers(a).layers, |a.layers|);
  }

  lemma ChoiceRepeated(s: State, i: nat)
    requires Inv(s) && i < |s.layers|
    ensures var a := AcceptChanges(PrepareLayers(s));
      |a.layers| == |s.layers| && Select(a.layers[i]) == a.layers[i].requested
  {
    PrepareReports(s, i);
    SelectStable(s.layers[i]);
  }

  lemma NoChanges(layers: seq<Layer>, n: nat)
    requires n <= |layers| && forall i :: 0 <= i < |layers| ==> layers[i].requested == layers[i].selected
    ensures ChangesOf(layers, n) == map[]
  {
  }
}
