/**
  The layer-store event handlers. Each handler takes the batch of events of
  one frame, mutates the store event by event and returns, in order, the
  notifications it sends. Each is specified by a fold of a one-event step
  function over the batch; the steps' contracts and the lemmas about the
  folds state what the handlers promise.
 */
module LayerSystems {

  import opened Wrappers
  import opened GeomTypes
  import opened RgisLayers

  datatype MoveDirection = Up | Down

  datatype UpdateLayerColorEvent = UpdateLayerColorEvent(id: LayerId, color: Color)

  datatype MoveLayerEvent = MoveLayerEvent(id: LayerId, direction: MoveDirection)

  datatype CreateLayerEvent = CreateLayerEvent(unprojectedGeometry: Geometry, name: string, sourceCrs: string)

  /** A clicked map position (screen-to-map conversion is not modelled). */
  datatype MapPoint = MapPoint(x: real, y: real)

  /** What the hit test returns: the feature under the click, with its properties. */
  datatype HitFeature = HitFeature(properties: Option<Metadata>)

  /** Same ids in the same order means the same uniqueness. */
  lemma SameIdsUnique(a: seq<Layer>, b: seq<Layer>)
    requires Ids(a) == Ids(b)
    ensures UniqueIds(a) <==> UniqueIds(b)
  {
    assert forall i :: 0 <= i < |a| ==> a[i].id == Ids(b)[i] == b[i].id;
  }

  /** The ids of `ids` that occur in `known`, in order. */
  function Present(ids: seq<LayerId>, known: seq<LayerId>): (r: seq<LayerId>)
    ensures |r| <= |ids|
    ensures forall x :: x in r ==> x in ids && x in known
    decreases |ids|
  {
    if ids == [] then []
    else
      var last := ids[|ids| - 1];
      Present(ids[..|ids| - 1], known) + (if last in known then [last] else [])
  }

  // ----- toggle visibility -----

  datatype ToggleOutcome = ToggleOutcome(layers: seq<Layer>, becameVisible: seq<LayerId>, becameHidden: seq<LayerId>)

  /** One toggle event: flip the visibility of the layer with that id and
      announce its new state; an unknown id is skipped. */
  function ToggleStep(o: ToggleOutcome, id: LayerId): (r: ToggleOutcome)
    ensures Ids(r.layers) == Ids(o.layers)
    ensures id !in Ids(o.layers) ==> r == o
    ensures UniqueIds(o.layers) ==> forall i :: 0 <= i < |o.layers| ==>
              r.layers[i] == if o.layers[i].id == id then o.layers[i].(visible := !o.layers[i].visible) else o.layers[i]
    ensures id in Ids(o.layers) ==>
              var i := IndexOf(o.layers, id).value;
              if r.layers[i].visible then r.becameVisible == o.becameVisible + [id] && r.becameHidden == o.becameHidden
              else r.becameVisible == o.becameVisible && r.becameHidden == o.becameHidden + [id]
  {
    match IndexOf(o.layers, id)
    case None => o
    case Some(i) =>
      var layer := o.layers[i].(visible := !o.layers[i].visible);
      var layers := o.layers[i := layer];
      assert Ids(layers) == Ids(o.layers);
      if layer.visible then ToggleOutcome(layers, o.becameVisible + [id], o.becameHidden)
      else ToggleOutcome(layers, o.becameVisible, o.becameHidden + [id])
  }

  /** The store and the notifications after a batch of toggle events. */
  function ToggleAll(d: seq<Layer>, events: seq<LayerId>): ToggleOutcome
    decreases |events|
  {
    if events == [] then ToggleOutcome(d, [], [])
    else ToggleStep(ToggleAll(d, events[..|events| - 1]), events[|events| - 1])
  }

  /** Toggling the same layer twice restores it. */
  lemma ToggleTwice(o: ToggleOutcome, id: LayerId)
    requires UniqueIds(o.layers)
    ensures ToggleStep(ToggleStep(o, id), id).layers == o.layers
  {
    var o1 := ToggleStep(o, id);
    SameIdsUnique(o.layers, o1.layers);
  }

  /** A batch of toggles keeps the ids and their order, and sends exactly one
      notification for each event whose id is in the store. */
  lemma {:induction false} ToggleAllFacts(d: seq<Layer>, events: seq<LayerId>)
    ensures Ids(ToggleAll(d, events).layers) == Ids(d)
    ensures |ToggleAll(d, events).becameVisible| + |ToggleAll(d, events).becameHidden| == |Present(events, Ids(d))|
    decreases |events|
  {
    if events != [] {
      ToggleAllFacts(d, events[..|events| - 1]);
    }
  }

  method HandleToggleLayerVisibilityEvents(layers: Layers, events: seq<LayerId>)
    returns (becameVisible: seq<LayerId>, becameHidden: seq<LayerId>)
    requires layers.Valid()
    modifies layers
    ensures layers.Valid() && layers.nextId == old(layers.nextId)
    ensures ToggleOutcome(layers.data, becameVisible, becameHidden) == ToggleAll(old(layers.data), events)
  {
    becameVisible, becameHidden := [], [];
    for k := 0 to |events|
      invariant layers.Valid() && layers.nextId == old(layers.nextId)
      invariant ToggleOutcome(layers.data, becameVisible, becameHidden) == ToggleAll(old(layers.data), events[..k])
    {
      assert events[..k + 1][..k] == events[..k];
      var id := events[k];
      var found := layers.GetWithZIndex(id);
      if found.None? {
        // the source logs a warning and goes on with the next event
        continue;
      }
      var (layer, z) := found.value;
      var toggled := layer.(visible := !layer.visible);
      ghost var before := layers.data;
      layers.data := layers.data[z := toggled];
      assert Ids(layers.data) == Ids(before);
      SameIdsUnique(before, layers.data);
      if toggled.visible {
        becameVisible := becameVisible + [id];
      } else {
        becameHidden := becameHidden + [id];
      }
    }
    assert events[..|events|] == events;
  }

  // ----- update colour -----

  datatype ColorOutcome = ColorOutcome(layers: seq<Layer>, updated: seq<LayerId>)

  /** One colour event: give the layer with that id the event's colour and
      announce it; an unknown id is skipped. */
  function ColorStep(o: ColorOutcome, e: UpdateLayerColorEvent): (r: ColorOutcome)
    ensures Ids(r.layers) == Ids(o.layers)
    ensures e.id !in Ids(o.layers) ==> r == o
    ensures e.id in Ids(o.layers) ==> r.updated == o.updated + [e.id]
    ensures UniqueIds(o.layers) ==> forall i :: 0 <= i < |o.layers| ==>
              r.layers[i] == if o.layers[i].id == e.id then o.layers[i].(color := e.color) else o.layers[i]
  {
    match IndexOf(o.layers, e.id)
    case None => o
    case Some(i) =>
      var layers := o.layers[i := o.layers[i].(color := e.color)];
      assert Ids(layers) == Ids(o.layers);
      ColorOutcome(layers, o.updated + [e.id])
  }

  /** The store and the notifications after a batch of colour events. */
  function ColorAll(d: seq<Layer>, events: seq<UpdateLayerColorEvent>): ColorOutcome
    decreases |events|
  {
    if events == [] then ColorOutcome(d, [])
    else ColorStep(ColorAll(d, events[..|events| - 1]), events[|events| - 1])
  }

  /** The ids the colour events name, in order. */
  function EventIds(events: seq<UpdateLayerColorEvent>): (r: seq<LayerId>)
    ensures |r| == |events| && forall k :: 0 <= k < |events| ==> r[k] == events[k].id
    decreases |events|
  {
    if events == [] then [] else EventIds(events[..|events| - 1]) + [events[|events| - 1].id]
  }

  /** Applying the same colour event twice is applying it once. */
  lemma ColorIdempotent(o: ColorOutcome, e: UpdateLayerColorEvent)
    requires UniqueIds(o.layers)
    ensures ColorStep(ColorStep(o, e), e).layers == ColorStep(o, e).layers
  {
    SameIdsUnique(o.layers, ColorStep(o, e).layers);
  }

  /** A batch of colour events keeps the ids and their order, and announces
      exactly the events whose id is in the store, in event order. */
  lemma {:induction false} ColorAllFacts(d: seq<Layer>, events: seq<UpdateLayerColorEvent>)
    ensures Ids(ColorAll(d, events).layers) == Ids(d)
    ensures ColorAll(d, events).updated == Present(EventIds(events), Ids(d))
    decreases |events|
  {
    if events != [] {
      var init := events[..|events| - 1];
      ColorAllFacts(d, init);
      assert EventIds(events)[..|events| - 1] == EventIds(init);
    }
  }

  method HandleUpdateColorEvents(layers: Layers, events: seq<UpdateLayerColorEvent>)
    returns (updated: seq<LayerId>)
    requires layers.Valid()
    modifies layers
    ensures layers.Valid() && layers.nextId == old(layers.nextId)
    ensures ColorOutcome(layers.data, updated) == ColorAll(old(layers.data), events)
  {
    updated := [];
    for k := 0 to |events|
      invariant layers.Valid() && layers.nextId == old(layers.nextId)
      invariant ColorOutcome(layers.data, updated) == ColorAll(old(layers.data), events[..k])
    {
      assert events[..k + 1][..k] == events[..k];
      var e := events[k];
      var found := layers.GetWithZIndex(e.id);
      if found.None? {
        // the source logs a warning and goes on with the next event
        continue;
      }
      var (layer, z) := found.value;
      ghost var before := layers.data;
      layers.data := layers.data[z := layer.(color := e.color)];
      assert Ids(layers.data) == Ids(before);
      SameIdsUnique(before, layers.data);
      updated := updated + [e.id];
    }
    assert events[..|events|] == events;
  }

  // ----- delete -----

  /** The store after a batch of delete events: each removes its id, if present. */
  function DeleteAll(d: seq<Layer>, events: seq<LayerId>): seq<Layer>
    decreases |events|
  {
    if events == [] then d
    else Removed(DeleteAll(d, events[..|events| - 1]), events[|events| - 1])
  }

  /** After a batch of deletions the ids are still unique and the store holds
      exactly the old layers whose id no event named. */
  lemma {:induction false} DeleteAllContents(d: seq<Layer>, events: seq<LayerId>)
    requires UniqueIds(d)
    ensures UniqueIds(DeleteAll(d, events))
    ensures forall l :: l in DeleteAll(d, events) <==> l in d && l.id !in events
    decreases |events|
  {
    if events != [] {
      var init, last := events[..|events| - 1], events[|events| - 1];
      assert events == init + [last];
      var before := DeleteAll(d, init);
      DeleteAllContents(d, init);
      RemovedIsWithout(before, last);
      WithoutUnique(before, last);
      WithoutContents(before, last);
    }
  }

  method HandleDeleteLayerEvents(layers: Layers, events: seq<LayerId>) returns (deleted: seq<LayerId>)
    requires layers.Valid()
    modifies layers
    ensures layers.Valid() && layers.nextId == old(layers.nextId)
    ensures layers.data == DeleteAll(old(layers.data), events)
    ensures deleted == events
  {
    deleted := [];
    for k := 0 to |events|
      invariant layers.Valid() && layers.nextId == old(layers.nextId)
      invariant layers.data == DeleteAll(old(layers.data), events[..k])
      invariant deleted == events[..k]
    {
      assert events[..k + 1] == events[..k] + [events[k]];
      assert events[..k + 1][..k] == events[..k];
      layers.Remove(events[k]);
      // sent whether or not the store held the layer
      deleted := deleted + [events[k]];
    }
    assert events[..|events|] == events;
  }

  // ----- move -----

  /** The position a move aims at; moving down from the bottom has none. */
  function MoveTarget(z: nat, direction: MoveDirection): (t: Option<nat>)
    ensures direction == Up ==> t == Some(z + 1)
    ensures direction == Down ==> (t.None? <==> z == 0) && (t.Some? ==> t.value + 1 == z)
  {
    match direction
    case Up => Some(z + 1)
    case Down => if z == 0 then None else Some(z - 1)
  }

  /** The target position exactly as the source computes it, as an unbounded
      integer: the index type there is unsigned, so a negative value is an
      arithmetic overflow (a panic in a debug build, a wrap to the largest
      index in a release build). */
  function MoveTargetAsWritten(z: nat, direction: MoveDirection): int
  {
    match direction
    case Up => z + 1
    case Down => z - 1
  }

  /** Moving the bottom layer down computes -1, which is not an index. */
  lemma MoveDownFromBottomUnderflows()
    ensures MoveTargetAsWritten(0, Down) < 0
  {
  }

  /** The corrected target agrees with the source wherever the source's value
      is an index, and is absent exactly where the source underflows. */
  lemma MoveTargetCorrects(z: nat, direction: MoveDirection)
    ensures MoveTargetAsWritten(z, direction) >= 0 ==> MoveTarget(z, direction) == Some(MoveTargetAsWritten(z, direction))
    ensures MoveTargetAsWritten(z, direction) < 0 <==> MoveTarget(z, direction).None?
  {
  }

  /** The two positions a move event swaps, if the layer exists and has a
      neighbour in that direction. */
  function MoveSlots(d: seq<Layer>, e: MoveLayerEvent): (r: Option<(nat, nat)>)
    ensures r.Some? ==> r.value.0 < |d| && r.value.1 < |d| && d[r.value.0].id == e.id
                        && MoveTarget(r.value.0, e.direction) == Some(r.value.1)
    ensures r.None? <==> e.id !in Ids(d)
                         || (e.direction == Up && IndexOf(d, e.id) == Some(|d| - 1))
                         || (e.direction == Down && IndexOf(d, e.id) == Some(0))
  {
    match IndexOf(d, e.id)
    case None => None
    case Some(z) =>
      match MoveTarget(z, e.direction)
      case None => None
      case Some(t) => if t < |d| then Some((z, t)) else None
  }

  function Swap(d: seq<Layer>, i: nat, j: nat): (r: seq<Layer>)
    requires i < |d| && j < |d|
    ensures |r| == |d| && r[i] == d[j] && r[j] == d[i]
    ensures forall k :: 0 <= k < |d| && k != i && k != j ==> r[k] == d[k]
    ensures multiset(r) == multiset(d)
  {
    d[i := d[j]][j := d[i]]
  }

  /** Swapping keeps ids unique. */
  lemma SwapUnique(d: seq<Layer>, i: nat, j: nat)
    requires i < |d| && j < |d| && UniqueIds(d)
    ensures UniqueIds(Swap(d, i, j))
  {
    var r := Swap(d, i, j);
    forall a, b | 0 <= a < b < |r| ensures r[a].id != r[b].id {
      var a' := if a == i then j else if a == j then i else a;
      var b' := if b == i then j else if b == j then i else b;
      assert r[a] == d[a'] && r[b] == d[b'];
    }
  }

  datatype MoveOutcome = MoveOutcome(layers: seq<Layer>, zIndexUpdated: seq<LayerId>)

  /** One move event: swap the layer with its neighbour in that direction and
      announce the moved layer, then the neighbour; no neighbour (or no such
      layer) means nothing happens. */
  function MoveStep(o: MoveOutcome, e: MoveLayerEvent): (r: MoveOutcome)
    ensures multiset(r.layers) == multiset(o.layers) && |r.layers| == |o.layers|
    ensures UniqueIds(o.layers) ==> UniqueIds(r.layers)
    ensures MoveSlots(o.layers, e).None? ==> r == o
    ensures MoveSlots(o.layers, e).Some? ==>
              var (z, t) := MoveSlots(o.layers, e).value;
              r.layers[z] == o.layers[t] && r.layers[t] == o.layers[z]
              && (forall k :: 0 <= k < |o.layers| && k != z && k != t ==> r.layers[k] == o.layers[k])
              && r.zIndexUpdated == o.zIndexUpdated + [e.id, o.layers[t].id]
  {
    match MoveSlots(o.layers, e)
    case None => o
    case Some((z, t)) =>
      assert UniqueIds(o.layers) ==> UniqueIds(Swap(o.layers, z, t)) by {
        if UniqueIds(o.layers) { SwapUnique(o.layers, z, t); }
      }
      MoveOutcome(Swap(o.layers, z, t), o.zIndexUpdated + [e.id, o.layers[t].id])
  }

  /** The store and the notifications after a batch of move events. */
  function MoveAll(d: seq<Layer>, events: seq<MoveLayerEvent>): MoveOutcome
    decreases |events|
  {
    if events == [] then MoveOutcome(d, [])
    else MoveStep(MoveAll(d, events[..|events| - 1]), events[|events| - 1])
  }

  /** A batch of moves only reorders: the multiset of layers and the
      uniqueness of ids are kept, two notifications per swap. */
  lemma {:induction false} MoveAllFacts(d: seq<Layer>, events: seq<MoveLayerEvent>)
    ensures multiset(MoveAll(d, events).layers) == multiset(d)
    ensures UniqueIds(d) ==> UniqueIds(MoveAll(d, events).layers)
    ensures |MoveAll(d, events).zIndexUpdated| <= 2 * |events|
    decreases |events|
  {
    if events != [] {
      MoveAllFacts(d, events[..|events| - 1]);
    }
  }

  /** Moving a layer up and then down again restores the order, unless it was
      already on top; moving down and then up restores it unless it was at the
      bottom. */
  lemma MoveRoundTrip(d: seq<Layer>, id: LayerId, there: MoveDirection)
    requires UniqueIds(d)
    requires there == Up ==> IndexOf(d, id) != Some(|d| - 1)
    requires there == Down ==> IndexOf(d, id) != Some(0)
    ensures var back := if there == Up then Down else Up;
            MoveStep(MoveStep(MoveOutcome(d, []), MoveLayerEvent(id, there)), MoveLayerEvent(id, back)).layers == d
  {
    var back := if there == Up then Down else Up;
    var o1 := MoveStep(MoveOutcome(d, []), MoveLayerEvent(id, there));
    match MoveSlots(d, MoveLayerEvent(id, there))
    case None =>
      assert id !in Ids(d);
    case Some((z, t)) =>
      assert o1.layers == Swap(d, z, t);
      assert o1.layers[t].id == id;
      IndexOfUnique(o1.layers, t);
      assert MoveTarget(t, back) == Some(z);
      assert MoveSlots(o1.layers, MoveLayerEvent(id, back)) == Some((t, z));
      SwapBack(d, z, t);
  }

  /** Swapping the same two positions twice changes nothing. */
  lemma SwapBack(d: seq<Layer>, i: nat, j: nat)
    requires i < |d| && j < |d|
    ensures Swap(Swap(d, i, j), j, i) == d
  {
  }

  method HandleMoveLayerEvents(layers: Layers, events: seq<MoveLayerEvent>) returns (zIndexUpdated: seq<LayerId>)
    requires layers.Valid()
    modifies layers
    ensures layers.Valid() && layers.nextId == old(layers.nextId)
    ensures MoveOutcome(layers.data, zIndexUpdated) == MoveAll(old(layers.data), events)
  {
    zIndexUpdated := [];
    for k := 0 to |events|
      invariant layers.Valid() && layers.nextId == old(layers.nextId)
      invariant MoveOutcome(layers.data, zIndexUpdated) == MoveAll(old(layers.data), events[..k])
    {
      assert events[..k + 1][..k] == events[..k];
      var e := events[k];
      var found := layers.GetWithZIndex(e.id);
      if found.None? {
        continue;
      }
      var (_, oldZ) := found.value;
      var target := MoveTarget(oldZ, e.direction);
      if target.None? || target.value >= |layers.data| {
        // no layer at the target position: warn and go on
        continue;
      }
      var newZ := target.value;
      var otherId := layers.data[newZ].id;
      ghost var before := layers.data;
      layers.data := Swap(layers.data, oldZ, newZ);
      SwapUnique(before, oldZ, newZ);
      forall i | 0 <= i < |layers.data| ensures layers.data[i].id < layers.nextId {
        assert layers.data[i] in multiset(before);
      }
      zIndexUpdated := zIndexUpdated + [e.id, otherId];
    }
    assert events[..|events|] == events;
  }

  // ----- map click -----

  /** The render messages for a batch of clicks: the properties of the feature
      under each click that hits one. */
  function ClickMessages(d: seq<Layer>, points: seq<MapPoint>,
                         featureFromClick: (seq<Layer>, MapPoint) -> Option<HitFeature>): seq<Option<Metadata>>
    decreases |points|
  {
    if points == [] then []
    else
      var last := points[|points| - 1];
      ClickMessages(d, points[..|points| - 1], featureFromClick)
      + match featureFromClick(d, last) case None => [] case Some(f) => [f.properties]
  }

  /** At most one message per click, and one for every click exactly when every
      click hits a feature. */
  lemma {:induction false} ClickMessagesCount(d: seq<Layer>, points: seq<MapPoint>,
                                              featureFromClick: (seq<Layer>, MapPoint) -> Option<HitFeature>)
    ensures |ClickMessages(d, points, featureFromClick)| <= |points|
    ensures |ClickMessages(d, points, featureFromClick)| == |points|
            <==> forall k :: 0 <= k < |points| ==> featureFromClick(d, points[k]).Some?
    decreases |points|
  {
    if points != [] {
      var init := points[..|points| - 1];
      ClickMessagesCount(d, init, featureFromClick);
      if featureFromClick(d, points[|points| - 1]).None? {
        assert !featureFromClick(d, points[|points| - 1]).Some?;
      } else if !(forall k :: 0 <= k < |init| ==> featureFromClick(d, init[k]).Some?) {
        var k :| 0 <= k < |init| && featureFromClick(d, init[k]).None?;
        assert points[k] == init[k];
      }
    }
  }

  /** Reads the store only; `featureFromClick` is the store's hit test, whose
      geometry tests are outside this model. */
  method HandleMapClickedEvents(layers: Layers, points: seq<MapPoint>,
                                featureFromClick: (seq<Layer>, MapPoint) -> Option<HitFeature>)
    returns (messages: seq<Option<Metadata>>)
    ensures messages == ClickMessages(layers.data, points, featureFromClick)
  {
    messages := [];
    for k := 0 to |points|
      invariant messages == ClickMessages(layers.data, points[..k], featureFromClick)
    {
      assert points[..k + 1][..k] == points[..k];
      var hit := featureFromClick(layers.data, points[k]);
      if hit.Some? {
        messages := messages + [hit.value.properties];
      }
    }
    assert points[..|points|] == points;
  }

  // ----- create -----

  /** The layers a batch of create events adds: one per event whose
      reprojection succeeds, in event order. */
  function Reprojected(events: seq<CreateLayerEvent>,
                       reproject: (Geometry, string) -> Result<Geometry, TransformError>): seq<NewLayer>
    decreases |events|
  {
    if events == [] then []
    else
      var e := events[|events| - 1];
      Reprojected(events[..|events| - 1], reproject)
      + match reproject(e.unprojectedGeometry, e.sourceCrs)
        case Err(_) => []
        case Ok(g) => [NewLayer(g, e.name, None, e.sourceCrs)]
  }

  /** At most one layer per event, and one for every event exactly when no
      reprojection fails. */
  lemma {:induction false} ReprojectedCount(events: seq<CreateLayerEvent>,
                                            reproject: (Geometry, string) -> Result<Geometry, TransformError>)
    ensures |Reprojected(events, reproject)| <= |events|
    ensures |Reprojected(events, reproject)| == |events|
            <==> forall k :: 0 <= k < |events| ==> reproject(events[k].unprojectedGeometry, events[k].sourceCrs).Ok?
    decreases |events|
  {
    if events != [] {
      var init := events[..|events| - 1];
      ReprojectedCount(init, reproject);
      var e := events[|events| - 1];
      if reproject(e.unprojectedGeometry, e.sourceCrs).Err? {
        assert !reproject(events[|events| - 1].unprojectedGeometry, events[|events| - 1].sourceCrs).Ok?;
      } else if !(forall k :: 0 <= k < |init| ==> reproject(init[k].unprojectedGeometry, init[k].sourceCrs).Ok?) {
        var k :| 0 <= k < |init| && reproject(init[k].unprojectedGeometry, init[k].sourceCrs).Err?;
        assert events[k] == init[k];
      }
    }
  }

  method HandleCreateLayerEvents(layers: Layers, events: seq<CreateLayerEvent>,
                                 reproject: (Geometry, string) -> Result<Geometry, TransformError>)
    returns (created: seq<LayerId>)
    requires layers.Valid()
    modifies layers
    ensures layers.Valid() && layers.nextId == old(layers.nextId) + |created|
    ensures Appended(old(layers.data), layers.data, old(layers.nextId), created, Reprojected(events, reproject))
  {
    created := [];
    for k := 0 to |events|
      invariant layers.Valid() && layers.nextId == old(layers.nextId) + |created|
      invariant Appended(old(layers.data), layers.data, old(layers.nextId), created, Reprojected(events[..k], reproject))
    {
      assert events[..k + 1][..k] == events[..k];
      var e := events[k];
      ghost var before := layers.data;
      var r := layers.TryAdd(e.unprojectedGeometry, e.name, e.sourceCrs, reproject);
      match r
      case Ok(id) =>
        AppendedTrans(old(layers.data), before, layers.data, old(layers.nextId), created,
                      Reprojected(events[..k], reproject), [id], [NewLayer(reproject(e.unprojectedGeometry, e.sourceCrs).value, e.name, None, e.sourceCrs)]);
        created := created + [id];
      case Err(_) =>
        // the source logs the error; nothing is created
    }
    assert events[..|events|] == events;
  }
}
