# rgis layer management, modelled in Dafny

This project models three pieces of the layer management of the rgis GIS
viewer and proves properties of them.

- **Geometry-type classifier** (`geom_types.dfy`, module `GeomTypes`). A
  `GeomType` is a 9-bit flag set in a 16-bit word (`bv16`), one flag per
  leaf geometry kind. `Determine` is the left fold that ORs in one flag per
  geometry and recurses into geometry collections. `Name` gives the display
  name of a mask that is exactly one flag.
- **The layer store** (`layers.dfy`, module `RgisLayers`). The class `Layers`
  holds the ordered `data: seq<Layer>`; a layer's position is its z-index.
  It also holds `nextId`, the next id `add` hands out. `Valid()` says ids are
  unique and below `nextId`. The store's own `get`, `get_with_z_index`,
  `remove` and `add` are given the contracts their callers rely on. The
  handlers' `get_mut` is modelled as `GetWithZIndex` followed by writing the
  changed layer back at the returned position. `Get` models the lookup the
  layer window makes (`rgis-ui/src/manage_layer_window.rs:15`).
- **The event handlers** (`systems.dfy`, module `LayerSystems`). There is one
  method per handler: toggle visibility, update colour, delete, move, map
  click and create. Each takes the frame's batch of events as a sequence. It
  mutates the store one event at a time in a `for` loop and returns the
  notifications it sends, in order. Each handler is proved equal to a fold of
  a one-event step function. The steps' contracts and the lemmas about the
  folds state what the handlers promise.
- **GeoJSON loading** (`geojson_loader.dfy`, module `GeoJsonLoader`). This
  starts from an already-parsed document: a bare geometry, a feature or a
  feature collection (RFC 7946, sections 3.1, 3.2 and 3.3). Recursive
  methods walk features and nested geometry collections (RFC 7946, section
  3.1.8). They call `add` once per LineString, Polygon, MultiLineString or
  MultiPolygon and return the new ids in traversal order. Their contracts
  tie the store's new state to `DocumentLayers`. `DocumentLayersAreSupportedLeaves`
  proves that function equal to a separate reference, `DocumentLeafLayers`:
  flatten each geometry's leaves depth first, keep the supported ones, and
  join the features' results in order.

`wrappers.dfy` holds `Option` and `Result`.

External services become parameters:
- the reprojection inside the fallible `add` is a function argument of
  `TryAdd` and of the create handler;
- the hit test `feature_from_click` is a function argument of the map-click
  handler.

Where the two versions of the code disagree, this model follows them as
follows:
- `geojson.rs` calls an infallible `add(geometry, metadata, source, target)`,
  while `systems.rs` matches on the `Result` of `add(geometry, name, source)`.
  The model has one `Add(geometry, name, metadata, crs)` that cannot fail.
  `TryAdd` wraps it with the reprojection's result.
- The loader passes the name `""`, which `geojson.rs` has no name to give.
- The create handler passes the metadata `None`, which `systems.rs` has no
  metadata to give.
- `systems.rs:45` assigns the event's colour as the layer's whole colour,
  while the layer window (`manage_layer_window.rs:69` and `:95`) sends
  `UpdateLayerColorEvent::Stroke` or `::Fill` for one part only. The model
  follows `systems.rs`: `ColorStep` replaces the whole `Color`.

## Model

| member | source | states |
|---|---|---|
| `GeomTypes.Flag` | geo-geom-type/src/lib.rs:12-20 | each flag is non-empty and lies within bits 0 to 8 |
| `GeomTypes.FlagsDisjoint` | geo-geom-type/src/lib.rs:12-20 | two flags share no bit exactly when they are flags of different kinds |
| `GeomTypes.Determine` | geo-geom-type/src/lib.rs:41-58 | the classification of any input lies within bits 0 to 8 |
| `GeomTypes.Contribution` | geo-geom-type/src/lib.rs:43-56 | what one geometry (leaf or nested collection) ORs in lies within bits 0 to 8 |
| `GeomTypes.DetermineEmpty` | geo-geom-type/src/lib.rs:42 | the empty sequence gives the empty mask |
| `GeomTypes.DetermineConcat` | geo-geom-type/src/lib.rs:41-58 | classifying `s + t` is classifying `s` ORed with classifying `t` |
| `GeomTypes.DetermineCons` | geo-geom-type/src/lib.rs:42-43 | a non-empty sequence gives its first geometry's part ORed with the rest's classification |
| `GeomTypes.DetermineOrderFree` | geo-geom-type/src/lib.rs:41-58 | the result does not depend on the order of two parts, and `s + s` classifies as `s` |
| `GeomTypes.DetermineSingleton` | geo-geom-type/src/lib.rs:44-55 | a single leaf gives exactly its own flag; a single collection gives its members' classification, and an empty collection gives nothing |
| `GeomTypes.DetermineExactlyLeafKinds` | geo-geom-type/src/lib.rs:41-58 | a kind's flag is set iff a leaf of that kind occurs anywhere in the nested input (`LeafKinds` is an independent definition) |
| `GeomTypes.Name` | geo-geom-type/src/lib.rs:24-38 | a name exists only for masks equal to one flag, and it is non-empty |
| `GeomTypes.NameOfFlag` | geo-geom-type/src/lib.rs:26-35 | every flag has a name, and two flags have the same name iff they are the same flag |
| `GeomTypes.LeafIsNamed` | geo-geom-type/src/lib.rs:26-52 | the classification of a single leaf geometry always has a name |
| `RgisLayers.IndexOf` | rgis-layers/src/systems.rs:69-75 | the position found holds the id, and no position is found iff the id is absent |
| `RgisLayers.IndexOfUnique` | rgis-layers/src/systems.rs:69-75 | with unique ids, the position of a layer's id is that layer's position |
| `RgisLayers.Layers.Get` | rgis-ui/src/manage_layer_window.rs:15-22 | a layer is returned iff its id is in the store, and it is that layer |
| `RgisLayers.Layers.GetWithZIndex` | rgis-layers/src/systems.rs:69-75 | the layer with the id and its position, the only one holding the id; nothing iff the id is absent |
| `RgisLayers.Removed` | rgis-layers/src/systems.rs:56 | removing takes out one layer when the id is present and changes nothing when it is absent |
| `RgisLayers.RemovedIsWithout` | rgis-layers/src/systems.rs:56 | with unique ids, removing equals filtering the id out, so order is kept |
| `RgisLayers.WithoutContents` | rgis-layers/src/systems.rs:56 | after filtering, the store holds exactly the layers whose id differs |
| `RgisLayers.WithoutUnique` | rgis-layers/src/systems.rs:55-58 | filtering keeps ids unique |
| `RgisLayers.Layers.Remove` | rgis-layers/src/systems.rs:56 | the store becomes `Removed(old data, id)`, stays valid, and `nextId` is unchanged |
| `RgisLayers.Layers.Add` | rgis-file-loader/src/geojson.rs:72-77 | one layer is appended under the fresh id `nextId`, with the given geometry, name, metadata and reference system, its classified geometry type, and visible; `nextId` advances |
| `RgisLayers.Layers.TryAdd` | rgis-layers/src/systems.rs:119-124 | a failed reprojection returns the error and changes nothing; a successful one appends the reprojected geometry and returns its id |
| `RgisLayers.AppendedTrans` | rgis-file-loader/src/geojson.rs:25-34 | two appends in a row are one append of both batches, with ids concatenated |
| `LayerSystems.SameIdsUnique` | rgis-layers/src/systems.rs:23 | a change that keeps the ids in order keeps them unique |
| `LayerSystems.ToggleStep` | rgis-layers/src/systems.rs:15-29 | only the matching layer's `visible` is flipped, ids and order are kept, an absent id changes and sends nothing, and the notification is BecameVisible iff the new value is true, else BecameHidden |
| `LayerSystems.ToggleTwice` | rgis-layers/src/systems.rs:23 | toggling the same id twice restores the store |
| `LayerSystems.ToggleAllFacts` | rgis-layers/src/systems.rs:15-29 | a batch keeps ids and order and sends one notification per event whose id is present |
| `LayerSystems.HandleToggleLayerVisibilityEvents` | rgis-layers/src/systems.rs:3-30 | the new store and both notification queues are those of `ToggleAll` over the batch; the store stays valid |
| `LayerSystems.ColorStep` | rgis-layers/src/systems.rs:37-47 | only the matching layer gets the event's colour, ids and order are kept, exactly one LayerColorUpdated for that id; an absent id changes and sends nothing |
| `LayerSystems.ColorIdempotent` | rgis-layers/src/systems.rs:45 | applying the same colour event twice is applying it once |
| `LayerSystems.ColorAllFacts` | rgis-layers/src/systems.rs:37-47 | a batch keeps ids and order and announces exactly the present event ids, in event order |
| `LayerSystems.HandleUpdateColorEvents` | rgis-layers/src/systems.rs:32-48 | the new store and the notifications are those of `ColorAll` over the batch; the store stays valid |
| `LayerSystems.DeleteAllContents` | rgis-layers/src/systems.rs:55-58 | after a batch of deletions ids stay unique and the store holds exactly the old layers no event named |
| `LayerSystems.HandleDeleteLayerEvents` | rgis-layers/src/systems.rs:50-59 | the store is `DeleteAll` of the batch, and LayerDeleted is sent for every requested id, found or not |
| `LayerSystems.MoveTarget` | rgis-layers/src/systems.rs:77-80 | Up aims at `z + 1`; Down aims at `z - 1`, and at nothing from the bottom |
| `LayerSystems.MoveTargetCorrects` | rgis-layers/src/systems.rs:79 | the corrected target equals the source's wherever that is an index, and is absent exactly where the source underflows |
| `LayerSystems.MoveDownFromBottomUnderflows` | rgis-layers/src/systems.rs:79 | the source's target for moving the bottom layer down is -1 |
| `LayerSystems.MoveSlots` | rgis-layers/src/systems.rs:69-88 | a move has two positions to swap, the layer's and its target, unless the id is absent, or the layer is on top moving Up, or at the bottom moving Down |
| `LayerSystems.Swap` | rgis-layers/src/systems.rs:90 | the two positions exchange their layers, all others are kept, and the multiset of layers is the same |
| `LayerSystems.SwapUnique` | rgis-layers/src/systems.rs:90 | swapping keeps ids unique |
| `LayerSystems.SwapBack` | rgis-layers/src/systems.rs:90 | swapping the same two positions twice changes nothing |
| `LayerSystems.MoveStep` | rgis-layers/src/systems.rs:68-95 | with no neighbour, nothing changes or is sent; otherwise exactly the two positions are swapped, the multiset and id uniqueness are kept, and ZIndexUpdated is sent for the moved id, then the neighbour's |
| `LayerSystems.MoveAllFacts` | rgis-layers/src/systems.rs:68-95 | a batch keeps the multiset of layers and id uniqueness, with at most two notifications per event |
| `LayerSystems.MoveRoundTrip` | rgis-layers/src/systems.rs:77-90 | Up then Down restores the order unless the layer was on top; Down then Up restores it unless it was at the bottom |
| `LayerSystems.HandleMoveLayerEvents` | rgis-layers/src/systems.rs:61-96 | the new store and the notifications are those of `MoveAll` over the batch; the store stays valid |
| `LayerSystems.ClickMessagesCount` | rgis-layers/src/systems.rs:103-110 | at most one message per click, and one for every click iff every click hits a feature |
| `LayerSystems.HandleMapClickedEvents` | rgis-layers/src/systems.rs:98-111 | the messages are the properties of the hit features, one per click that hits, in click order |
| `LayerSystems.ReprojectedCount` | rgis-layers/src/systems.rs:118-125 | at most one new layer per event, and one for every event iff no reprojection fails |
| `LayerSystems.HandleCreateLayerEvents` | rgis-layers/src/systems.rs:113-126 | the store gains one layer per event that reprojects, in event order; LayerCreated carries exactly their fresh ids; failures add nothing |
| `GeoJsonLoader.ToGeometry` | rgis-file-loader/src/geojson.rs:70-105 | a supported GeoJSON value converts to a non-collection geometry with the same coordinates |
| `GeoJsonLoader.SupportedLayers` | rgis-file-loader/src/geojson.rs:70-119 | the reference definition of a walk's layers (one per supported leaf, in order); filtering never yields more layers than leaves |
| `GeoJsonLoader.SupportedLayersConcat` | rgis-file-loader/src/geojson.rs:106-118 | filtering distributes over concatenation of leaf sequences |
| `GeoJsonLoader.GeometryLayersAreSupportedLeaves` | rgis-file-loader/src/geojson.rs:60-121 | the walk adds exactly the supported leaves, in depth-first, left-to-right order, with the given metadata |
| `GeoJsonLoader.CollectionLayersAreSupportedLeaves` | rgis-file-loader/src/geojson.rs:106-118 | a collection adds its members' layers in member order, each with the same metadata |
| `GeoJsonLoader.FeatureLayersAreSupportedLeaves` | rgis-file-loader/src/geojson.rs:41-58 | a feature adds exactly its geometry's supported leaves with its properties, and nothing without a geometry |
| `GeoJsonLoader.FeaturesLayersAreSupportedLeaves` | rgis-file-loader/src/geojson.rs:24-35 | a feature collection adds each feature's supported leaves, feature after feature |
| `GeoJsonLoader.DocumentLayersAreSupportedLeaves` | rgis-file-loader/src/geojson.rs:17-36 | a whole document adds exactly its supported leaves in depth-first, feature order, with the feature's properties or no metadata for a bare geometry |
| `GeoJsonLoader.SupportedLayersFacts` | rgis-file-loader/src/geojson.rs:70-105 | every added layer has the given metadata and reference system and is a LineString, Polygon, MultiLineString or MultiPolygon |
| `GeoJsonLoader.SupportedGeomType` | rgis-file-loader/src/geojson.rs:70-105 | such a layer's geometry type is one of those four flags |
| `GeoJsonLoader.BareGeometryHasNoMetadata` | rgis-file-loader/src/geojson.rs:18-20 | a bare geometry is loaded with no metadata |
| `GeoJsonLoader.LeafLayers` | rgis-file-loader/src/geojson.rs:41-121 | a supported leaf adds exactly one layer; a Point, a MultiPoint, an empty collection or a feature without geometry adds none |
| `GeoJsonLoader.LoadGeometry` | rgis-file-loader/src/geojson.rs:60-121 | the store gains exactly `GeometryLayers` in order, under consecutive fresh ids that are returned, so the list is as long as the number of layers added |
| `GeoJsonLoader.LoadFeature` | rgis-file-loader/src/geojson.rs:41-58 | as `LoadGeometry` with the feature's properties, and nothing for a feature without geometry |
| `GeoJsonLoader.Load` | rgis-file-loader/src/geojson.rs:17-36 | the store gains exactly `DocumentLayers`: a bare geometry without metadata, a feature, or all features' layers in feature order |

## Findings

| source | as written | input that shows it | evidently intended | confidence | as-written member | corrected member |
|---|---|---|---|---|---|---|
| rgis-layers/src/systems.rs:79 | `old_z_index - 1` on an unsigned index | a Down move of the layer at position 0 | moving the bottom layer down is a no-op, like moving the top layer up | high; not executed | `LayerSystems.MoveTargetAsWritten` (with `LayerSystems.MoveDownFromBottomUnderflows`) | `LayerSystems.MoveTarget` (with `LayerSystems.MoveTargetCorrects`, `LayerSystems.MoveSlots`) |

The subtraction underflows. A debug build panics. A release build wraps to
the largest index, and the lookup there then finds nothing, which is the
intended no-op. The rest of the model uses `MoveTarget`.

## Left out

- File opening, `serde_json` parsing (`geojson.rs:12-16`) and logging. The
  loader starts from the parsed document and the log lines have no state.
  All `warn!`, `error!` and `info!` calls are left out.
- The `try_into` conversions to `geo_types` in `geojson.rs` are modelled as
  total: `ToGeometry` copies the coordinates.
- Reprojection of coordinates is a foreign library. In `TryAdd` it is a
  function argument. In the loader's infallible `Add` the layer keeps the
  converted geometry, and the target reference system is not used.
- `RgisLayers.Layers.Add`: the colour of a new layer is not specified. The
  real choice happens inside the store's `add`, whose body is not part of
  this model.
- The store's lookups search `data` by id. The store's own implementation
  is not part of this model.
- `feature_from_click`: its floating-point hit test is not part of this
  model. It is an uninterpreted function argument. The render message
  carries the properties value; its `Debug` formatting is not modelled.
- `system_set` only registers the handlers with the framework's scheduler.
  Draining the event readers is modelled as taking the batch as a sequence.
- Coordinates are opaque nested values. Bounding boxes and foreign members
  of GeoJSON objects are not modelled. Property values are kept as text.
- The task pool and channel in `rgis-file-loader/src/lib.rs` only carry the
  loader's result between threads, so they are left out. The
  network fetch, the UI widgets and the rendering code are not part of
  this model.
