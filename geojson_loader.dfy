/**
  Loading an already-parsed GeoJSON document (RFC 7946: a bare geometry,
  section 3.1; a feature, section 3.2; a feature collection, section 3.3)
  into the layer store: one layer per LineString, Polygon, MultiLineString
  or MultiPolygon found, walking features and nested geometry collections
  (section 3.1.8) depth first, left to right. Points and MultiPoints are
  dropped.
 */
module GeoJsonLoader {

  import opened Wrappers
  import GeomTypes
  import opened RgisLayers

  /** The coordinate part of a GeoJSON geometry. */
  datatype Value =
    | Point(c: GeomTypes.Coords)
    | MultiPoint(c: GeomTypes.Coords)
    | LineString(c: GeomTypes.Coords)
    | MultiLineString(c: GeomTypes.Coords)
    | Polygon(c: GeomTypes.Coords)
    | MultiPolygon(c: GeomTypes.Coords)
    | GeometryCollection(geometries: seq<GeoJsonGeometry>)

  /** A GeoJSON geometry object (its bounding box and foreign members are not modelled). */
  datatype GeoJsonGeometry = GeoJsonGeometry(value: Value)

  datatype Feature = Feature(geometry: Option<GeoJsonGeometry>, properties: Option<Metadata>)

  /** The three shapes of a GeoJSON document. */
  datatype GeoJson =
    | GeometryDocument(geometry: GeoJsonGeometry)
    | FeatureDocument(feature: Feature)
    | FeatureCollectionDocument(features: seq<Feature>)

  /** The kinds the loader turns into layers. */
  predicate IsSupported(v: Value)
  {
    v.LineString? || v.Polygon? || v.MultiLineString? || v.MultiPolygon?
  }

  /** The conversion of a supported value to a geometry (total here). */
  function ToGeometry(v: Value): (g: GeomTypes.Geometry)
    requires IsSupported(v)
    ensures !g.GeometryCollection? && g.c == v.c
  {
    match v
    case LineString(c) => GeomTypes.LineString(c)
    case Polygon(c) => GeomTypes.Polygon(c)
    case MultiLineString(c) => GeomTypes.MultiLineString(c)
    case MultiPolygon(c) => GeomTypes.MultiPolygon(c)
  }

  // ----- what the loader adds -----

  /** The layers loading one geometry adds, all with the same metadata. */
  function GeometryLayers(g: GeoJsonGeometry, metadata: Option<Metadata>, crs: string): seq<NewLayer>
    decreases g, 0
  {
    match g.value
    case GeometryCollection(members) => CollectionLayers(members, metadata, crs)
    case v => if IsSupported(v) then [NewLayer(ToGeometry(v), "", metadata, crs)] else []
  }

  /** The layers of the members of a collection, concatenated in member order. */
  function CollectionLayers(members: seq<GeoJsonGeometry>, metadata: Option<Metadata>, crs: string): seq<NewLayer>
    decreases members, 1
  {
    if members == [] then []
    else CollectionLayers(members[..|members| - 1], metadata, crs)
         + GeometryLayers(members[|members| - 1], metadata, crs)
  }

  /** A feature's layers carry its properties; a feature without geometry has none. */
  function FeatureLayers(f: Feature, crs: string): seq<NewLayer>
  {
    match f.geometry
    case None => []
    case Some(g) => GeometryLayers(g, f.properties, crs)
  }

  /** The layers of a feature collection, concatenated in feature order. */
  function FeaturesLayers(features: seq<Feature>, crs: string): seq<NewLayer>
    decreases |features|
  {
    if features == [] then []
    else FeaturesLayers(features[..|features| - 1], crs) + FeatureLayers(features[|features| - 1], crs)
  }

  /** The layers of a document; a bare geometry has no metadata. */
  function DocumentLayers(doc: GeoJson, crs: string): seq<NewLayer>
  {
    match doc
    case GeometryDocument(g) => GeometryLayers(g, None, crs)
    case FeatureDocument(f) => FeatureLayers(f, crs)
    case FeatureCollectionDocument(features) => FeaturesLayers(features, crs)
  }

  // ----- reference: flatten first, then filter -----

  /** All leaf values of a geometry, depth first, left to right. */
  function Leaves(g: GeoJsonGeometry): seq<Value>
    decreases g, 0
  {
    match g.value
    case GeometryCollection(members) => MembersLeaves(members)
    case v => [v]
  }

  function MembersLeaves(members: seq<GeoJsonGeometry>): seq<Value>
    decreases members, 1
  {
    if members == [] then []
    else MembersLeaves(members[..|members| - 1]) + Leaves(members[|members| - 1])
  }

  /** The reference definition of what a walk adds: one new layer per
      supported value, in order; the others are dropped. */
  function SupportedLayers(leaves: seq<Value>, metadata: Option<Metadata>, crs: string): (r: seq<NewLayer>)
    ensures |r| <= |leaves|
    decreases |leaves|
  {
    if leaves == [] then []
    else
      var v := leaves[|leaves| - 1];
      SupportedLayers(leaves[..|leaves| - 1], metadata, crs)
      + if IsSupported(v) then [NewLayer(ToGeometry(v), "", metadata, crs)] else []
  }

  lemma {:induction false} SupportedLayersConcat(a: seq<Value>, b: seq<Value>, metadata: Option<Metadata>, crs: string)
    ensures SupportedLayers(a + b, metadata, crs) == SupportedLayers(a, metadata, crs) + SupportedLayers(b, metadata, crs)
    decreases |b|
  {
    if b == [] {
      assert a + b == a;
    } else {
      var b' := b[..|b| - 1];
      assert (a + b)[..|a + b| - 1] == a + b';
      assert (a + b)[|a + b| - 1] == b[|b| - 1];
      SupportedLayersConcat(a, b', metadata, crs);
    }
  }

  /** The walk adds exactly the supported leaves, in depth-first order, all
      with the given metadata. */
  lemma {:induction false} GeometryLayersAreSupportedLeaves(g: GeoJsonGeometry, metadata: Option<Metadata>, crs: string)
    ensures GeometryLayers(g, metadata, crs) == SupportedLayers(Leaves(g), metadata, crs)
    decreases g, 0
  {
    match g.value
    case GeometryCollection(members) =>
      CollectionLayersAreSupportedLeaves(members, metadata, crs);
    case v =>
      assert Leaves(g) == [v];
      assert [v][..0] == [];
  }

  lemma {:induction false} CollectionLayersAreSupportedLeaves(members: seq<GeoJsonGeometry>, metadata: Option<Metadata>, crs: string)
    ensures CollectionLayers(members, metadata, crs) == SupportedLayers(MembersLeaves(members), metadata, crs)
    decreases members, 1
  {
    if members != [] {
      var init, last := members[..|members| - 1], members[|members| - 1];
      CollectionLayersAreSupportedLeaves(init, metadata, crs);
      GeometryLayersAreSupportedLeaves(last, metadata, crs);
      SupportedLayersConcat(MembersLeaves(init), Leaves(last), metadata, crs);
    }
  }

  /** Reference for a feature: its geometry's supported leaves, with its properties. */
  function FeatureLeafLayers(f: Feature, crs: string): seq<NewLayer>
  {
    if f.geometry.None? then [] else SupportedLayers(Leaves(f.geometry.value), f.properties, crs)
  }

  /** Reference for a feature collection, taken from the front. */
  function FeaturesLeafLayers(features: seq<Feature>, crs: string): seq<NewLayer>
  {
    if features == [] then [] else FeatureLeafLayers(features[0], crs) + FeaturesLeafLayers(features[1..], crs)
  }

  /** Reference for a document: flatten each geometry's leaves, then keep the supported ones. */
  function DocumentLeafLayers(doc: GeoJson, crs: string): seq<NewLayer>
  {
    match doc
    case GeometryDocument(g) => SupportedLayers(Leaves(g), None, crs)
    case FeatureDocument(f) => FeatureLeafLayers(f, crs)
    case FeatureCollectionDocument(features) => FeaturesLeafLayers(features, crs)
  }

  lemma {:induction false} FeaturesLeafLayersSnoc(features: seq<Feature>, f: Feature, crs: string)
    ensures FeaturesLeafLayers(features + [f], crs) == FeaturesLeafLayers(features, crs) + FeatureLeafLayers(f, crs)
    decreases |features|
  {
    if features == [] {
      assert [f][1..] == [];
    } else {
      assert (features + [f])[1..] == features[1..] + [f];
      FeaturesLeafLayersSnoc(features[1..], f, crs);
    }
  }

  lemma FeatureLayersAreSupportedLeaves(f: Feature, crs: string)
    ensures FeatureLayers(f, crs) == FeatureLeafLayers(f, crs)
  {
    if f.geometry.Some? {
      GeometryLayersAreSupportedLeaves(f.geometry.value, f.properties, crs);
    }
  }

  lemma {:induction false} FeaturesLayersAreSupportedLeaves(features: seq<Feature>, crs: string)
    ensures FeaturesLayers(features, crs) == FeaturesLeafLayers(features, crs)
    decreases |features|
  {
    if features != [] {
      var init, last := features[..|features| - 1], features[|features| - 1];
      assert features == init + [last];
      FeaturesLayersAreSupportedLeaves(init, crs);
      FeatureLayersAreSupportedLeaves(last, crs);
      FeaturesLeafLayersSnoc(init, last, crs);
    }
  }

  /** Everything a document adds is its supported leaves, depth first, feature
      by feature, each carrying its feature's properties (none for a bare
      geometry). */
  lemma DocumentLayersAreSupportedLeaves(doc: GeoJson, crs: string)
    ensures DocumentLayers(doc, crs) == DocumentLeafLayers(doc, crs)
  {
    match doc
    case GeometryDocument(g) => GeometryLayersAreSupportedLeaves(g, None, crs);
    case FeatureDocument(f) => FeatureLayersAreSupportedLeaves(f, crs);
    case FeatureCollectionDocument(features) => FeaturesLayersAreSupportedLeaves(features, crs);
  }

  /** Every layer the walk adds is a supported kind with the given metadata and
      reference system, so its geometry type is one of the four flags. */
  lemma {:induction false} SupportedLayersFacts(leaves: seq<Value>, metadata: Option<Metadata>, crs: string)
    ensures forall n :: n in SupportedLayers(leaves, metadata, crs) ==>
              n.metadata == metadata && n.crs == crs && n.name == ""
              && (n.geometry.LineString? || n.geometry.Polygon? || n.geometry.MultiLineString? || n.geometry.MultiPolygon?)
    decreases |leaves|
  {
    if leaves != [] {
      SupportedLayersFacts(leaves[..|leaves| - 1], metadata, crs);
    }
  }

  /** A layer added for a document holds one of the four supported geometry
      types, never a point or a collection. */
  lemma SupportedGeomType(n: NewLayer)
    requires n.geometry.LineString? || n.geometry.Polygon? || n.geometry.MultiLineString? || n.geometry.MultiPolygon?
    ensures var t := GeomTypes.Determine([n.geometry]);
            t == GeomTypes.LINE_STRING || t == GeomTypes.POLYGON
            || t == GeomTypes.MULTI_LINE_STRING || t == GeomTypes.MULTI_POLYGON
  {
    GeomTypes.DetermineSingleton(n.geometry);
  }

  /** A bare geometry is loaded without metadata. */
  lemma BareGeometryHasNoMetadata(g: GeoJsonGeometry, crs: string)
    ensures forall n :: n in DocumentLayers(GeometryDocument(g), crs) ==> n.metadata == None
  {
    GeometryLayersAreSupportedLeaves(g, None, crs);
    SupportedLayersFacts(Leaves(g), None, crs);
  }

  /** A single supported leaf adds exactly one layer; a point, a multi-point,
      an empty collection or a feature without geometry adds none. */
  lemma LeafLayers(g: GeoJsonGeometry, metadata: Option<Metadata>, crs: string, properties: Option<Metadata>)
    ensures IsSupported(g.value) ==> GeometryLayers(g, metadata, crs) == [NewLayer(ToGeometry(g.value), "", metadata, crs)]
    ensures g.value.Point? || g.value.MultiPoint? || g.value == GeometryCollection([])
            ==> GeometryLayers(g, metadata, crs) == []
    ensures FeatureLayers(Feature(None, properties), crs) == []
  {
  }

  // ----- the loader -----

  /** `load_geojson_geometry`. */
  method LoadGeometry(layers: Layers, g: GeoJsonGeometry, metadata: Option<Metadata>, sourceProjection: string)
    returns (ids: seq<LayerId>)
    requires layers.Valid()
    modifies layers
    ensures layers.Valid() && layers.nextId == old(layers.nextId) + |ids|
    ensures Appended(old(layers.data), layers.data, old(layers.nextId), ids, GeometryLayers(g, metadata, sourceProjection))
    decreases g, 0
  {
    match g.value
    case GeometryCollection(members) =>
      ids := [];
      for k := 0 to |members|
        invariant layers.Valid() && layers.nextId == old(layers.nextId) + |ids|
        invariant Appended(old(layers.data), layers.data, old(layers.nextId), ids,
                           CollectionLayers(members[..k], metadata, sourceProjection))
      {
        assert members[..k + 1][..k] == members[..k];
        ghost var before := layers.data;
        var more := LoadGeometry(layers, members[k], metadata, sourceProjection);
        AppendedTrans(old(layers.data), before, layers.data, old(layers.nextId), ids,
                      CollectionLayers(members[..k], metadata, sourceProjection),
                      more, GeometryLayers(members[k], metadata, sourceProjection));
        ids := ids + more;
      }
      assert members[..|members|] == members;
    case LineString(_) | Polygon(_) | MultiLineString(_) | MultiPolygon(_) =>
      var id := layers.Add(ToGeometry(g.value), "", metadata, sourceProjection);
      ids := [id];
    case Point(_) | MultiPoint(_) =>
      // every other kind is dropped
      ids := [];
  }

  /** `load_geojson_feature`. */
  method LoadFeature(layers: Layers, f: Feature, sourceProjection: string) returns (ids: seq<LayerId>)
    requires layers.Valid()
    modifies layers
    ensures layers.Valid() && layers.nextId == old(layers.nextId) + |ids|
    ensures Appended(old(layers.data), layers.data, old(layers.nextId), ids, FeatureLayers(f, sourceProjection))
  {
    if f.geometry.Some? {
      ids := LoadGeometry(layers, f.geometry.value, f.properties, sourceProjection);
    } else {
      ids := [];
    }
  }

  /** The dispatch of `load` on the parsed document. */
  method Load(layers: Layers, doc: GeoJson, sourceProjection: string) returns (ids: seq<LayerId>)
    requires layers.Valid()
    modifies layers
    ensures layers.Valid() && layers.nextId == old(layers.nextId) + |ids|
    ensures Appended(old(layers.data), layers.data, old(layers.nextId), ids, DocumentLayers(doc, sourceProjection))
  {
    match doc
    case GeometryDocument(g) =>
      ids := LoadGeometry(layers, g, None, sourceProjection);
    case FeatureDocument(f) =>
      ids := LoadFeature(layers, f, sourceProjection);
    case FeatureCollectionDocument(features) =>
      ids := [];
      for k := 0 to |features|
        invariant layers.Valid() && layers.nextId == old(layers.nextId) + |ids|
        invariant Appended(old(layers.data), layers.data, old(layers.nextId), ids,
                           FeaturesLayers(features[..k], sourceProjection))
      {
        assert features[..k + 1][..k] == features[..k];
        ghost var before := layers.data;
        var more := LoadFeature(layers, features[k], sourceProjection);
        AppendedTrans(old(layers.data), before, layers.data, old(layers.nextId), ids,
                      FeaturesLayers(features[..k], sourceProjection),
                      more, FeatureLayers(features[k], sourceProjection));
        ids := ids + more;
      }
      assert features[..|features|] == features;
  }
}
