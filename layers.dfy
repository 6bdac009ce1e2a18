/**
  The layer store: an ordered sequence of layers, each with a unique id. A
  layer's position in the sequence is its z-index (higher is drawn on top).
  The store's own operations (lookup, remove, add) are given the contracts
  their callers rely on.
 */
module RgisLayers {

  import opened Wrappers
  import opened GeomTypes

  type LayerId = nat

  /** Per-feature properties; the values are kept as their text. */
  type Metadata = map<string, string>

  datatype Rgba = Rgba(r: real, g: real, b: real, a: real)

  /** A layer's colour: an optional fill and a stroke. Handlers treat it as one
      opaque value. */
  datatype Color = Color(fill: Option<Rgba>, stroke: Rgba)

  /** An arbitrary colour for a new layer: the real choice is made inside the
      store's add, whose body is not part of this model, and `Add`'s contract
      leaves the colour open. It has a fill, which the layer window expects of
      fill-capable layers. */
  const DEFAULT_COLOR := Color(Some(Rgba(0.5, 0.5, 0.5, 1.0)), Rgba(0.0, 0.0, 0.0, 1.0))

  datatype Layer = Layer(
    id: LayerId,
    name: string,
    geometry: Geometry,
    geomType: GeomType,
    metadata: Option<Metadata>,
    crs: string,
    color: Color,
    visible: bool)

  /** What `add` is given for one new layer. */
  datatype NewLayer = NewLayer(geometry: Geometry, name: string, metadata: Option<Metadata>, crs: string)

  /** The failure of the (external) reprojection inside `add`. */
  datatype TransformError = TransformError(crs: string)

  /** The ids of a layer sequence, in order. */
  function Ids(d: seq<Layer>): (r: seq<LayerId>)
    ensures |r| == |d|
    ensures forall i :: 0 <= i < |d| ==> r[i] == d[i].id
  {
    if d == [] then [] else [d[0].id] + Ids(d[1..])
  }

  /** No two layers share an id. */
  predicate UniqueIds(d: seq<Layer>)
  {
    forall i, j :: 0 <= i < j < |d| ==> d[i].id != d[j].id
  }

  /** Unique ids hold of the tail, and the head's id does not occur in it. */
  lemma UniqueTail(d: seq<Layer>)
    requires UniqueIds(d) && d != []
    ensures UniqueIds(d[1..]) && d[0].id !in Ids(d[1..])
  {
  }

  /** The position of the layer with the given id, if there is one. */
  function IndexOf(d: seq<Layer>, id: LayerId): (r: Option<nat>)
    ensures r.Some? ==> r.value < |d| && d[r.value].id == id
    ensures r.None? <==> id !in Ids(d)
  {
    if d == [] then None
    else if d[0].id == id then Some(0)
    else match IndexOf(d[1..], id)
      case None => None
      case Some(i) => Some(i + 1)
  }

  /** With distinct ids the position of an id is the only one holding it. */
  lemma {:induction false} IndexOfUnique(d: seq<Layer>, i: nat)
    requires UniqueIds(d) && i < |d|
    ensures IndexOf(d, d[i].id) == Some(i)
  {
    if i > 0 {
      UniqueTail(d);
      IndexOfUnique(d[1..], i - 1);
    }
  }

  /** The sequence after `remove`: the layer with that id taken out and the
      layers above it shifted down by one; unchanged when the id is absent. */
  function Removed(d: seq<Layer>, id: LayerId): (r: seq<Layer>)
    ensures |r| == if id in Ids(d) then |d| - 1 else |d|
    ensures id !in Ids(d) ==> r == d
  {
    if d == [] then []
    else if d[0].id == id then d[1..]
    else [d[0]] + Removed(d[1..], id)
  }

  /** Reference definition: the layers whose id is not `id`, in order. */
  function Without(d: seq<Layer>, id: LayerId): (r: seq<Layer>)
  {
    if d == [] then []
    else (if d[0].id == id then [] else [d[0]]) + Without(d[1..], id)
  }

  /** With distinct ids, removing is filtering out that one id. */
  lemma {:induction false} RemovedIsWithout(d: seq<Layer>, id: LayerId)
    requires UniqueIds(d)
    ensures Removed(d, id) == Without(d, id)
  {
    if d == [] {
    } else if d[0].id == id {
      UniqueTail(d);
      WithoutAbsent(d[1..], id);
      assert Removed(d, id) == d[1..];
      assert Without(d, id) == [] + Without(d[1..], id);
    } else {
      UniqueTail(d);
      RemovedIsWithout(d[1..], id);
    }
  }

  /** Filtering out an id that does not occur changes nothing. */
  lemma {:induction false} WithoutAbsent(d: seq<Layer>, id: LayerId)
    requires id !in Ids(d)
    ensures Without(d, id) == d
  {
    if d != [] {
      assert Ids(d[1..]) == Ids(d)[1..];
      WithoutAbsent(d[1..], id);
    }
  }

  /** The layers of `Without` are exactly those of `d` whose id differs. */
  lemma {:induction false} WithoutContents(d: seq<Layer>, id: LayerId)
    ensures forall l :: l in Without(d, id) <==> l in d && l.id != id
  {
    if d != [] {
      WithoutContents(d[1..], id);
      assert d == [d[0]] + d[1..];
    }
  }

  /** Putting a layer whose id is new in front keeps ids unique. */
  lemma ConsUnique(x: Layer, rest: seq<Layer>)
    requires UniqueIds(rest) && x.id !in Ids(rest)
    ensures UniqueIds([x] + rest)
  {
    var r := [x] + rest;
    forall a, b | 0 <= a < b < |r| ensures r[a].id != r[b].id {
      assert r[b] == rest[b - 1];
      if a == 0 {
        assert Ids(rest)[b - 1] == r[b].id;
      } else {
        assert r[a] == rest[a - 1];
      }
    }
  }

  /** Filtering takes ids away and adds none. */
  lemma {:induction false} WithoutIds(d: seq<Layer>, id: LayerId, y: LayerId)
    ensures y in Ids(Without(d, id)) ==> y in Ids(d) && y != id
  {
    if d != [] {
      WithoutIds(d[1..], id, y);
      var rest := Without(d[1..], id);
      if d[0].id != id {
        assert Ids([d[0]] + rest) == [d[0].id] + Ids(rest);
      } else {
        assert [] + rest == rest;
      }
      assert Ids(d) == [d[0].id] + Ids(d[1..]);
    }
  }

  /** Filtering keeps unique ids unique. */
  lemma {:induction false} WithoutUnique(d: seq<Layer>, id: LayerId)
    requires UniqueIds(d)
    ensures UniqueIds(Without(d, id))
  {
    if d != [] {
      UniqueTail(d);
      WithoutUnique(d[1..], id);
      var rest := Without(d[1..], id);
      if d[0].id != id {
        WithoutIds(d[1..], id, d[0].id);
        ConsUnique(d[0], rest);
      } else {
        assert [] + rest == rest;
      }
    }
  }

  /** `l` is the layer `add` builds with id `id` from `n`: the geometry type is
      classified from the geometry, and a new layer is visible. */
  predicate Describes(l: Layer, id: LayerId, n: NewLayer)
  {
    l.id == id && l.geometry == n.geometry && l.name == n.name && l.metadata == n.metadata
    && l.crs == n.crs && l.geomType == Determine([n.geometry]) && l.visible
  }

  /** `after` is `before` with one layer per entry of `news` appended, in order,
      carrying the consecutive ids `ids` that start at `firstId`. */
  predicate Appended(before: seq<Layer>, after: seq<Layer>, firstId: LayerId, ids: seq<LayerId>, news: seq<NewLayer>)
  {
    |after| == |before| + |news| && after[..|before|] == before && |ids| == |news|
    && forall k :: 0 <= k < |news| ==> ids[k] == firstId + k && Describes(after[|before| + k], ids[k], news[k])
  }

  /** Two appends in a row are one append of both batches. */
  lemma AppendedTrans(a: seq<Layer>, b: seq<Layer>, c: seq<Layer>, firstId: LayerId,
                      ids1: seq<LayerId>, news1: seq<NewLayer>, ids2: seq<LayerId>, news2: seq<NewLayer>)
    requires Appended(a, b, firstId, ids1, news1)
    requires Appended(b, c, firstId + |ids1|, ids2, news2)
    ensures Appended(a, c, firstId, ids1 + ids2, news1 + news2)
  {
    assert c[..|a|] == c[..|b|][..|a|];
    forall k | 0 <= k < |news1 + news2|
      ensures (ids1 + ids2)[k] == firstId + k && Describes(c[|a| + k], (ids1 + ids2)[k], (news1 + news2)[k])
    {
      if k < |news1| {
        assert c[|a| + k] == c[..|b|][|a| + k];
      } else {
        assert c[|a| + k] == c[|b| + (k - |news1|)];
      }
    }
  }

  /** The store. */
  class Layers {
    var data: seq<Layer>
    /** The id the next `add` hands out; ids are never reused. */
    var nextId: LayerId

    /** Ids are unique, and all below `nextId`. */
    predicate Valid()
      reads this
    {
      UniqueIds(data) && forall i :: 0 <= i < |data| ==> data[i].id < nextId
    }

    constructor ()
      ensures Valid() && data == [] && nextId == 0
    {
      data := [];
      nextId := 0;
    }

    /** `get`: the layer with the given id, if any. */
    function Get(id: LayerId): (r: Option<Layer>)
      reads this
      ensures r.Some? <==> id in Ids(data)
      ensures r.Some? ==> r.value in data && r.value.id == id
    {
      match IndexOf(data, id)
      case None => None
      case Some(i) => Some(data[i])
    }

    /** `get_with_z_index`: the layer with the given id and its position. A
        mutable reference from `get_mut` is modelled by this position, at
        which the caller writes the changed layer back. */
    function GetWithZIndex(id: LayerId): (r: Option<(Layer, nat)>)
      reads this
      ensures r.None? <==> id !in Ids(data)
      ensures r.Some? ==> r.value.1 < |data| && data[r.value.1] == r.value.0 && r.value.0.id == id
      ensures r.Some? && UniqueIds(data) ==> forall i :: 0 <= i < |data| && data[i].id == id ==> i == r.value.1
    {
      match IndexOf(data, id)
      case None => None
      case Some(i) => Some((data[i], i))
    }

    /** `remove`: take out the layer with this id; no-op when absent. */
    method Remove(id: LayerId)
      requires Valid()
      modifies this
      ensures Valid() && nextId == old(nextId)
      ensures data == Removed(old(data), id)
    {
      RemovedIsWithout(data, id);
      WithoutUnique(data, id);
      WithoutContents(data, id);
      data := Removed(data, id);
      forall i | 0 <= i < |data| ensures data[i].id < nextId {
        assert data[i] in old(data);
      }
    }

    /** `add`: append a layer built from the arguments under a fresh id. */
    method Add(geometry: Geometry, name: string, metadata: Option<Metadata>, crs: string) returns (id: LayerId)
      requires Valid()
      modifies this
      ensures Valid()
      ensures id == old(nextId) && id !in Ids(old(data)) && nextId == old(nextId) + 1
      ensures Appended(old(data), data, id, [id], [NewLayer(geometry, name, metadata, crs)])
    {
      id := nextId;
      var layer := Layer(id, name, geometry, Determine([geometry]), metadata, crs, DEFAULT_COLOR, true);
      data := data + [layer];
      nextId := nextId + 1;
      assert Ids(data) == Ids(old(data)) + [id];
    }

    /** The fallible `add` of the create-layer handler: the reprojection of the
        geometry from its source reference system (an external service, passed
        in) either fails, and nothing changes, or yields the geometry to add. */
    method TryAdd(geometry: Geometry, name: string, crs: string,
                  reproject: (Geometry, string) -> Result<Geometry, TransformError>)
      returns (r: Result<LayerId, TransformError>)
      requires Valid()
      modifies this
      ensures Valid()
      ensures reproject(geometry, crs).Err? ==>
                r == Err(reproject(geometry, crs).error) && data == old(data) && nextId == old(nextId)
      ensures reproject(geometry, crs).Ok? ==>
                r == Ok(old(nextId)) && nextId == old(nextId) + 1
                && Appended(old(data), data, old(nextId), [old(nextId)],
                            [NewLayer(reproject(geometry, crs).value, name, None, crs)])
    {
      match reproject(geometry, crs)
      case Err(e) =>
        r := Err(e);
      case Ok(projected) =>
        var id := Add(projected, name, None, crs);
        r := Ok(id);
    }
  }
}
