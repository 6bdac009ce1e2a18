/**
  The geometry-type classifier: a 9-bit flag set summarising which kinds of
  geometry occur in a collection, and the name of a single flag.
 */
module GeomTypes {

  /** Coordinates of a geometry, nested to whatever depth its kind uses
      (a position, a ring, a polygon, ...). The classifier never looks at them. */
  datatype Coords = Position(x: real, y: real) | Nested(items: seq<Coords>)

  /** A geometry value, one variant per geometry kind; a collection holds
      further geometries, nested to any depth. */
  datatype Geometry =
    | Point(c: Coords)
    | Line(c: Coords)
    | LineString(c: Coords)
    | Polygon(c: Coords)
    | MultiPoint(c: Coords)
    | MultiLineString(c: Coords)
    | MultiPolygon(c: Coords)
    | Rect(c: Coords)
    | Triangle(c: Coords)
    | GeometryCollection(members: seq<Geometry>)

  /** The nine leaf kinds, one per flag. */
  datatype Kind =
    | PointKind | LineKind | LineStringKind | PolygonKind | MultiPointKind
    | MultiLineStringKind | MultiPolygonKind | RectKind | TriangleKind

  /** The flag set is stored in a 16-bit word. */
  type GeomType = bv16

  const EMPTY: GeomType := 0
  const POINT: GeomType := 0x001
  const LINE: GeomType := 0x002
  const LINE_STRING: GeomType := 0x004
  const POLYGON: GeomType := 0x008
  const MULTI_POINT: GeomType := 0x010
  const MULTI_LINE_STRING: GeomType := 0x020
  const MULTI_POLYGON: GeomType := 0x040
  const RECT: GeomType := 0x080
  const TRIANGLE: GeomType := 0x100

  /** The union of all nine flags: bits 0 to 8. */
  const ALL: GeomType := 0x1FF

  /** The flag of each kind. */
  function Flag(k: Kind): (f: GeomType)
    ensures f != EMPTY && f & ALL == f
  {
    match k
    case PointKind => POINT
    case LineKind => LINE
    case LineStringKind => LINE_STRING
    case PolygonKind => POLYGON
    case MultiPointKind => MULTI_POINT
    case MultiLineStringKind => MULTI_LINE_STRING
    case MultiPolygonKind => MULTI_POLYGON
    case RectKind => RECT
    case TriangleKind => TRIANGLE
  }

  /** The nine flags are pairwise disjoint single bits. */
  lemma FlagsDisjoint(k1: Kind, k2: Kind)
    ensures k1 != k2 <==> Flag(k1) & Flag(k2) == EMPTY
  {
  }

  /** The kind of a leaf geometry. */
  function KindOf(g: Geometry): Kind
    requires !g.GeometryCollection?
  {
    match g
    case Point(_) => PointKind
    case Line(_) => LineKind
    case LineString(_) => LineStringKind
    case Polygon(_) => PolygonKind
    case MultiPoint(_) => MultiPointKind
    case MultiLineString(_) => MultiLineStringKind
    case MultiPolygon(_) => MultiPolygonKind
    case Rect(_) => RectKind
    case Triangle(_) => TriangleKind
  }

  /** The classifier: a left fold from the empty mask that ORs in one flag
      per geometry, recursing into collections. A left fold over `gs` is the
      fold over all but the last element, ORed with the last one's part. */
  function Determine(gs: seq<Geometry>): (r: GeomType)
    ensures r & ALL == r
    decreases gs, 1
  {
    if gs == [] then EMPTY
    else Determine(gs[..|gs| - 1]) | Contribution(gs[|gs| - 1])
  }

  /** What one geometry ORs into the accumulator. */
  function Contribution(g: Geometry): (r: GeomType)
    ensures r & ALL == r
    decreases g, 0
  {
    if g.GeometryCollection? then Determine(g.members) else Flag(KindOf(g))
  }

  lemma OrAssociative(a: GeomType, b: GeomType, c: GeomType)
    ensures (a | b) | c == a | (b | c)
  {
  }

  /** The empty sequence has the empty mask. */
  lemma DetermineEmpty()
    ensures Determine([]) == EMPTY
  {
  }

  /** Classification distributes over concatenation. */
  lemma {:induction false} DetermineConcat(s: seq<Geometry>, t: seq<Geometry>)
    ensures Determine(s + t) == Determine(s) | Determine(t)
    decreases |t|
  {
    if t == [] {
      assert s + t == s;
      assert Determine(s) | EMPTY == Determine(s);
    } else {
      var t', c := t[..|t| - 1], Contribution(t[|t| - 1]);
      assert (s + t)[..|s + t| - 1] == s + t';
      assert (s + t)[|s + t| - 1] == t[|t| - 1];
      DetermineConcat(s, t');
      OrAssociative(Determine(s), Determine(t'), c);
    }
  }

  /** The order of two parts does not matter, and repeating a part adds nothing. */
  lemma DetermineOrderFree(s: seq<Geometry>, t: seq<Geometry>)
    ensures Determine(s + t) == Determine(t + s)
    ensures Determine(s + s) == Determine(s)
  {
    DetermineConcat(s, t);
    DetermineConcat(t, s);
    DetermineConcat(s, s);
  }

  /** A single leaf geometry gives exactly its own flag; a single collection
      gives the classification of its members, and nothing when it is empty. */
  lemma DetermineSingleton(g: Geometry)
    ensures !g.GeometryCollection? ==> Determine([g]) == Flag(KindOf(g))
    ensures g.GeometryCollection? ==> Determine([g]) == Determine(g.members)
    ensures g == GeometryCollection([]) ==> Determine([g]) == EMPTY
  {
    assert [g][..0] == [];
    assert EMPTY | Contribution(g) == Contribution(g);
  }

  /** Classifying a non-empty sequence from the front: the first geometry's
      part ORed with the classification of the rest. */
  lemma DetermineCons(gs: seq<Geometry>)
    requires gs != []
    ensures Determine(gs) == Contribution(gs[0]) | Determine(gs[1..])
  {
    assert gs == [gs[0]] + gs[1..];
    DetermineConcat([gs[0]], gs[1..]);
    DetermineSingleton(gs[0]);
  }

  /** Reference definition: the kinds of all leaf geometries occurring in
      `gs`, however deeply nested in collections. */
  ghost function LeafKinds(gs: seq<Geometry>): set<Kind>
    decreases gs
  {
    if gs == [] then {}
    else
      (if gs[0].GeometryCollection? then LeafKinds(gs[0].members) else {KindOf(gs[0])})
      + LeafKinds(gs[1..])
  }

  /** A kind's flag is set in the classification iff a leaf of that kind
      occurs somewhere in the (nested) input. */
  lemma {:induction false} DetermineExactlyLeafKinds(gs: seq<Geometry>, k: Kind)
    ensures Determine(gs) & Flag(k) != EMPTY <==> k in LeafKinds(gs)
    decreases gs
  {
    if gs != [] {
      DetermineCons(gs);
      DetermineExactlyLeafKinds(gs[1..], k);
      if gs[0].GeometryCollection? {
        DetermineExactlyLeafKinds(gs[0].members, k);
      } else {
        FlagsDisjoint(KindOf(gs[0]), k);
      }
    }
  }

  /** A mask equal to exactly one of the nine flags. */
  predicate IsSingleFlag(t: GeomType)
  {
    t == POINT || t == LINE || t == LINE_STRING || t == POLYGON || t == MULTI_POINT
    || t == MULTI_LINE_STRING || t == MULTI_POLYGON || t == RECT || t == TRIANGLE
  }

  /** The display name of a single flag; the empty mask and masks holding
      several flags have none. */
  function Name(t: GeomType): (name: string)
    requires IsSingleFlag(t)
    ensures |name| > 0
  {
    if t == POINT then "Point"
    else if t == LINE then "Line"
    else if t == LINE_STRING then "LineString"
    else if t == POLYGON then "Polygon"
    else if t == MULTI_POINT then "MultiPoint"
    else if t == MULTI_LINE_STRING then "MultiLineString"
    else if t == MULTI_POLYGON then "MultiPolygon"
    else if t == RECT then "Rectangle"
    else "Triangle"
  }

  /** Every flag has a name, and different flags have different names. */
  lemma NameOfFlag(k1: Kind, k2: Kind)
    ensures IsSingleFlag(Flag(k1)) && IsSingleFlag(Flag(k2))
    ensures Name(Flag(k1)) == Name(Flag(k2)) <==> k1 == k2
  {
  }

  /** The classification of a single leaf geometry can always be displayed. */
  lemma LeafIsNamed(g: Geometry)
    requires !g.GeometryCollection?
    ensures IsSingleFlag(Determine([g]))
  {
    DetermineSingleton(g);
  }
}
