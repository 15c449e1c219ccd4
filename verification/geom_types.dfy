/**
 * Geometry kinds: the engine's own enumeration, the codec's geometry codes,
 * the mapping between them and the string table used when results are emitted.
 */
module GeomTypes {

  /** The engine's geometry enumeration; `All` only ever appears as a filter value. */
  datatype GeomType = Point | LineString | Polygon | All | Unknown

  /** The enumerator values of the source's `enum GeomType` (point = 0 ... unknown = 4). */
  function Ordinal(g: GeomType): (n: nat)
    ensures n <= 4
    ensures n < 3 <==> g in {Point, LineString, Polygon}
    ensures n == 3 <==> g == All
    ensures n == 4 <==> g == Unknown
  {
    match g
    case Point => 0
    case LineString => 1
    case Polygon => 2
    case All => 3
    case Unknown => 4
  }

  /** Geometry codes a decoded vector-tile feature may carry. */
  datatype TileGeomType = UNKNOWN | POINT | LINESTRING | POLYGON

  /** Maps a feature's codec geometry code to the engine's kind; never yields `All`. */
  function GetGeometryType(t: TileGeomType): (g: GeomType)
    ensures g != All
    ensures g == Unknown <==> t == UNKNOWN
    ensures t == POINT <==> g == Point
    ensures t == LINESTRING <==> g == LineString
    ensures t == POLYGON <==> g == Polygon
  {
    match t
    case POINT => Point
    case LINESTRING => LineString
    case POLYGON => Polygon
    case UNKNOWN => Unknown
  }

  /** The four-entry name table; it has no entry for `Unknown`'s value 4. */
  const GeomTypeStrings: seq<string> := ["point", "linestring", "polygon", "unknown"]

  /**
   * Looks the kind up in the name table by its enumerator value. Only values
   * below the table's length have an entry, so `Unknown` cannot be looked up,
   * and `All` (value 3) reads the entry "unknown".
   */
  function GeomTypeString(g: GeomType): (s: string)
    requires Ordinal(g) < |GeomTypeStrings|
    ensures g == Point ==> s == "point"
    ensures g == LineString ==> s == "linestring"
    ensures g == Polygon ==> s == "polygon"
    ensures g == All ==> s == "unknown"
  {
    GeomTypeStrings[Ordinal(g)]
  }

  /** Exactly the kinds the name table can render. */
  lemma GeomTypeStringDefinedExactly(g: GeomType)
    ensures Ordinal(g) < |GeomTypeStrings| <==> g != Unknown
  {
  }
}
