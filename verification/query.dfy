/**
 * The query a request is turned into: the tiles to search, the query point
 * and the options, with the defaults a request that gives no options gets.
 */
module Query {
  import opened GeomTypes
  import opened Results

  /** One tile of the request: its z/x/y address and its (still encoded) bytes. */
  datatype TileRef = TileRef(z: int, x: int, y: int, buffer: seq<bv8>)

  /** Everything the worker needs to run one query. */
  datatype QueryData = QueryData(
    tiles: seq<TileRef>,
    layers: seq<string>,
    latitude: Double,
    longitude: Double,
    radius: Double,
    numResults: nat,
    dedupe: bool,
    geometryFilter: GeomType)

  /**
   * The query before any option is read: query point at (0, 0), radius 0
   * (only direct hits), five results, dedupe on, every layer and every
   * geometry kind.
   */
  function DefaultQuery(tiles: seq<TileRef>): (q: QueryData)
    ensures q.tiles == tiles && q.layers == []
    ensures q.latitude == 0.0 && q.longitude == 0.0
    ensures q.radius == 0.0 && q.numResults == 5 && q.dedupe && q.geometryFilter == All
  {
    QueryData(tiles, [], 0.0, 0.0, 0.0, 5, true, All)
  }

  /** The geographic query point (longitude first). */
  function QueryPoint(q: QueryData): LngLat {
    LngLat(q.longitude, q.latitude)
  }
}
