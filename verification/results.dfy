/**
 * Result slots, candidates and the duplicate classifier.
 */
module Results {
  import opened GeomTypes
  import opened Properties

  /** The largest finite double, the distance of an empty ("sentinel") slot. */
  const MaxDistance: real := 179769313486231570814527423731704356798070567525844996598917476803157260780028538760589558632766878171540458953514382464234321326889464182768467546703537516986049910576551282076245490090389328944075868508455133942304583236903222948165808559332123348274797826204144723168738177180919299881250404026184124858368.0

  /**
   * A distance or coordinate: a real no larger in magnitude than the largest
   * finite double (every such real, not only the representable ones).
   */
  type Double = r: real | -MaxDistance <= r <= MaxDistance witness 0.0

  /** A geographic point. */
  datatype LngLat = LngLat(lng: Double, lat: Double)

  /** One of the K result slots. */
  datatype ResultObject = ResultObject(
    propertiesVector: seq<Property>,
    materialized: seq<MaterializedProp>,
    layerName: string,
    coordinates: LngLat,
    distance: Double,
    geomType: GeomType,
    hasId: bool,
    id: nat)

  /** The default-constructed slot: empty, unknown kind, no id, maximal distance. */
  function Sentinel(): (r: ResultObject)
    ensures r.distance == MaxDistance && r.geomType == Unknown && !r.hasId
    ensures r.propertiesVector == [] && r.materialized == []
  {
    ResultObject([], [], "", LngLat(0.0, 0.0), MaxDistance, Unknown, false, 0)
  }

  /** A feature that passed every filter, with its distance in meters. */
  datatype Candidate = Candidate(
    layerName: string,
    geomType: GeomType,
    hasId: bool,
    id: nat,
    properties: seq<Property>,
    coordinates: LngLat,
    meters: Double)

  /**
   * Overwrites a slot with a candidate's data. The slot's materialized list is
   * the one field that is kept.
   */
  function InsertResult(slot: ResultObject, c: Candidate): (r: ResultObject)
    ensures r.materialized == slot.materialized
    ensures r.distance == c.meters
    ensures r.layerName == c.layerName && r.coordinates == c.coordinates && r.geomType == c.geomType
    ensures r.hasId == c.hasId && r.id == c.id && r.propertiesVector == c.properties
    ensures IsDuplicate(r, c)
  {
    slot.(propertiesVector := c.properties, layerName := c.layerName,
          coordinates := c.coordinates, distance := c.meters,
          geomType := c.geomType, hasId := c.hasId, id := c.id)
  }

  /** The slot a candidate fills while nothing has been materialized yet. */
  function Entry(c: Candidate): ResultObject {
    InsertResult(Sentinel(), c)
  }

  /**
   * Whether a candidate is the same real-world feature as a stored slot:
   * same layer, same kind, ids equal when both have one, and the exact same
   * property sequence.
   */
  predicate IsDuplicate(r: ResultObject, c: Candidate): (b: bool)
    ensures b <==>
              && r.layerName == c.layerName && r.geomType == c.geomType
              && (r.hasId && c.hasId ==> r.id == c.id)
              && r.propertiesVector == c.properties
  {
    if r.layerName != c.layerName then false
    else if r.geomType != c.geomType then false
    else if r.hasId && c.hasId && r.id != c.id then false
    else r.propertiesVector == c.properties
  }

  /** When either side lacks an id, the ids play no part in the decision. */
  lemma DuplicateIgnoresIdUnlessBoth(r: ResultObject, c: Candidate, otherId: nat)
    requires !r.hasId || !c.hasId
    ensures IsDuplicate(r, c) == IsDuplicate(r.(id := otherId), c.(id := otherId + 1))
    ensures IsDuplicate(r, c) <==>
              r.layerName == c.layerName && r.geomType == c.geomType && r.propertiesVector == c.properties
  {
  }

  /**
   * The classifier is not transitive: a slot without an id can be a duplicate
   * of two candidates whose ids differ and that are not duplicates of each other.
   */
  lemma DuplicateNotTransitive()
    ensures var a := Candidate("poi", Point, true, 1, [], LngLat(0.0, 0.0), 3.0);
            var b := Candidate("poi", Point, true, 2, [], LngLat(0.0, 0.0), 4.0);
            var noId := Candidate("poi", Point, false, 0, [], LngLat(0.0, 0.0), 1.0);
            IsDuplicate(Entry(noId), a) && IsDuplicate(Entry(noId), b) && !IsDuplicate(Entry(a), b)
  {
  }
}
