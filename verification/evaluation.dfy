/**
 * From decoded tiles to the stream of candidates the selection sees: the
 * layer filter, the geometry-kind filter, the closest-point safety check,
 * the direct-hit rule and the radius cutoff, applied to every feature of
 * every selected layer of every tile, in order.
 *
 * Tile decoding, the closest-point search and the Mercator / geodesic
 * conversions are not part of this model: each feature carries what they
 * produce for it (closest-point distance in tile units, the closest point in
 * longitude / latitude, and its distance in meters from the query point).
 */
module Evaluation {
  import opened Wrappers
  import opened GeomTypes
  import opened Properties
  import opened Results
  import opened Query

  /** A decoded feature, with the results of the geometric collaborators for it. */
  datatype Feature = Feature(
    geometry: TileGeomType,
    hasId: bool,
    id: nat,
    properties: seq<Property>,
    closestDistance: real,
    closestLngLat: LngLat,
    metersToClosest: Double)

  /** A decoded layer of a tile. */
  datatype Layer = Layer(name: string, extent: nat, features: seq<Feature>)

  /** A layer is searched when no layer list was given or its name is listed. */
  predicate LayerSelected(layers: seq<string>, name: string): (b: bool)
    ensures b <==> layers == [] || exists i :: 0 <= i < |layers| && layers[i] == name
  {
    layers == [] || name in layers
  }

  /** A feature kind is kept when the filter is `All` or names that kind. */
  predicate KindSelected(filter: GeomType, g: GeomType): (b: bool)
    ensures b <==> filter in {All, g}
  {
    filter == All || filter == g
  }

  /**
   * What one feature of layer `layerName` contributes: nothing when its kind
   * is filtered out, when the closest-point search reports a negative
   * distance, or when it is farther than the radius; otherwise a candidate.
   * A direct hit (closest-point distance 0) is at 0 meters, located at the
   * query point itself.
   */
  function Evaluate(q: QueryData, layerName: string, f: Feature): (r: Option<Candidate>)
    ensures !KindSelected(q.geometryFilter, GetGeometryType(f.geometry)) ==> r.None?
    ensures f.closestDistance < 0.0 ==> r.None?
    ensures KindSelected(q.geometryFilter, GetGeometryType(f.geometry)) && f.closestDistance == 0.0 ==>
              (r.Some? <==> q.radius >= 0.0)
    ensures KindSelected(q.geometryFilter, GetGeometryType(f.geometry)) && f.closestDistance > 0.0 ==>
              (r.Some? <==> f.metersToClosest <= q.radius)
    ensures r.Some? ==>
              && r.value.layerName == layerName
              && r.value.geomType == GetGeometryType(f.geometry)
              && r.value.hasId == f.hasId && r.value.id == f.id
              && r.value.properties == f.properties
              && r.value.meters <= q.radius
    ensures r.Some? && f.closestDistance == 0.0 ==>
              r.value.meters == 0.0 && r.value.coordinates == QueryPoint(q)
    ensures r.Some? && f.closestDistance > 0.0 ==>
              r.value.meters == f.metersToClosest && r.value.coordinates == f.closestLngLat
  {
    var kind := GetGeometryType(f.geometry);
    if !KindSelected(q.geometryFilter, kind) then None
    else if f.closestDistance < 0.0 then None
    else
      var hit := f.closestDistance == 0.0;
      var meters: Double := if hit then 0.0 else f.metersToClosest;
      var at := if hit then QueryPoint(q) else f.closestLngLat;
      if meters > q.radius then None
      else Some(Candidate(layerName, kind, f.hasId, f.id, f.properties, at, meters))
  }

  /** A candidate the filters could have let through. */
  predicate Admissible(q: QueryData, c: Candidate) {
    LayerSelected(q.layers, c.layerName) && KindSelected(q.geometryFilter, c.geomType) && c.meters <= q.radius
  }

  /** Every candidate of `cs` is admissible. */
  predicate AllAdmissible(q: QueryData, cs: seq<Candidate>) {
    forall i :: 0 <= i < |cs| ==> Admissible(q, cs[i])
  }

  /** No candidate of `cs` is of unknown kind. */
  predicate AllKnown(cs: seq<Candidate>) {
    forall i :: 0 <= i < |cs| ==> cs[i].geomType != Unknown
  }

  /** The closest-point search reports no distance for a feature of unknown kind. */
  predicate UnknownUnreached(f: Feature) {
    f.geometry == UNKNOWN ==> f.closestDistance < 0.0
  }

  /** The number of features of the layers `ls`. */
  function FeatureCount(ls: seq<Layer>): nat
    decreases |ls|
  {
    if ls == [] then 0 else FeatureCount(ls[..|ls| - 1]) + |ls[|ls| - 1].features|
  }

  /** The number of features of the tiles `tiles`. */
  function TileFeatureCount(tiles: seq<seq<Layer>>): nat
    decreases |tiles|
  {
    if tiles == [] then 0 else TileFeatureCount(tiles[..|tiles| - 1]) + FeatureCount(tiles[|tiles| - 1])
  }

  /** The candidates of one layer's features, in feature order: at most one per feature. */
  function FeatureCandidates(q: QueryData, layerName: string, fs: seq<Feature>): (cs: seq<Candidate>)
    ensures |cs| <= |fs|
    decreases |fs|
  {
    if fs == [] then []
    else
      var init := FeatureCandidates(q, layerName, fs[..|fs| - 1]);
      match Evaluate(q, layerName, fs[|fs| - 1])
      case None => init
      case Some(c) => init + [c]
  }

  /** The candidates of a tile: its layers in order, unselected layers skipped. */
  function LayerCandidates(q: QueryData, ls: seq<Layer>): (cs: seq<Candidate>)
    ensures |cs| <= FeatureCount(ls)
    decreases |ls|
  {
    if ls == [] then []
    else
      var init := LayerCandidates(q, ls[..|ls| - 1]);
      var layer := ls[|ls| - 1];
      if !LayerSelected(q.layers, layer.name) then init
      else init + FeatureCandidates(q, layer.name, layer.features)
  }

  /** The whole candidate stream: tiles in request order. */
  function Candidates(q: QueryData, tiles: seq<seq<Layer>>): (cs: seq<Candidate>)
    ensures |cs| <= TileFeatureCount(tiles)
    decreases |tiles|
  {
    if tiles == [] then []
    else Candidates(q, tiles[..|tiles| - 1]) + LayerCandidates(q, tiles[|tiles| - 1])
  }

  /** A layer's candidates come from that layer, pass the kind filter and the radius, one per feature at most. */
  lemma {:induction false} FeatureCandidatesAdmissible(q: QueryData, layerName: string, fs: seq<Feature>)
    ensures var cs := FeatureCandidates(q, layerName, fs);
            && |cs| <= |fs|
            && forall i :: 0 <= i < |cs| ==>
                 cs[i].layerName == layerName && KindSelected(q.geometryFilter, cs[i].geomType) && cs[i].meters <= q.radius
    decreases |fs|
  {
    if fs != [] {
      FeatureCandidatesAdmissible(q, layerName, fs[..|fs| - 1]);
      var init := FeatureCandidates(q, layerName, fs[..|fs| - 1]);
      var cs := FeatureCandidates(q, layerName, fs);
      forall i | 0 <= i < |cs|
        ensures cs[i].layerName == layerName && KindSelected(q.geometryFilter, cs[i].geomType)
        ensures cs[i].meters <= q.radius
      {
        if i < |init| {
          assert cs[i] == init[i];
        }
      }
    }
  }

  lemma AdmissibleConcat(q: QueryData, a: seq<Candidate>, b: seq<Candidate>)
    requires AllAdmissible(q, a) && AllAdmissible(q, b)
    ensures AllAdmissible(q, a + b)
  {
    forall i | 0 <= i < |a + b|
      ensures Admissible(q, (a + b)[i])
    {
      if i < |a| {
        assert (a + b)[i] == a[i];
      } else {
        assert (a + b)[i] == b[i - |a|];
      }
    }
  }

  lemma KnownConcat(a: seq<Candidate>, b: seq<Candidate>)
    requires AllKnown(a) && AllKnown(b)
    ensures AllKnown(a + b)
  {
    forall i | 0 <= i < |a + b|
      ensures (a + b)[i].geomType != Unknown
    {
      if i < |a| {
        assert (a + b)[i] == a[i];
      } else {
        assert (a + b)[i] == b[i - |a|];
      }
    }
  }

  lemma {:induction false} LayerCandidatesAdmissible(q: QueryData, ls: seq<Layer>)
    ensures AllAdmissible(q, LayerCandidates(q, ls))
    decreases |ls|
  {
    if ls != [] {
      LayerCandidatesAdmissible(q, ls[..|ls| - 1]);
      var layer := ls[|ls| - 1];
      if LayerSelected(q.layers, layer.name) {
        var fc := FeatureCandidates(q, layer.name, layer.features);
        FeatureCandidatesAdmissible(q, layer.name, layer.features);
        assert AllAdmissible(q, fc);
        AdmissibleConcat(q, LayerCandidates(q, ls[..|ls| - 1]), fc);
      }
    }
  }

  /**
   * Every candidate passed the layer filter, the kind filter and the radius
   * cutoff.
   */
  lemma {:induction false} CandidatesAdmissible(q: QueryData, tiles: seq<seq<Layer>>)
    ensures AllAdmissible(q, Candidates(q, tiles))
    decreases |tiles|
  {
    if tiles != [] {
      CandidatesAdmissible(q, tiles[..|tiles| - 1]);
      LayerCandidatesAdmissible(q, tiles[|tiles| - 1]);
      AdmissibleConcat(q, Candidates(q, tiles[..|tiles| - 1]), LayerCandidates(q, tiles[|tiles| - 1]));
    }
  }

  /** Every feature of a layer that `Evaluate` accepts enters that layer's candidates. */
  lemma {:induction false} FeatureCandidatesComplete(q: QueryData, layerName: string, fs: seq<Feature>, j: nat)
    requires j < |fs| && Evaluate(q, layerName, fs[j]).Some?
    ensures Evaluate(q, layerName, fs[j]).value in FeatureCandidates(q, layerName, fs)
    decreases |fs|
  {
    var init := fs[..|fs| - 1];
    if j < |fs| - 1 {
      assert init[j] == fs[j];
      FeatureCandidatesComplete(q, layerName, init, j);
    }
  }

  /** Every accepted feature of a selected layer of a tile enters the tile's candidates. */
  lemma {:induction false} LayerCandidatesComplete(q: QueryData, ls: seq<Layer>, l: nat, j: nat)
    requires l < |ls| && j < |ls[l].features|
    requires LayerSelected(q.layers, ls[l].name) && Evaluate(q, ls[l].name, ls[l].features[j]).Some?
    ensures Evaluate(q, ls[l].name, ls[l].features[j]).value in LayerCandidates(q, ls)
    decreases |ls|
  {
    var init := ls[..|ls| - 1];
    if l < |ls| - 1 {
      assert init[l] == ls[l];
      LayerCandidatesComplete(q, init, l, j);
    } else {
      FeatureCandidatesComplete(q, ls[l].name, ls[l].features, j);
    }
  }

  /**
   * Every feature the loops do not skip is a candidate: a feature of a
   * selected layer of any tile that `Evaluate` accepts enters the stream.
   */
  lemma {:induction false} CandidatesComplete(q: QueryData, tiles: seq<seq<Layer>>, t: nat, l: nat, j: nat)
    requires t < |tiles| && l < |tiles[t]| && j < |tiles[t][l].features|
    requires LayerSelected(q.layers, tiles[t][l].name)
    requires Evaluate(q, tiles[t][l].name, tiles[t][l].features[j]).Some?
    ensures Evaluate(q, tiles[t][l].name, tiles[t][l].features[j]).value in Candidates(q, tiles)
    decreases |tiles|
  {
    var init := tiles[..|tiles| - 1];
    if t < |tiles| - 1 {
      assert init[t] == tiles[t];
      CandidatesComplete(q, init, t, l, j);
    } else {
      LayerCandidatesComplete(q, tiles[t], l, j);
    }
  }

  lemma {:induction false} FeatureCandidatesKnownKinds(q: QueryData, layerName: string, fs: seq<Feature>)
    requires forall j :: 0 <= j < |fs| ==> UnknownUnreached(fs[j])
    ensures AllKnown(FeatureCandidates(q, layerName, fs))
    decreases |fs|
  {
    if fs != [] {
      FeatureCandidatesKnownKinds(q, layerName, fs[..|fs| - 1]);
      assert UnknownUnreached(fs[|fs| - 1]);
      var e := Evaluate(q, layerName, fs[|fs| - 1]);
      if e.Some? {
        assert AllKnown([e.value]);
        KnownConcat(FeatureCandidates(q, layerName, fs[..|fs| - 1]), [e.value]);
      }
    }
  }

  lemma {:induction false} LayerCandidatesKnownKinds(q: QueryData, ls: seq<Layer>)
    requires forall l, j :: 0 <= l < |ls| && 0 <= j < |ls[l].features| ==> UnknownUnreached(ls[l].features[j])
    ensures AllKnown(LayerCandidates(q, ls))
    decreases |ls|
  {
    if ls != [] {
      LayerCandidatesKnownKinds(q, ls[..|ls| - 1]);
      var layer := ls[|ls| - 1];
      if LayerSelected(q.layers, layer.name) {
        assert forall j :: 0 <= j < |layer.features| ==> UnknownUnreached(layer.features[j]);
        FeatureCandidatesKnownKinds(q, layer.name, layer.features);
        KnownConcat(LayerCandidates(q, ls[..|ls| - 1]), FeatureCandidates(q, layer.name, layer.features));
      }
    }
  }

  /**
   * When the closest-point search reports a negative distance for every
   * feature of unknown kind, no candidate is of unknown kind.
   */
  lemma {:induction false} CandidatesKnownKinds(q: QueryData, tiles: seq<seq<Layer>>)
    requires forall t, l, j :: 0 <= t < |tiles| && 0 <= l < |tiles[t]| && 0 <= j < |tiles[t][l].features| ==>
               UnknownUnreached(tiles[t][l].features[j])
    ensures AllKnown(Candidates(q, tiles))
    decreases |tiles|
  {
    if tiles != [] {
      CandidatesKnownKinds(q, tiles[..|tiles| - 1]);
      var ls := tiles[|tiles| - 1];
      assert forall l, j :: 0 <= l < |ls| && 0 <= j < |ls[l].features| ==> UnknownUnreached(ls[l].features[j]);
      LayerCandidatesKnownKinds(q, ls);
      KnownConcat(Candidates(q, tiles[..|tiles| - 1]), LayerCandidates(q, ls));
    }
  }

  /**
   * With the default radius of 0, and a geodesic distance that is positive
   * away from the query point, only direct hits become candidates, at 0
   * meters on the query point.
   */
  lemma DefaultRadiusOnlyDirectHits(q: QueryData, layerName: string, f: Feature)
    requires q.radius == 0.0
    requires f.closestDistance > 0.0 ==> f.metersToClosest > 0.0
    ensures Evaluate(q, layerName, f).Some? ==>
              f.closestDistance == 0.0 && Evaluate(q, layerName, f).value.meters == 0.0 &&
              Evaluate(q, layerName, f).value.coordinates == QueryPoint(q)
  {
  }

  /**
   * A feature of unknown kind passes the kind filter only when no filter is
   * set (a validated query never filters on the unknown kind).
   */
  lemma UnknownOnlyUnfiltered(q: QueryData, layerName: string, f: Feature)
    requires f.geometry == UNKNOWN && q.geometryFilter != Unknown
    ensures Evaluate(q, layerName, f).Some? ==> q.geometryFilter == All
  {
  }
}
