/**
 * The worker: it owns the query and the K result slots, runs the search over
 * the decoded tiles (Execute) and hands back the filled slots (OnOK).
 */
module Engine {
  import opened Wrappers
  import opened GeomTypes
  import opened Properties
  import opened Results
  import opened StableSort
  import opened Selection
  import opened Query
  import opened Evaluation

  /** A slot with its property list materialized, appended to what it already held. */
  function MaterializeSlot(r: ResultObject): (m: ResultObject)
    ensures |m.materialized| == |r.materialized| + |r.propertiesVector|
    ensures m.materialized[..|r.materialized|] == r.materialized
    ensures forall i :: 0 <= i < |r.propertiesVector| ==>
              m.materialized[|r.materialized| + i] == MaterializeProperty(r.propertiesVector[i])
    ensures m.(materialized := r.materialized) == r
  {
    r.(materialized := r.materialized + Materialized(r.propertiesVector))
  }

  function MaterializeAll(rs: seq<ResultObject>): (ms: seq<ResultObject>)
    ensures |ms| == |rs|
    ensures forall i :: 0 <= i < |rs| ==> ms[i] == MaterializeSlot(rs[i])
  {
    seq(|rs|, i requires 0 <= i < |rs| => MaterializeSlot(rs[i]))
  }

  /** The final slots of a query over decoded tiles. */
  function Outcome(q: QueryData, tiles: seq<seq<Layer>>): (rs: seq<ResultObject>)
    requires q.numResults > 0
    ensures |rs| == q.numResults
  {
    MaterializeAll(Scan(q.dedupe, Initial(q.numResults), Candidates(q, tiles)))
  }

  /** The tilequery block of an emitted feature. */
  datatype TileQueryInfo = TileQueryInfo(distance: Double, geometry: string, layer: string)

  /** One emitted feature, before it is turned into a JavaScript object. */
  datatype OutFeature = OutFeature(
    id: nat,
    coordinates: LngLat,
    properties: seq<MaterializedProp>,
    tilequery: TileQueryInfo)

  /** A slot the emitter may name: one whose kind has an entry in the name table. */
  predicate Nameable(r: ResultObject) {
    r.distance < MaxDistance ==> Ordinal(r.geomType) < |GeomTypeStrings|
  }

  function ToFeature(r: ResultObject): (f: OutFeature)
    requires Ordinal(r.geomType) < |GeomTypeStrings|
    ensures f.id == r.id && f.coordinates == r.coordinates && f.properties == r.materialized
    ensures f.tilequery.distance == r.distance && f.tilequery.layer == r.layerName
    ensures f.tilequery.geometry == GeomTypeString(r.geomType)
  {
    OutFeature(r.id, r.coordinates, r.materialized,
               TileQueryInfo(r.distance, GeomTypeString(r.geomType), r.layerName))
  }

  /** The sparse output array: slot i at index i, sentinel slots left out. */
  function Emitted(rs: seq<ResultObject>): (out: map<nat, OutFeature>)
    requires forall i :: 0 <= i < |rs| ==> Nameable(rs[i])
    ensures forall i: nat :: i in out <==> i < |rs| && rs[i].distance < MaxDistance
    ensures forall i: nat :: i in out ==> i < |rs| && Nameable(rs[i]) && out[i] == ToFeature(rs[i])
  {
    map i: nat | i < |rs| && rs[i].distance < MaxDistance :: assert Nameable(rs[i]); ToFeature(rs[i])
  }

  /**
   * The final slots are sorted by distance, and each holds the materialized
   * copy of its own property list, so the feature emitted for a slot carries
   * the properties of the candidate that filled it.
   */
  lemma OutcomeSortedAndMaterialized(q: QueryData, tiles: seq<seq<Layer>>)
    requires q.numResults > 0
    ensures var rs := Outcome(q, tiles);
            && Sorted(rs)
            && forall i :: 0 <= i < |rs| ==> rs[i].materialized == Materialized(rs[i].propertiesVector)
  {
    var k := q.numResults;
    var cs := Candidates(q, tiles);
    var s := Scan(q.dedupe, Initial(k), cs);
    InitialSorted(k);
    ScanFromStream(q.dedupe, k, cs);
    var rs := Outcome(q, tiles);
    forall i | 0 <= i < |rs|
      ensures rs[i].materialized == Materialized(rs[i].propertiesVector)
    {
      FromStreamUnmaterialized(s, cs, i);
    }
    forall i, j | 0 <= i < j < |rs|
      ensures rs[i].distance <= rs[j].distance
    {
      assert rs[i].distance == s[i].distance && rs[j].distance == s[j].distance;
    }
  }

  /**
   * Every final slot is still empty or holds a feature of a selected layer,
   * of a kept kind, within the radius.
   */
  lemma OutcomeAdmissible(q: QueryData, tiles: seq<seq<Layer>>)
    requires q.numResults > 0
    ensures var rs := Outcome(q, tiles);
            forall i :: 0 <= i < |rs| ==>
              || rs[i] == Sentinel()
              || (&& LayerSelected(q.layers, rs[i].layerName)
                  && KindSelected(q.geometryFilter, rs[i].geomType)
                  && rs[i].distance <= q.radius)
  {
    var k := q.numResults;
    var cs := Candidates(q, tiles);
    var s := Scan(q.dedupe, Initial(k), cs);
    CandidatesAdmissible(q, tiles);
    ScanFromStream(q.dedupe, k, cs);
    var rs := Outcome(q, tiles);
    forall i | 0 <= i < |rs|
      ensures || rs[i] == Sentinel()
              || (&& LayerSelected(q.layers, rs[i].layerName)
                  && KindSelected(q.geometryFilter, rs[i].geomType)
                  && rs[i].distance <= q.radius)
    {
      if s[i] == Sentinel() {
        assert Materialized([]) == [];
      } else {
        var m :| 0 <= m < |cs| && Entries(cs)[m] == s[i];
        assert Admissible(q, cs[m]);
      }
    }
  }

  /** Materializing slots keeps which entries they hold and their distances. */
  lemma MaterializeKeepsDistances(s: seq<ResultObject>, c: Candidate)
    requires Entry(c) in s || forall j :: 0 <= j < |s| ==> s[j].distance <= c.meters
    ensures var rs := MaterializeAll(s);
            MaterializeSlot(Entry(c)) in rs || forall i :: 0 <= i < |rs| ==> rs[i].distance <= c.meters
  {
    var rs := MaterializeAll(s);
    if Entry(c) in s {
      var i :| 0 <= i < |s| && s[i] == Entry(c);
      assert rs[i] == MaterializeSlot(Entry(c));
    } else {
      forall i | 0 <= i < |rs|
        ensures rs[i].distance <= c.meters
      {
        assert rs[i] == MaterializeSlot(s[i]);
      }
    }
  }

  /**
   * The query keeps the nearest features: a feature the loops do not skip
   * either holds a final slot or is no closer than any final slot. Proved
   * without dedupe, and with dedupe when no candidate duplicates another.
   */
  lemma OutcomeNearest(q: QueryData, tiles: seq<seq<Layer>>, t: nat, l: nat, j: nat)
    requires q.numResults > 0
    requires !q.dedupe || DistinctStream(Candidates(q, tiles))
    requires t < |tiles| && l < |tiles[t]| && j < |tiles[t][l].features|
    requires LayerSelected(q.layers, tiles[t][l].name)
    requires Evaluate(q, tiles[t][l].name, tiles[t][l].features[j]).Some?
    ensures var c := Evaluate(q, tiles[t][l].name, tiles[t][l].features[j]).value;
            var rs := Outcome(q, tiles);
            || MaterializeSlot(Entry(c)) in rs
            || forall i :: 0 <= i < |rs| ==> rs[i].distance <= c.meters
  {
    var c := Evaluate(q, tiles[t][l].name, tiles[t][l].features[j]).value;
    var cs := Candidates(q, tiles);
    CandidatesComplete(q, tiles, t, l, j);
    var m :| 0 <= m < |cs| && cs[m] == c;
    KeptOrNoCloser(q.dedupe, q.numResults, cs, m);
    MaterializeKeepsDistances(Scan(q.dedupe, Initial(q.numResults), cs), c);
  }

  /**
   * When the closest-point search never reaches a feature of unknown kind,
   * every filled final slot has a name in the table, so the results can be
   * emitted.
   */
  lemma OutcomeNameable(q: QueryData, tiles: seq<seq<Layer>>)
    requires q.numResults > 0
    requires forall t, l, j :: 0 <= t < |tiles| && 0 <= l < |tiles[t]| && 0 <= j < |tiles[t][l].features| ==>
               UnknownUnreached(tiles[t][l].features[j])
    ensures var rs := Outcome(q, tiles);
            forall i :: 0 <= i < |rs| ==> Nameable(rs[i])
  {
    var k := q.numResults;
    var cs := Candidates(q, tiles);
    var s := Scan(q.dedupe, Initial(k), cs);
    CandidatesKnownKinds(q, tiles);
    ScanFromStream(q.dedupe, k, cs);
    var rs := Outcome(q, tiles);
    forall i | 0 <= i < |rs|
      ensures Nameable(rs[i])
    {
      assert rs[i].geomType == s[i].geomType;
      if s[i] != Sentinel() {
        var m :| 0 <= m < |cs| && Entries(cs)[m] == s[i];
        assert cs[m].geomType != Unknown;
      }
    }
  }

  /**
   * Over sorted slots, the emitted indices form a prefix (sentinels sit at
   * the back) and their distances ascend with the index.
   */
  lemma EmittedPrefix(rs: seq<ResultObject>)
    requires Sorted(rs)
    requires forall i :: 0 <= i < |rs| ==> Nameable(rs[i])
    ensures var out := Emitted(rs);
            forall i: nat, j: nat :: i in out && j < i ==>
              j in out && out[j].tilequery.distance <= out[i].tilequery.distance
  {
  }

  class Worker {
    const query: QueryData
    var results: seq<ResultObject>

    constructor(q: QueryData)
      ensures query == q && results == []
    {
      query := q;
      results := [];
    }

    /**
     * Runs the query: K sentinels, every candidate of the decoded tiles
     * considered in order, then the property lists materialized.
     */
    method Execute(tiles: seq<seq<Layer>>)
      requires results == [] && query.numResults > 0
      modifies this
      ensures results == Outcome(query, tiles)
    {
      var k := query.numResults;
      for i := 0 to k
        invariant results == Initial(i)
      {
        InitialGrow(i);
        results := results + [Sentinel()];
      }
      InitialSorted(k);
      for t := 0 to |tiles|
        invariant results == Scan(query.dedupe, Initial(k), Candidates(query, tiles[..t]))
        invariant |results| == k && Sorted(results)
      {
        SearchTile(tiles[t]);
        ScanConcat(query.dedupe, Initial(k), Candidates(query, tiles[..t]), LayerCandidates(query, tiles[t]));
        assert tiles[..t + 1][..t] == tiles[..t];
      }
      assert tiles[..|tiles|] == tiles;
      Materialize();
    }

    /** Every selected layer of one tile, in order. */
    method SearchTile(layers: seq<Layer>)
      requires |results| > 0 && Sorted(results)
      modifies this
      ensures results == Scan(query.dedupe, old(results), LayerCandidates(query, layers))
    {
      for l := 0 to |layers|
        invariant results == Scan(query.dedupe, old(results), LayerCandidates(query, layers[..l]))
        invariant |results| == |old(results)| && Sorted(results)
      {
        var layer := layers[l];
        assert layers[..l + 1][..l] == layers[..l];
        if LayerSelected(query.layers, layer.name) {
          SearchLayer(layer);
          ScanConcat(query.dedupe, old(results), LayerCandidates(query, layers[..l]),
                     FeatureCandidates(query, layer.name, layer.features));
        }
      }
      assert layers[..|layers|] == layers;
    }

    /** Every feature of one selected layer, in order. */
    method SearchLayer(layer: Layer)
      requires |results| > 0 && Sorted(results)
      modifies this
      ensures results == Scan(query.dedupe, old(results), FeatureCandidates(query, layer.name, layer.features))
    {
      var fs := layer.features;
      for j := 0 to |fs|
        invariant results == Scan(query.dedupe, old(results), FeatureCandidates(query, layer.name, fs[..j]))
        invariant |results| == |old(results)| && Sorted(results)
      {
        var ev := Evaluate(query, layer.name, fs[j]);
        ghost var seen := FeatureCandidates(query, layer.name, fs[..j]);
        assert fs[..j + 1][..j] == fs[..j];
        if ev.Some? {
          assert FeatureCandidates(query, layer.name, fs[..j + 1]) == seen + [ev.value];
          ConsiderCandidate(ev.value);
          ScanAppend(query.dedupe, old(results), seen, ev.value);
        } else {
          assert FeatureCandidates(query, layer.name, fs[..j + 1]) == seen;
        }
      }
      assert fs[..|fs|] == fs;
    }

    /**
     * One candidate: with dedupe, the scan for its first duplicate decides
     * (overwrite that slot when no farther, else drop the candidate);
     * otherwise it replaces the last slot when strictly closer. Every
     * overwrite is followed by the re-sort.
     */
    method ConsiderCandidate(c: Candidate)
      requires |results| > 0 && Sorted(results)
      modifies this
      ensures results == Step(query.dedupe, old(results), c)
    {
      var foundDuplicate, skipDuplicate, slot := false, false, 0;
      if query.dedupe {
        foundDuplicate, skipDuplicate, slot := FindDuplicate(results, c);
      }
      if skipDuplicate {
        return;
      }
      if foundDuplicate {
        OverwriteKeepsRestSorted(results, slot, InsertResult(results[slot], c));
        results := ResortAfterOverwrite(results[slot := InsertResult(results[slot], c)], slot);
        return;
      }
      var last := |results| - 1;
      if c.meters < results[last].distance {
        OverwriteKeepsRestSorted(results, last, InsertResult(results[last], c));
        results := ResortAfterOverwrite(results[last := InsertResult(results[last], c)], last);
      }
    }

    /** Copies every slot's property list into its materialized list. */
    method Materialize()
      modifies this
      ensures results == MaterializeAll(old(results))
    {
      ghost var s := results;
      for i := 0 to |results|
        invariant |results| == |s|
        invariant forall j :: 0 <= j < i ==> results[j] == MaterializeSlot(s[j])
        invariant forall j :: i <= j < |s| ==> results[j] == s[j]
      {
        var slot := results[i];
        var m := AppendMaterialized(slot.materialized, slot.propertiesVector);
        results := results[i := slot.(materialized := m)];
      }
    }

    /**
     * Hands the slots back from the last to the first, emitting each slot that
     * is not a sentinel at its own index; the slots are used up.
     */
    method OnOK() returns (features: map<nat, OutFeature>)
      requires forall i :: 0 <= i < |results| ==> Nameable(results[i])
      modifies this
      ensures results == []
      ensures features == Emitted(old(results))
    {
      ghost var s := results;
      features := map[];
      while |results| > 0
        invariant results == s[..|results|]
        invariant forall i :: i in features <==> |results| <= i < |s| && s[i].distance < MaxDistance
        invariant forall i :: i in features ==> features[i] == ToFeature(s[i])
      {
        var back := results[|results| - 1];
        if back.distance < MaxDistance {
          features := features[|results| - 1 := ToFeature(back)];
        }
        results := results[..|results| - 1];
      }
    }
  }

  /** Appends the materialized copy of each property, in order. */
  method AppendMaterialized(m: seq<MaterializedProp>, props: seq<Property>) returns (out: seq<MaterializedProp>)
    ensures out == m + Materialized(props)
  {
    out := m;
    for p := 0 to |props|
      invariant out == m + Materialized(props[..p])
    {
      assert props[..p + 1][..p] == props[..p];
      out := out + [MaterializeProperty(props[p])];
    }
    assert props[..|props|] == props;
  }

  /**
   * The duplicate scan: walks the slots in order and stops at the first one
   * the candidate duplicates, reporting whether the candidate may overwrite
   * it (no farther) or must be dropped (farther).
   */
  method FindDuplicate(rs: seq<ResultObject>, c: Candidate) returns (found: bool, skip: bool, slot: nat)
    ensures !(found && skip)
    ensures found || skip <==> FirstDuplicate(rs, c).Some?
    ensures found ==> FirstDuplicate(rs, c) == Some(slot) && c.meters <= rs[slot].distance
    ensures skip ==> c.meters > rs[FirstDuplicate(rs, c).value].distance
  {
    found, skip, slot := false, false, 0;
    var i := 0;
    while i < |rs|
      invariant 0 <= i <= |rs|
      invariant forall j :: 0 <= j < i ==> !IsDuplicate(rs[j], c)
    {
      if IsDuplicate(rs[i], c) {
        if c.meters <= rs[i].distance {
          slot := i;
          found := true;
          break;
        }
        skip := true;
        break;
      }
      i := i + 1;
    }
    assert found || skip ==> FirstDuplicate(rs, c) == Some(i);
  }
}
