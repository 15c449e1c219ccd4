# vtquery in Dafny

This project models the core of `vtquery`, a nearest-feature query over vector tiles. A request names one or more
tiles (z/x/y plus an encoded buffer), a query point in longitude/latitude and some options (radius, limit, layer names,
geometry kind, dedupe). The query returns the K closest features across all tiles, each with its distance, layer and
geometry kind.

The model follows `src/vtquery.cpp` part by part.

- **Validation** (`validation.dfy`). The binding's argument checks are modelled as pure functions over a small
  `JsValue` datatype, in the source's order and with the source's messages.
  - Tile coordinates and `limit` are read as JavaScript int32: truncated toward zero, then wrapped modulo 2^32.
  - A missing callback is thrown. Every other error is reported through the callback.
- **Query data** (`query.dfy`). The query and its defaults: radius 0, five results, dedupe on, every layer and every
  kind.
- **Candidate evaluation** (`evaluation.dfy`). For each feature it applies:
  - the layer filter;
  - the geometry-kind filter;
  - the negative-distance safety check;
  - the direct-hit rule: a closest-point distance of 0 gives 0 meters at the query point;
  - the radius cutoff.

  The candidate stream is every surviving feature of every selected layer of every tile, in input order.
- **Result slots** (`results.dfy`). The `ResultObject` slot, its default (sentinel) value, `insert_result` and the
  duplicate classifier `value_is_duplicate`.
- **Selection** (`selection.dfy`). What one candidate does to the K slots, as the specification function `Step`:
  - dedupe finds the first duplicate; an equal or closer duplicate overwrites it, a farther one is dropped;
  - otherwise a candidate strictly closer than the last slot replaces the last slot;
  - every overwrite is followed by a stable re-sort.

  `Scan` folds `Step` over a stream. Lemmas cover each rule, provenance (every slot is a sentinel or the entry of a
  seen candidate), the top-K property without dedupe, and the dedupe behaviour.
- **Stable sort** (`stable_sort.dfy`).
  - The contract of `std::stable_sort` by distance: sorted, and entries of equal distance keep their relative order.
    It is stated per distance through `Run`.
  - A reference insertion sort `StableSorted`, and a proof that any stable sort equals it.
  - The imperative re-sort after a single overwrite moves the overwritten entry by swaps. It is proved to produce
    exactly `StableSorted`.
- **The worker** (`engine.dfy`). `class Worker` holds the query and the slot vector `results`.
  - `Execute` fills K sentinels, runs the tile / layer / feature loops and materializes the property lists. It is
    proved to end in `Outcome(query, tiles)`.
  - `OnOK` pops slots from the back and emits each slot whose distance is below `DBL_MAX` at its own index of a
    sparse array. It is proved to produce `Emitted(old(results))`.
  - Further lemmas:
    - the outcome is sorted;
    - each slot holds the materialization of its own property list;
    - every filled slot passes the filters;
    - without dedupe, or with dedupe when no candidate duplicates another, every feature the loops do not skip either
      holds a slot or is no closer than any slot;
    - emitted indices form a prefix with ascending distances;
    - when the closest-point search rejects features of unknown geometry, every emitted slot has a geometry name in
      the table.

Distances and coordinates are exact reals bounded in magnitude by the largest finite double (`Double`); they are not
restricted to the representable doubles. `MaxDistance` stands for `DBL_MAX`, the sentinel distance.

## Model

| member | source | states |
|---|---|---|
| GeomTypes.Ordinal | src/vtquery.cpp:21-25 | the enumerator values lie in 0..4: below 3 exactly for the three geometry kinds, 3 exactly for `all`, 4 exactly for `unknown` |
| GeomTypes.GetGeometryType | src/vtquery.cpp:153-174 | POINT/LINESTRING/POLYGON map to their kinds and only those; every other code maps to `unknown`; `all` is never produced |
| GeomTypes.GeomTypeString | src/vtquery.cpp:26-29 | the name table gives "point", "linestring", "polygon" for those kinds and "unknown" for `all`; it is only defined below the table length |
| GeomTypes.GeomTypeStringDefinedExactly | src/vtquery.cpp:26-29 | the table has an entry for every kind except `unknown` (value 4 is past its end) |
| Properties.ConvertPropertyValue | src/vtquery.cpp:366 | a raw value converts to a non-null owned value of the matching kind with the same value; float and double become double, both signed kinds become int64 |
| Properties.MaterializeProperty | src/vtquery.cpp:366-367 | a materialized property keeps the key and holds the converted value |
| Properties.Materialized | src/vtquery.cpp:363-369 | materialization keeps length and key order and converts every value |
| Results.Sentinel | src/vtquery.cpp:34-51 | a default slot has distance DBL_MAX, kind `unknown`, no id, no properties |
| Results.InsertResult | src/vtquery.cpp:183-199 | an overwrite sets properties, layer, coordinates, distance, kind, id flag and id from the candidate and keeps the slot's materialized list; the slot is then a duplicate of the candidate |
| Results.IsDuplicate | src/vtquery.cpp:212-235 | a slot duplicates a candidate exactly when layer, kind and property sequence are equal and the ids are equal whenever both have one |
| Results.DuplicateIgnoresIdUnlessBoth | src/vtquery.cpp:229-231 | ids take part only when both sides have one; then duplicate means same layer, kind and property sequence |
| Results.DuplicateNotTransitive | src/vtquery.cpp:212-235 | an id-less slot can duplicate two candidates that do not duplicate each other |
| Query.DefaultQuery | src/vtquery.cpp:91-99 | defaults: point (0,0), radius 0, 5 results, dedupe on, all layers, all kinds |
| Evaluation.LayerSelected | src/vtquery.cpp:284-286 | a layer is searched exactly when the layer list is empty or the name is found in it |
| Evaluation.KindSelected | src/vtquery.cpp:298-300 | a kind is kept exactly when the filter is `all` or that kind |
| Evaluation.Evaluate | src/vtquery.cpp:295-322 | a feature becomes a candidate exactly when it passes the kind filter, its closest-point distance is not negative and its meters do not exceed the radius; a direct hit is 0 m at the query point, otherwise the converted closest point and its meters |
| Evaluation.FeatureCandidates | src/vtquery.cpp:294-322 | the feature loop yields at most one candidate per feature |
| Evaluation.LayerCandidates | src/vtquery.cpp:279-322 | the layer loop yields at most one candidate per feature of its layers |
| Evaluation.Candidates | src/vtquery.cpp:277-322 | the tile loop yields at most one candidate per feature of all tiles |
| Evaluation.FeatureCandidatesComplete | src/vtquery.cpp:294-322 | every feature of a layer that passes the kind filter, the distance check and the radius enters that layer's candidates |
| Evaluation.LayerCandidatesComplete | src/vtquery.cpp:279-322 | every accepted feature of a selected layer enters the tile's candidates |
| Evaluation.CandidatesComplete | src/vtquery.cpp:277-322 | every accepted feature of a selected layer of any tile enters the stream |
| Evaluation.FeatureCandidatesAdmissible | src/vtquery.cpp:294-322 | a layer yields at most one candidate per feature, all from that layer, of a kept kind, within the radius |
| Evaluation.LayerCandidatesAdmissible | src/vtquery.cpp:279-286 | every candidate of a tile comes from a selected layer and passes the filters |
| Evaluation.CandidatesAdmissible | src/vtquery.cpp:277-322 | every candidate of the whole stream passes the layer filter, the kind filter and the radius |
| Evaluation.FeatureCandidatesKnownKinds | src/vtquery.cpp:295-308 | when unknown geometries get a negative closest-point distance, no candidate of a layer has kind `unknown` |
| Evaluation.LayerCandidatesKnownKinds | src/vtquery.cpp:279-308 | the same for every selected layer of a tile |
| Evaluation.CandidatesKnownKinds | src/vtquery.cpp:277-308 | the same for the whole stream |
| Evaluation.DefaultRadiusOnlyDirectHits | src/vtquery.cpp:310-322 | with radius 0, and meters positive away from the query point, only direct hits are candidates, at 0 m on the query point |
| Evaluation.UnknownOnlyUnfiltered | src/vtquery.cpp:298-300 | a feature of unknown kind passes the kind filter only when no kind filter is set |
| StableSort.StableSorted | src/vtquery.cpp:176-180 | the reference sort by `CompareDistance` is a stable sort of its input |
| StableSort.StableSortIsPermutation | src/vtquery.cpp:349 | a stable sort is a permutation of its input |
| StableSort.StableSortUnique | src/vtquery.cpp:349 | two stable sorts of one input are equal |
| StableSort.MoveToIsStableSort | src/vtquery.cpp:353-355 | moving the one out-of-place entry between its neighbours, crossing only other distances, is a stable sort |
| StableSort.LandedIsStableSort | src/vtquery.cpp:353-355 | where the swap loop stops is exactly the stable sort |
| StableSort.OverwriteKeepsRestSorted | src/vtquery.cpp:353-354 | overwriting one slot of sorted slots leaves the other slots sorted |
| StableSort.SiftTowardsFront | src/vtquery.cpp:349 | the forward swap loop leaves the moved entry after every entry no farther and before the strictly farther entries it crossed |
| StableSort.SiftTowardsBack | src/vtquery.cpp:355 | the backward swap loop leaves the moved entry before every entry no closer and after the strictly closer entries it crossed; it keeps the re-sort correct for any overwrite, though at the two overwrite sites of `Execute` it moves nothing |
| StableSort.ResortAfterOverwrite | src/vtquery.cpp:349-355 | the re-sort after a single overwrite yields the stable sort of the slots |
| Selection.FirstDuplicate | src/vtquery.cpp:329-341 | the scan finds the lowest-index duplicate slot, or none when no slot is a duplicate |
| Selection.Initial | src/vtquery.cpp:253-256 | K slots, all sentinels |
| Selection.Step | src/vtquery.cpp:324-356 | one candidate keeps the slot count and keeps sorted slots sorted |
| Selection.Scan | src/vtquery.cpp:276-357 | a stream of candidates keeps the slot count and sortedness |
| Selection.ScanConcat | src/vtquery.cpp:277-279 | the stream of several tiles is the stream of the first, then of the rest |
| Selection.OverwriteAndSort | src/vtquery.cpp:349-355 | after an overwrite and re-sort, exactly the overwritten entry is replaced by the new one |
| Selection.ReplaceWorstRule | src/vtquery.cpp:353-356 | without a duplicate, a strictly closer candidate replaces the last slot's entry and nothing else; otherwise nothing changes |
| Selection.DedupeRule | src/vtquery.cpp:329-351 | with a first duplicate at k, an equal or closer candidate replaces slot k's entry and nothing else; a farther one changes nothing |
| Selection.ScanFromStream | src/vtquery.cpp:324-356 | after any stream, every slot is a sentinel or the entry of a candidate of the stream |
| Selection.NearestAreKept | src/vtquery.cpp:353-356 | without dedupe, no candidate that was not kept is closer than any kept slot |
| Selection.DedupeIdleOnDistinct | src/vtquery.cpp:329-356 | over a stream where no candidate duplicates an empty slot or an earlier candidate, the dedupe scan never fires and the slots equal those of the plain scan |
| Selection.NearestAreKeptDistinct | src/vtquery.cpp:329-356 | with dedupe on, over such a stream, no candidate that was not kept is closer than any kept slot |
| Selection.KeptOrNoCloser | src/vtquery.cpp:324-356 | without dedupe, or with dedupe over a stream without duplicates, each candidate is kept or no closer than every slot |
| Selection.FirstIntoEmpty | src/vtquery.cpp:353-355 | the first candidate into empty slots lands in front of the sentinels |
| Selection.DuplicatesCollapse | src/vtquery.cpp:329-349 | with dedupe, two duplicate candidates fill one slot, the closer one winning and the later one winning a tie |
| Selection.DuplicateOfFront | src/vtquery.cpp:329-349 | a duplicate of the only held entry overwrites it when no farther and is dropped otherwise |
| Selection.DedupeCanKeepDuplicatePair | src/vtquery.cpp:212-235 | dedupe can leave two slots that are duplicates of each other |
| Engine.MaterializeSlot | src/vtquery.cpp:363-369 | a slot's materialized list grows by the converted copy of its property list; nothing else changes |
| Engine.MaterializeAll | src/vtquery.cpp:363-369 | every slot is materialized, in place |
| Engine.Outcome | src/vtquery.cpp:248-369 | a query leaves exactly `limit` slots |
| Engine.ToFeature | src/vtquery.cpp:387-412 | an emitted feature carries the slot's id, coordinates, materialized properties, distance, layer and geometry name |
| Engine.Emitted | src/vtquery.cpp:383-422 | slot i is emitted at index i exactly when its distance is below DBL_MAX |
| Engine.OutcomeSortedAndMaterialized | src/vtquery.cpp:349-369 | the final slots are sorted by distance and each holds the materialization of its own property list |
| Engine.OutcomeAdmissible | src/vtquery.cpp:277-356 | every final slot is empty or holds a feature of a selected layer, of a kept kind, within the radius |
| Engine.MaterializeKeepsDistances | src/vtquery.cpp:363-369 | materialization keeps the entries the slots hold and their distances |
| Engine.OutcomeNearest | src/vtquery.cpp:277-369 | without dedupe, or with dedupe when no candidate duplicates another, every feature the loops do not skip holds a final slot or is no closer than any final slot |
| Engine.OutcomeNameable | src/vtquery.cpp:409 | when unknown geometries are never reached, every filled final slot has a geometry name |
| Engine.EmittedPrefix | src/vtquery.cpp:383-422 | over sorted slots, the emitted indices form a prefix and distances ascend with the index |
| Engine.Worker.constructor | src/vtquery.cpp:244-246 | a worker starts with the query and no slots |
| Engine.Worker.Execute | src/vtquery.cpp:248-373 | Execute ends with the slots equal to `Outcome(query, tiles)` |
| Engine.Worker.SearchTile | src/vtquery.cpp:279-286 | one tile applies its selected layers' candidates in order |
| Engine.Worker.SearchLayer | src/vtquery.cpp:294-357 | one layer applies its features' candidates in order |
| Engine.Worker.ConsiderCandidate | src/vtquery.cpp:324-356 | the in-place duplicate scan, overwrite and re-sort compute exactly `Step` |
| Engine.Worker.Materialize | src/vtquery.cpp:363-369 | the materialization loop computes `MaterializeAll` of the slots |
| Engine.Worker.OnOK | src/vtquery.cpp:383-422 | popping every slot from the back emits exactly `Emitted` of the slots and empties them |
| Engine.AppendMaterialized | src/vtquery.cpp:364-368 | the inner loop appends the materialized copy of each property in order |
| Engine.FindDuplicate | src/vtquery.cpp:326-342 | the scan reports found (no farther) or skip (farther) for the first duplicate, and neither when there is none |
| Validation.Arg | src/vtquery.cpp:456-560 | argument i is the value passed, or undefined past the end |
| Validation.IsObject | src/vtquery.cpp:471 | objects are exactly the values that are not undefined, null, booleans, numbers or strings |
| Validation.Has | src/vtquery.cpp:477 | a key is present only on a plain object, exactly when it is one of its fields |
| Validation.Get | src/vtquery.cpp:480 | a present key reads its field and a missing one reads undefined |
| Validation.Truncate | src/vtquery.cpp:500 | the integer part rounds toward zero |
| Validation.ToInt32 | src/vtquery.cpp:500 | the int32 reading is in [-2^31, 2^31) and congruent to the integer part modulo 2^32 |
| Validation.ToInt32InRange | src/vtquery.cpp:500 | a number whose integer part fits in 32 bits reads as that integer part |
| Validation.ParseCoordinate | src/vtquery.cpp:491-531 | a coordinate is accepted exactly when present, a number and not negative as int32, and is then that int32 |
| Validation.ParseTile | src/vtquery.cpp:470-535 | a tile item is accepted exactly when it has a true buffer and valid z, x, y |
| Validation.ParseTiles | src/vtquery.cpp:469-536 | the tiles array is accepted exactly when every item is, keeping order and count |
| Validation.ParseTilesFirstError | src/vtquery.cpp:469-536 | a rejected tiles array reports the error of its first bad item |
| Validation.ParseLngLat | src/vtquery.cpp:538-555 | lnglat is accepted exactly when it is an array of two numbers, longitude first |
| Validation.ParseDedupe | src/vtquery.cpp:566-574 | `dedupe` must be a boolean when present and then replaces the default |
| Validation.ParseRadius | src/vtquery.cpp:576-588 | `radius` must be a non-negative number when present and then replaces the default |
| Validation.ParseLimit | src/vtquery.cpp:590-604 | `limit` must be a number whose int32 reading is in 1..1000 when present, and then replaces the default |
| Validation.ParseLayerNames | src/vtquery.cpp:615-629 | layer names are accepted exactly when all are non-empty strings, kept in order |
| Validation.ParseLayers | src/vtquery.cpp:606-630 | `layers` must be an array of non-empty strings when present |
| Validation.GeometryFilterOf | src/vtquery.cpp:644-652 | exactly "point", "linestring" and "polygon" name a filter, the kind the emitter names that way |
| Validation.ParseGeometry | src/vtquery.cpp:632-653 | `geometry` must name one of the three kinds when present |
| Validation.ParseOptions | src/vtquery.cpp:558-654 | the options object is accepted exactly when it is an object and every present option is valid; each present option replaces its default and nothing else changes |
| Validation.Validate | src/vtquery.cpp:440-659 | the arguments are accepted exactly when acceptable; then the tiles come in order and the point from lnglat; with at most three arguments the defaults apply, otherwise the query is the defaults with the third argument's options applied |
| Validation.OptionsKeepBounds | src/vtquery.cpp:558-654 | accepted options keep limit in 1..1000, radius non-negative, a real kind filter and non-empty layer names |
| Validation.ValidatedIsWellFormed | src/vtquery.cpp:440-659 | every validated query has tiles with int32 coordinates that are not negative, and options within bounds |
| Validation.CallbackCheckedFirst | src/vtquery.cpp:441-451 | a missing or misplaced callback is thrown before anything else is checked |
| Validation.LimitUpperBound | src/vtquery.cpp:599-601 | limit 1000 is accepted and 1001 is rejected with "'limit' must be less than 1000" |
| Validation.LimitTruncated | src/vtquery.cpp:595-598 | a fractional limit is truncated (5.9 reads as 5, and 0.5 is rejected) |
| Validation.CoordinateWrapsAround | src/vtquery.cpp:500 | a coordinate of 2^32 + 3 reads as 3 |
| Validation.CoordinateHighBitNegative | src/vtquery.cpp:500-503 | a coordinate of 2^31 reads as -2^31 and is rejected |
| Validation.GeometryNamesRoundTrip | src/vtquery.cpp:644-649 | the filter names read back as the kinds the emitter names with them |
| Validation.UnknownNotAFilter | src/vtquery.cpp:632-653 | "unknown" is not a filter a request may set |

Behaviour of the source worth noting:

- The default radius is 0.0 (`QueryData`, line 95). Without a `radius` option only direct hits are found
  (`DefaultRadiusOnlyDirectHits`).
- The limit check accepts 1000, although its message says "less than 1000" (`LimitUpperBound`).
- With dedupe on, the results can still hold two slots that are duplicates of each other. The classifier ignores ids
  when one side lacks an id, so it is not transitive (`DuplicateNotTransitive`, `DedupeCanKeepDuplicatePair`).
- `getGeomTypeString` indexes a four-entry table, and `unknown` (value 4) is past its end. Emitting is therefore
  modelled with the precondition that every filled slot has a named kind (`Nameable`). `OutcomeNameable` shows this
  holds when the closest-point search rejects features of unknown geometry.

## Left out

- N-API marshalling: building the JavaScript result objects, `set_property` and its visitor, and `Callback().Call`. The
  output is the sparse map `Emitted` of `OutFeature` values.
- Threading: `Queue`, the async worker life cycle, handle scopes and persistent buffer references.
- gzip detection and decompression, and vtzero tile decoding. `Execute` takes the decoded tiles (layers of features) as
  its input.
- `utils::create_query_point`, `closest_point`, `convert_vt_to_ll` and `distance_in_meters`. They are floating-point
  geometry outside this file, so each `Feature` carries their results for that feature: the closest-point distance in
  tile units, the closest point in longitude/latitude, and its meters from the query point. The per-tile extent and
  z/x/y are therefore not used by the model.
- Floating point: NaN and infinities are not modelled, and distances are exact reals bounded by `DBL_MAX`.
- Properties.ConvertPropertyValue: the property-value mapping is a case-by-case map onto the output variant.
  64-bit integer widths are not modelled.
- Engine.ToFeature: the id is emitted as an unbounded natural. The loss of precision when a 64-bit id becomes a
  JavaScript number is not modelled.
- Engine.Worker.ConsiderCandidate: `insert_result` swaps the candidate's local property vector with the slot's old
  one. The model assigns instead, because the local vector is not read again after the swap.
- Selection.NearestAreKept: top-K is proved with dedupe off, and with dedupe on for streams without duplicates
  (`NearestAreKeptDistinct`, and over the features of a query in `OutcomeNearest`). With duplicates in the stream no top-K property is stated, because a dropped farther
  duplicate and the non-transitive classifier make "the K nearest" ill-defined.
- Exceptions: the try/catch blocks of `Execute` and `OnOK`, which report `SetError`.
- Validation.Has: properties reached through the prototype chain (`options.Has` on arrays or functions) are not
  modelled. Only own fields of plain objects count.
- StableSort.ResortAfterOverwrite: `std::stable_sort` over the whole vector is modelled as moving the one overwritten
  entry, since all other slots are already sorted. The result is proved equal to the reference stable sort
  `StableSorted`.
