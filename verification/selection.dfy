/**
 * The bounded top-K selection: how one candidate changes the K result slots
 * (duplicate check, in-place overwrite, replace-worst, stable re-sort), and
 * what a whole stream of candidates leaves behind.
 */
module Selection {
  import opened Wrappers
  import GeomTypes
  import opened Results
  import opened StableSort

  /** The first slot the candidate is a duplicate of, if any. */
  function FirstDuplicate(rs: seq<ResultObject>, c: Candidate): (r: Option<nat>)
    ensures r.Some? ==> r.value < |rs| && IsDuplicate(rs[r.value], c)
    ensures r.Some? ==> forall j :: 0 <= j < r.value ==> !IsDuplicate(rs[j], c)
    ensures r.None? <==> forall j :: 0 <= j < |rs| ==> !IsDuplicate(rs[j], c)
  {
    if rs == [] then None
    else if IsDuplicate(rs[0], c) then Some(0)
    else match FirstDuplicate(rs[1..], c)
      case None => None
      case Some(k) => Some(k + 1)
  }

  /** K default-constructed slots. */
  function Initial(k: nat): (rs: seq<ResultObject>)
    ensures |rs| == k
    ensures forall i :: 0 <= i < k ==> rs[i] == Sentinel()
  {
    seq(k, _ => Sentinel())
  }

  lemma InitialGrow(k: nat)
    ensures Initial(k) + [Sentinel()] == Initial(k + 1)
  {
    assert (Initial(k) + [Sentinel()])[k] == Sentinel();
  }

  /**
   * The slots after one candidate is considered. With `dedupe`, the first
   * duplicate slot decides: a candidate no farther than it overwrites it, a
   * farther one is dropped. Without a duplicate (or without `dedupe`), the
   * candidate overwrites the last slot only when strictly closer. Every
   * overwrite is followed by a stable sort by distance.
   */
  function Step(dedupe: bool, rs: seq<ResultObject>, c: Candidate): (r: seq<ResultObject>)
    requires |rs| > 0
    ensures |r| == |rs|
    ensures Sorted(rs) ==> Sorted(r)
  {
    var dup := if dedupe then FirstDuplicate(rs, c) else None;
    match dup
    case Some(k) =>
      if c.meters <= rs[k].distance then StableSorted(rs[k := InsertResult(rs[k], c)]) else rs
    case None =>
      var last := |rs| - 1;
      if c.meters < rs[last].distance then StableSorted(rs[last := InsertResult(rs[last], c)]) else rs
  }

  /** The slots after a stream of candidates, considered in order. */
  function Scan(dedupe: bool, rs: seq<ResultObject>, cs: seq<Candidate>): (r: seq<ResultObject>)
    requires |rs| > 0
    ensures |r| == |rs|
    ensures Sorted(rs) ==> Sorted(r)
    decreases |cs|
  {
    if cs == [] then rs
    else Step(dedupe, Scan(dedupe, rs, cs[..|cs| - 1]), cs[|cs| - 1])
  }

  lemma ScanAppend(dedupe: bool, rs: seq<ResultObject>, cs: seq<Candidate>, c: Candidate)
    requires |rs| > 0
    ensures Scan(dedupe, rs, cs + [c]) == Step(dedupe, Scan(dedupe, rs, cs), c)
  {
    assert (cs + [c])[..|cs|] == cs;
  }

  /** Considering two streams one after the other is considering their concatenation. */
  lemma {:induction false} ScanConcat(dedupe: bool, rs: seq<ResultObject>, a: seq<Candidate>, b: seq<Candidate>)
    requires |rs| > 0
    ensures Scan(dedupe, rs, a + b) == Scan(dedupe, Scan(dedupe, rs, a), b)
    decreases |b|
  {
    if b == [] {
      assert a + b == a;
    } else {
      var init := b[..|b| - 1];
      ScanConcat(dedupe, rs, a, init);
      assert (a + b)[..|a + b| - 1] == a + init;
    }
  }

  /** The slot each candidate would occupy, in stream order. */
  function Entries(cs: seq<Candidate>): (es: seq<ResultObject>)
    ensures |es| == |cs|
    ensures forall i :: 0 <= i < |cs| ==> es[i] == Entry(cs[i])
  {
    seq(|cs|, i requires 0 <= i < |cs| => Entry(cs[i]))
  }

  lemma MultisetUpdate(rs: seq<ResultObject>, k: nat, x: ResultObject)
    requires k < |rs|
    ensures multiset(rs[k := x]) == multiset(Remove(rs, k)) + multiset{x}
  {
    assert rs[k := x] == rs[..k] + [x] + rs[k + 1..];
  }

  /** Overwriting slot `k` and re-sorting: slot k's entry is replaced, nothing else is. */
  lemma OverwriteAndSort(rs: seq<ResultObject>, k: nat, x: ResultObject)
    requires k < |rs|
    ensures IsStableSortOf(StableSorted(rs[k := x]), rs[k := x])
    ensures multiset(StableSorted(rs[k := x])) == multiset(Remove(rs, k)) + multiset{x}
  {
    StableSortIsPermutation(StableSorted(rs[k := x]), rs[k := x]);
    MultisetUpdate(rs, k, x);
  }

  /**
   * Replace-worst: a candidate that is not handled as a duplicate is accepted
   * exactly when it is strictly closer than the last slot; it then takes the
   * place of the last slot's entry and of nothing else. Otherwise nothing changes.
   */
  lemma ReplaceWorstRule(dedupe: bool, rs: seq<ResultObject>, c: Candidate)
    requires |rs| > 0
    requires !dedupe || FirstDuplicate(rs, c).None?
    ensures var last := |rs| - 1;
            c.meters < rs[last].distance ==>
              && IsStableSortOf(Step(dedupe, rs, c), rs[last := InsertResult(rs[last], c)])
              && multiset(Step(dedupe, rs, c)) == multiset(rs[..last]) + multiset{InsertResult(rs[last], c)}
    ensures !(c.meters < rs[|rs| - 1].distance) ==> Step(dedupe, rs, c) == rs
  {
    var last := |rs| - 1;
    OverwriteAndSort(rs, last, InsertResult(rs[last], c));
    assert Remove(rs, last) == rs[..last];
  }

  /**
   * Dedupe: with `dedupe` on and a duplicate in slot `k` (the first one), a
   * candidate no farther than slot k takes the place of slot k's entry and of
   * nothing else (the last slot is untouched unless k is last); a farther
   * candidate changes nothing.
   */
  lemma DedupeRule(rs: seq<ResultObject>, c: Candidate, k: nat)
    requires |rs| > 0
    requires FirstDuplicate(rs, c) == Some(k)
    ensures c.meters <= rs[k].distance ==>
              && IsStableSortOf(Step(true, rs, c), rs[k := InsertResult(rs[k], c)])
              && multiset(Step(true, rs, c)) == multiset(Remove(rs, k)) + multiset{InsertResult(rs[k], c)}
    ensures c.meters > rs[k].distance ==> Step(true, rs, c) == rs
  {
    OverwriteAndSort(rs, k, InsertResult(rs[k], c));
  }

  /** Slots that hold nothing materialized are overwritten into exactly the candidate's entry. */
  lemma InsertIntoUnmaterialized(slot: ResultObject, c: Candidate)
    requires slot.materialized == []
    ensures InsertResult(slot, c) == Entry(c)
  {
  }

  /** Every slot is a sentinel or the entry of a candidate seen so far. */
  ghost predicate FromStream(rs: seq<ResultObject>, cs: seq<Candidate>) {
    forall j :: 0 <= j < |rs| ==> rs[j] == Sentinel() || rs[j] in Entries(cs)
  }

  lemma FromStreamUnmaterialized(rs: seq<ResultObject>, cs: seq<Candidate>, j: nat)
    requires FromStream(rs, cs) && j < |rs|
    ensures rs[j].materialized == []
  {
    if rs[j] != Sentinel() {
      var i :| 0 <= i < |cs| && Entries(cs)[i] == rs[j];
    }
  }

  lemma EntriesGrow(cs: seq<Candidate>, c: Candidate)
    ensures Entry(c) in Entries(cs + [c])
    ensures forall x :: x in Entries(cs) ==> x in Entries(cs + [c])
  {
    var es := Entries(cs + [c]);
    assert es[|cs|] == Entry(c);
    forall x | x in Entries(cs)
      ensures x in es
    {
      var i :| 0 <= i < |cs| && Entries(cs)[i] == x;
      assert es[i] == x;
    }
  }

  lemma OverwriteFromStream(rs: seq<ResultObject>, cs: seq<Candidate>, c: Candidate, k: nat)
    requires k < |rs| && FromStream(rs, cs)
    ensures FromStream(StableSorted(rs[k := InsertResult(rs[k], c)]), cs + [c])
  {
    FromStreamUnmaterialized(rs, cs, k);
    InsertIntoUnmaterialized(rs[k], c);
    var r := StableSorted(rs[k := Entry(c)]);
    OverwriteAndSort(rs, k, Entry(c));
    EntriesGrow(cs, c);
    forall j | 0 <= j < |r|
      ensures r[j] == Sentinel() || r[j] in Entries(cs + [c])
    {
      assert r[j] in multiset(r);
      if r[j] != Entry(c) {
        assert r[j] in multiset(Remove(rs, k));
        var m :| 0 <= m < |Remove(rs, k)| && Remove(rs, k)[m] == r[j];
        RemoveAt(rs, k, m);
      }
    }
  }

  /** One step keeps every slot a sentinel or a seen candidate's entry. */
  lemma StepFromStream(dedupe: bool, rs: seq<ResultObject>, cs: seq<Candidate>, c: Candidate)
    requires |rs| > 0 && FromStream(rs, cs)
    ensures FromStream(Step(dedupe, rs, c), cs + [c])
  {
    var dup := if dedupe then FirstDuplicate(rs, c) else None;
    var k := if dup.Some? then dup.value else |rs| - 1;
    if Step(dedupe, rs, c) == rs {
      EntriesGrow(cs, c);
    } else {
      assert Step(dedupe, rs, c) == StableSorted(rs[k := InsertResult(rs[k], c)]);
      OverwriteFromStream(rs, cs, c, k);
    }
  }

  /** Provenance: after any stream, every slot is a sentinel or the entry of a candidate of the stream. */
  lemma {:induction false} ScanFromStream(dedupe: bool, k: nat, cs: seq<Candidate>)
    requires k > 0
    ensures FromStream(Scan(dedupe, Initial(k), cs), cs)
  {
    if cs != [] {
      var init := cs[..|cs| - 1];
      ScanFromStream(dedupe, k, init);
      StepFromStream(dedupe, Scan(dedupe, Initial(k), init), init, cs[|cs| - 1]);
      assert init + [cs[|cs| - 1]] == cs;
    }
  }

  /** Every seen candidate is held, or is no closer than the last (worst) slot. */
  ghost predicate KeepsNearest(rs: seq<ResultObject>, cs: seq<Candidate>)
    requires |rs| > 0
  {
    forall i :: 0 <= i < |cs| ==> Entry(cs[i]) in rs || cs[i].meters >= rs[|rs| - 1].distance
  }

  lemma PermutationMember(a: seq<ResultObject>, b: seq<ResultObject>, y: ResultObject)
    requires multiset(a) == multiset(b) && y in b
    ensures y in a
  {
    assert y in multiset(b);
  }

  lemma PermutationBound(a: seq<ResultObject>, b: seq<ResultObject>, bound: real)
    requires multiset(a) == multiset(b)
    requires forall i :: 0 <= i < |b| ==> b[i].distance <= bound
    ensures forall i :: 0 <= i < |a| ==> a[i].distance <= bound
  {
    forall i | 0 <= i < |a|
      ensures a[i].distance <= bound
    {
      assert a[i] in multiset(a);
      assert a[i] in b;
    }
  }

  /** After an accepted replace-worst, the last slot is no farther than before. */
  lemma AcceptedLastShrinks(rs: seq<ResultObject>, x: ResultObject)
    requires |rs| > 0 && Sorted(rs) && x.distance < rs[|rs| - 1].distance
    ensures var last := |rs| - 1;
            StableSorted(rs[last := x])[last].distance <= rs[last].distance
  {
    var last := |rs| - 1;
    var upd := rs[last := x];
    StableSortIsPermutation(StableSorted(upd), upd);
    PermutationBound(StableSorted(upd), upd, rs[last].distance);
  }

  /** Every slot but the last is still held after the last one is overwritten and the slots re-sorted. */
  lemma OverwriteLastKeeps(rs: seq<ResultObject>, e: ResultObject, j: nat)
    requires j < |rs| - 1
    ensures rs[j] in StableSorted(rs[|rs| - 1 := e])
  {
    var upd := rs[|rs| - 1 := e];
    assert upd[j] == rs[j];
    StableSortIsPermutation(StableSorted(upd), upd);
    PermutationMember(StableSorted(upd), upd, rs[j]);
  }

  /** An earlier result stays held, or stays no closer than the last slot, after an accepted replace-worst. */
  lemma AcceptedKeepsOne(rs: seq<ResultObject>, e: ResultObject, y: ResultObject, m: real)
    requires |rs| > 0 && Sorted(rs) && e.distance < rs[|rs| - 1].distance
    requires y.distance == m && (y in rs || m >= rs[|rs| - 1].distance)
    ensures var r := StableSorted(rs[|rs| - 1 := e]);
            y in r || m >= r[|rs| - 1].distance
  {
    AcceptedLastShrinks(rs, e);
    var r := StableSorted(rs[|rs| - 1 := e]);
    assert r[|rs| - 1].distance <= rs[|rs| - 1].distance;
    if y !in rs {
      assert m >= r[|rs| - 1].distance;
    } else if y == rs[|rs| - 1] {
      assert m >= r[|rs| - 1].distance;
    } else {
      var j :| 0 <= j < |rs| && rs[j] == y;
      OverwriteLastKeeps(rs, e, j);
    }
  }

  lemma AcceptedKeepsNearest(rs: seq<ResultObject>, cs: seq<Candidate>, c: Candidate)
    requires |rs| > 0 && Sorted(rs) && KeepsNearest(rs, cs)
    requires c.meters < rs[|rs| - 1].distance
    ensures KeepsNearest(StableSorted(rs[|rs| - 1 := Entry(c)]), cs + [c])
  {
    var last := |rs| - 1;
    var upd := rs[last := Entry(c)];
    var r := StableSorted(upd);
    var cs' := cs + [c];
    StableSortIsPermutation(r, upd);
    assert upd[last] == Entry(c);
    PermutationMember(r, upd, Entry(c));
    forall i | 0 <= i < |cs'|
      ensures Entry(cs'[i]) in r || cs'[i].meters >= r[last].distance
    {
      if i < |cs| {
        assert cs'[i] == cs[i];
        AcceptedKeepsOne(rs, Entry(c), Entry(cs[i]), cs[i].meters);
      }
    }
  }

  lemma StepKeepsNearest(rs: seq<ResultObject>, cs: seq<Candidate>, c: Candidate)
    requires |rs| > 0 && Sorted(rs) && FromStream(rs, cs) && KeepsNearest(rs, cs)
    ensures KeepsNearest(Step(false, rs, c), cs + [c])
  {
    var last := |rs| - 1;
    if c.meters < rs[last].distance {
      FromStreamUnmaterialized(rs, cs, last);
      InsertIntoUnmaterialized(rs[last], c);
      AcceptedKeepsNearest(rs, cs, c);
    }
  }

  lemma InitialSorted(k: nat)
    ensures Sorted(Initial(k))
  {
  }

  lemma {:induction false} ScanKeepsNearest(k: nat, cs: seq<Candidate>)
    requires k > 0
    ensures KeepsNearest(Scan(false, Initial(k), cs), cs)
  {
    if cs != [] {
      var init := cs[..|cs| - 1];
      ScanKeepsNearest(k, init);
      ScanFromStream(false, k, init);
      InitialSorted(k);
      StepKeepsNearest(Scan(false, Initial(k), init), init, cs[|cs| - 1]);
      assert init + [cs[|cs| - 1]] == cs;
    }
  }

  /**
   * Top-K without dedupe: no candidate of the stream that is not held is
   * closer than any held slot (ScanFromStream says what the slots hold).
   */
  lemma NearestAreKept(k: nat, cs: seq<Candidate>)
    requires k > 0
    ensures var rs := Scan(false, Initial(k), cs);
            forall i, j :: 0 <= i < |cs| && 0 <= j < k && Entry(cs[i]) !in rs ==>
              rs[j].distance <= cs[i].meters
  {
    ScanKeepsNearest(k, cs);
    InitialSorted(k);
    var rs := Scan(false, Initial(k), cs);
    forall i, j | 0 <= i < |cs| && 0 <= j < k && Entry(cs[i]) !in rs
      ensures rs[j].distance <= cs[i].meters
    {
      assert rs[j].distance <= rs[k - 1].distance;
    }
  }

  /** No candidate of the stream duplicates an empty slot or an earlier candidate. */
  predicate DistinctStream(cs: seq<Candidate>) {
    && (forall j :: 0 <= j < |cs| ==> !IsDuplicate(Sentinel(), cs[j]))
    && (forall i, j :: 0 <= i < j < |cs| ==> !IsDuplicate(Entry(cs[i]), cs[j]))
  }

  /** Over a stream without duplicates, the dedupe scan never fires: the slots are those of the plain scan. */
  lemma {:induction false} DedupeIdleOnDistinct(k: nat, cs: seq<Candidate>)
    requires k > 0 && DistinctStream(cs)
    ensures Scan(true, Initial(k), cs) == Scan(false, Initial(k), cs)
  {
    if cs != [] {
      var init := cs[..|cs| - 1];
      var c := cs[|cs| - 1];
      assert DistinctStream(init) by {
        forall i, j | 0 <= i < j < |init|
          ensures !IsDuplicate(Entry(init[i]), init[j])
        {
          assert init[i] == cs[i] && init[j] == cs[j];
        }
      }
      DedupeIdleOnDistinct(k, init);
      ScanFromStream(true, k, init);
      var rs := Scan(true, Initial(k), init);
      forall j | 0 <= j < |rs|
        ensures !IsDuplicate(rs[j], c)
      {
        if rs[j] != Sentinel() {
          var m :| 0 <= m < |init| && Entries(init)[m] == rs[j];
          assert init[m] == cs[m];
        }
      }
      assert FirstDuplicate(rs, c).None?;
      assert Step(true, rs, c) == Step(false, rs, c);
    }
  }

  /**
   * Top-K with dedupe on, over a stream without duplicates: no candidate that
   * is not held is closer than any held slot.
   */
  lemma NearestAreKeptDistinct(k: nat, cs: seq<Candidate>)
    requires k > 0 && DistinctStream(cs)
    ensures var rs := Scan(true, Initial(k), cs);
            forall i, j :: 0 <= i < |cs| && 0 <= j < k && Entry(cs[i]) !in rs ==>
              rs[j].distance <= cs[i].meters
  {
    DedupeIdleOnDistinct(k, cs);
    NearestAreKept(k, cs);
  }

  /**
   * One candidate of the stream is kept, or every slot is no farther than
   * it: without dedupe, or with dedupe over a stream without duplicates.
   */
  lemma KeptOrNoCloser(dedupe: bool, k: nat, cs: seq<Candidate>, m: nat)
    requires k > 0 && (!dedupe || DistinctStream(cs)) && m < |cs|
    ensures var rs := Scan(dedupe, Initial(k), cs);
            Entry(cs[m]) in rs || forall j :: 0 <= j < |rs| ==> rs[j].distance <= cs[m].meters
  {
    if dedupe {
      NearestAreKeptDistinct(k, cs);
    } else {
      NearestAreKept(k, cs);
    }
  }

  /** A sequence that is already sorted is its own stable sort. */
  lemma StableSortedOfSorted(s: seq<ResultObject>)
    requires Sorted(s)
    ensures StableSorted(s) == s
  {
    StableSortUnique(StableSorted(s), s, s);
  }

  /** The first candidate into empty slots lands in front of the sentinels. */
  lemma FirstIntoEmpty(dedupe: bool, k: nat, c: Candidate)
    requires k > 0 && !IsDuplicate(Sentinel(), c) && c.meters < MaxDistance
    ensures Step(dedupe, Initial(k), c) == [Entry(c)] + Initial(k - 1)
  {
    var e := Entry(c);
    var rest := Initial(k - 1);
    var upd := Initial(k)[k - 1 := e];
    assert FirstDuplicate(Initial(k), c).None?;
    assert Step(dedupe, Initial(k), c) == StableSorted(upd);
    assert upd == [] + (rest + ([e] + []));
    assert [e] + rest == [] + ([e] + (rest + []));
    SortedCons(e, rest);
    forall d
      ensures Run([e] + rest, d) == Run(upd, d)
    {
      if d == e.distance {
        RunAbsent(rest, d);
      } else {
        assert Run([e], d) == [];
      }
      SwapBlocksRuns([], [e], rest, [], d);
    }
    StableSortUnique(StableSorted(upd), [e] + rest, upd);
  }

  /**
   * With dedupe, two duplicate candidates leave one slot filled: the entry of
   * the closer one, the later one winning a tie.
   */
  lemma DuplicatesCollapse(k: nat, c1: Candidate, c2: Candidate)
    requires k > 0
    requires !IsDuplicate(Sentinel(), c1) && c1.meters < MaxDistance
    requires IsDuplicate(Entry(c1), c2)
    ensures Scan(true, Initial(k), [c1, c2]) ==
              [Entry(if c2.meters <= c1.meters then c2 else c1)] + Initial(k - 1)
  {
    ScanAppend(true, Initial(k), [], c1);
    ScanAppend(true, Initial(k), [c1], c2);
    assert [c1] + [c2] == [c1, c2];
    FirstIntoEmpty(true, k, c1);
    DuplicateOfFront(k, c1, c2);
  }

  /** A duplicate of the only held entry overwrites it when no farther, and is dropped otherwise. */
  lemma DuplicateOfFront(k: nat, c1: Candidate, c2: Candidate)
    requires k > 0
    requires IsDuplicate(Entry(c1), c2)
    ensures Step(true, [Entry(c1)] + Initial(k - 1), c2) ==
              [Entry(if c2.meters <= c1.meters then c2 else c1)] + Initial(k - 1)
  {
    var s1 := [Entry(c1)] + Initial(k - 1);
    assert FirstDuplicate(s1, c2) == Some(0);
    if c2.meters <= c1.meters {
      InsertIntoUnmaterialized(Entry(c1), c2);
      assert s1[0 := Entry(c2)] == [Entry(c2)] + Initial(k - 1);
      SortedCons(Entry(c2), Initial(k - 1));
      StableSortedOfSorted([Entry(c2)] + Initial(k - 1));
    }
  }

  /**
   * Dedupe does not make the held slots pairwise distinct: because ids are
   * ignored when one side lacks one, a candidate without an id can replace
   * one of two held entries that differ only by id, leaving two slots that
   * are duplicates of each other.
   */
  lemma DedupeCanKeepDuplicatePair()
    ensures var a := Candidate("poi", GeomTypes.Point, true, 1, [], LngLat(0.0, 0.0), 3.0);
            var b := Candidate("poi", GeomTypes.Point, true, 2, [], LngLat(0.0, 0.0), 4.0);
            var n := Candidate("poi", GeomTypes.Point, false, 0, [], LngLat(0.0, 0.0), 1.0);
            var rs := Scan(true, Initial(2), [a, b, n]);
            rs == [Entry(n), Entry(b)] && IsDuplicate(rs[0], b) && IsDuplicate(rs[1], n)
  {
    var a := Candidate("poi", GeomTypes.Point, true, 1, [], LngLat(0.0, 0.0), 3.0);
    var b := Candidate("poi", GeomTypes.Point, true, 2, [], LngLat(0.0, 0.0), 4.0);
    var n := Candidate("poi", GeomTypes.Point, false, 0, [], LngLat(0.0, 0.0), 1.0);
    ScanAppend(true, Initial(2), [a], b);
    ScanAppend(true, Initial(2), [a, b], n);
    assert [a] + [b] == [a, b] && [a, b] + [n] == [a, b, n];
    PairStepOne(a);
    PairStepTwo(Entry(a), b);
    PairStepThree(Entry(a), Entry(b), n);
  }

  lemma PairStepOne(a: Candidate)
    requires a.layerName != "" && a.meters < MaxDistance
    ensures Scan(true, Initial(2), [a]) == [Entry(a), Sentinel()]
  {
    ScanAppend(true, Initial(2), [], a);
    FirstIntoEmpty(true, 2, a);
    assert Initial(1) == [Sentinel()];
  }

  lemma PairStepTwo(ea: ResultObject, b: Candidate)
    requires ea.materialized == [] && ea.distance <= b.meters < MaxDistance
    requires !IsDuplicate(ea, b) && b.layerName != ""
    ensures Step(true, [ea, Sentinel()], b) == [ea, Entry(b)]
  {
    var s1 := [ea, Sentinel()];
    assert FirstDuplicate(s1, b).None? by {
      assert !IsDuplicate(s1[0], b) && !IsDuplicate(s1[1], b);
    }
    assert s1[1 := InsertResult(s1[1], b)] == [ea, Entry(b)];
    StableSortedOfSorted([ea, Entry(b)]);
  }

  lemma PairStepThree(ea: ResultObject, eb: ResultObject, n: Candidate)
    requires ea.materialized == [] && IsDuplicate(ea, n) && n.meters <= ea.distance <= eb.distance
    ensures Step(true, [ea, eb], n) == [Entry(n), eb]
  {
    var s2 := [ea, eb];
    assert FirstDuplicate(s2, n) == Some(0);
    InsertIntoUnmaterialized(ea, n);
    assert s2[0 := InsertResult(s2[0], n)] == [Entry(n), eb];
    StableSortedOfSorted([Entry(n), eb]);
  }
}
