/**
 * The stable-sort contract for result slots ordered by distance, a reference
 * stable sort, and the single-element move used after one slot is overwritten.
 */
module StableSort {
  import opened Results

  /** Ascending by distance. */
  predicate Sorted(s: seq<ResultObject>) {
    forall i, j :: 0 <= i < j < |s| ==> s[i].distance <= s[j].distance
  }

  /** The entries of `s` whose distance is `d`, in their order in `s`. */
  function Run(s: seq<ResultObject>, d: real): seq<ResultObject> {
    if s == [] then []
    else (if s[0].distance == d then [s[0]] else []) + Run(s[1..], d)
  }

  /**
   * `out` is what a stable sort by distance makes of `inp`: it is sorted, and
   * the entries of every distance appear in `out` in the order they had in `inp`.
   */
  ghost predicate IsStableSortOf(out: seq<ResultObject>, inp: seq<ResultObject>) {
    Sorted(out) && forall d :: Run(out, d) == Run(inp, d)
  }

  lemma {:induction false} RunAppend(a: seq<ResultObject>, b: seq<ResultObject>, d: real)
    ensures Run(a + b, d) == Run(a, d) + Run(b, d)
  {
    if a == [] {
      assert a + b == b;
    } else {
      var h := if a[0].distance == d then [a[0]] else [];
      assert (a + b)[0] == a[0];
      assert (a + b)[1..] == a[1..] + b;
      RunAppend(a[1..], b, d);
      calc {
        Run(a + b, d);
        h + Run(a[1..] + b, d);
        h + (Run(a[1..], d) + Run(b, d));
        (h + Run(a[1..], d)) + Run(b, d);
      }
    }
  }

  lemma {:induction false} RunAbsent(s: seq<ResultObject>, d: real)
    requires forall i :: 0 <= i < |s| ==> s[i].distance != d
    ensures Run(s, d) == []
  {
    if s != [] {
      RunAbsent(s[1..], d);
    }
  }

  /** In a sorted sequence, every non-empty run is at or after the first distance. */
  lemma {:induction false} RunPresentSorted(s: seq<ResultObject>, d: real)
    requires Sorted(s) && Run(s, d) != []
    ensures s != [] && s[0].distance <= d
  {
    if s != [] && s[0].distance != d {
      assert Sorted(s[1..]);
      RunPresentSorted(s[1..], d);
      assert s[0].distance <= s[1].distance;
    }
  }

  /** Every occurrence of `e` in `s` sits in the run of `e`'s distance. */
  lemma {:induction false} RunCount(s: seq<ResultObject>, e: ResultObject)
    ensures multiset(s)[e] == multiset(Run(s, e.distance))[e]
  {
    if s != [] {
      assert s == [s[0]] + s[1..];
      RunCount(s[1..], e);
    }
  }

  /** A stable sort is a permutation of its input. */
  lemma StableSortIsPermutation(out: seq<ResultObject>, inp: seq<ResultObject>)
    requires IsStableSortOf(out, inp)
    ensures multiset(out) == multiset(inp)
    ensures |out| == |inp|
  {
    forall e
      ensures multiset(out)[e] == multiset(inp)[e]
    {
      RunCount(out, e);
      RunCount(inp, e);
    }
    assert multiset(out) == multiset(inp);
    assert |multiset(out)| == |multiset(inp)|;
  }

  lemma RunHead(s: seq<ResultObject>)
    requires s != []
    ensures Run(s, s[0].distance) == [s[0]] + Run(s[1..], s[0].distance)
    ensures forall d :: d != s[0].distance ==> Run(s, d) == Run(s[1..], d)
  {
  }

  /** Sorted sequences with the same runs start with the same entry. */
  lemma SameRunsSameHead(a: seq<ResultObject>, b: seq<ResultObject>)
    requires Sorted(a) && Sorted(b) && a != []
    requires forall d :: Run(a, d) == Run(b, d)
    ensures b != [] && a[0] == b[0]
  {
    var m := a[0].distance;
    RunHead(a);
    assert Run(b, m) != [];
    RunPresentSorted(b, m);
    var n := b[0].distance;
    RunHead(b);
    assert Run(a, n) != [];
    RunPresentSorted(a, n);
    assert m == n;
    assert Run(a, m)[0] == a[0] && Run(b, m)[0] == b[0];
  }

  /** Two sorted sequences with the same run for every distance are equal. */
  lemma {:induction false} SortedRunsDetermine(a: seq<ResultObject>, b: seq<ResultObject>)
    requires Sorted(a) && Sorted(b)
    requires forall d :: Run(a, d) == Run(b, d)
    ensures a == b
  {
    if a == [] {
      if b != [] {
        SameRunsSameHead(b, a);
      }
    } else {
      SameRunsSameHead(a, b);
      var m := a[0].distance;
      RunHead(a);
      RunHead(b);
      forall d
        ensures Run(a[1..], d) == Run(b[1..], d)
      {
        if d == m {
          assert Run(a[1..], d) == Run(a, d)[1..];
          assert Run(b[1..], d) == Run(b, d)[1..];
        }
      }
      SortedRunsDetermine(a[1..], b[1..]);
      assert a == [a[0]] + a[1..] && b == [b[0]] + b[1..];
    }
  }

  /** The stable sort of a sequence is unique. */
  lemma StableSortUnique(x: seq<ResultObject>, y: seq<ResultObject>, inp: seq<ResultObject>)
    requires IsStableSortOf(x, inp) && IsStableSortOf(y, inp)
    ensures x == y
  {
    SortedRunsDetermine(x, y);
  }

  /** Inserts `e` into `s` after every entry that is not farther than `e`. */
  function InsertSorted(s: seq<ResultObject>, e: ResultObject): (r: seq<ResultObject>)
    ensures multiset(r) == multiset(s) + multiset{e}
  {
    if s == [] then [e]
    else if e.distance < s[0].distance then [e] + s
    else
      assert s == [s[0]] + s[1..];
      [s[0]] + InsertSorted(s[1..], e)
  }

  lemma SortedCons(x: ResultObject, t: seq<ResultObject>)
    requires Sorted(t)
    requires forall j :: 0 <= j < |t| ==> x.distance <= t[j].distance
    ensures Sorted([x] + t)
  {
    var r := [x] + t;
    forall i, j | 0 <= i < j < |r|
      ensures r[i].distance <= r[j].distance
    {
      assert r[j] == t[j - 1];
      if i > 0 {
        assert r[i] == t[i - 1];
      }
    }
  }

  /** A lower bound of `s` and of `e` is a lower bound of the insertion. */
  lemma {:induction false} InsertSortedLowerBound(s: seq<ResultObject>, e: ResultObject, lb: real)
    requires forall i :: 0 <= i < |s| ==> lb <= s[i].distance
    requires lb <= e.distance
    ensures forall i :: 0 <= i < |InsertSorted(s, e)| ==> lb <= InsertSorted(s, e)[i].distance
  {
    if s != [] && e.distance >= s[0].distance {
      InsertSortedLowerBound(s[1..], e, lb);
    }
  }

  /** Inserting into a sorted sequence keeps it sorted. */
  lemma {:induction false} InsertSortedSorted(s: seq<ResultObject>, e: ResultObject)
    requires Sorted(s)
    ensures Sorted(InsertSorted(s, e))
  {
    if s == [] {
    } else if e.distance < s[0].distance {
      SortedCons(e, s);
    } else {
      InsertSortedSorted(s[1..], e);
      InsertSortedLowerBound(s[1..], e, s[0].distance);
      SortedCons(s[0], InsertSorted(s[1..], e));
    }
  }

  lemma InsertFrontRuns(s: seq<ResultObject>, e: ResultObject, d: real)
    requires Sorted(s) && s != [] && e.distance < s[0].distance
    ensures Run([e] + s, d) == Run(s, d) + Run([e], d)
  {
    RunAppend([e], s, d);
    if e.distance == d {
      RunAbsent(s, d);
    } else {
      assert Run([e], d) == [];
    }
  }

  lemma InsertLaterRuns(s: seq<ResultObject>, e: ResultObject, d: real, tail: seq<ResultObject>)
    requires s != []
    requires Run(tail, d) == Run(s[1..], d) + Run([e], d)
    ensures Run([s[0]] + tail, d) == Run(s, d) + Run([e], d)
  {
    assert s == [s[0]] + s[1..];
    RunAppend([s[0]], tail, d);
    RunAppend([s[0]], s[1..], d);
  }

  /** Inserting `e` appends it to the run of its distance and leaves every other run alone. */
  lemma {:induction false} InsertSortedRuns(s: seq<ResultObject>, e: ResultObject, d: real)
    requires Sorted(s)
    ensures Run(InsertSorted(s, e), d) == Run(s, d) + Run([e], d)
  {
    if s == [] {
      assert Run([e], d) == [] + Run([e], d);
    } else if e.distance < s[0].distance {
      InsertFrontRuns(s, e, d);
    } else {
      InsertSortedRuns(s[1..], e, d);
      InsertLaterRuns(s, e, d, InsertSorted(s[1..], e));
    }
  }

  /** Reference stable sort by distance: insertion of each entry in turn. */
  function StableSorted(s: seq<ResultObject>): (r: seq<ResultObject>)
    ensures |r| == |s|
    ensures IsStableSortOf(r, s)
  {
    if s == [] then []
    else
      var init := StableSorted(s[..|s| - 1]);
      var r := InsertSorted(init, s[|s| - 1]);
      InsertSortedSorted(init, s[|s| - 1]);
      assert s == s[..|s| - 1] + [s[|s| - 1]];
      assert forall d :: Run(r, d) == Run(s, d) by {
        forall d
          ensures Run(r, d) == Run(s, d)
        {
          RunAppend(s[..|s| - 1], [s[|s| - 1]], d);
          InsertSortedRuns(init, s[|s| - 1], d);
        }
      }
      assert |multiset(r)| == |multiset(init)| + 1;
      r
  }

  /** `s` without its entry at `k`. */
  function Remove(s: seq<ResultObject>, k: nat): (r: seq<ResultObject>)
    requires k < |s|
    ensures |r| == |s| - 1
  {
    s[..k] + s[k + 1..]
  }

  /** `s` with its entry at `k` taken out and put back at position `p`. */
  function MoveTo(s: seq<ResultObject>, k: nat, p: nat): (r: seq<ResultObject>)
    requires k < |s| && p < |s|
    ensures |r| == |s|
  {
    var rest := Remove(s, k);
    rest[..p] + [s[k]] + rest[p..]
  }

  lemma MoveToAt(s: seq<ResultObject>, k: nat, p: nat, i: nat)
    requires k < |s| && p < |s| && i < |s|
    ensures MoveTo(s, k, p)[i] ==
              if i < p then Remove(s, k)[i] else if i == p then s[k] else Remove(s, k)[i - 1]
  {
  }

  lemma RemoveAt(s: seq<ResultObject>, k: nat, i: nat)
    requires k < |s| && i < |s| - 1
    ensures Remove(s, k)[i] == if i < k then s[i] else s[i + 1]
  {
  }

  /** The entry being moved, and its neighbours while it travels over entries it has not yet crossed. */
  lemma MoveToNeighbours(s: seq<ResultObject>, k: nat, j: nat)
    requires k < |s| && j < |s|
    ensures MoveTo(s, k, j)[j] == s[k]
    ensures 0 < j <= k ==> MoveTo(s, k, j)[j - 1] == s[j - 1]
    ensures k <= j < |s| - 1 ==> MoveTo(s, k, j)[j + 1] == s[j + 1]
  {
    MoveToAt(s, k, j, j);
    if 0 < j <= k {
      MoveToAt(s, k, j, j - 1);
      RemoveAt(s, k, j - 1);
    }
    if k <= j < |s| - 1 {
      MoveToAt(s, k, j, j + 1);
      RemoveAt(s, k, j);
    }
  }

  /** Putting the entry back where it was changes nothing. */
  lemma MoveToSelf(s: seq<ResultObject>, k: nat)
    requires k < |s|
    ensures MoveTo(s, k, k) == s
  {
    assert Remove(s, k)[..k] == s[..k];
    assert Remove(s, k)[k..] == s[k + 1..];
    assert s == s[..k] + [s[k]] + s[k + 1..];
  }

  /** Moving the entry one place towards the front is swapping it with its front neighbour. */
  lemma MoveLeftStep(s: seq<ResultObject>, k: nat, j: nat)
    requires k < |s| && 0 < j <= k
    ensures var a := MoveTo(s, k, j);
            a[j] == s[k] && a[j - 1] == s[j - 1] && a[j - 1 := a[j]][j := a[j - 1]] == MoveTo(s, k, j - 1)
  {
    var a := MoveTo(s, k, j)[j - 1 := s[k]][j := s[j - 1]];
    var b := MoveTo(s, k, j - 1);
    MoveToNeighbours(s, k, j);
    forall i | 0 <= i < |s|
      ensures a[i] == b[i]
    {
      MoveToAt(s, k, j - 1, i);
      MoveToAt(s, k, j, i);
      if i < |s| - 1 { RemoveAt(s, k, i); }
      if 0 < i <= |s| - 1 { RemoveAt(s, k, i - 1); }
    }
  }

  /** Moving the entry one place towards the back is swapping it with its back neighbour. */
  lemma MoveRightStep(s: seq<ResultObject>, k: nat, j: nat)
    requires k <= j && j + 1 < |s|
    ensures var a := MoveTo(s, k, j);
            a[j] == s[k] && a[j + 1] == s[j + 1] && a[j := a[j + 1]][j + 1 := a[j]] == MoveTo(s, k, j + 1)
  {
    var a := MoveTo(s, k, j)[j := s[j + 1]][j + 1 := s[k]];
    var b := MoveTo(s, k, j + 1);
    MoveToNeighbours(s, k, j);
    forall i | 0 <= i < |s|
      ensures a[i] == b[i]
    {
      MoveToAt(s, k, j + 1, i);
      MoveToAt(s, k, j, i);
      if i < |s| - 1 { RemoveAt(s, k, i); }
      if 0 < i <= |s| - 1 { RemoveAt(s, k, i - 1); }
    }
  }

  lemma MoveToSorted(s: seq<ResultObject>, k: nat, p: nat)
    requires k < |s| && p < |s|
    requires Sorted(Remove(s, k))
    requires 0 < p ==> Remove(s, k)[p - 1].distance <= s[k].distance
    requires p < |s| - 1 ==> s[k].distance <= Remove(s, k)[p].distance
    ensures Sorted(MoveTo(s, k, p))
  {
    var rest := Remove(s, k);
    var out := MoveTo(s, k, p);
    forall i, j | 0 <= i < j < |out|
      ensures out[i].distance <= out[j].distance
    {
      MoveToAt(s, k, p, i);
      MoveToAt(s, k, p, j);
      if i < p && j > p {
        assert rest[i].distance <= rest[p - 1].distance;
        assert rest[p].distance <= rest[j - 1].distance;
      } else if i < p && j == p {
        assert rest[i].distance <= rest[p - 1].distance;
      } else if i == p && j > p {
        assert rest[p].distance <= rest[j - 1].distance;
      }
    }
  }

  /** Exchanging two adjacent blocks leaves a run alone when one of them has no entry in it. */
  lemma SwapBlocksRuns(a: seq<ResultObject>, x: seq<ResultObject>, y: seq<ResultObject>, c: seq<ResultObject>, d: real)
    requires Run(x, d) == [] || Run(y, d) == []
    ensures Run(a + (x + (y + c)), d) == Run(a + (y + (x + c)), d)
  {
    RunAppend(a, x + (y + c), d);
    RunAppend(x, y + c, d);
    RunAppend(y, c, d);
    RunAppend(a, y + (x + c), d);
    RunAppend(y, x + c, d);
    RunAppend(x, c, d);
  }

  lemma MoveLeftShape(s: seq<ResultObject>, k: nat, p: nat)
    requires p <= k < |s|
    ensures MoveTo(s, k, p) == s[..p] + ([s[k]] + (s[p..k] + s[k + 1..]))
    ensures s == s[..p] + (s[p..k] + ([s[k]] + s[k + 1..]))
  {
    assert Remove(s, k)[..p] == s[..p];
    assert Remove(s, k)[p..] == s[p..k] + s[k + 1..];
  }

  lemma MoveRightShape(s: seq<ResultObject>, k: nat, p: nat)
    requires k < p < |s|
    ensures MoveTo(s, k, p) == s[..k] + (s[k + 1..p + 1] + ([s[k]] + s[p + 1..]))
    ensures s == s[..k] + ([s[k]] + (s[k + 1..p + 1] + s[p + 1..]))
  {
    assert Remove(s, k)[..p] == s[..k] + s[k + 1..p + 1];
    assert Remove(s, k)[p..] == s[p + 1..];
  }

  lemma CrossedRuns(s: seq<ResultObject>, k: nat, lo: nat, hi: nat, d: real)
    requires k < |s| && lo <= hi <= |s|
    requires forall m :: lo <= m < hi ==> s[m].distance != s[k].distance
    ensures Run(s[lo..hi], d) == [] || Run([s[k]], d) == []
  {
    if d == s[k].distance {
      RunAbsent(s[lo..hi], d);
    } else {
      assert Run([s[k]], d) == [];
    }
  }

  /**
   * Putting the one out-of-place entry at `p` is a stable sort when it lands
   * between its neighbours and it only crossed entries of other distances.
   */
  lemma MoveToIsStableSort(s: seq<ResultObject>, k: nat, p: nat)
    requires k < |s| && p < |s|
    requires Sorted(Remove(s, k))
    requires 0 < p ==> Remove(s, k)[p - 1].distance <= s[k].distance
    requires p < |s| - 1 ==> s[k].distance <= Remove(s, k)[p].distance
    requires forall m :: p <= m < k ==> s[m].distance != s[k].distance
    requires forall m :: k < m <= p ==> s[m].distance != s[k].distance
    ensures IsStableSortOf(MoveTo(s, k, p), s)
  {
    MoveToSorted(s, k, p);
    forall d
      ensures Run(MoveTo(s, k, p), d) == Run(s, d)
    {
      if p <= k {
        MoveLeftShape(s, k, p);
        CrossedRuns(s, k, p, k, d);
        SwapBlocksRuns(s[..p], [s[k]], s[p..k], s[k + 1..], d);
      } else {
        MoveRightShape(s, k, p);
        CrossedRuns(s, k, k + 1, p + 1, d);
        SwapBlocksRuns(s[..k], s[k + 1..p + 1], [s[k]], s[p + 1..], d);
      }
    }
  }

  /**
   * Where the moved entry comes to rest is the stable sort of `s`: it crossed
   * only strictly farther entries on its way to the front, or only strictly
   * closer ones on its way to the back, and its new neighbours do not
   * contradict the order.
   */
  lemma LandedIsStableSort(s: seq<ResultObject>, k: nat, j: nat)
    requires k < |s| && j < |s| && Sorted(Remove(s, k))
    requires forall m :: j <= m < k ==> s[m].distance > s[k].distance
    requires forall m :: k < m <= j ==> s[m].distance < s[k].distance
    requires 0 < j <= k ==> s[j - 1].distance <= s[k].distance
    requires k <= j < |s| - 1 ==> s[k].distance <= s[j + 1].distance
    ensures MoveTo(s, k, j) == StableSorted(s)
  {
    if 0 < j {
      RemoveAt(s, k, j - 1);
      if k < j {
        assert s[j].distance < s[k].distance;
      }
    }
    if j < |s| - 1 {
      RemoveAt(s, k, j);
      if j < k {
        assert s[j].distance > s[k].distance;
      }
    }
    MoveToIsStableSort(s, k, j);
    StableSortUnique(MoveTo(s, k, j), StableSorted(s), s);
  }

  /** Overwriting one entry of a sorted sequence leaves the others sorted. */
  lemma OverwriteKeepsRestSorted(s: seq<ResultObject>, k: nat, e: ResultObject)
    requires Sorted(s) && k < |s|
    ensures Sorted(Remove(s[k := e], k))
  {
    var r := Remove(s[k := e], k);
    forall i, j | 0 <= i < j < |r|
      ensures r[i].distance <= r[j].distance
    {
      RemoveAt(s[k := e], k, i);
      RemoveAt(s[k := e], k, j);
    }
  }

  /**
   * Moves the entry at `k` towards the front while its front neighbour is
   * strictly farther, one swap at a time.
   */
  method SiftTowardsFront(s: seq<ResultObject>, k: nat) returns (a: seq<ResultObject>, j: nat)
    requires k < |s|
    ensures j <= k && a == MoveTo(s, k, j)
    ensures forall m :: j <= m < k ==> s[m].distance > s[k].distance
    ensures 0 < j ==> s[j - 1].distance <= s[k].distance
  {
    a := s;
    j := k;
    MoveToSelf(s, k);
    while 0 < j && a[j - 1].distance > a[j].distance
      invariant j <= k && a == MoveTo(s, k, j)
      invariant forall m :: j <= m < k ==> s[m].distance > s[k].distance
    {
      MoveLeftStep(s, k, j);
      a := a[j - 1 := a[j]][j := a[j - 1]];
      j := j - 1;
    }
    MoveToNeighbours(s, k, j);
  }

  /**
   * Moves the entry at `k` towards the back while its back neighbour is
   * strictly closer, one swap at a time. It keeps the re-sort correct for
   * any overwrite; at the two overwrite sites of the query (a duplicate
   * overwritten by one no farther, and the last slot) it moves nothing.
   */
  method SiftTowardsBack(s: seq<ResultObject>, k: nat) returns (a: seq<ResultObject>, j: nat)
    requires k < |s|
    ensures k <= j < |s| && a == MoveTo(s, k, j)
    ensures forall m :: k < m <= j ==> s[m].distance < s[k].distance
    ensures j < |s| - 1 ==> s[k].distance <= s[j + 1].distance
  {
    a := s;
    j := k;
    MoveToSelf(s, k);
    while j + 1 < |s| && a[j + 1].distance < a[j].distance
      invariant k <= j < |s| && a == MoveTo(s, k, j)
      invariant forall m :: k < m <= j ==> s[m].distance < s[k].distance
      decreases |s| - j
    {
      MoveRightStep(s, k, j);
      a := a[j := a[j + 1]][j + 1 := a[j]];
      j := j + 1;
    }
    MoveToNeighbours(s, k, j);
  }

  /**
   * The re-sort after the entry at `k` was overwritten: the entry moves
   * towards the front past strictly farther entries, or else towards the
   * back past strictly closer ones, so it never crosses an entry at its own
   * distance and the result is the stable sort.
   */
  method ResortAfterOverwrite(s: seq<ResultObject>, k: nat) returns (a: seq<ResultObject>)
    requires k < |s| && Sorted(Remove(s, k))
    ensures a == StableSorted(s)
  {
    var j;
    a, j := SiftTowardsFront(s, k);
    if j == k {
      a, j := SiftTowardsBack(s, k);
    }
    LandedIsStableSort(s, k, j);
  }
}
