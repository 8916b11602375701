/**
 * The localizing cursor over a sparse matrix (SparseLocalizingCursor.java).
 *
 * The cursor visits every position of the matrix with the leading coordinate
 * running fastest. Instead of searching, it keeps the index of the next stored
 * entry: the data and indices cursors (which always move together, so one index
 * `entry` models both) and the indptr access (`slice`, the slice that entry lies in).
 * A position is a hit when the pointed-to entry lies exactly there.
 */
module SparseCursors {
  import opened SparseArrays

  /** Stored entry k lies in slice j. */
  predicate InSlice(s: SparseArray, k: int, j: int)
  {
    0 <= j < |s.indptr| - 1 && s.indptr[j] <= k < s.indptr[j + 1]
  }

  /** (j1, i1) comes before (j2, i2) in iteration order: by slice, then by leading coordinate. */
  predicate LexLess(j1: int, i1: int, j2: int, i2: int)
  {
    j1 < j2 || (j1 == j2 && i1 < i2)
  }

  predicate LexLeq(j1: int, i1: int, j2: int, i2: int)
  {
    LexLess(j1, i1, j2, i2) || (j1 == j2 && i1 == i2)
  }

  /** A stored entry lies in one slice only. */
  lemma SliceUnique(s: SparseArray, lead: int, k: int, j1: int, j2: int)
    requires Wellformed(s, lead) && InSlice(s, k, j1) && InSlice(s, k, j2)
    ensures j1 == j2
  {
  }

  /** In a canonical matrix, later stored entries lie later in iteration order. */
  lemma EntryOrder(s: SparseArray, lead: int, k1: int, j1: int, k2: int, j2: int)
    requires Canonical(s, lead) && k1 < k2 && InSlice(s, k1, j1) && InSlice(s, k2, j2)
    ensures LexLess(j1, s.indices[k1], j2, s.indices[k2])
  {
    if j1 == j2 {
      var lo := s.indptr[j1];
      assert Ascending(SliceIndices(s, lead, j1));
      assert SliceIndices(s, lead, j1)[k1 - lo] < SliceIndices(s, lead, j1)[k2 - lo];
    }
  }

  /** In a canonical matrix every stored coordinate lies inside the leading dimension. */
  lemma EntryInRange(s: SparseArray, lead: int, k: int, j: int)
    requires Canonical(s, lead) && InSlice(s, k, j)
    ensures 0 <= s.indices[k] < s.Dimension(lead)
  {
    assert AllBelow(SliceIndices(s, lead, j), s.Dimension(lead));
    assert SliceIndices(s, lead, j)[k - s.indptr[j]] == s.indices[k];
  }

  /**
   * The cursor's bookkeeping once it has started, at leading coordinate pl of slice ps:
   * entry e (in slice j) is the first stored entry not before the position, or the last
   * entry once the position has passed them all; and the hit flag says whether
   * entry e lies exactly at the position.
   */
  ghost predicate Tracking(s: SparseArray, lead: int, pl: int, ps: int, e: int, j: int, hit: bool)
    requires Canonical(s, lead)
  {
    && 0 <= pl < s.Dimension(lead) && 0 <= ps < s.Dimension(1 - lead)
    && 0 <= e < |s.data|
    && InSlice(s, e, j)
    && (forall k, jj :: 0 <= k < e && InSlice(s, k, jj) ==> LexLess(jj, s.indices[k], ps, pl))
    && (LexLeq(ps, pl, j, s.indices[e]) || e == |s.data| - 1)
    && hit == (s.indices[e] == pl && j == ps)
  }

  /** The bookkeeping holds after the first step: entry 0 and position (0, 0). */
  lemma FirstStep(s: SparseArray, lead: int, j: int)
    requires Canonical(s, lead) && |s.data| >= 1 && InSlice(s, 0, j)
    ensures Tracking(s, lead, 0, 0, 0, j, s.indices[0] == 0 && j == 0)
  {
    EntryInRange(s, lead, 0, j);
  }

  /**
   * The bookkeeping survives one step of the position: the entry index moves on to the
   * next stored entry exactly when the old position was a hit (and another entry exists).
   */
  lemma Step(s: SparseArray, lead: int, pl: int, ps: int, e: int, j: int, hit: bool,
             pl': int, ps': int, e': int, j': int)
    requires Canonical(s, lead) && Tracking(s, lead, pl, ps, e, j, hit)
    requires pl < s.Dimension(lead) - 1 ==> pl' == pl + 1 && ps' == ps
    requires pl == s.Dimension(lead) - 1 ==> pl' == 0 && ps' == ps + 1
    requires ps' < s.Dimension(1 - lead)
    requires e' == if hit && e < |s.data| - 1 then e + 1 else e
    requires InSlice(s, e', j')
    ensures Tracking(s, lead, pl', ps', e', j', s.indices[e'] == pl' && j' == ps')
  {
    forall k, jj | 0 <= k < e' && InSlice(s, k, jj)
      ensures LexLess(jj, s.indices[k], ps', pl')
    {
      if k == e {
        SliceUnique(s, lead, k, j, jj);
      }
    }
    if e' == e {
      SliceUnique(s, lead, e, j, j');
      EntryInRange(s, lead, e, j);
    } else {
      EntryOrder(s, lead, e, j, e', j');
      EntryInRange(s, lead, e', j');
    }
  }

  /** While tracking, the hit flag and the entry index give the matrix value at the position. */
  lemma TrackedValue(s: SparseArray, lead: int, pl: int, ps: int, e: int, j: int, hit: bool)
    requires Canonical(s, lead) && Tracking(s, lead, pl, ps, e, j, hit)
    ensures var x, y := if lead == 0 then pl else ps, if lead == 0 then ps else pl;
      0 <= x < s.numCols && 0 <= y < s.numRows
      && (if hit then s.data[e] else 0) == ValueAtLead(s, lead, x, y)
  {
    var lo, hi := s.indptr[ps], s.indptr[ps + 1];
    var idx, vals := SliceIndices(s, lead, ps), SliceData(s, lead, ps);
    if hit {
      assert j == ps && lo <= e < hi;
      assert Ascending(idx) && idx[e - lo] == pl;
      LookupAt(idx, vals, e - lo, pl);
    } else {
      forall a | 0 <= a < |idx| ensures idx[a] != pl {
        var k := lo + a;
        assert idx[a] == s.indices[k] && InSlice(s, k, ps);
        if k == e {
          SliceUnique(s, lead, k, j, ps);
        } else if e < k {
          EntryOrder(s, lead, e, j, k, ps);
        }
      }
      LookupAbsent(idx, vals, pl);
    }
  }

  class SparseLocalizingCursor {
    const img: SparseArray
    /** The largest position in each dimension: dimension(d) - 1. */
    const max: seq<int>
    const leadingDim: int
    const secondaryDim: int
    /** The current position: entry 0 is the column, entry 1 the row. */
    const position: array<int>
    var isHit: bool
    var isInitialized: bool
    /** The position of the data and the indices cursors. */
    var entry: int
    /** The position of the indptr access. */
    var slice: int

    ghost predicate Shape()
    {
      position.Length == 2 && (leadingDim == 0 || leadingDim == 1) && secondaryDim == 1 - leadingDim
    }

    /** The matrix the cursor can walk: canonical, with at least one stored entry. */
    ghost predicate Walkable()
    {
      && Shape()
      && Canonical(img, leadingDim) && |img.data| >= 1
      && max == [img.Dimension(0) - 1, img.Dimension(1) - 1]
    }

    /** The state reset() leaves: just before the first position, before the first stored entry. */
    ghost predicate AtStart()
      reads this, position
      requires Shape()
    {
      position[leadingDim] == -1 && position[secondaryDim] == 0 && entry == -1 && slice == 0 && !isHit
    }

    ghost predicate Valid()
      reads this, position
    {
      && Walkable()
      && if isInitialized then
           Tracking(img, leadingDim, position[leadingDim], position[secondaryDim], entry, slice, isHit)
         else AtStart()
    }

    /** The cursor constructor: record the matrix and its bounds, then reset. */
    constructor (img: SparseArray, leadingDimension: int)
      requires leadingDimension == 0 || leadingDimension == 1
      ensures Shape() && this.img == img && leadingDim == leadingDimension
      ensures fresh(position) && AtStart() && !isInitialized
      ensures Canonical(img, leadingDimension) && |img.data| >= 1 ==> Valid()
    {
      this.img := img;
      this.max := [img.Dimension(0) - 1, img.Dimension(1) - 1];
      this.leadingDim := leadingDimension;
      this.secondaryDim := 1 - leadingDimension;
      this.position := new int[2];
      this.isHit := false;
      this.isInitialized := false;
      new;
      Reset();
    }

    /** copy(): a new cursor over the same matrix, placed at the start rather than at this cursor's position. */
    method Copy() returns (c: SparseLocalizingCursor)
      requires Valid()
      ensures fresh(c) && fresh(c.position) && c.Valid()
      ensures c.img == img && c.leadingDim == leadingDim && !c.isInitialized && c.AtStart()
    {
      c := new SparseLocalizingCursor(img, leadingDim);
    }

    /** reset() as intended: back to the start, with the started and hit flags cleared as well. */
    method Reset()
      requires Shape()
      modifies this`isHit, this`isInitialized, this`entry, this`slice, position
      ensures AtStart() && !isInitialized
      ensures Walkable() ==> Valid()
    {
      position[leadingDim] := -1;
      position[secondaryDim] := 0;
      entry := -1;
      slice := 0;
      isInitialized := false;
      isHit := false;
    }

    /** reset() as written: position and inner cursors go back to the start, the two flags keep their values. */
    method ResetAsWritten()
      requires Shape()
      modifies this`entry, this`slice, position
      ensures position[leadingDim] == -1 && position[secondaryDim] == 0 && entry == -1 && slice == 0
      ensures isInitialized == old(isInitialized) && isHit == old(isHit)
    {
      position[leadingDim] := -1;
      position[secondaryDim] := 0;
      entry := -1;
      slice := 0;
    }

    /**
     * The stored entry whose index the next fwd() compares with the new position: fwd
     * advances first (to the next entry, if there is one) only when the cursor has not
     * started or stands on a hit.
     */
    function EntryReadByFwd(): (e: int)
      reads this
      ensures isInitialized && !isHit ==> e == entry
      ensures (!isInitialized || isHit) && entry < |img.indices| - 1 ==> e == entry + 1
    {
      if (!isInitialized || isHit) && entry < |img.indices| - 1 then entry + 1 else entry
    }

    /** hasNext(): some coordinate is still below its maximum. */
    function HasNext(): (r: bool)
      reads this, position
      requires Valid()
      ensures r <==> !(isInitialized && position[leadingDim] == max[leadingDim]
                       && position[secondaryDim] == max[secondaryDim])
    {
      position[0] < max[0] || position[1] < max[1]
    }

    /** get(): the stored value when the position is a hit, the fill value 0 otherwise. */
    method Get() returns (v: int)
      requires Valid()
      ensures isInitialized ==> 0 <= position[0] < img.numCols && 0 <= position[1] < img.numRows
      ensures isInitialized ==> v == ValueAtLead(img, leadingDim, position[0], position[1])
      ensures !isInitialized ==> v == 0
    {
      v := if isHit then img.data[entry] else 0;
      if isInitialized {
        TrackedValue(img, leadingDim, position[leadingDim], position[secondaryDim], entry, slice, isHit);
      }
    }

    /**
     * advanceToNextNonzeroElement(): step the data and indices cursors if another
     * entry exists, then move the indptr access forward to the slice that entry lies in.
     */
    method Advance()
      requires Walkable()
      requires -1 <= entry < |img.data|
      requires entry == -1 ==> slice == 0
      requires entry >= 0 ==> InSlice(img, entry, slice)
      modifies this`entry, this`slice
      ensures entry == if old(entry) < |img.indices| - 1 then old(entry) + 1 else old(entry)
      ensures InSlice(img, entry, slice)
    {
      if entry < |img.indices| - 1 {
        entry := entry + 1;
      }
      var currentIndexPosition := entry;
      slice := slice + 1;
      while img.indptr[slice] <= currentIndexPosition
        invariant 1 <= slice < |img.indptr| && entry == currentIndexPosition
        invariant img.indptr[slice - 1] <= currentIndexPosition
        decreases |img.indptr| - slice
      {
        slice := slice + 1;
      }
      slice := slice - 1;
    }

    /**
     * fwd(): move the entry index on if the cursor has not started or the current
     * position was a hit; step the position with the leading coordinate fastest;
     * then decide whether the new position is a hit.
     */
    method Fwd()
      requires Valid() && HasNext()
      modifies this, position
      ensures Valid() && isInitialized
      ensures old(position[leadingDim]) < max[leadingDim] ==>
        position[leadingDim] == old(position[leadingDim]) + 1 && position[secondaryDim] == old(position[secondaryDim])
      ensures old(position[leadingDim]) == max[leadingDim] ==>
        position[leadingDim] == 0 && position[secondaryDim] == old(position[secondaryDim]) + 1
    {
      ghost var wasInitialized, wasHit := isInitialized, isHit;
      ghost var pl, ps, e, j := position[leadingDim], position[secondaryDim], entry, slice;
      assert wasInitialized ==> Tracking(img, leadingDim, pl, ps, e, j, wasHit);
      if !isInitialized {
        isInitialized := true;
        Advance();
      } else if isHit {
        Advance();
      }
      var lead, sec := position[leadingDim], position[secondaryDim];
      if lead < max[leadingDim] {
        lead := lead + 1;
      } else {
        lead := 0;
        sec := sec + 1;
      }
      var hit := img.indices[entry] == lead && slice == sec;
      if !wasInitialized {
        FirstStep(img, leadingDim, slice);
      } else {
        Step(img, leadingDim, pl, ps, e, j, wasHit, lead, sec, entry, slice);
      }
      MoveTo(lead, sec, hit);
    }

    /** The last part of fwd(): store the new position and whether it is a hit. */
    method MoveTo(lead: int, sec: int, hit: bool)
      requires Walkable() && isInitialized && Tracking(img, leadingDim, lead, sec, entry, slice, hit)
      modifies position, this`isHit
      ensures Valid() && position[leadingDim] == lead && position[secondaryDim] == sec
    {
      position[leadingDim] := lead;
      position[secondaryDim] := sec;
      isHit := hit;
      assert position[leadingDim] == lead && position[secondaryDim] == sec;
    }

    /** What a pass has collected so far: every value up to and including the current position. */
    ghost predicate Collected(values: seq<int>)
      reads this, position
      requires Valid()
    {
      if isInitialized then
        values == PassPrefix(img, leadingDim, position[secondaryDim], position[leadingDim])
      else values == []
    }

    /** One round of a full pass: fwd() then get(), appending the value read. */
    method CollectNext(values: seq<int>) returns (next: seq<int>)
      requires Valid() && HasNext() && Collected(values)
      modifies this, position
      ensures Valid() && isInitialized && Collected(next)
      ensures old(isInitialized) && old(position[leadingDim]) < max[leadingDim] ==>
        position[leadingDim] == old(position[leadingDim]) + 1 && position[secondaryDim] == old(position[secondaryDim])
      ensures old(isInitialized) && old(position[leadingDim]) == max[leadingDim] ==>
        position[secondaryDim] == old(position[secondaryDim]) + 1 <= max[secondaryDim]
    {
      ghost var ps, pl, started := position[secondaryDim], position[leadingDim], isInitialized;
      Fwd();
      var v := Get();
      PassStep(img, leadingDim, started, ps, pl, position[secondaryDim], position[leadingDim], values, v);
      next := values + [v];
    }

    /**
     * A full pass from the start: step while hasNext() and collect get() at each
     * position. The pass yields the value of every position of the matrix in
     * iteration order, dimension(0) * dimension(1) values in all.
     */
    method ReadAll() returns (values: seq<int>)
      requires Valid() && !isInitialized
      modifies this, position
      ensures Valid()
      ensures values == DenseValues(img, leadingDim, img.Dimension(1 - leadingDim))
      ensures |values| == CorrectedSize(img)
    {
      values := [];
      while HasNext()
        invariant Valid() && Collected(values)
        invariant isInitialized ==> position[secondaryDim] <= max[secondaryDim] && position[leadingDim] <= max[leadingDim]
        decreases (if isInitialized then 0 else 1),
                  max[secondaryDim] - position[secondaryDim], max[leadingDim] - position[leadingDim]
      {
        values := CollectNext(values);
      }
      PassEnd(img, leadingDim, values);
    }
  }

  /** The values of slice j, in order of the leading coordinate. */
  function SliceValues(s: SparseArray, lead: int, j: int): (r: seq<int>)
    requires Wellformed(s, lead) && 0 <= j < s.Dimension(1 - lead)
    ensures |r| == s.Dimension(lead)
  {
    seq(s.Dimension(lead), i requires 0 <= i < s.Dimension(lead) =>
      ValueAtLead(s, lead, if lead == 0 then i else j, if lead == 0 then j else i))
  }

  /** What a pass has collected on reaching position (pl, ps): every slice before ps, then slice ps up to pl. */
  function PassPrefix(s: SparseArray, lead: int, ps: int, pl: int): seq<int>
    requires Wellformed(s, lead) && 0 <= ps < s.Dimension(1 - lead) && 0 <= pl < s.Dimension(lead)
  {
    DenseValues(s, lead, ps) + SliceValues(s, lead, ps)[..pl + 1]
  }

  /** The values of slices 0 .. m-1, slice after slice: the order in which the cursor visits them. */
  function DenseValues(s: SparseArray, lead: int, m: int): seq<int>
    requires Wellformed(s, lead) && 0 <= m <= s.Dimension(1 - lead)
  {
    if m == 0 then [] else DenseValues(s, lead, m - 1) + SliceValues(s, lead, m - 1)
  }

  /** Element i of slice j is the matrix value at leading coordinate i of slice j. */
  lemma SliceValuesAt(s: SparseArray, lead: int, j: int, i: int)
    requires Wellformed(s, lead) && 0 <= j < s.Dimension(1 - lead) && 0 <= i < s.Dimension(lead)
    ensures SliceValues(s, lead, j)[i] == ValueAtLead(s, lead, if lead == 0 then i else j, if lead == 0 then j else i)
  {
  }

  /** A prefix one longer is the prefix followed by the next element. */
  lemma PrefixExtend(xs: seq<int>, n: int)
    requires 0 <= n < |xs|
    ensures xs[..n + 1] == xs[..n] + [xs[n]]
  {
  }

  /** Appending the next element of a slice to a pass extends that slice's prefix. */
  lemma ExtendPrefix(done: seq<int>, slice: seq<int>, n: int, values: seq<int>)
    requires 0 <= n < |slice| && values == done + slice[..n]
    ensures values + [slice[n]] == done + slice[..n + 1]
  {
    PrefixExtend(slice, n);
  }

  /** Appending the first element of the next slice completes the current one. */
  lemma StartNextSlice(done: seq<int>, slice: seq<int>, next: seq<int>, values: seq<int>)
    requires |next| >= 1 && values == done + slice[..|slice|]
    ensures values + [next[0]] == (done + slice) + next[..1]
  {
    assert slice[..|slice|] == slice;
    assert next[..1] == [next[0]];
  }

  /** One step of a full pass appends the value at the new position, in iteration order. */
  lemma PassStep(s: SparseArray, lead: int, started: bool, ps: int, pl: int, ps': int, pl': int,
                 values: seq<int>, v: int)
    requires Wellformed(s, lead)
    requires 0 <= pl' < s.Dimension(lead) && 0 <= ps' < s.Dimension(1 - lead)
    requires started ==> 0 <= pl < s.Dimension(lead) && 0 <= ps < s.Dimension(1 - lead)
    requires started ==> values == PassPrefix(s, lead, ps, pl)
    requires !started ==> values == [] && pl' == 0 && ps' == 0
    requires started && pl < s.Dimension(lead) - 1 ==> pl' == pl + 1 && ps' == ps
    requires started && pl == s.Dimension(lead) - 1 ==> pl' == 0 && ps' == ps + 1
    requires v == ValueAtLead(s, lead, if lead == 0 then pl' else ps', if lead == 0 then ps' else pl')
    ensures values + [v] == PassPrefix(s, lead, ps', pl')
  {
    SliceValuesAt(s, lead, ps', pl');
    var next := SliceValues(s, lead, ps');
    if !started {
      StartNextSlice([], [], next, values);
    } else if pl < s.Dimension(lead) - 1 {
      ExtendPrefix(DenseValues(s, lead, ps), next, pl + 1, values);
    } else {
      var slice := SliceValues(s, lead, ps);
      StartNextSlice(DenseValues(s, lead, ps), slice, next, values);
      assert DenseValues(s, lead, ps') == DenseValues(s, lead, ps) + slice;
    }
  }

  /** A pass that has reached the last position has collected every slice. */
  lemma PassEnd(s: SparseArray, lead: int, values: seq<int>)
    requires Wellformed(s, lead)
    requires values == PassPrefix(s, lead, s.Dimension(1 - lead) - 1, s.Dimension(lead) - 1)
    ensures values == DenseValues(s, lead, s.Dimension(1 - lead))
    ensures |values| == s.Dimension(0) * s.Dimension(1)
  {
    var S := s.Dimension(1 - lead);
    assert SliceValues(s, lead, S - 1)[..s.Dimension(lead)] == SliceValues(s, lead, S - 1);
    DenseValuesLength(s, lead, S);
  }

  lemma {:induction false} DenseValuesLength(s: SparseArray, lead: int, m: int)
    requires Wellformed(s, lead) && 0 <= m <= s.Dimension(1 - lead)
    ensures |DenseValues(s, lead, m)| == m * s.Dimension(lead)
    decreases m
  {
    if m > 0 {
      DenseValuesLength(s, lead, m - 1);
    }
  }

  /** The 2 x 1 CSR matrix holding 5 at column 0, row 0 is canonical. */
  lemma OneEntryCanonical(s: SparseArray)
    requires s.layout == CsrMatrix && s.numCols == 2 && s.numRows == 1 && s.data == [5] && s.indices == [0] && s.indptr == [0, 1]
    ensures Canonical(s, 0)
  {
    assert SliceIndices(s, 0, 0) == [0];
  }

  /**
   * The as-written reset() on the 2 x 1 CSR matrix holding 5 at (0, 0): after two
   * steps and a reset the cursor still counts as started with no hit, so the next
   * fwd() does not move the entry index and reads the indices cursor at -1, before the
   * first stored entry. The corrected reset on a second cursor makes fwd read entry 0.
   */
  method ResetKeepsStartedFlag(s: SparseArray) returns (c: SparseLocalizingCursor, d: SparseLocalizingCursor)
    requires s.layout == CsrMatrix && s.numCols == 2 && s.numRows == 1 && s.data == [5] && s.indices == [0] && s.indptr == [0, 1]
    ensures c.Shape() && c.isInitialized && !c.isHit && c.entry == -1
    ensures c.position[c.leadingDim] == -1 && c.position[c.secondaryDim] == 0
    ensures c.img == s && c.EntryReadByFwd() == -1
    ensures d.Shape() && d.img == s && d.AtStart() && d.EntryReadByFwd() == 0
  {
    OneEntryCanonical(s);
    c := new SparseLocalizingCursor(s, 0);
    c.Fwd();
    c.Fwd();
    assert c.position[0] == 1 && c.entry == 0;
    c.ResetAsWritten();
    d := new SparseLocalizingCursor(s, 0);
    d.Fwd();
    d.Fwd();
    d.Reset();
  }
}
