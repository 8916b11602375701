/**
 * Random access into a sparse matrix (SparseRandomAccess.java): a mutable position
 * and a binary search over the stored coordinates of one slice.
 */
module SparseRandomAccesses {
  import opened SparseArrays

  /** Slice j of `s` can be read: indptr has entries j and j+1, in order and within the stored entries. */
  predicate SliceReadable(s: SparseArray, j: int)
  {
    && 0 <= j < |s.indptr| - 1
    && 0 <= s.indptr[j] <= s.indptr[j + 1] <= |s.indices|
    && |s.data| == |s.indices|
  }

  /** Some stored entry of slice j has leading coordinate i and value v. */
  predicate StoredInSlice(s: SparseArray, j: int, i: int, v: int)
    requires SliceReadable(s, j)
  {
    exists k :: s.indptr[j] <= k < s.indptr[j + 1] && s.indices[k] == i && s.data[k] == v
  }

  class SparseRandomAccess {
    const sparse: SparseArray
    const leadingDim: int
    const secondaryDim: int
    /** The current position: entry 0 is the column, entry 1 the row. */
    const position: array<int>

    ghost predicate Valid()
      reads this
    {
      position.Length == 2 && (leadingDim == 0 || leadingDim == 1) && secondaryDim == 1 - leadingDim
    }

    /** A random access positioned at the origin. */
    constructor (sparse: SparseArray, leadingDim: int)
      requires leadingDim == 0 || leadingDim == 1
      ensures Valid()
      ensures this.sparse == sparse && this.leadingDim == leadingDim && this.secondaryDim == 1 - leadingDim
      ensures fresh(position) && position[..] == [0, 0]
    {
      this.sparse := sparse;
      this.leadingDim := leadingDim;
      this.secondaryDim := 1 - leadingDim;
      var p := new int[2];
      p[0], p[1] := 0, 0;
      this.position := p;
    }

    /** The copy constructor: same matrix and leading dimension, an independent position with the same coordinates. */
    constructor CopyOf(ra: SparseRandomAccess)
      requires ra.Valid()
      ensures Valid()
      ensures sparse == ra.sparse && leadingDim == ra.leadingDim && secondaryDim == ra.secondaryDim
      ensures fresh(position) && position[..] == ra.position[..]
    {
      sparse := ra.sparse;
      leadingDim := ra.leadingDim;
      secondaryDim := ra.secondaryDim;
      var p := new int[2];
      p[0], p[1] := ra.position[0], ra.position[1];
      position := p;
    }

    /** copy(): a new random access at the same position. */
    method Copy() returns (r: SparseRandomAccess)
      requires Valid()
      ensures fresh(r) && fresh(r.position) && r.Valid()
      ensures r.sparse == sparse && r.leadingDim == leadingDim && r.position[..] == position[..]
    {
      r := new SparseRandomAccess.CopyOf(this);
    }

    method Fwd(d: int)
      requires Valid() && 0 <= d < 2
      modifies position
      ensures position[..] == old(position[..])[d := old(position[d]) + 1]
    {
      position[d] := position[d] + 1;
    }

    method Bck(d: int)
      requires Valid() && 0 <= d < 2
      modifies position
      ensures position[..] == old(position[..])[d := old(position[d]) - 1]
    {
      position[d] := position[d] - 1;
    }

    /** move(distance, d), for an int or a long distance. */
    method Move(distance: int, d: int)
      requires Valid() && 0 <= d < 2
      modifies position
      ensures position[..] == old(position[..])[d := old(position[d]) + distance]
    {
      position[d] := position[d] + distance;
    }

    /** move(Localizable), move(int[]) and move(long[]): add a distance to every coordinate. */
    method MoveBy(distance: seq<int>)
      requires Valid() && |distance| >= 2
      modifies position
      ensures forall d :: 0 <= d < 2 ==> position[d] == old(position[d]) + distance[d]
    {
      for d := 0 to 2
        invariant forall e :: 0 <= e < d ==> position[e] == old(position[e]) + distance[e]
        invariant forall e :: d <= e < 2 ==> position[e] == old(position[e])
      {
        position[d] := position[d] + distance[d];
      }
    }

    /** setPosition(Localizable), setPosition(int[]) and setPosition(long[]): copy every coordinate. */
    method SetPosition(p: seq<int>)
      requires Valid() && |p| >= 2
      modifies position
      ensures position[..] == p[..2]
    {
      for d := 0 to 2
        invariant forall e :: 0 <= e < d ==> position[e] == p[e]
      {
        position[d] := p[d];
      }
    }

    /** setPosition(position, d), for an int or a long coordinate. */
    method SetPositionAt(p: int, d: int)
      requires Valid() && 0 <= d < 2
      modifies position
      ensures position[..] == old(position[..])[d := p]
    {
      position[d] := p;
    }

    /**
     * get(): look up the slice named by the secondary coordinate in indptr and
     * binary-search its stored coordinates for the leading coordinate; return the
     * stored value on a match and the fill value 0 otherwise.
     */
    method Get() returns (v: int)
      requires Valid() && SliceReadable(sparse, position[secondaryDim])
      ensures v == 0 || StoredInSlice(sparse, position[secondaryDim], position[leadingDim], v)
      ensures var j := position[secondaryDim];
        Ascending(sparse.indices[sparse.indptr[j]..sparse.indptr[j + 1]]) ==>
          v == Lookup(sparse.indices[sparse.indptr[j]..sparse.indptr[j + 1]],
                      sparse.data[sparse.indptr[j]..sparse.indptr[j + 1]], position[leadingDim])
      ensures (Canonical(sparse, leadingDim) && 0 <= position[0] < sparse.numCols && 0 <= position[1] < sparse.numRows)
        ==> v == ValueAtLead(sparse, leadingDim, position[0], position[1])
    {
      var j := position[secondaryDim];
      var target := position[leadingDim];
      var start, end := sparse.indptr[j], sparse.indptr[j + 1];
      if start == end {
        v := 0;
        SearchOutcome(sparse, j, target, -1, v);
      } else {
        var found := Search(sparse.indices, start, end, target);
        v := if found < 0 then 0 else sparse.data[found];
        SearchOutcome(sparse, j, target, found, v);
      }
      if Canonical(sparse, leadingDim) && 0 <= position[0] < sparse.numCols && 0 <= position[1] < sparse.numRows {
        assert j == SecondaryCoord(leadingDim, position[0], position[1]);
        assert target == LeadCoord(leadingDim, position[0], position[1]);
        assert Ascending(SliceIndices(sparse, leadingDim, j));
      }
    }
  }

  /** What get() returns once the search of slice j for coordinate i has found entry `found`, or -1. */
  lemma {:induction false} SearchOutcome(s: SparseArray, j: int, i: int, found: int, v: int)
    requires SliceReadable(s, j)
    requires found == -1 || (s.indptr[j] <= found < s.indptr[j + 1] && s.indices[found] == i)
    requires found == -1 && Ascending(s.indices[s.indptr[j]..s.indptr[j + 1]]) ==>
      forall k :: s.indptr[j] <= k < s.indptr[j + 1] ==> s.indices[k] != i
    requires v == if found == -1 then 0 else s.data[found]
    ensures v == 0 || StoredInSlice(s, j, i, v)
    ensures Ascending(s.indices[s.indptr[j]..s.indptr[j + 1]]) ==>
      v == Lookup(s.indices[s.indptr[j]..s.indptr[j + 1]], s.data[s.indptr[j]..s.indptr[j + 1]], i)
  {
    var start, end := s.indptr[j], s.indptr[j + 1];
    var idx, vals := s.indices[start..end], s.data[start..end];
    if found == -1 {
      if Ascending(idx) {
        forall a | 0 <= a < |idx| ensures idx[a] != i {
          assert s.indices[start + a] == idx[a];
        }
        LookupAbsent(idx, vals, i);
      }
    } else {
      if Ascending(idx) {
        LookupAt(idx, vals, found - start, i);
      }
    }
  }

  /**
   * The do-while loop of get(): halve [start, end) around the middle entry until
   * the target coordinate is found or the range is exhausted. Returns the index of
   * a stored entry with that coordinate, or -1.
   */
  method Search(indices: seq<int>, start: int, end: int, target: int) returns (found: int)
    requires 0 <= start < end <= |indices|
    ensures found == -1 || (start <= found < end && indices[found] == target)
    ensures found == -1 && Ascending(indices[start..end]) ==>
      forall k :: start <= k < end ==> indices[k] != target
  {
    ghost var lo, hi := start, end;
    ghost var sorted := Ascending(indices[lo..hi]);
    var start, end := start, end;
    while true
      invariant lo <= start < end <= hi
      invariant sorted ==> forall k :: lo <= k < hi && indices[k] == target ==> start <= k < end
      decreases end - start
    {
      var current := (start + end) / 2;
      var currentInd := indices[current];
      if currentInd == target {
        return current;
      }
      if currentInd < target {
        if sorted {
          ExcludedHalf(indices, lo, hi, current, target);
        }
        start := current;
      }
      if currentInd > target {
        if sorted {
          ExcludedHalf(indices, lo, hi, current, target);
        }
        end := current;
      }
      if !(current != start || end - start > 1) {
        break;
      }
    }
    found := -1;
  }

  /** In an ascending range, an entry below the target rules out itself and everything before it, one above rules out everything after it. */
  lemma {:induction false} ExcludedHalf(indices: seq<int>, lo: int, hi: int, current: int, target: int)
    requires 0 <= lo <= current < hi <= |indices| && Ascending(indices[lo..hi])
    ensures indices[current] < target ==> forall k :: lo <= k < hi && indices[k] == target ==> current < k
    ensures indices[current] > target ==> forall k :: lo <= k < hi && indices[k] == target ==> k < current
  {
    forall k | lo <= k < hi && indices[k] == target
      ensures indices[current] < target ==> current < k
      ensures indices[current] > target ==> k < current
    {
      if k < current {
        assert indices[lo..hi][k - lo] < indices[lo..hi][current - lo];
      } else if current < k {
        assert indices[lo..hi][current - lo] < indices[lo..hi][k - lo];
      }
    }
  }
}
