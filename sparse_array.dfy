/**
 * The compressed sparse matrix shared by CSR and CSC (SparseArray.java).
 *
 * Axes follow ImgLib2: coordinate 0 is the column (x), coordinate 1 the row (y).
 * The leading dimension is the axis that `indices` stores; `indptr` is indexed by
 * the other (secondary) axis. Leading dimension 0 is CSR, 1 is CSC. Values are
 * integers and 0 is the fill value.
 */
module SparseArrays {
  import opened Wrappers

  /** An ImgLib2 image as the sparse-array constructor sees it: per-dimension min and max, and its values. */
  datatype Img = Img(min: seq<int>, max: seq<int>, values: seq<int>)
  {
    function NumDimensions(): nat { |min| }

    /** ImgLib2's own invariant: one min and one max per dimension; a 1-D image holds max - min + 1 values. */
    predicate Shaped() {
      |min| == |max| && (|min| == 1 ==> |values| == max[0] - min[0] + 1)
    }
  }

  /** A 1-D image of the given values, starting at index 0 (what ArrayImgFactory.create(n) allocates). */
  function Img1(values: seq<int>): (img: Img)
    ensures img.Shaped() && img.NumDimensions() == 1 && img.min[0] == 0 && img.values == values
  {
    Img([0], [|values| - 1], values)
  }

  /** The concrete class of a sparse matrix. */
  datatype Layout = CsrMatrix | CscMatrix | CsrArray

  datatype SparseError =
    | NotOneDimensional      // data, indices or indptr is not 1-D
    | NotZeroBased           // data, indices or indptr does not start at index 0
    | SizeMismatch           // data and indices differ in size
    | IndptrMismatch         // indptr does not fit the number of slices
    | BadLeadingDimension    // a leading dimension other than 0 or 1
    | NotTwoDimensional      // the factory was asked for other than two dimensions
    | InvalidDimensions      // a non-positive dimension
    | IncompatibleType       // imgFactory with a type that is not numeric and native

  datatype SparseArray = SparseArray(
    layout: Layout, numCols: int, numRows: int,
    data: seq<int>, indices: seq<int>, indptr: seq<int>)
  {
    function NumDimensions(): int { 2 }

    function Min(d: int): int { 0 }

    function Max(d: int): int
      requires 0 <= d < 2
    {
      if d == 0 then numCols - 1 else numRows - 1
    }

    /** ImgLib2's dimension: max - min + 1. */
    function Dimension(d: int): int
      requires 0 <= d < 2
    {
      Max(d) - Min(d) + 1
    }
  }

  /** The leading dimension each class passes to its accessors. */
  function LeadingDim(layout: Layout): (lead: int)
    ensures lead == 0 || lead == 1
    ensures lead == 1 <==> layout == CscMatrix
  {
    if layout == CscMatrix then 1 else 0
  }

  /** The layout convertToSparse and the factory choose for a leading dimension. */
  function LayoutFor(lead: int): Layout
  {
    if lead == 0 then CsrMatrix else CscMatrix
  }

  predicate OneDimensionalFromZero(img: Img)
  {
    img.NumDimensions() == 1 && img.min[0] == 0
  }

  /** The SparseArray constructor, with its four validity checks in source order. */
  function New(layout: Layout, numCols: int, numRows: int, data: Img, indices: Img, indptr: Img)
    : (r: Result<SparseArray, SparseError>)
    requires data.Shaped() && indices.Shaped() && indptr.Shaped()
    ensures r.Ok? <==>
      OneDimensionalFromZero(data) && OneDimensionalFromZero(indices) && OneDimensionalFromZero(indptr)
      && |data.values| == |indices.values|
      && (|indptr.values| == numCols + 1 || |indptr.values| == numRows + 1)
    ensures r.Ok? ==>
      r.value == SparseArray(layout, numCols, numRows, data.values, indices.values, indptr.values)
    ensures r.Ok? ==>
      r.value.Min(0) == 0 && r.value.Min(1) == 0
      && r.value.Max(0) == numCols - 1 && r.value.Max(1) == numRows - 1
    ensures r == Err(NotOneDimensional) <==>
      !(data.NumDimensions() == 1 && indices.NumDimensions() == 1 && indptr.NumDimensions() == 1)
    ensures r == Err(NotZeroBased) <==>
      data.NumDimensions() == 1 && indices.NumDimensions() == 1 && indptr.NumDimensions() == 1
      && !(data.min[0] == 0 && indices.min[0] == 0 && indptr.min[0] == 0)
    ensures r == Err(SizeMismatch) <==>
      OneDimensionalFromZero(data) && OneDimensionalFromZero(indices) && OneDimensionalFromZero(indptr)
      && |data.values| != |indices.values|
    ensures r == Err(IndptrMismatch) <==>
      OneDimensionalFromZero(data) && OneDimensionalFromZero(indices) && OneDimensionalFromZero(indptr)
      && |data.values| == |indices.values|
      && |indptr.values| != numCols + 1 && |indptr.values| != numRows + 1
  {
    if data.NumDimensions() != 1 || indices.NumDimensions() != 1 || indptr.NumDimensions() != 1 then
      Err(NotOneDimensional)
    else if data.min[0] != 0 || indices.min[0] != 0 || indptr.min[0] != 0 then
      Err(NotZeroBased)
    else if data.max[0] != indices.max[0] then
      Err(SizeMismatch)
    else if indptr.max[0] != numCols && indptr.max[0] != numRows then
      Err(IndptrMismatch)
    else
      Ok(SparseArray(layout, numCols, numRows, data.values, indices.values, indptr.values))
  }

  /** Whether `New` accepts the three arrays of `s` (as 1-D images from 0) with the dimensions of `s`. */
  predicate Constructible(s: SparseArray)
  {
    |s.data| == |s.indices| && (|s.indptr| == s.numCols + 1 || |s.indptr| == s.numRows + 1)
  }

  // ---------------------------------------------------------------------------
  // Structure and meaning of a sparse matrix
  // ---------------------------------------------------------------------------

  /**
   * What the accessors need to read `s` safely with the given leading dimension:
   * positive dimensions, one indptr entry per slice plus one, and indptr entries
   * that never decrease and stay within the stored entries.
   */
  predicate Wellformed(s: SparseArray, lead: int)
  {
    && (lead == 0 || lead == 1)
    && s.numCols >= 1 && s.numRows >= 1
    && |s.data| == |s.indices|
    && |s.indptr| == s.Dimension(1 - lead) + 1
    && (forall j :: 0 <= j < |s.indptr| ==> 0 <= s.indptr[j] <= |s.indices|)
    && (forall j, k :: 0 <= j <= k < |s.indptr| ==> s.indptr[j] <= s.indptr[k])
  }

  /** The stored leading coordinates of slice j. */
  function SliceIndices(s: SparseArray, lead: int, j: int): seq<int>
    requires Wellformed(s, lead) && 0 <= j < |s.indptr| - 1
  {
    s.indices[s.indptr[j]..s.indptr[j + 1]]
  }

  /** The stored values of slice j. */
  function SliceData(s: SparseArray, lead: int, j: int): seq<int>
    requires Wellformed(s, lead) && 0 <= j < |s.indptr| - 1
  {
    s.data[s.indptr[j]..s.indptr[j + 1]]
  }

  predicate Ascending(xs: seq<int>)
  {
    forall a, b :: 0 <= a < b < |xs| ==> xs[a] < xs[b]
  }

  predicate AllBelow(xs: seq<int>, n: int)
  {
    forall a :: 0 <= a < |xs| ==> 0 <= xs[a] < n
  }

  /**
   * The form convertToSparse produces: indptr starts at 0 and ends at the number
   * of stored entries, and within each slice the stored coordinates ascend and lie
   * inside the leading dimension.
   */
  predicate Canonical(s: SparseArray, lead: int)
  {
    && Wellformed(s, lead)
    && s.indptr[0] == 0
    && s.indptr[|s.indptr| - 1] == |s.data|
    && forall j :: 0 <= j < |s.indptr| - 1 ==>
         Ascending(SliceIndices(s, lead, j)) && AllBelow(SliceIndices(s, lead, j), s.Dimension(lead))
  }

  /** The first stored value whose coordinate is i, or the fill value 0. */
  function Lookup(idx: seq<int>, vals: seq<int>, i: int): int
    requires |idx| == |vals|
  {
    if |idx| == 0 then 0
    else if idx[0] == i then vals[0]
    else Lookup(idx[1..], vals[1..], i)
  }

  /** The (leading, secondary) coordinates of the position (x, y). */
  function LeadCoord(lead: int, x: int, y: int): int { if lead == 0 then x else y }
  function SecondaryCoord(lead: int, x: int, y: int): int { if lead == 0 then y else x }

  /** The value `s` holds at column x, row y when read with the given leading dimension. */
  function ValueAtLead(s: SparseArray, lead: int, x: int, y: int): int
    requires Wellformed(s, lead) && 0 <= x < s.numCols && 0 <= y < s.numRows
  {
    var j := SecondaryCoord(lead, x, y);
    Lookup(SliceIndices(s, lead, j), SliceData(s, lead, j), LeadCoord(lead, x, y))
  }

  /** The value `s` holds at column x, row y, read as its own class reads it. */
  function ValueAt(s: SparseArray, x: int, y: int): int
    requires Wellformed(s, LeadingDim(s.layout)) && 0 <= x < s.numCols && 0 <= y < s.numRows
  {
    ValueAtLead(s, LeadingDim(s.layout), x, y)
  }

  lemma {:induction false} LookupAt(idx: seq<int>, vals: seq<int>, k: int, i: int)
    requires |idx| == |vals| && Ascending(idx) && 0 <= k < |idx| && idx[k] == i
    ensures Lookup(idx, vals, i) == vals[k]
    decreases k
  {
    if k > 0 {
      assert idx[0] < idx[k];
      assert Ascending(idx[1..]) by {
        forall a, b | 0 <= a < b < |idx[1..]| ensures idx[1..][a] < idx[1..][b] {
          assert idx[1..][a] == idx[a + 1] && idx[1..][b] == idx[b + 1];
        }
      }
      LookupAt(idx[1..], vals[1..], k - 1, i);
    }
  }

  lemma {:induction false} LookupAbsent(idx: seq<int>, vals: seq<int>, i: int)
    requires |idx| == |vals| && forall a :: 0 <= a < |idx| ==> idx[a] != i
    ensures Lookup(idx, vals, i) == 0
    decreases |idx|
  {
    if |idx| > 0 {
      assert idx[0] != i;
      LookupAbsent(idx[1..], vals[1..], i);
    }
  }

  lemma {:induction false} LookupAppend(idx1: seq<int>, vals1: seq<int>, idx2: seq<int>, vals2: seq<int>, i: int)
    requires |idx1| == |vals1| && |idx2| == |vals2|
    ensures i in idx1 ==> Lookup(idx1 + idx2, vals1 + vals2, i) == Lookup(idx1, vals1, i)
    ensures i !in idx1 ==> Lookup(idx1 + idx2, vals1 + vals2, i) == Lookup(idx2, vals2, i)
    decreases |idx1|
  {
    if |idx1| > 0 {
      assert (idx1 + idx2)[1..] == idx1[1..] + idx2;
      assert (vals1 + vals2)[1..] == vals1[1..] + vals2;
      LookupAppend(idx1[1..], vals1[1..], idx2, vals2, i);
      if idx1[0] != i {
        assert i in idx1 ==> i in idx1[1..];
      }
    } else {
      assert idx1 + idx2 == idx2 && vals1 + vals2 == vals2;
    }
  }

  // ---------------------------------------------------------------------------
  // Dense input and its compression
  // ---------------------------------------------------------------------------

  /** A dense 2-D image with min 0; cells[y][x] is the value at column x, row y. */
  datatype Grid = Grid(cols: int, rows: int, cells: seq<seq<int>>)
  {
    /** ImgLib2 intervals have positive dimensions; convertToSparse reads position (0, 0). */
    predicate Shaped() {
      cols >= 1 && rows >= 1 && |cells| == rows && forall y :: 0 <= y < rows ==> |cells[y]| == cols
    }

    function Dimension(d: int): int { if d == 0 then cols else rows }

    function At(x: int, y: int): int
      requires Shaped() && 0 <= x < cols && 0 <= y < rows
    {
      cells[y][x]
    }

    /** The value at leading coordinate i and secondary coordinate j. */
    function AtLead(lead: int, i: int, j: int): int
      requires Shaped() && (lead == 0 || lead == 1)
      requires 0 <= i < Dimension(lead) && 0 <= j < Dimension(1 - lead)
    {
      if lead == 0 then At(i, j) else At(j, i)
    }
  }

  /** A stored entry: its value and its leading coordinate. */
  datatype Entry = Entry(value: int, index: int)

  function Values(es: seq<Entry>): (r: seq<int>)
    ensures |r| == |es| && forall k {:trigger r[k]} :: 0 <= k < |es| ==> r[k] == es[k].value
  {
    seq(|es|, k requires 0 <= k < |es| => es[k].value)
  }

  function Indices(es: seq<Entry>): (r: seq<int>)
    ensures |r| == |es| && forall k {:trigger r[k]} :: 0 <= k < |es| ==> r[k] == es[k].index
  {
    seq(|es|, k requires 0 <= k < |es| => es[k].index)
  }

  /** The nonzero entries of slice j among leading coordinates 0 .. n-1, in ascending order. */
  function SliceEntries(g: Grid, lead: int, j: int, n: int): seq<Entry>
    requires g.Shaped() && (lead == 0 || lead == 1)
    requires 0 <= j < g.Dimension(1 - lead) && 0 <= n <= g.Dimension(lead)
    decreases n
  {
    if n == 0 then []
    else
      var v := g.AtLead(lead, n - 1, j);
      SliceEntries(g, lead, j, n - 1) + (if v != 0 then [Entry(v, n - 1)] else [])
  }

  /** The nonzero entries of slices 0 .. m-1, slice after slice. */
  function PrefixEntries(g: Grid, lead: int, m: int): seq<Entry>
    requires g.Shaped() && (lead == 0 || lead == 1) && 0 <= m <= g.Dimension(1 - lead)
    decreases m
  {
    if m == 0 then []
    else PrefixEntries(g, lead, m - 1) + SliceEntries(g, lead, m - 1, g.Dimension(lead))
  }

  /** The number of stored entries before slice j: what indptr[j] holds after conversion. */
  function PrefixCounts(g: Grid, lead: int): (r: seq<int>)
    requires g.Shaped() && (lead == 0 || lead == 1)
    ensures |r| == g.Dimension(1 - lead) + 1
    ensures forall j {:trigger r[j]} :: 0 <= j < |r| ==> r[j] == |PrefixEntries(g, lead, j)|
  {
    seq(g.Dimension(1 - lead) + 1, j requires 0 <= j <= g.Dimension(1 - lead) => |PrefixEntries(g, lead, j)|)
  }

  /** The sparse matrix convertToSparse builds from `g` with the given leading dimension. */
  function Compress(g: Grid, lead: int): SparseArray
    requires g.Shaped() && (lead == 0 || lead == 1)
  {
    var es := PrefixEntries(g, lead, g.Dimension(1 - lead));
    SparseArray(LayoutFor(lead), g.cols, g.rows, Values(es), Indices(es), PrefixCounts(g, lead))
  }

  // ---------------------------------------------------------------------------
  // Counting nonzeros
  // ---------------------------------------------------------------------------

  function Indicator(v: int): nat { if v != 0 then 1 else 0 }

  /** Nonzeros in row y among columns 0 .. n-1. */
  function RowCount(g: Grid, y: int, n: int): nat
    requires g.Shaped() && 0 <= y < g.rows && 0 <= n <= g.cols
  {
    if n == 0 then 0 else RowCount(g, y, n - 1) + Indicator(g.At(n - 1, y))
  }

  /** Nonzeros in column x among rows 0 .. m-1. */
  function ColCount(g: Grid, x: int, m: int): nat
    requires g.Shaped() && 0 <= x < g.cols && 0 <= m <= g.rows
  {
    if m == 0 then 0 else ColCount(g, x, m - 1) + Indicator(g.At(x, m - 1))
  }

  /** Nonzeros in rows 0 .. m-1 among columns 0 .. n-1, counted row by row. */
  function RowMajorCount(g: Grid, n: int, m: int): nat
    requires g.Shaped() && 0 <= n <= g.cols && 0 <= m <= g.rows
  {
    if m == 0 then 0 else RowMajorCount(g, n, m - 1) + RowCount(g, m - 1, n)
  }

  /** The same region counted column by column. */
  function ColMajorCount(g: Grid, n: int, m: int): nat
    requires g.Shaped() && 0 <= n <= g.cols && 0 <= m <= g.rows
  {
    if n == 0 then 0 else ColMajorCount(g, n - 1, m) + ColCount(g, n - 1, m)
  }

  /** The number of entries of `g` that differ from zero. */
  function NonzeroCount(g: Grid): nat
    requires g.Shaped()
  {
    RowMajorCount(g, g.cols, g.rows)
  }

  lemma {:induction false} ColMajorStep(g: Grid, n: int, m: int)
    requires g.Shaped() && 0 <= n <= g.cols && 0 <= m < g.rows
    ensures ColMajorCount(g, n, m + 1) == ColMajorCount(g, n, m) + RowCount(g, m, n)
    decreases n
  {
    if n > 0 {
      ColMajorStep(g, n - 1, m);
    }
  }

  /** Counting row by row and column by column give the same number. */
  lemma {:induction false} CountExchange(g: Grid, n: int, m: int)
    requires g.Shaped() && 0 <= n <= g.cols && 0 <= m <= g.rows
    ensures RowMajorCount(g, n, m) == ColMajorCount(g, n, m)
    decreases m
  {
    if m == 0 {
      ColMajorZero(g, n);
    } else {
      CountExchange(g, n, m - 1);
      ColMajorStep(g, n, m - 1);
    }
  }

  lemma {:induction false} ColMajorZero(g: Grid, n: int)
    requires g.Shaped() && 0 <= n <= g.cols
    ensures ColMajorCount(g, n, 0) == 0
    decreases n
  {
    if n > 0 {
      ColMajorZero(g, n - 1);
    }
  }

  lemma {:induction false} SliceEntriesCount(g: Grid, lead: int, j: int, n: int)
    requires g.Shaped() && (lead == 0 || lead == 1)
    requires 0 <= j < g.Dimension(1 - lead) && 0 <= n <= g.Dimension(lead)
    ensures |SliceEntries(g, lead, j, n)| == if lead == 0 then RowCount(g, j, n) else ColCount(g, j, n)
    decreases n
  {
    if n > 0 {
      SliceEntriesCount(g, lead, j, n - 1);
    }
  }

  lemma {:induction false} PrefixEntriesCount(g: Grid, lead: int, m: int)
    requires g.Shaped() && (lead == 0 || lead == 1) && 0 <= m <= g.Dimension(1 - lead)
    ensures |PrefixEntries(g, lead, m)| ==
      if lead == 0 then RowMajorCount(g, g.cols, m) else ColMajorCount(g, m, g.rows)
    decreases m
  {
    if m > 0 {
      PrefixEntriesCount(g, lead, m - 1);
      SliceEntriesCount(g, lead, m - 1, g.Dimension(lead));
    }
  }

  /** Whatever the leading dimension, conversion stores exactly the nonzeros of `g`. */
  lemma {:induction false} EntryCountIsNonzeroCount(g: Grid, lead: int)
    requires g.Shaped() && (lead == 0 || lead == 1)
    ensures |PrefixEntries(g, lead, g.Dimension(1 - lead))| == NonzeroCount(g)
  {
    PrefixEntriesCount(g, lead, g.Dimension(1 - lead));
    CountExchange(g, g.cols, g.rows);
  }

  /**
   * getNumberOfNonzeros: one pass over the image in its flat order (x fastest),
   * counting the entries that differ from zero.
   */
  method GetNumberOfNonzeros(g: Grid) returns (nnz: int)
    requires g.Shaped()
    ensures nnz == NonzeroCount(g)
  {
    nnz := 0;
    for y := 0 to g.rows
      invariant nnz == RowMajorCount(g, g.cols, y)
    {
      for x := 0 to g.cols
        invariant nnz == RowMajorCount(g, g.cols, y) + RowCount(g, y, x)
      {
        if g.cells[y][x] != 0 {
          nnz := nnz + 1;
        }
      }
    }
  }

  // ---------------------------------------------------------------------------
  // Properties of the compressed entries
  // ---------------------------------------------------------------------------

  lemma {:induction false} SliceEntriesMonotone(g: Grid, lead: int, j: int, i: int, n: int)
    requires g.Shaped() && (lead == 0 || lead == 1)
    requires 0 <= j < g.Dimension(1 - lead) && 0 <= i <= n <= g.Dimension(lead)
    ensures |SliceEntries(g, lead, j, i)| <= |SliceEntries(g, lead, j, n)|
    decreases n - i
  {
    if i < n {
      SliceEntriesMonotone(g, lead, j, i, n - 1);
    }
  }

  /** Slices 0 .. m1-1 are an initial segment of slices 0 .. m2-1. */
  lemma {:induction false} PrefixEntriesGrow(g: Grid, lead: int, m1: int, m2: int)
    requires g.Shaped() && (lead == 0 || lead == 1) && 0 <= m1 <= m2 <= g.Dimension(1 - lead)
    ensures |PrefixEntries(g, lead, m1)| <= |PrefixEntries(g, lead, m2)|
    ensures PrefixEntries(g, lead, m2)[..|PrefixEntries(g, lead, m1)|] == PrefixEntries(g, lead, m1)
    decreases m2 - m1
  {
    if m1 < m2 {
      PrefixEntriesGrow(g, lead, m1, m2 - 1);
      var p1, p := PrefixEntries(g, lead, m1), PrefixEntries(g, lead, m2 - 1);
      assert PrefixEntries(g, lead, m2) == p + SliceEntries(g, lead, m2 - 1, g.Dimension(lead));
      assert PrefixEntries(g, lead, m2)[..|p1|] == p[..|p1|];
    }
  }

  /** While slice j is being filled, the entries written so far fit in the total. */
  lemma {:induction false} EntriesBound(g: Grid, lead: int, j: int, i: int)
    requires g.Shaped() && (lead == 0 || lead == 1)
    requires 0 <= j < g.Dimension(1 - lead) && 0 <= i <= g.Dimension(lead)
    ensures |PrefixEntries(g, lead, j)| + |SliceEntries(g, lead, j, i)|
         <= |PrefixEntries(g, lead, g.Dimension(1 - lead))|
  {
    SliceEntriesMonotone(g, lead, j, i, g.Dimension(lead));
    PrefixEntriesGrow(g, lead, j + 1, g.Dimension(1 - lead));
    PrefixStep(g, lead, j);
  }

  lemma {:induction false} SliceStep(g: Grid, lead: int, j: int, i: int)
    requires g.Shaped() && (lead == 0 || lead == 1)
    requires 0 <= j < g.Dimension(1 - lead) && 0 <= i < g.Dimension(lead)
    ensures SliceEntries(g, lead, j, i + 1) ==
      SliceEntries(g, lead, j, i) + if g.AtLead(lead, i, j) != 0 then [Entry(g.AtLead(lead, i, j), i)] else []
  {
  }

  lemma {:induction false} PrefixStep(g: Grid, lead: int, j: int)
    requires g.Shaped() && (lead == 0 || lead == 1) && 0 <= j < g.Dimension(1 - lead)
    ensures PrefixEntries(g, lead, j + 1) == PrefixEntries(g, lead, j) + SliceEntries(g, lead, j, g.Dimension(lead))
  {
  }

  /** Slice entries hold nonzero values, ascending coordinates below n, and the value of `g` there. */
  lemma {:induction false} SliceEntriesFacts(g: Grid, lead: int, j: int, n: int)
    requires g.Shaped() && (lead == 0 || lead == 1)
    requires 0 <= j < g.Dimension(1 - lead) && 0 <= n <= g.Dimension(lead)
    ensures Ascending(Indices(SliceEntries(g, lead, j, n)))
    ensures AllBelow(Indices(SliceEntries(g, lead, j, n)), n)
    ensures forall k :: 0 <= k < |SliceEntries(g, lead, j, n)| ==>
      var e := SliceEntries(g, lead, j, n)[k];
      0 <= e.index < n && e.value == g.AtLead(lead, e.index, j) && e.value != 0
    decreases n
  {
    if n > 0 {
      SliceEntriesFacts(g, lead, j, n - 1);
      var es := SliceEntries(g, lead, j, n - 1);
      var es' := SliceEntries(g, lead, j, n);
      assert forall k :: 0 <= k < |es| ==> es'[k] == es[k];
      var idx := Indices(es');
      forall a, b | 0 <= a < b < |idx| ensures idx[a] < idx[b] {
        if b == |es| {
          assert idx[a] == es[a].index < n - 1;
        } else {
          assert Indices(es)[a] == idx[a] && Indices(es)[b] == idx[b];
        }
      }
    }
  }

  /** Reading slice j of the compressed entries at coordinate i gives the dense value. */
  lemma {:induction false} SliceEntriesLookup(g: Grid, lead: int, j: int, n: int, i: int)
    requires g.Shaped() && (lead == 0 || lead == 1)
    requires 0 <= j < g.Dimension(1 - lead) && 0 <= n <= g.Dimension(lead) && 0 <= i < g.Dimension(lead)
    ensures Lookup(Indices(SliceEntries(g, lead, j, n)), Values(SliceEntries(g, lead, j, n)), i) ==
      if i < n then g.AtLead(lead, i, j) else 0
    decreases n
  {
    var es := SliceEntries(g, lead, j, n);
    if n == 0 {
    } else {
      var prev := SliceEntries(g, lead, j, n - 1);
      var v := g.AtLead(lead, n - 1, j);
      var tail := if v != 0 then [Entry(v, n - 1)] else [];
      assert es == prev + tail;
      assert Indices(es) == Indices(prev) + Indices(tail);
      assert Values(es) == Values(prev) + Values(tail);
      SliceEntriesLookup(g, lead, j, n - 1, i);
      SliceEntriesFacts(g, lead, j, n - 1);
      LookupAppend(Indices(prev), Values(prev), Indices(tail), Values(tail), i);
      if i < n - 1 {
        if i !in Indices(prev) {
          // then the dense value there is zero and the lookup in the tail misses
          assert i != n - 1;
          assert Lookup(Indices(prev), Values(prev), i) == 0 by {
            LookupAbsent(Indices(prev), Values(prev), i);
          }
        }
      } else {
        assert i !in Indices(prev);
        if i == n - 1 {
          if v != 0 {
            assert Lookup(Indices(tail), Values(tail), i) == v;
          }
        } else {
          LookupAbsent(Indices(tail), Values(tail), i);
        }
      }
    }
  }

  /** Slice j of the compressed matrix holds exactly the entries of slice j. */
  lemma {:induction false} CompressSlice(g: Grid, lead: int, j: int)
    requires g.Shaped() && (lead == 0 || lead == 1) && 0 <= j < g.Dimension(1 - lead)
    ensures Wellformed(Compress(g, lead), lead)
    ensures SliceIndices(Compress(g, lead), lead, j) == Indices(SliceEntries(g, lead, j, g.Dimension(lead)))
    ensures SliceData(Compress(g, lead), lead, j) == Values(SliceEntries(g, lead, j, g.Dimension(lead)))
  {
    CompressWellformed(g, lead);
    var s := Compress(g, lead);
    var es := PrefixEntries(g, lead, g.Dimension(1 - lead));
    var pj := PrefixEntries(g, lead, j);
    var slice := SliceEntries(g, lead, j, g.Dimension(lead));
    PrefixEntriesGrow(g, lead, j + 1, g.Dimension(1 - lead));
    PrefixStep(g, lead, j);
    SegmentOf(pj, slice, es);
    StoredSegment(s, lead, j, es, slice);
  }

  /** A slice whose indptr bounds delimit segment `slice` of the stored entries holds exactly that segment. */
  lemma {:induction false} StoredSegment(s: SparseArray, lead: int, j: int, es: seq<Entry>, slice: seq<Entry>)
    requires Wellformed(s, lead) && 0 <= j < |s.indptr| - 1
    requires s.indices == Indices(es) && s.data == Values(es)
    requires s.indptr[j] + |slice| == s.indptr[j + 1] && es[s.indptr[j]..s.indptr[j + 1]] == slice
    ensures SliceIndices(s, lead, j) == Indices(slice)
    ensures SliceData(s, lead, j) == Values(slice)
  {
    SegmentMaps(es, s.indptr[j], s.indptr[j + 1]);
  }

  /** If p + q starts r, then q is the segment of r right after p. */
  lemma {:induction false} SegmentOf(p: seq<Entry>, q: seq<Entry>, r: seq<Entry>)
    requires |p| + |q| <= |r| && r[..|p| + |q|] == p + q
    ensures r[|p|..|p| + |q|] == q
  {
    forall k | 0 <= k < |q| ensures r[|p|..|p| + |q|][k] == q[k] {
      assert r[..|p| + |q|][|p| + k] == (p + q)[|p| + k];
    }
  }

  /** Values and Indices commute with taking a segment. */
  lemma {:induction false} SegmentMaps(es: seq<Entry>, a: int, b: int)
    requires 0 <= a <= b <= |es|
    ensures Indices(es)[a..b] == Indices(es[a..b])
    ensures Values(es)[a..b] == Values(es[a..b])
  {
  }

  lemma {:induction false} CompressWellformed(g: Grid, lead: int)
    requires g.Shaped() && (lead == 0 || lead == 1)
    ensures Wellformed(Compress(g, lead), lead)
  {
    var s := Compress(g, lead);
    var S := g.Dimension(1 - lead);
    assert s.Dimension(1 - lead) == S;
    forall j | 0 <= j < |s.indptr| ensures 0 <= s.indptr[j] <= |s.indices| {
      PrefixEntriesGrow(g, lead, j, S);
    }
    forall j, k | 0 <= j <= k < |s.indptr| ensures s.indptr[j] <= s.indptr[k] {
      PrefixEntriesGrow(g, lead, j, k);
    }
  }

  /**
   * The output of convertToSparse is canonical: indptr has one entry per slice plus
   * one, starts at 0, never decreases and ends at the number of nonzeros, which is
   * also the length of data and indices; within each slice the coordinates ascend.
   */
  lemma {:induction false} CompressCanonical(g: Grid, lead: int)
    requires g.Shaped() && (lead == 0 || lead == 1)
    ensures Canonical(Compress(g, lead), lead)
    ensures |Compress(g, lead).data| == |Compress(g, lead).indices| == NonzeroCount(g)
    ensures |Compress(g, lead).indptr| == g.Dimension(1 - lead) + 1
  {
    CompressWellformed(g, lead);
    EntryCountIsNonzeroCount(g, lead);
    var s := Compress(g, lead);
    forall j | 0 <= j < |s.indptr| - 1
      ensures Ascending(SliceIndices(s, lead, j)) && AllBelow(SliceIndices(s, lead, j), s.Dimension(lead))
    {
      CompressSlice(g, lead, j);
      SliceEntriesFacts(g, lead, j, g.Dimension(lead));
    }
  }

  /** Every stored value is nonzero: conversion records exactly the nonzero entries. */
  lemma {:induction false} CompressStoresNonzeros(g: Grid, lead: int)
    requires g.Shaped() && (lead == 0 || lead == 1)
    ensures forall k :: 0 <= k < |Compress(g, lead).data| ==> Compress(g, lead).data[k] != 0
  {
    var S := g.Dimension(1 - lead);
    var s := Compress(g, lead);
    forall k | 0 <= k < |s.data| ensures s.data[k] != 0 {
      NonzeroUpTo(g, lead, S, k);
    }
  }

  lemma {:induction false} NonzeroUpTo(g: Grid, lead: int, m: int, k: int)
    requires g.Shaped() && (lead == 0 || lead == 1) && 0 <= m <= g.Dimension(1 - lead)
    requires 0 <= k < |PrefixEntries(g, lead, m)|
    ensures PrefixEntries(g, lead, m)[k].value != 0
    decreases m
  {
    var prev := PrefixEntries(g, lead, m - 1);
    var slice := SliceEntries(g, lead, m - 1, g.Dimension(lead));
    assert PrefixEntries(g, lead, m) == prev + slice;
    if k < |prev| {
      NonzeroUpTo(g, lead, m - 1, k);
    } else {
      SliceEntriesFacts(g, lead, m - 1, g.Dimension(lead));
      assert PrefixEntries(g, lead, m)[k] == slice[k - |prev|];
    }
  }

  /** Reading the converted matrix back gives the dense input, entry for entry. */
  lemma {:induction false} ReadBack(g: Grid, lead: int, x: int, y: int)
    requires g.Shaped() && (lead == 0 || lead == 1) && 0 <= x < g.cols && 0 <= y < g.rows
    ensures Wellformed(Compress(g, lead), lead)
    ensures ValueAtLead(Compress(g, lead), lead, x, y) == g.At(x, y)
  {
    var j := SecondaryCoord(lead, x, y);
    var i := LeadCoord(lead, x, y);
    CompressSlice(g, lead, j);
    SliceEntriesLookup(g, lead, j, g.Dimension(lead), i);
  }

  /**
   * The inner loop of convertToSparse: walk slice j along the leading dimension and
   * append each nonzero after the `count` entries already written.
   */
  method AppendSlice(g: Grid, lead: int, j: int, data: array<int>, indices: array<int>, count: int,
                     ghost before: seq<Entry>) returns (next: int)
    requires g.Shaped() && (lead == 0 || lead == 1) && 0 <= j < g.Dimension(1 - lead)
    requires data != indices && data.Length == indices.Length
    requires count == |before| && count + |SliceEntries(g, lead, j, g.Dimension(lead))| <= data.Length
    requires data[..count] == Values(before) && indices[..count] == Indices(before)
    modifies data, indices
    ensures next == count + |SliceEntries(g, lead, j, g.Dimension(lead))|
    ensures data[..next] == Values(before + SliceEntries(g, lead, j, g.Dimension(lead)))
    ensures indices[..next] == Indices(before + SliceEntries(g, lead, j, g.Dimension(lead)))
  {
    next := count;
    ghost var es := before;
    for i := 0 to g.Dimension(lead)
      invariant es == before + SliceEntries(g, lead, j, i) && next == |es| && next <= data.Length
      invariant data[..next] == Values(es) && indices[..next] == Indices(es)
    {
      var actualValue := g.AtLead(lead, i, j);
      SliceStep(g, lead, j, i);
      if actualValue != 0 {
        SliceEntriesMonotone(g, lead, j, i + 1, g.Dimension(lead));
        PutEntry(data, indices, next, Entry(actualValue, i), es);
        next := next + 1;
        es := es + [Entry(actualValue, i)];
      }
    }
  }

  /** Write one nonzero at position `next` of data and indices, after the entries `es` already there. */
  method PutEntry(data: array<int>, indices: array<int>, next: int, e: Entry, ghost es: seq<Entry>)
    requires data != indices && 0 <= next < data.Length && next < indices.Length
    requires data[..next] == Values(es) && indices[..next] == Indices(es)
    modifies data, indices
    ensures data[..next + 1] == Values(es + [e]) && indices[..next + 1] == Indices(es + [e])
  {
    data[next] := e.value;
    indices[next] := e.index;
    assert data[..next + 1] == data[..next] + [e.value];
    assert indices[..next + 1] == indices[..next] + [e.index];
    assert Values(es + [e]) == Values(es) + [e.value];
    assert Indices(es + [e]) == Indices(es) + [e.index];
  }

  /** One round of the outer loop of convertToSparse: append the nonzeros of slice j and close it in indptr. */
  method CloseSlice(g: Grid, lead: int, j: int, data: array<int>, indices: array<int>, indptr: array<int>,
                    count: int) returns (next: int)
    requires g.Shaped() && (lead == 0 || lead == 1) && 0 <= j < g.Dimension(1 - lead)
    requires data != indices && indptr != data && indptr != indices
    requires data.Length == indices.Length == |PrefixEntries(g, lead, g.Dimension(1 - lead))|
    requires indptr.Length == g.Dimension(1 - lead) + 1
    requires count == |PrefixEntries(g, lead, j)| <= data.Length
    requires data[..count] == Values(PrefixEntries(g, lead, j))
    requires indices[..count] == Indices(PrefixEntries(g, lead, j))
    requires indptr[..j + 1] == PrefixCounts(g, lead)[..j + 1]
    modifies data, indices, indptr
    ensures next == |PrefixEntries(g, lead, j + 1)| <= data.Length
    ensures data[..next] == Values(PrefixEntries(g, lead, j + 1))
    ensures indices[..next] == Indices(PrefixEntries(g, lead, j + 1))
    ensures indptr[..j + 2] == PrefixCounts(g, lead)[..j + 2]
  {
    ghost var es := PrefixEntries(g, lead, j);
    PrefixStep(g, lead, j);
    EntriesBound(g, lead, j, g.Dimension(lead));
    next := AppendSlice(g, lead, j, data, indices, count, es);
    indptr[j + 1] := next;
    assert indptr[..j + 2] == indptr[..j + 1] + [next];
  }

  /**
   * The outer loop of convertToSparse: walk the slices, append the nonzeros of each
   * and close it in indptr with the running count.
   */
  method FillSlices(g: Grid, lead: int, data: array<int>, indices: array<int>, indptr: array<int>)
    requires g.Shaped() && (lead == 0 || lead == 1)
    requires data != indices && indptr != data && indptr != indices
    requires data.Length == indices.Length == NonzeroCount(g)
    requires indptr.Length == g.Dimension(1 - lead) + 1 && indptr[0] == 0
    modifies data, indices, indptr
    ensures data[..] == Values(PrefixEntries(g, lead, g.Dimension(1 - lead)))
    ensures indices[..] == Indices(PrefixEntries(g, lead, g.Dimension(1 - lead)))
    ensures indptr[..] == PrefixCounts(g, lead)
  {
    var slices := g.Dimension(1 - lead);
    EntryCountIsNonzeroCount(g, lead);
    var count := 0;
    for j := 0 to slices
      invariant count == |PrefixEntries(g, lead, j)| <= data.Length
      invariant data[..count] == Values(PrefixEntries(g, lead, j))
      invariant indices[..count] == Indices(PrefixEntries(g, lead, j))
      invariant indptr[..j + 1] == PrefixCounts(g, lead)[..j + 1]
    {
      count := CloseSlice(g, lead, j, data, indices, indptr, count);
    }
    assert data[..] == data[..count];
    assert indices[..] == indices[..count];
    assert indptr[..] == indptr[..slices + 1];
  }

  /**
   * convertToSparse: count the nonzeros, allocate data and indices of that size and
   * an indptr of one entry per slice plus one, then fill them slice by slice.
   */
  method ConvertToSparse(g: Grid, lead: int) returns (r: Result<SparseArray, SparseError>)
    requires g.Shaped()
    ensures lead != 0 && lead != 1 ==> r == Err(BadLeadingDimension)
    ensures lead == 0 || lead == 1 ==> r == Ok(Compress(g, lead))
  {
    if lead != 0 && lead != 1 {
      return Err(BadLeadingDimension);
    }
    var nnz := GetNumberOfNonzeros(g);
    var data := new int[nnz];
    var indices := new int[nnz];
    var indptr := new int[g.Dimension(1 - lead) + 1];
    indptr[0] := 0;
    FillSlices(g, lead, data, indices, indptr);
    ConvertedIsCompress(g, lead, data[..], indices[..], indptr[..]);
    r := New(LayoutFor(lead), g.Dimension(0), g.Dimension(1), Img1(data[..]), Img1(indices[..]), Img1(indptr[..]));
  }

  /** The three arrays convertToSparse fills pass the constructor's checks and make up Compress(g, lead). */
  lemma {:induction false} ConvertedIsCompress(g: Grid, lead: int, data: seq<int>, indices: seq<int>, indptr: seq<int>)
    requires g.Shaped() && (lead == 0 || lead == 1)
    requires data == Values(PrefixEntries(g, lead, g.Dimension(1 - lead)))
    requires indices == Indices(PrefixEntries(g, lead, g.Dimension(1 - lead)))
    requires indptr == PrefixCounts(g, lead)
    ensures New(LayoutFor(lead), g.Dimension(0), g.Dimension(1), Img1(data), Img1(indices), Img1(indptr))
      == Ok(Compress(g, lead))
  {
    assert |indptr| == g.cols + 1 || |indptr| == g.rows + 1;
  }

  // ---------------------------------------------------------------------------
  // Size, as written and as intended
  // ---------------------------------------------------------------------------

  /** size() as written: the product of the two max coordinates. */
  function Size(s: SparseArray): (n: int)
    ensures n == (s.numCols - 1) * (s.numRows - 1)
    ensures s.numCols >= 1 && s.numRows >= 1 ==> n == s.numCols * s.numRows - (s.numCols + s.numRows - 1)
  {
    s.Max(0) * s.Max(1)
  }

  /** The number of positions of the matrix: the product of its two dimensions. */
  function CorrectedSize(s: SparseArray): (n: int)
    requires s.numCols >= 1 && s.numRows >= 1
    ensures n >= 1 && n == s.numCols * s.numRows
  {
    s.Dimension(0) * s.Dimension(1)
  }

  /** size() as written falls short of the number of positions by numCols + numRows - 1. */
  lemma {:induction false} SizeUndercounts(s: SparseArray)
    requires s.numCols >= 1 && s.numRows >= 1
    ensures CorrectedSize(s) - Size(s) == s.numCols + s.numRows - 1
    ensures Size(s) < CorrectedSize(s)
  {
    calc {
      CorrectedSize(s) - Size(s);
      s.numCols * s.numRows - (s.numCols - 1) * (s.numRows - 1);
      s.numCols + s.numRows - 1;
    }
  }

  // ---------------------------------------------------------------------------
  // Iteration space
  // ---------------------------------------------------------------------------

  /** An ImgLib2 interval: per-dimension min and max. */
  datatype Interval = Interval(min: seq<int>, max: seq<int>)
  {
    predicate Valid() { |min| == |max| }
    function Dimension(d: int): int requires Valid() && 0 <= d < |min| { max[d] - min[d] + 1 }
  }

  /** The interval a sparse matrix spans. */
  function IntervalOf(s: SparseArray): (iv: Interval)
    ensures iv.Valid() && |iv.min| == 2
    ensures iv.Dimension(0) == s.Dimension(0) && iv.Dimension(1) == s.Dimension(1)
  {
    Interval([s.Min(0), s.Min(1)], [s.Max(0), s.Max(1)])
  }

  /** The dimensions d < n of `iv` that are wider than one, in ascending order. */
  function NonSingletonDims(iv: Interval, n: int): seq<int>
    requires iv.Valid() && 0 <= n <= |iv.min|
  {
    if n == 0 then []
    else NonSingletonDims(iv, n - 1) + (if iv.Dimension(n - 1) > 1 then [n - 1] else [])
  }

  /** NonSingletonDims lists exactly the wide dimensions below n, strictly ascending. */
  lemma {:induction false} NonSingletonDimsFacts(iv: Interval, n: int)
    requires iv.Valid() && 0 <= n <= |iv.min|
    ensures forall d :: d in NonSingletonDims(iv, n) <==> 0 <= d < n && iv.Dimension(d) > 1
    ensures Ascending(NonSingletonDims(iv, n))
    decreases n
  {
    if n > 0 {
      NonSingletonDimsFacts(iv, n - 1);
      var prev := NonSingletonDims(iv, n - 1);
      var r := NonSingletonDims(iv, n);
      assert forall k :: 0 <= k < |prev| ==> r[k] == prev[k];
      forall a, b | 0 <= a < b < |r| ensures r[a] < r[b] {
        if b == |prev| {
          assert r[a] in prev;
        }
      }
    }
  }

  /** nonSingletonDimensions: a loop collecting the dimensions wider than one. */
  method NonSingletonDimensions(iv: Interval) returns (dims: seq<int>)
    requires iv.Valid()
    ensures dims == NonSingletonDims(iv, |iv.min|)
    ensures forall d :: d in dims <==> 0 <= d < |iv.min| && iv.Dimension(d) > 1
  {
    dims := [];
    for i := 0 to |iv.min|
      invariant dims == NonSingletonDims(iv, i)
    {
      if iv.max[i] - iv.min[i] + 1 > 1 {
        dims := dims + [i];
      }
    }
    NonSingletonDimsFacts(iv, |iv.min|);
  }

  /** Two intervals span the same iteration space: their wide dimensions pair up in order with equal bounds. */
  predicate SameIterationSpace(a: Interval, b: Interval)
    requires a.Valid() && b.Valid()
  {
    var da, db := NonSingletonDims(a, |a.min|), NonSingletonDims(b, |b.min|);
    |da| == |db| && forall i :: 0 <= i < |da| ==> SameBounds(a, da[i], b, db[i])
  }

  predicate SameBounds(a: Interval, dimA: int, b: Interval, dimB: int)
    requires a.Valid() && b.Valid()
  {
    0 <= dimA < |a.min| && 0 <= dimB < |b.min| && a.min[dimA] == b.min[dimB] && a.max[dimA] == b.max[dimB]
  }

  /** haveSameIterationSpace: compare the counts, then the bounds pair by pair, stopping at the first mismatch. */
  method HaveSameIterationSpace(a: Interval, b: Interval) returns (same: bool)
    requires a.Valid() && b.Valid()
    ensures same == SameIterationSpace(a, b)
  {
    var nonSingletonDimA := NonSingletonDimensions(a);
    var nonSingletonDimB := NonSingletonDimensions(b);
    if |nonSingletonDimA| != |nonSingletonDimB| {
      return false;
    }
    for i := 0 to |nonSingletonDimA|
      invariant forall k :: 0 <= k < i ==> SameBounds(a, nonSingletonDimA[k], b, nonSingletonDimB[k])
    {
      var dimA, dimB := nonSingletonDimA[i], nonSingletonDimB[i];
      assert dimA in nonSingletonDimA && dimB in nonSingletonDimB;
      if a.min[dimA] != b.min[dimB] || a.max[dimA] != b.max[dimB] {
        return false;
      }
    }
    return true;
  }

  /** Spanning the same iteration space is reflexive, symmetric and transitive. */
  lemma {:induction false} SameIterationSpaceIsEquivalence(a: Interval, b: Interval, c: Interval)
    requires a.Valid() && b.Valid() && c.Valid()
    ensures SameIterationSpace(a, a)
    ensures SameIterationSpace(a, b) ==> SameIterationSpace(b, a)
    ensures SameIterationSpace(a, b) && SameIterationSpace(b, c) ==> SameIterationSpace(a, c)
  {
    NonSingletonDimsFacts(a, |a.min|);
    NonSingletonDimsFacts(b, |b.min|);
    var da := NonSingletonDims(a, |a.min|);
    var db := NonSingletonDims(b, |b.min|);
    var dc := NonSingletonDims(c, |c.min|);
    forall i | 0 <= i < |da| ensures SameBounds(a, da[i], a, da[i]) {
      assert da[i] in da;
    }
    if SameIterationSpace(a, b) && SameIterationSpace(b, c) {
      forall i | 0 <= i < |da| ensures SameBounds(a, da[i], c, dc[i]) {
        assert SameBounds(a, da[i], b, db[i]) && SameBounds(b, db[i], c, dc[i]);
      }
    }
  }

  /** Matrices of equal dimensions span the same iteration space. */
  lemma {:induction false} EqualDimensionsSameSpace(s: SparseArray, t: SparseArray)
    requires s.numCols == t.numCols && s.numRows == t.numRows
    ensures SameIterationSpace(IntervalOf(s), IntervalOf(t))
  {
    assert IntervalOf(s) == IntervalOf(t);
    SameIterationSpaceIsEquivalence(IntervalOf(s), IntervalOf(t), IntervalOf(t));
  }
}
