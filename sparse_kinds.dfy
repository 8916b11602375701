/**
 * The three concrete sparse matrix classes (CsrMatrix.java, CscMatrix.java,
 * CsrArray.java): which leading dimension their accessors use, how they copy
 * themselves, which factory they hand out and how their iteration orders compare.
 */
module SparseKinds {
  import opened Wrappers
  import opened SparseArrays
  import opened SparseRandomAccesses
  import opened SparseCursors
  import opened SparseFactories

  /** randomAccess(): CSR matrices and CSR arrays search along columns (dimension 0), CSC matrices along rows. */
  method RandomAccess(s: SparseArray) returns (ra: SparseRandomAccess)
    ensures fresh(ra) && fresh(ra.position) && ra.Valid()
    ensures ra.sparse == s && ra.leadingDim == LeadingDim(s.layout) && ra.position[..] == [0, 0]
  {
    ra := new SparseRandomAccess(s, LeadingDim(s.layout));
  }

  /** localizingCursor(): a cursor with the leading dimension of the class, before its first step. */
  method LocalizingCursor(s: SparseArray) returns (c: SparseLocalizingCursor)
    ensures fresh(c) && fresh(c.position) && c.Shape()
    ensures c.img == s && c.leadingDim == LeadingDim(s.layout) && c.AtStart() && !c.isInitialized
    ensures Canonical(s, LeadingDim(s.layout)) && |s.data| >= 1 ==> c.Valid()
  {
    c := new SparseLocalizingCursor(s, LeadingDim(s.layout));
  }

  /**
   * copy(): copy the three arrays and construct a matrix of the same class and the
   * same dimensions from them.
   */
  function Copy(s: SparseArray): (r: Result<SparseArray, SparseError>)
    ensures r.Ok? <==> Constructible(s)
    ensures r.Ok? ==> r.value == s
  {
    New(s.layout, s.Dimension(0), s.Dimension(1), Img1(s.data), Img1(s.indices), Img1(s.indptr))
  }

  /** Every matrix the accessors can read is one the constructor accepts, so copying it succeeds. */
  lemma {:induction false} CopyOfReadable(s: SparseArray)
    requires Wellformed(s, LeadingDim(s.layout))
    ensures Copy(s) == Ok(s)
  {
  }

  /**
   * factory(): a factory with the first stored value and index as type examples and
   * the leading dimension of the class.
   */
  function FactoryOf(s: SparseArray, valueType: PixelType, indexType: PixelType): (f: SparseArrayFactory)
    ensures f.Valid() && f.valueType == valueType && f.indexType == indexType
    ensures f.leadingDimension == 1 <==> s.layout == CscMatrix
  {
    SparseArrayFactory(valueType, indexType, LeadingDim(s.layout))
  }

  /**
   * The factory of a matrix creates matrices with its dimensions and leading
   * dimension; a CSR array's factory creates CSR matrices, not CSR arrays.
   */
  lemma {:induction false} FactoryCreatesSameShape(s: SparseArray, valueType: PixelType, indexType: PixelType)
    requires s.numCols >= 1 && s.numRows >= 1
    ensures var r := Create(FactoryOf(s, valueType, indexType), [s.numCols, s.numRows]);
      && r.Ok?
      && r.value.numCols == s.numCols && r.value.numRows == s.numRows
      && LeadingDim(r.value.layout) == LeadingDim(s.layout)
      && (s.layout == CsrArray ==> r.value.layout == CsrMatrix)
      && (s.layout != CsrArray ==> r.value.layout == s.layout)
  {
  }

  /** The dense image a sparse matrix represents. */
  function Densify(s: SparseArray): (g: Grid)
    requires Wellformed(s, LeadingDim(s.layout))
    ensures g.Shaped() && g.cols == s.numCols && g.rows == s.numRows
    ensures forall x, y :: 0 <= x < g.cols && 0 <= y < g.rows ==> g.At(x, y) == ValueAt(s, x, y)
  {
    Grid(s.numCols, s.numRows,
      seq(s.numRows, y requires 0 <= y < s.numRows =>
        seq(s.numCols, x requires 0 <= x < s.numCols => ValueAt(s, x, y))))
  }

  /** CsrMatrix.from: convertToSparse with leading dimension 0. */
  method CsrFrom(g: Grid) returns (s: SparseArray)
    requires g.Shaped()
    ensures s == Compress(g, 0) && s.layout == CsrMatrix
    ensures Canonical(s, 0)
    ensures forall x, y :: 0 <= x < g.cols && 0 <= y < g.rows ==> ValueAt(s, x, y) == g.At(x, y)
  {
    var r := ConvertToSparse(g, 0);
    s := r.value;
    CompressCanonical(g, 0);
    forall x, y | 0 <= x < g.cols && 0 <= y < g.rows ensures ValueAt(s, x, y) == g.At(x, y) {
      ReadBack(g, 0, x, y);
    }
  }

  /** CscMatrix.from: convertToSparse with leading dimension 1. */
  method CscFrom(g: Grid) returns (s: SparseArray)
    requires g.Shaped()
    ensures s == Compress(g, 1) && s.layout == CscMatrix
    ensures Canonical(s, 1)
    ensures forall x, y :: 0 <= x < g.cols && 0 <= y < g.rows ==> ValueAt(s, x, y) == g.At(x, y)
  {
    var r := ConvertToSparse(g, 1);
    s := r.value;
    CompressCanonical(g, 1);
    forall x, y | 0 <= x < g.cols && 0 <= y < g.rows ensures ValueAt(s, x, y) == g.At(x, y) {
      ReadBack(g, 1, x, y);
    }
  }

  /**
   * Converting a sparse matrix to either layout keeps every value: the new matrix
   * reads, with its own leading dimension, what the old one reads with its own.
   */
  lemma {:induction false} ConversionPreservesValues(s: SparseArray, lead: int, x: int, y: int)
    requires Wellformed(s, LeadingDim(s.layout)) && (lead == 0 || lead == 1)
    requires 0 <= x < s.numCols && 0 <= y < s.numRows
    ensures Compress(Densify(s), lead).layout == LayoutFor(lead)
    ensures Canonical(Compress(Densify(s), lead), lead)
    ensures ValueAtLead(Compress(Densify(s), lead), lead, x, y) == ValueAt(s, x, y)
  {
    CompressCanonical(Densify(s), lead);
    ReadBack(Densify(s), lead, x, y);
  }

  /** The same three arrays read as a CSC matrix with swapped dimensions. */
  function AsTransposedCsc(s: SparseArray): (t: SparseArray)
    ensures t.layout == CscMatrix && t.numCols == s.numRows && t.numRows == s.numCols
    ensures t.data == s.data && t.indices == s.indices && t.indptr == s.indptr
  {
    SparseArray(CscMatrix, s.numRows, s.numCols, s.data, s.indices, s.indptr)
  }

  /** A CSC matrix over the arrays of a CSR matrix, with swapped dimensions, is its transpose. */
  lemma {:induction false} CscIsCsrTransposed(s: SparseArray, x: int, y: int)
    requires s.layout == CsrMatrix && Wellformed(s, 0)
    requires 0 <= x < s.numCols && 0 <= y < s.numRows
    ensures Wellformed(AsTransposedCsc(s), 1)
    ensures Canonical(s, 0) <==> Canonical(AsTransposedCsc(s), 1)
    ensures ValueAt(AsTransposedCsc(s), y, x) == ValueAt(s, x, y)
  {
    var t := AsTransposedCsc(s);
    assert forall j :: 0 <= j < |s.indptr| - 1 ==> SliceIndices(t, 1, j) == SliceIndices(s, 0, j);
  }

  // ---------------------------------------------------------------------------
  // Iteration orders
  // ---------------------------------------------------------------------------

  /**
   * iterationOrder(): CSR matrices and CSR arrays each have their own row-major
   * order class, CSC matrices a column-major one; each holds the matrix's interval.
   */
  datatype IterationOrder =
    | CsrMatrixRowMajor(interval: Interval)
    | CsrArrayRowMajor(interval: Interval)
    | CscMatrixColumnMajor(interval: Interval)

  function IterationOrderOf(s: SparseArray): (o: IterationOrder)
    ensures o.interval == IntervalOf(s)
    ensures o.CsrMatrixRowMajor? <==> s.layout == CsrMatrix
    ensures o.CsrArrayRowMajor? <==> s.layout == CsrArray
    ensures o.CscMatrixColumnMajor? <==> s.layout == CscMatrix
  {
    match s.layout
    case CsrMatrix => CsrMatrixRowMajor(IntervalOf(s))
    case CsrArray => CsrArrayRowMajor(IntervalOf(s))
    case CscMatrix => CscMatrixColumnMajor(IntervalOf(s))
  }

  /** Whether two orders are instances of the same class. */
  predicate SameOrderClass(a: IterationOrder, b: IterationOrder)
  {
    (a.CsrMatrixRowMajor? && b.CsrMatrixRowMajor?)
    || (a.CsrArrayRowMajor? && b.CsrArrayRowMajor?)
    || (a.CscMatrixColumnMajor? && b.CscMatrixColumnMajor?)
  }

  /** equals: an order of another class is never equal; otherwise compare the iteration spaces. */
  method OrderEquals(a: IterationOrder, b: IterationOrder) returns (eq: bool)
    requires a.interval.Valid() && b.interval.Valid()
    ensures eq <==> SameOrderClass(a, b) && SameIterationSpace(a.interval, b.interval)
  {
    if !SameOrderClass(a, b) {
      return false;
    }
    eq := HaveSameIterationSpace(a.interval, b.interval);
  }

  /**
   * Iteration orders of matrices compare as an equivalence on the class and the
   * dimensions: equal for a matrix and itself or its copy, never across classes.
   */
  lemma {:induction false} IterationOrderEquality(s: SparseArray, t: SparseArray)
    ensures SameOrderClass(IterationOrderOf(s), IterationOrderOf(s))
      && SameIterationSpace(IterationOrderOf(s).interval, IterationOrderOf(s).interval)
    ensures Copy(s).Ok? ==> SameIterationSpace(IterationOrderOf(s).interval, IterationOrderOf(Copy(s).value).interval)
    ensures SameOrderClass(IterationOrderOf(s), IterationOrderOf(t)) <==> s.layout == t.layout
    ensures s.layout == t.layout && s.numCols == t.numCols && s.numRows == t.numRows ==>
      SameIterationSpace(IterationOrderOf(s).interval, IterationOrderOf(t).interval)
  {
    SameIterationSpaceIsEquivalence(IntervalOf(s), IntervalOf(t), IntervalOf(t));
    if s.numCols == t.numCols && s.numRows == t.numRows {
      EqualDimensionsSameSpace(s, t);
    }
  }

  // ---------------------------------------------------------------------------
  // The matrix of the unit tests
  // ---------------------------------------------------------------------------

  /** Ten columns, nine rows, five ones at (2, 0), (5, 1), (0, 2), (6, 8) and (9, 8). */
  predicate IsTestCsr(s: SparseArray)
  {
    && s.layout == CsrMatrix && s.numCols == 10 && s.numRows == 9
    && s.data == [1, 1, 1, 1, 1] && s.indices == [2, 5, 0, 6, 9]
    && s.indptr == [0, 1, 2, 3, 3, 3, 3, 3, 3, 5]
  }

  /** The test matrix is in canonical form, with bounds (0, 0) to (9, 8). */
  lemma {:induction false} TestCsrCanonical(s: SparseArray)
    requires IsTestCsr(s)
    ensures Canonical(s, 0)
    ensures s.Max(0) == 9 && s.Max(1) == 8
  {
    forall j | 0 <= j < |s.indptr| - 1
      ensures Ascending(SliceIndices(s, 0, j)) && AllBelow(SliceIndices(s, 0, j), s.Dimension(0))
    {
      TestCsrSlice(s, j);
    }
  }

  /** The stored coordinates of each row of the test matrix. */
  lemma {:induction false} TestCsrSlice(s: SparseArray, j: int)
    requires IsTestCsr(s) && 0 <= j < 9
    ensures Wellformed(s, 0)
    ensures SliceIndices(s, 0, j) ==
      if j == 0 then [2] else if j == 1 then [5] else if j == 2 then [0] else if j == 8 then [6, 9] else []
    ensures SliceData(s, 0, j) == seq(|SliceIndices(s, 0, j)|, _ => 1)
  {
  }

  /** The test matrix reads 1 at the five stored positions, also through its transpose. */
  lemma {:induction false} TestCsrReads(s: SparseArray)
    requires IsTestCsr(s)
    ensures Wellformed(s, 0)
    ensures ValueAt(s, 2, 0) == 1 && ValueAt(s, 5, 1) == 1 && ValueAt(s, 0, 2) == 1
    ensures ValueAt(s, 6, 8) == 1 && ValueAt(s, 9, 8) == 1
    ensures ValueAt(AsTransposedCsc(s), 8, 9) == 1
  {
    TestCsrSlice(s, 0);
    TestCsrSlice(s, 1);
    TestCsrSlice(s, 2);
    TestCsrSlice(s, 8);
    LookupAt(SliceIndices(s, 0, 8), SliceData(s, 0, 8), 1, 9);
    CscIsCsrTransposed(s, 9, 8);
  }

  /** The test matrix has 90 positions, which size() reports as 72. */
  lemma {:induction false} TestCsrSize(s: SparseArray)
    requires IsTestCsr(s)
    ensures CorrectedSize(s) == 90 && Size(s) == 72
  {
  }
}
