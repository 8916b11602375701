/**
 * The image factory of sparse matrices (SparseArrayFactory.java): it creates empty
 * CSR or CSC matrices of given dimensions.
 */
module SparseFactories {
  import opened Wrappers
  import opened SparseArrays

  /** An ImgLib2 pixel type, reduced to what the factory checks about it. */
  datatype PixelType = PixelType(name: string, isNumeric: bool, isNative: bool)

  /** A factory: example value and index types, and the leading dimension of what it creates. */
  datatype SparseArrayFactory = SparseArrayFactory(valueType: PixelType, indexType: PixelType, leadingDimension: int)
  {
    /** The factory is only constructed with leading dimension 0 or 1. */
    predicate Valid() { leadingDimension == 0 || leadingDimension == 1 }
  }

  /** ImgLib2's Dimensions.verify: every dimension must be positive. */
  predicate DimensionsValid(dims: seq<int>)
  {
    forall d :: 0 <= d < |dims| ==> dims[d] > 0
  }

  /**
   * create(dimensions): a matrix with one placeholder entry in data and indices and
   * an all-zero indptr with one entry per slice plus one; CSR for leading dimension 0,
   * CSC otherwise.
   */
  function Create(f: SparseArrayFactory, dims: seq<int>): (r: Result<SparseArray, SparseError>)
    requires f.Valid()
    ensures |dims| != 2 ==> r == Err(NotTwoDimensional)
    ensures |dims| == 2 && !(dims[0] > 0 && dims[1] > 0) ==> r == Err(InvalidDimensions)
    ensures r.Ok? <==> |dims| == 2 && dims[0] > 0 && dims[1] > 0
    ensures r.Ok? ==>
      && r.value.layout == LayoutFor(f.leadingDimension)
      && r.value.numCols == dims[0] && r.value.numRows == dims[1]
      && |r.value.data| == |r.value.indices| == 1
      && |r.value.indptr| == dims[1 - f.leadingDimension] + 1
      && (forall j :: 0 <= j < |r.value.indptr| ==> r.value.indptr[j] == 0)
  {
    if |dims| != 2 then Err(NotTwoDimensional)
    else if !DimensionsValid(dims) then Err(InvalidDimensions)
    else
      var data := Img1([0]);
      var indices := Img1([0]);
      var indptr := Img1(seq(dims[1 - f.leadingDimension] + 1, _ => 0));
      New(LayoutFor(f.leadingDimension), dims[0], dims[1], data, indices, indptr)
  }

  /**
   * A created matrix is readable with the factory's leading dimension and reads 0
   * everywhere, but it is not in the canonical form: its indptr ends at 0 while data
   * holds the placeholder entry.
   */
  lemma CreatedIsEmpty(f: SparseArrayFactory, dims: seq<int>)
    requires f.Valid() && Create(f, dims).Ok?
    ensures Wellformed(Create(f, dims).value, f.leadingDimension)
    ensures !Canonical(Create(f, dims).value, f.leadingDimension)
    ensures forall x, y :: 0 <= x < dims[0] && 0 <= y < dims[1] ==>
      ValueAtLead(Create(f, dims).value, f.leadingDimension, x, y) == 0
  {
    var s := Create(f, dims).value;
    var lead := f.leadingDimension;
    forall x, y | 0 <= x < dims[0] && 0 <= y < dims[1]
      ensures ValueAtLead(s, lead, x, y) == 0
    {
      var j := SecondaryCoord(lead, x, y);
      assert SliceIndices(s, lead, j) == [];
    }
  }

  /** imgFactory(type): a factory for another value type, kept only for numeric native types. */
  function ImgFactory(f: SparseArrayFactory, t: PixelType): (r: Result<SparseArrayFactory, SparseError>)
    ensures r.Ok? <==> t.isNumeric && t.isNative
    ensures r.Err? ==> r.error == IncompatibleType
    ensures r.Ok? ==> r.value.valueType == t && r.value.indexType == f.indexType
                      && r.value.leadingDimension == f.leadingDimension
  {
    if t.isNumeric && t.isNative then Ok(SparseArrayFactory(t, f.indexType, f.leadingDimension))
    else Err(IncompatibleType)
  }

  /** The deprecated create(dimensions, type) ignores the type and creates as create(dimensions) does. */
  function CreateWithType(f: SparseArrayFactory, dims: seq<int>, t: PixelType): (r: Result<SparseArray, SparseError>)
    requires f.Valid()
    ensures |dims| != 2 ==> r == Err(NotTwoDimensional)
    ensures |dims| == 2 && !(dims[0] > 0 && dims[1] > 0) ==> r == Err(InvalidDimensions)
    ensures r.Ok? <==> |dims| == 2 && dims[0] > 0 && dims[1] > 0
    ensures r.Ok? ==>
      && r.value.layout == LayoutFor(f.leadingDimension)
      && r.value.numCols == dims[0] && r.value.numRows == dims[1]
      && |r.value.data| == |r.value.indices| == 1
      && |r.value.indptr| == dims[1 - f.leadingDimension] + 1
      && (forall j :: 0 <= j < |r.value.indptr| ==> r.value.indptr[j] == 0)
  {
    Create(f, dims)
  }
}
