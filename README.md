# n5-anndata in Dafny

A model of the core of n5-anndata, a Java library that reads and writes AnnData
containers (the annotated-matrix format of scanpy) through N5, Zarr and HDF5.

- **Sparse matrices.**
  - `SparseArrays`: the value of a CSR/CSC matrix and its constructor checks; `convertToSparse`, the
    non-zero count, `size`, and the iteration-space helpers.
  - `SparseRandomAccesses`: the random access, a class over a mutable position array with the binary
    search of `get`.
  - `SparseCursors`: the localizing cursor, a class whose `fwd` walks the matrix in storage order.
  - `SparseFactories`: the factory.
  - `SparseKinds`: what `CsrMatrix`, `CscMatrix` and `CsrArray` add on top of that.
- **AnnData paths and types.**
  - `FieldTypes`: encoding/version pairs.
  - `Fields`: the nine fields and their type rules.
  - `Paths`: `AnnDataPath`, with its string form and parser.
- **Constraint checkers.**
  - `Constraints`: the strict, type-only, dimension-only and no-op checkers of `io/constraints`.
  - `LegacyCheckers`: the older composite checker of `io/Checker.java`.
- **String datasets.** `StringIo`: `N5StringUtils.save` and `open` over a store that maps
  (dataset, block index) to the block's strings. `save` is a method that reuses one array
  buffer across blocks, as the source does.
- **Options.** `Options`: `N5Options`, its validation, `blockSizeTo1D` (32-bit wrap-around) and
  `equals`.
- **Comparator.** `Compare`: `compare_anndatas` from the Python test utilities, as a sequence of
  named checks that stops at the first failure.

The model fixes some conventions:

- Java integers are modelled as unbounded `int`, except where wrap-around matters (`blockSizeTo1D`).
- Exceptions become `Err`/`Fail` values naming the exception's cause.
- External readers and writers (N5, Zarr, HDF5 containers) become maps passed in or held in fields.
- Where the code does something other than what its documentation or its evident intent says, the
  model keeps both: an "as written" member and a corrected one, with a lemma exhibiting the
  difference. The rest of the model uses the corrected member (see "## Findings").

## Model

All paths are below `src/main/java/org/janelia/n5anndata/` unless they start with `src/test`.

| member | source | states |
|---|---|---|
| SparseArrays.Img1 | src/main/java/org/janelia/n5anndata/datastructures/SparseArray.java:93-100 | a one-dimensional image starting at 0 holds exactly the given values |
| SparseArrays.LeadingDim | src/main/java/org/janelia/n5anndata/datastructures/CscMatrix.java:72-80 | the leading dimension is 0 or 1, and 1 exactly for CSC matrices (CSR matrices pass 0 at CsrMatrix.java:72-80) |
| SparseArrays.New | src/main/java/org/janelia/n5anndata/datastructures/SparseArray.java:81-101 | construction succeeds iff data, indices and indptr are 1-D from 0, data and indices have equal length and indptr has numCols + 1 or numRows + 1 entries, whichever the layout; each error is returned exactly when its check is the first to fail, in source order |
| SparseArrays.Values | src/main/java/org/janelia/n5anndata/datastructures/SparseArray.java:112-154 | the data column of an entry list, entry by entry |
| SparseArrays.Indices | src/main/java/org/janelia/n5anndata/datastructures/SparseArray.java:112-154 | the index column of an entry list, entry by entry |
| SparseArrays.PrefixCounts | src/main/java/org/janelia/n5anndata/datastructures/SparseArray.java:136-148 | indptr has one entry per slice plus one, each the number of non-zeros before that slice |
| SparseArrays.LookupAt | src/main/java/org/janelia/n5anndata/datastructures/SparseRandomAccess.java:180-209 | a stored coordinate reads the value stored with it |
| SparseArrays.LookupAbsent | src/main/java/org/janelia/n5anndata/datastructures/SparseRandomAccess.java:180-209 | a coordinate not stored in the slice reads 0 |
| SparseArrays.LookupAppend | src/main/java/org/janelia/n5anndata/datastructures/SparseArray.java:112-154 | reading from two concatenated slices reads the first one that stores the coordinate |
| SparseArrays.ColMajorStep | src/main/java/org/janelia/n5anndata/datastructures/SparseArray.java:163-172 | counting column by column grows by one row's count per row |
| SparseArrays.CountExchange | src/main/java/org/janelia/n5anndata/datastructures/SparseArray.java:163-172 | counting non-zeros row-major and column-major gives the same number |
| SparseArrays.ColMajorZero | src/main/java/org/janelia/n5anndata/datastructures/SparseArray.java:163-172 | an empty column range holds no non-zeros |
| SparseArrays.SliceEntriesCount | src/main/java/org/janelia/n5anndata/datastructures/SparseArray.java:136-148 | a compressed slice stores exactly the non-zeros of its row or column |
| SparseArrays.PrefixEntriesCount | src/main/java/org/janelia/n5anndata/datastructures/SparseArray.java:136-148 | the first m slices store exactly the non-zeros of those slices |
| SparseArrays.EntryCountIsNonzeroCount | src/main/java/org/janelia/n5anndata/datastructures/SparseArray.java:136-154 | the compressed form stores as many entries as the matrix has non-zeros, in either orientation |
| SparseArrays.GetNumberOfNonzeros | src/main/java/org/janelia/n5anndata/datastructures/SparseArray.java:163-172 | the loop over all pixels returns the number of non-zero pixels |
| SparseArrays.SliceEntriesMonotone | src/main/java/org/janelia/n5anndata/datastructures/SparseArray.java:136-148 | scanning more of a slice never yields fewer entries |
| SparseArrays.PrefixEntriesGrow | src/main/java/org/janelia/n5anndata/datastructures/SparseArray.java:136-148 | the entries of fewer slices are a prefix of the entries of more slices |
| SparseArrays.EntriesBound | src/main/java/org/janelia/n5anndata/datastructures/SparseArray.java:136-148 | entries written so far never exceed the total number of non-zeros |
| SparseArrays.SliceEntriesFacts | src/main/java/org/janelia/n5anndata/datastructures/SparseArray.java:140-146 | the indices of a compressed slice ascend strictly and stay in range, and every stored value is its pixel |
| SparseArrays.SliceEntriesLookup | src/main/java/org/janelia/n5anndata/datastructures/SparseArray.java:140-146 | looking up a coordinate in a compressed slice gives the pixel value |
| SparseArrays.CompressSlice | src/main/java/org/janelia/n5anndata/datastructures/SparseArray.java:136-154 | slice j of the compressed matrix is the compressed slice j of the grid |
| SparseArrays.StoredSegment | src/main/java/org/janelia/n5anndata/datastructures/SparseArray.java:135-150 | the entries between indptr[j] and indptr[j+1] of the stored arrays are exactly slice j |
| SparseArrays.CompressWellformed | src/main/java/org/janelia/n5anndata/datastructures/SparseArray.java:136-154 | the converted matrix satisfies the constructor's checks |
| SparseArrays.CompressCanonical | src/main/java/org/janelia/n5anndata/datastructures/SparseArray.java:112-154 | the converted matrix is canonical (sorted, in-range indices); it has one entry per non-zero and one indptr entry per slice plus one |
| SparseArrays.CompressStoresNonzeros | src/main/java/org/janelia/n5anndata/datastructures/SparseArray.java:140-146 | no stored value is zero |
| SparseArrays.NonzeroUpTo | src/main/java/org/janelia/n5anndata/datastructures/SparseArray.java:140-146 | every entry of the first m slices is non-zero |
| SparseArrays.ReadBack | src/main/java/org/janelia/n5anndata/datastructures/SparseArray.java:112-154 | reading the converted matrix at any pixel gives the dense value there |
| SparseArrays.AppendSlice | src/main/java/org/janelia/n5anndata/datastructures/SparseArray.java:137-147 | the inner loop appends exactly the slice's non-zeros, with their coordinates, after what was written before |
| SparseArrays.PutEntry | src/main/java/org/janelia/n5anndata/datastructures/SparseArray.java:140-146 | writing a non-zero at position count extends the data and indices written so far by its value and coordinate |
| SparseArrays.CloseSlice | src/main/java/org/janelia/n5anndata/datastructures/SparseArray.java:135-150 | one round of the outer loop appends the slice's non-zeros and records the running count in indptr[j+1] |
| SparseArrays.FillSlices | src/main/java/org/janelia/n5anndata/datastructures/SparseArray.java:126-150 | the loops leave data, indices and indptr equal to the compressed form of the image |
| SparseArrays.ConvertToSparse | src/main/java/org/janelia/n5anndata/datastructures/SparseArray.java:112-154 | a bad leading dimension fails; otherwise the result is the compressed form of the image |
| SparseArrays.ConvertedIsCompress | src/main/java/org/janelia/n5anndata/datastructures/SparseArray.java:149-153 | the arrays the loops fill pass the constructor and give the compressed form |
| SparseArrays.CorrectedSize | src/main/java/org/janelia/n5anndata/datastructures/SparseArray.java:228-231 | the number of pixels is the product of the two dimensions |
| SparseArrays.Size | src/main/java/org/janelia/n5anndata/datastructures/SparseArray.java:228-231 | size() as written: (columns - 1) * (rows - 1), the pixel count less columns + rows - 1 |
| SparseArrays.SizeUndercounts | src/main/java/org/janelia/n5anndata/datastructures/SparseArray.java:228-231 | size as written is short of the pixel count by columns + rows - 1 |
| SparseArrays.IntervalOf | src/main/java/org/janelia/n5anndata/datastructures/SparseArray.java:175-187 | a matrix spans a 2-D interval from 0 with the matrix's dimensions |
| SparseArrays.NonSingletonDimsFacts | src/main/java/org/janelia/n5anndata/datastructures/SparseArray.java:264-270 | the listed dimensions are exactly those of extent > 1, in ascending order |
| SparseArrays.NonSingletonDimensions | src/main/java/org/janelia/n5anndata/datastructures/SparseArray.java:264-270 | the loop returns exactly the dimensions of extent > 1 |
| SparseArrays.HaveSameIterationSpace | src/main/java/org/janelia/n5anndata/datastructures/SparseArray.java:241-256 | the loop answers whether the non-singleton dimensions match in number and bounds |
| SparseArrays.SameIterationSpaceIsEquivalence | src/main/java/org/janelia/n5anndata/datastructures/SparseArray.java:241-256 | the relation is reflexive, symmetric and transitive |
| SparseArrays.EqualDimensionsSameSpace | src/main/java/org/janelia/n5anndata/datastructures/SparseArray.java:241-256 | matrices with equal dimensions share their iteration space |
| SparseRandomAccesses.SparseRandomAccess.constructor | src/main/java/org/janelia/n5anndata/datastructures/SparseRandomAccess.java:74-85 | a fresh random access at the origin, with the secondary dimension the other one |
| SparseRandomAccesses.SparseRandomAccess.CopyOf | src/main/java/org/janelia/n5anndata/datastructures/SparseRandomAccess.java:92-106 | the copy has the same matrix, dimensions and position in a fresh array |
| SparseRandomAccesses.SparseRandomAccess.Copy | src/main/java/org/janelia/n5anndata/datastructures/SparseRandomAccess.java:211-214 | an independent copy at the same position |
| SparseRandomAccesses.SparseRandomAccess.Fwd | src/main/java/org/janelia/n5anndata/datastructures/SparseRandomAccess.java:108-111 | one step forward in dimension d, nothing else changes |
| SparseRandomAccesses.SparseRandomAccess.Bck | src/main/java/org/janelia/n5anndata/datastructures/SparseRandomAccess.java:113-116 | one step back in dimension d, nothing else changes |
| SparseRandomAccesses.SparseRandomAccess.Move | src/main/java/org/janelia/n5anndata/datastructures/SparseRandomAccess.java:118-126 | moves by the distance in dimension d only |
| SparseRandomAccesses.SparseRandomAccess.MoveBy | src/main/java/org/janelia/n5anndata/datastructures/SparseRandomAccess.java:128-147 | moves by the distance vector in both dimensions |
| SparseRandomAccesses.SparseRandomAccess.SetPosition | src/main/java/org/janelia/n5anndata/datastructures/SparseRandomAccess.java:149-168 | the position becomes the first two coordinates given |
| SparseRandomAccesses.SparseRandomAccess.SetPositionAt | src/main/java/org/janelia/n5anndata/datastructures/SparseRandomAccess.java:170-178 | sets dimension d only |
| SparseRandomAccesses.SparseRandomAccess.Get | src/main/java/org/janelia/n5anndata/datastructures/SparseRandomAccess.java:180-209 | the value is 0 or one stored in the current slice at the current coordinate; on a canonical matrix it is the matrix's value at the position |
| SparseRandomAccesses.Search | src/main/java/org/janelia/n5anndata/datastructures/SparseRandomAccess.java:190-207 | the bisection returns an entry with the target coordinate, or -1, which on sorted indices means none exists |
| SparseRandomAccesses.ExcludedHalf | src/main/java/org/janelia/n5anndata/datastructures/SparseRandomAccess.java:190-207 | on sorted indices, comparing the middle entry with the target rules out the half that cannot hold it |
| SparseRandomAccesses.SearchOutcome | src/main/java/org/janelia/n5anndata/datastructures/SparseRandomAccess.java:180-209 | a found entry yields its stored value, no entry yields 0; on sorted indices that is the slice lookup |
| SparseCursors.SliceUnique | src/main/java/org/janelia/n5anndata/datastructures/SparseLocalizingCursor.java:152-165 | each stored entry lies in exactly one slice |
| SparseCursors.EntryOrder | src/main/java/org/janelia/n5anndata/datastructures/SparseLocalizingCursor.java:152-165 | storage order of entries is (slice, coordinate) order |
| SparseCursors.EntryInRange | src/main/java/org/janelia/n5anndata/datastructures/SparseLocalizingCursor.java:152-165 | stored coordinates are within the leading dimension |
| SparseCursors.FirstStep | src/main/java/org/janelia/n5anndata/datastructures/SparseLocalizingCursor.java:130-150 | after the first fwd the cursor is at the origin and tracks the first entry |
| SparseCursors.Step | src/main/java/org/janelia/n5anndata/datastructures/SparseLocalizingCursor.java:130-165 | each fwd keeps the tracked entry the first one not before the new position |
| SparseCursors.TrackedValue | src/main/java/org/janelia/n5anndata/datastructures/SparseLocalizingCursor.java:120-123 | the tracked hit flag and entry give the matrix value at the position |
| SparseCursors.SparseLocalizingCursor.constructor | src/main/java/org/janelia/n5anndata/datastructures/SparseLocalizingCursor.java:100-118 | a fresh cursor before the first position, not started |
| SparseCursors.SparseLocalizingCursor.Copy | src/main/java/org/janelia/n5anndata/datastructures/SparseLocalizingCursor.java:125-128 | copy() is a new cursor over the same matrix, reset to the start |
| SparseCursors.SparseLocalizingCursor.Reset | src/main/java/org/janelia/n5anndata/datastructures/SparseLocalizingCursor.java:167-174 | corrected reset: back before the origin and not started, so a full pass works again |
| SparseCursors.SparseLocalizingCursor.ResetAsWritten | src/main/java/org/janelia/n5anndata/datastructures/SparseLocalizingCursor.java:167-174 | reset as written: position and entry go back, the started and hit flags stay |
| SparseCursors.SparseLocalizingCursor.HasNext | src/main/java/org/janelia/n5anndata/datastructures/SparseLocalizingCursor.java:176-179 | there is a next position unless the cursor is started and at the last one |
| SparseCursors.SparseLocalizingCursor.Get | src/main/java/org/janelia/n5anndata/datastructures/SparseLocalizingCursor.java:120-123 | once started, the value is the matrix value at the position |
| SparseCursors.SparseLocalizingCursor.Advance | src/main/java/org/janelia/n5anndata/datastructures/SparseLocalizingCursor.java:152-165 | moves to the next stored entry (if any) and finds its slice |
| SparseCursors.SparseLocalizingCursor.Fwd | src/main/java/org/janelia/n5anndata/datastructures/SparseLocalizingCursor.java:130-150 | steps the leading coordinate, wrapping to the next slice at the end, and keeps the cursor valid |
| SparseCursors.SparseLocalizingCursor.MoveTo | src/main/java/org/janelia/n5anndata/datastructures/SparseLocalizingCursor.java:130-150 | storing the new position and hit flag re-establishes the cursor invariant |
| SparseCursors.SparseLocalizingCursor.CollectNext | src/main/java/org/janelia/n5anndata/datastructures/SparseLocalizingCursor.java:120-150 | fwd then get extends the values collected so far by the value at the next position in storage order |
| SparseCursors.SparseLocalizingCursor.ReadAll | src/main/java/org/janelia/n5anndata/datastructures/SparseLocalizingCursor.java:130-179 | a full pass yields every pixel value in storage order, columns * rows values |
| SparseCursors.SliceValues | src/main/java/org/janelia/n5anndata/datastructures/SparseLocalizingCursor.java:120-150 | a slice's dense values have the leading dimension's length |
| SparseCursors.PassStep | src/main/java/org/janelia/n5anndata/datastructures/SparseLocalizingCursor.java:130-150 | each fwd/get extends the values read by the next value in storage order |
| SparseCursors.PassEnd | src/main/java/org/janelia/n5anndata/datastructures/SparseLocalizingCursor.java:176-179 | when hasNext is false, the values read are the whole matrix |
| SparseCursors.DenseValuesLength | src/main/java/org/janelia/n5anndata/datastructures/SparseLocalizingCursor.java:130-150 | m slices hold m times the leading dimension values |
| SparseCursors.OneEntryCanonical | src/main/java/org/janelia/n5anndata/datastructures/SparseLocalizingCursor.java:100-118 | the 2x1 one-entry CSR matrix is canonical |
| SparseCursors.SparseLocalizingCursor.EntryReadByFwd | src/main/java/org/janelia/n5anndata/datastructures/SparseLocalizingCursor.java:131-149 | the entry whose index fwd() compares with the new position: the current one after a miss, otherwise the next one when there is a next stored entry |
| SparseCursors.ResetKeepsStartedFlag | src/main/java/org/janelia/n5anndata/datastructures/SparseLocalizingCursor.java:167-174 | after steps and a reset as written, the cursor is still flagged as started at position -1, so the next fwd compares against entry -1; after the corrected reset it compares against entry 0 |
| SparseFactories.Create | src/main/java/org/janelia/n5anndata/datastructures/SparseArrayFactory.java:76-89 | creating succeeds iff dims are two positive extents; the result has the factory's layout and empty slices |
| SparseFactories.CreatedIsEmpty | src/main/java/org/janelia/n5anndata/datastructures/SparseArrayFactory.java:76-89 | a created matrix is well formed and reads 0 everywhere |
| SparseFactories.ImgFactory | src/main/java/org/janelia/n5anndata/datastructures/SparseArrayFactory.java:91-98 | a new value type is accepted iff it is a native numeric type; the index type is kept |
| SparseFactories.CreateWithType | src/main/java/org/janelia/n5anndata/datastructures/SparseArrayFactory.java:100-104 | the deprecated overload ignores the type: it fails exactly as create does and otherwise creates the same empty matrix (layout, dimensions, one placeholder entry, an all-zero indptr) |
| SparseKinds.RandomAccess | src/main/java/org/janelia/n5anndata/datastructures/CsrMatrix.java:72-75 | a random access at the origin using the kind's leading dimension |
| SparseKinds.LocalizingCursor | src/main/java/org/janelia/n5anndata/datastructures/CscMatrix.java:77-80 | a cursor at the start using the kind's leading dimension |
| SparseKinds.Copy | src/main/java/org/janelia/n5anndata/datastructures/CsrMatrix.java:82-88 | the copy succeeds iff the matrix passes the constructor, and is then equal to it |
| SparseKinds.CopyOfReadable | src/main/java/org/janelia/n5anndata/datastructures/CsrArray.java:35-41 | every well-formed matrix copies to itself |
| SparseKinds.FactoryOf | src/main/java/org/janelia/n5anndata/datastructures/CscMatrix.java:90-93 | the factory keeps the value and index types; its leading dimension is 1 exactly for CSC |
| SparseKinds.FactoryCreatesSameShape | src/main/java/org/janelia/n5anndata/datastructures/CsrMatrix.java:90-93 | the factory creates an empty matrix with the same leading dimension and shape; a CSR array's factory makes CSR matrices |
| SparseKinds.Densify | src/main/java/org/janelia/n5anndata/datastructures/CsrMatrix.java:101-104 | the dense image of a matrix has its dimensions and its values |
| SparseKinds.CsrFrom | src/main/java/org/janelia/n5anndata/datastructures/CsrMatrix.java:101-104 | from(img) is a canonical CSR matrix with the image's values |
| SparseKinds.CscFrom | src/main/java/org/janelia/n5anndata/datastructures/CscMatrix.java:101-104 | from(img) is a canonical CSC matrix with the image's values |
| SparseKinds.ConversionPreservesValues | src/test/java/org/janelia/n5anndata/datastructures/SparseArrayTest.java:100-111 | converting any matrix to either layout keeps every value |
| SparseKinds.AsTransposedCsc | src/test/java/org/janelia/n5anndata/datastructures/SparseArrayTest.java:113-118 | the same arrays read as CSC have swapped dimensions |
| SparseKinds.CscIsCsrTransposed | src/test/java/org/janelia/n5anndata/datastructures/SparseArrayTest.java:113-118 | CSR arrays read as CSC give the transposed matrix |
| SparseKinds.IterationOrderOf | src/main/java/org/janelia/n5anndata/datastructures/CsrMatrix.java:106-109 | each kind reports its own order class over its interval |
| SparseKinds.OrderEquals | src/main/java/org/janelia/n5anndata/datastructures/CsrMatrix.java:125-132 | two orders are equal iff same class and same iteration space |
| SparseKinds.IterationOrderEquality | src/test/java/org/janelia/n5anndata/datastructures/SparseArrayTest.java:70-80 | a matrix's order equals its copy's; order classes are equal iff the layouts are |
| SparseKinds.TestCsrCanonical | src/test/java/org/janelia/n5anndata/datastructures/SparseArrayTest.java:138-147 | the test matrix is canonical, 10 x 9 |
| SparseKinds.TestCsrSlice | src/test/java/org/janelia/n5anndata/datastructures/SparseArrayTest.java:138-147 | each row of the test matrix stores ones at the listed columns |
| SparseKinds.TestCsrReads | src/test/java/org/janelia/n5anndata/datastructures/SparseArrayTest.java:82-91 | the test reads find ones at the stored positions, also transposed |
| SparseKinds.TestCsrSize | src/test/java/org/janelia/n5anndata/datastructures/SparseArrayTest.java:120-128 | the test matrix has 90 pixels while size as written reports 72 |
| FieldTypes.AllTypes | src/main/java/org/janelia/n5anndata/io/AnnDataFieldType.java:47-59 | the table lists 13 types from ANNDATA to MISSING |
| FieldTypes.AllTypesComplete | src/main/java/org/janelia/n5anndata/io/AnnDataFieldType.java:47-59 | every type is in the table |
| FieldTypes.Encoding | src/main/java/org/janelia/n5anndata/io/AnnDataFieldType.java:74-76 | every encoding is non-empty and has no comma |
| FieldTypes.Version | src/main/java/org/janelia/n5anndata/io/AnnDataFieldType.java:83-85 | the version is "missing" exactly for MISSING, otherwise 0.1.0 or 0.2.0 |
| FieldTypes.ToString | src/main/java/org/janelia/n5anndata/io/AnnDataFieldType.java:88-90 | the string is "encoding: E, version: V" |
| FieldTypes.ToStringInjective | src/main/java/org/janelia/n5anndata/io/AnnDataFieldType.java:88-90 | distinct types have distinct string forms |
| FieldTypes.EncodingsDistinct | src/main/java/org/janelia/n5anndata/io/AnnDataFieldType.java:47-59 | no two types share an encoding |
| FieldTypes.Find | src/main/java/org/janelia/n5anndata/io/AnnDataFieldType.java:124-133 | the search finds a type with both the encoding and the version, or none exists |
| FieldTypes.FromString | src/main/java/org/janelia/n5anndata/io/AnnDataFieldType.java:124-133 | a missing encoding or version gives MISSING; otherwise the matching type or an error naming both |
| FieldTypes.FromStringRoundTrip | src/main/java/org/janelia/n5anndata/io/AnnDataFieldType.java:74-133 | parsing a type's encoding and version gives the type back |
| FieldTypes.EnsureNumericalArray | src/main/java/org/janelia/n5anndata/io/AnnDataFieldType.java:98-102 | passes exactly for array, csr_matrix and csc_matrix |
| FieldTypes.EnsureStringArray | src/main/java/org/janelia/n5anndata/io/AnnDataFieldType.java:110-114 | passes exactly for string-array and categorical |
| FieldTypes.ArrayKindsDisjoint | src/main/java/org/janelia/n5anndata/io/AnnDataFieldType.java:98-114 | no type is both a numerical and a string array |
| Fields.AllFields | src/main/java/org/janelia/n5anndata/io/AnnDataField.java:53-79 | the table lists nine fields from X to UNS |
| Fields.AllFieldsComplete | src/main/java/org/janelia/n5anndata/io/AnnDataField.java:53-79 | every field is in the table |
| Fields.GetPath | src/main/java/org/janelia/n5anndata/io/AnnDataField.java:99-101 | the path is the field's non-empty base path |
| Fields.ToString | src/main/java/org/janelia/n5anndata/io/AnnDataField.java:128-130 | the string form is the path |
| Fields.BasePathsDistinct | src/main/java/org/janelia/n5anndata/io/AnnDataField.java:53-79 | base paths are non-empty, slash-free and determine the field |
| Fields.CanBeA | src/main/java/org/janelia/n5anndata/io/AnnDataField.java:109-111 | X is a numerical array, obs/var are dataframes, the rest are mappings |
| Fields.CanHaveAsChild | src/main/java/org/janelia/n5anndata/io/AnnDataField.java:119-121 | X has no children; layers/obsp/varp hold numerical arrays; obsm/varm also dataframes; obs/var/uns anything |
| Fields.Find | src/main/java/org/janelia/n5anndata/io/AnnDataField.java:139-144 | finds the field with that path, or none exists |
| Fields.FromString | src/main/java/org/janelia/n5anndata/io/AnnDataField.java:139-144 | succeeds iff some field has that path, else an error naming it |
| Fields.FromStringRoundTrip | src/main/java/org/janelia/n5anndata/io/AnnDataField.java:128-144 | parsing a field's string form gives the field back |
| Paths.DropTrailingEmpty | src/main/java/org/janelia/n5anndata/io/AnnDataPath.java:181-197 | Java's split drops exactly the trailing empty pieces |
| Paths.TrimStart | src/main/java/org/janelia/n5anndata/io/AnnDataPath.java:181-197 | the result is a suffix starting with a visible character, and every character cut off is at most U+0020 |
| Paths.JavaSplit | src/main/java/org/janelia/n5anndata/io/AnnDataPath.java:190 | String.split("/"): a string without a slash is returned whole (so "" gives [""]); the pieces have no slash; and when the string has a slash, the last piece is non-empty |
| Paths.TrimEnd | src/main/java/org/janelia/n5anndata/io/AnnDataPath.java:181-197 | the result is a prefix ending with a visible character, and every character cut off is at most U+0020 |
| Paths.Trim | src/main/java/org/janelia/n5anndata/io/AnnDataPath.java:181-197 | a non-empty result starts and ends with a visible character, and is a substring of the input with only characters up to U+0020 cut off at either end |
| Paths.GetField | src/main/java/org/janelia/n5anndata/io/AnnDataPath.java:91-93 | the field of a field path; the root has none |
| Paths.KeysAsString | src/main/java/org/janelia/n5anndata/io/AnnDataPath.java:100-102 | the keys joined by slashes; the root has none |
| Paths.KeysRoundTrip | src/main/java/org/janelia/n5anndata/io/AnnDataPath.java:100-102 | splitting the joined keys gives the keys back |
| Paths.ToString | src/main/java/org/janelia/n5anndata/io/AnnDataPath.java:105-111 | "/" followed by the field path and the keys, joined by slashes |
| Paths.Equals | src/main/java/org/janelia/n5anndata/io/AnnDataPath.java:114-123 | equal iff same field and same keys |
| Paths.GetParentPath | src/main/java/org/janelia/n5anndata/io/AnnDataPath.java:136-142 | the root has no parent; a field's parent is the root; otherwise the last key is dropped |
| Paths.GetLeaf | src/main/java/org/janelia/n5anndata/io/AnnDataPath.java:150-156 | the last key, else the field path, else "/" |
| Paths.Append | src/main/java/org/janelia/n5anndata/io/AnnDataPath.java:164-172 | appends keys to a field path; the root refuses |
| Paths.AppendThenParent | src/main/java/org/janelia/n5anndata/io/AnnDataPath.java:136-172 | appending a key then taking the parent undoes it; the leaf is the key |
| Paths.AppendAssociative | src/main/java/org/janelia/n5anndata/io/AnnDataPath.java:164-172 | appending in two steps equals appending once |
| Paths.WithoutLeadingRoot | src/main/java/org/janelia/n5anndata/io/AnnDataPath.java:199-201 | removes exactly one leading slash if present |
| Paths.FromString | src/main/java/org/janelia/n5anndata/io/AnnDataPath.java:181-197 | null or empty is invalid; "/" after trimming is the root; otherwise a known field followed by keys, or an error |
| Paths.FieldPathFromParts | src/main/java/org/janelia/n5anndata/io/AnnDataPath.java:188-196 | succeeds iff the first part names a field; the parts are that field and the keys |
| Paths.SplitWithoutSeparator | src/main/java/org/janelia/n5anndata/io/AnnDataPath.java:181-197 | a slash-free string splits to itself |
| Paths.SplitAfterPiece | src/main/java/org/janelia/n5anndata/io/AnnDataPath.java:181-197 | splitting peels off the first piece |
| Paths.JoinSplit | src/main/java/org/janelia/n5anndata/io/AnnDataPath.java:100-111 | splitting joined slash-free parts gives the parts back |
| Paths.SplitJoin | src/main/java/org/janelia/n5anndata/io/AnnDataPath.java:181-197 | joining the split pieces gives the string back |
| Paths.SplitLastPiece | src/main/java/org/janelia/n5anndata/io/AnnDataPath.java:181-197 | a string not ending in "/" splits to a non-empty last piece |
| Paths.JoinHasSeparator | src/main/java/org/janelia/n5anndata/io/AnnDataPath.java:105-111 | joining two or more parts puts a slash in |
| Paths.TrimKeepsVisible | src/main/java/org/janelia/n5anndata/io/AnnDataPath.java:181-197 | trimming keeps a visible two-character start |
| Paths.TrimEndKeeps | src/main/java/org/janelia/n5anndata/io/AnnDataPath.java:181-197 | trimming the end keeps every visible character |
| Paths.JoinStartsWithFirst | src/main/java/org/janelia/n5anndata/io/AnnDataPath.java:105-111 | the joined string starts with the first part's first character |
| Paths.ParsePrinted | src/main/java/org/janelia/n5anndata/io/AnnDataPath.java:105-197 | parsing a printed path gives the path back |
| Paths.PrintedPiecesSplit | src/main/java/org/janelia/n5anndata/io/AnnDataPath.java:105-197 | splitting the printed form (without its leading slash) gives the field path and the keys |
| Paths.PiecesMakeFieldPath | src/main/java/org/janelia/n5anndata/io/AnnDataPath.java:188-196 | a field's path followed by keys parses to that field path with those keys |
| Paths.JavaSplitJoin | src/main/java/org/janelia/n5anndata/io/AnnDataPath.java:181-197 | joining Java's split pieces gives back a string not ending in "/" |
| Paths.PrintParsed | src/main/java/org/janelia/n5anndata/io/AnnDataPath.java:105-197 | printing a parsed field path gives the string back |
| Paths.ObsTestFoo | src/test/java/org/janelia/n5anndata/io/AnnDataPathTest.java:45-56 | /obs/test/foo prints and parses as obs with keys test, foo |
| Paths.NoFieldObsx | src/test/java/org/janelia/n5anndata/io/AnnDataPathTest.java:78-83 | no field is called obsx |
| Paths.UnknownFieldRejected | src/main/java/org/janelia/n5anndata/io/AnnDataPath.java:188-196 | a path starting with an unknown field fails naming it |
| Paths.ObsxRejected | src/test/java/org/janelia/n5anndata/io/AnnDataPathTest.java:78-83 | /obsx/test/foo is refused |
| Paths.EmptyPathsRejected | src/test/java/org/janelia/n5anndata/io/AnnDataPathTest.java:85-91 | "" and "//" are refused as invalid |
| Constraints.StrictTypeRule | src/main/java/org/janelia/n5anndata/io/constraints/StrictChecker.java:93-101 | under the root the field decides; under a dataframe only string, categorical and dense arrays; else the field's child rule |
| Constraints.StrictDimensionRule | src/main/java/org/janelia/n5anndata/io/constraints/StrictChecker.java:111-130 | X/layers are nObs x nVar; obsm/varm have nObs/nVar rows and >1 columns; obsp/varp are square; obs/var/uns are unrestricted |
| Constraints.StrictDataFrameRule | src/main/java/org/janelia/n5anndata/io/constraints/StrictChecker.java:138-148 | a dataframe column has the index length, 1-D or with one column |
| Constraints.SatisfiesTypeConstraints | src/main/java/org/janelia/n5anndata/io/constraints/DimensionOnlyChecker.java:14-17 | strict and type-only apply the type rule of StrictChecker.java:93-101; dimension-only overrides it to accept, and the no-op checker never asks |
| Constraints.SatisfiesDimensionConstraints | src/main/java/org/janelia/n5anndata/io/constraints/DimensionOnlyChecker.java:12-18 | strict and dimension-only apply the dimension rule; the others accept |
| Constraints.SatisfiesDataFrameConstraints | src/main/java/org/janelia/n5anndata/io/constraints/TypeOnlyChecker.java:18-20 | strict and dimension-only apply the dataframe rule; the others accept |
| Constraints.Check | src/main/java/org/janelia/n5anndata/io/constraints/StrictChecker.java:57-84 | no-op checker passes; the root fails; otherwise passes iff the type rule holds and the shape rule for the parent's kind holds, type errors first |
| Constraints.CheckString | src/main/java/org/janelia/n5anndata/io/constraints/Checker.java:93-95 | a string path is parsed first; parse errors are reported as such |
| Constraints.TypeCheckedFirst | src/main/java/org/janelia/n5anndata/io/constraints/StrictChecker.java:57-84 | a type violation is reported whatever the shape |
| Constraints.TypeOnlyReportsOnlyTypes | src/main/java/org/janelia/n5anndata/io/constraints/TypeOnlyChecker.java:11-21 | the type-only checker fails only on types and passes iff the type rule holds |
| Constraints.DimensionOnlyMatchesStrict | src/main/java/org/janelia/n5anndata/io/constraints/DimensionOnlyChecker.java:12-18 | the dimension-only checker passes iff strict passes or fails only on types |
| Constraints.StrictIsBoth | src/main/java/org/janelia/n5anndata/io/constraints/StrictChecker.java:57-84 | strict passes iff type-only and dimension-only both pass |
| Constraints.OneShapeRuleApplies | src/main/java/org/janelia/n5anndata/io/constraints/StrictChecker.java:69-83 | under a dataframe only the dataframe rule applies, elsewhere only the field rule |
| Constraints.OneDimensionalShapeFails | src/main/java/org/janelia/n5anndata/io/constraints/StrictChecker.java:111-130 | a 1-D shape passes the field rule only for obs, var and uns |
| LegacyCheckers.Ensure2D | src/main/java/org/janelia/n5anndata/io/Checker.java:56-61 | a 1-D shape gets a trailing 1; other shapes are kept |
| LegacyCheckers.BothEntries | src/main/java/org/janelia/n5anndata/io/Checker.java:105-130 | a short-circuit test on shape[0] and shape[1] throws out of bounds exactly when it reaches a missing entry |
| LegacyCheckers.StrictTypeCheck | src/main/java/org/janelia/n5anndata/io/Checker.java:74-85 | dataframe children are accepted; else as for the strict checker |
| LegacyCheckers.TypeCheck | src/main/java/org/janelia/n5anndata/io/Checker.java:68-85 | no type checker accepts; strict applies the type rule |
| LegacyCheckers.StrictFieldRuleAsWritten | src/main/java/org/janelia/n5anndata/io/Checker.java:105-124 | as written, obs/var and obsm/varm rows are compared with nVar |
| LegacyCheckers.StrictFieldRule | src/main/java/org/janelia/n5anndata/io/Checker.java:105-124 | corrected: obs and obsm rows compared with nObs, var and varm with nVar |
| LegacyCheckers.StrictDataFrameRule | src/main/java/org/janelia/n5anndata/io/Checker.java:127-129 | index length and a single column; an empty shape is out of bounds |
| LegacyCheckers.FieldConstraints | src/main/java/org/janelia/n5anndata/io/Checker.java:93-124 | no dimension checker accepts; strict applies the field rule |
| LegacyCheckers.DataFrameConstraints | src/main/java/org/janelia/n5anndata/io/Checker.java:93-129 | no dimension checker accepts; strict applies the dataframe rule |
| LegacyCheckers.Check | src/main/java/org/janelia/n5anndata/io/Checker.java:29-54 | root fails; otherwise type, then the corrected field rule (obs/obsm against n_obs, var/varm against n_var), then the dataframe rule under a dataframe parent |
| LegacyCheckers.CheckString | src/main/java/org/janelia/n5anndata/io/Checker.java:25-27 | a string path is parsed first |
| LegacyCheckers.NoneAcceptsFieldPaths | src/main/java/org/janelia/n5anndata/io/Checker.java:11-14 | NONE passes every field path but still fails on the root |
| LegacyCheckers.TypeCheckedFirst | src/main/java/org/janelia/n5anndata/io/Checker.java:29-54 | a type violation is reported whatever the shape |
| LegacyCheckers.OnlyTypeReportsOnlyTypes | src/main/java/org/janelia/n5anndata/io/Checker.java:12 | ONLY_TYPE never reports a dimension error |
| LegacyCheckers.OnlyDimensionIgnoresTypes | src/main/java/org/janelia/n5anndata/io/Checker.java:13 | ONLY_DIMENSION never reports a type error |
| LegacyCheckers.TypeRulesCompared | src/main/java/org/janelia/n5anndata/io/Checker.java:74-85 | the legacy type rule equals the strict one except that it accepts anything under a dataframe |
| LegacyCheckers.DataFrameRulesAgreeOnColumns | src/main/java/org/janelia/n5anndata/io/Checker.java:127-129 | on 1-D and 2-D shapes the legacy dataframe rule equals the strict one |
| LegacyCheckers.DataFrameRuleMissesExtraDimensions | src/main/java/org/janelia/n5anndata/io/Checker.java:127-129 | the legacy rule accepts [n, 1, m]; the strict one does not |
| LegacyCheckers.EmptyShapeOutOfBounds | src/main/java/org/janelia/n5anndata/io/Checker.java:105-124 | an empty shape makes the field rule throw at index 0 |
| LegacyCheckers.FieldRulesDifferOnlyOnObs | src/main/java/org/janelia/n5anndata/io/Checker.java:105-124 | as written and corrected rules agree on every field but obs and obsm |
| LegacyCheckers.ObsRuleUsesWrongExtent | src/main/java/org/janelia/n5anndata/io/Checker.java:111-114 | when nObs != nVar, a correct obs column and obsm matrix are rejected as written and accepted when corrected |
| LegacyCheckers.FieldRulesAgreeOn2D | src/main/java/org/janelia/n5anndata/io/Checker.java:105-124 | on 2-D shapes the corrected legacy rule equals the strict field rule |
| StringIo.NumChunksBounds | src/main/java/org/janelia/n5anndata/io/N5StringUtils.java:137 | ceil(size / chunkSize) chunks cover the data, the last one non-empty |
| StringIo.NumChunks | src/main/java/org/janelia/n5anndata/io/N5StringUtils.java:137 | the block count is zero exactly for an empty list |
| StringIo.LastChunkStart | src/main/java/org/janelia/n5anndata/io/N5StringUtils.java:154 | -chunkSize for an empty list; otherwise inside the data, with the data ending within that block |
| StringIo.RejectedAsWritten | src/main/java/org/janelia/n5anndata/io/N5StringUtils.java:128-130 | the guard as written throws exactly for two-entry block sizes ending in 1 |
| StringIo.NumChunksPositive | src/main/java/org/janelia/n5anndata/io/N5StringUtils.java:137 | there are no chunks exactly when there is no data |
| StringIo.ChunkIndexBound | src/main/java/org/janelia/n5anndata/io/N5StringUtils.java:88 | chunk i exists iff it starts inside the data |
| StringIo.ChunkBounds | src/main/java/org/janelia/n5anndata/io/N5StringUtils.java:141-154 | every chunk starts inside the data; all but the last end inside it |
| StringIo.Padding | src/main/java/org/janelia/n5anndata/io/N5StringUtils.java:157-159 | k empty strings |
| StringIo.Block | src/main/java/org/janelia/n5anndata/io/N5StringUtils.java:141-165 | full chunks hold chunkSize strings; the last holds the rest, padded with "" for Zarr and truncated otherwise |
| StringIo.StoreChunksContents | src/main/java/org/janelia/n5anndata/io/N5StringUtils.java:141-165 | after writing k chunks the store holds those blocks at (path, i) and nothing else changed |
| StringIo.RelevantPart | src/main/java/org/janelia/n5anndata/io/N5StringUtils.java:101-104 | the first n strings of a block |
| StringIo.PrependFacts | src/main/java/org/janelia/n5anndata/io/N5StringUtils.java:90-97 | prepending nothing changes nothing; prepending twice prepends the concatenation |
| StringIo.Assemble | src/main/java/org/janelia/n5anndata/io/N5StringUtils.java:88-97 | reading the remaining blocks gives exactly the remaining number of strings |
| StringIo.AssembleFailsAt | src/main/java/org/janelia/n5anndata/io/N5StringUtils.java:90-97 | a missing block or one shorter than needed makes the whole read fail with that error |
| StringIo.Read | src/main/java/org/janelia/n5anndata/io/N5StringUtils.java:76-98 | open refuses missing, non-string and non-1-D datasets; with a positive chunk size success gives the dataset's size, with a chunk size of 0 or less it gives the empty list |
| StringIo.ScanBlocks | src/main/java/org/janelia/n5anndata/io/N5StringUtils.java:88-97 | with a chunk size of 0 the Integer.MAX_VALUE rounds succeed with nothing iff every block is present, and otherwise fail at the first missing one |
| StringIo.AssembleOneBlock | src/main/java/org/janelia/n5anndata/io/N5StringUtils.java:90-97 | reading a stored block gives the data from that chunk on |
| StringIo.AssembleBlocks | src/main/java/org/janelia/n5anndata/io/N5StringUtils.java:88-97 | reading, from block i on, a store that holds every block of the data gives the data from where block i starts |
| StringIo.AssembleStored | src/main/java/org/janelia/n5anndata/io/N5StringUtils.java:88-97 | reading from stored chunk i gives the data from i * chunkSize on |
| StringIo.BlockSizeGuardInverted | src/main/java/org/janelia/n5anndata/io/N5StringUtils.java:128-130 | the guard as written rejects only suitable block sizes ([n, 1]) and lets [n, 3] and [] through |
| StringIo.EmptyListLastChunkOutOfRange | src/main/java/org/janelia/n5anndata/io/N5StringUtils.java:154 | for an empty list the last chunk starts at -chunkSize |
| StringIo.LastChunkInRange | src/main/java/org/janelia/n5anndata/io/N5StringUtils.java:154 | for a non-empty list the last chunk starts inside the data and covers its end |
| StringIo.CopyInto | src/main/java/org/janelia/n5anndata/io/N5StringUtils.java:168-173 | copies src[start..end] to the front of dest and leaves the rest |
| StringIo.FillChunk | src/main/java/org/janelia/n5anndata/io/N5StringUtils.java:141-143 | the reused buffer holds block i |
| StringIo.FillLastChunk | src/main/java/org/janelia/n5anndata/io/N5StringUtils.java:152-165 | the last block written is padded for Zarr and truncated otherwise |
| StringIo.StringStore.WriteChunks | src/main/java/org/janelia/n5anndata/io/N5StringUtils.java:137-165 | writes exactly the blocks of the data and keeps the attributes |
| StringIo.StringStore.Save | src/main/java/org/janelia/n5anndata/io/N5StringUtils.java:127-166 | corrected save: unsuitable or non-positive block sizes fail and change nothing; otherwise records a 1-D string dataset and its blocks |
| StringIo.StringStore.SaveAsWritten | src/main/java/org/janelia/n5anndata/io/N5StringUtils.java:127-166 | save as written: the inverted guard, the dataset created before the blocks, and the out-of-range failure on an empty list |
| StringIo.StringStore.Open | src/main/java/org/janelia/n5anndata/io/N5StringUtils.java:76-98 | open reads as Read specifies |
| StringIo.StringStore.ScanForMissing | src/main/java/org/janelia/n5anndata/io/N5StringUtils.java:92-96 | the rounds of open with a chunk size of 0 read as ScanBlocks specifies |
| StringIo.StringStore.ReadBlocks | src/main/java/org/janelia/n5anndata/io/N5StringUtils.java:88-97 | the read loop concatenates the relevant part of each block |
| StringIo.StringStore.SaveThenOpen | src/test/java/org/janelia/n5anndata/io/StringIoTest.java:50-59 | saving then opening a dataset gives the strings back |
| StringIo.SaveReadRoundTrip | src/main/java/org/janelia/n5anndata/io/N5StringUtils.java:76-166 | reading what save stored gives exactly the saved list, for N5 and Zarr |
| StringIo.TestStringsInTwoBlocks | src/test/java/org/janelia/n5anndata/io/StringIoTest.java:61-81 | six test strings in blocks of 4 form two blocks, the second padded only for Zarr |
| Options.IntMul | src/main/java/org/janelia/n5anndata/io/N5Options.java:125-131 | Java int product: wraps to 32 bits, exact when it fits |
| Options.New | src/main/java/org/janelia/n5anndata/io/N5Options.java:73-81 | null block size, then null compression, then a length other than 1 or 2 fails in that order; otherwise the options hold the arguments |
| Options.NewWithoutExecutor | src/main/java/org/janelia/n5anndata/io/N5Options.java:61-63 | the same checks, with no executor |
| Options.HasExecutorServiceAsWritten | src/main/java/org/janelia/n5anndata/io/N5Options.java:115-117 | as written: true when the executor is null |
| Options.HasExecutorService | src/main/java/org/janelia/n5anndata/io/N5Options.java:110-114 | as its name and @return line say: true when an executor is set |
| Options.HasExecutorServiceInverted | src/main/java/org/janelia/n5anndata/io/N5Options.java:110-117 | the written answer is the negation of the one its name and @return line promise |
| Options.DenseSaveExecutorAsWritten | src/main/java/org/janelia/n5anndata/io/AnnDataUtils.java:480-484 | the dense write, which follows the written meaning, passes the executor exactly when one is set |
| Options.DenseSaveExecutor | src/main/java/org/janelia/n5anndata/io/AnnDataUtils.java:480-484 | with the documented hasExecutorService and the branches swapped, the dense write still passes the executor exactly when one is set |
| Options.BlockSizeTo1D | src/main/java/org/janelia/n5anndata/io/N5Options.java:125-131 | one entry is kept; two become their wrapped int product |
| Options.BlockSizeTo1DKeepsVolume | src/main/java/org/janelia/n5anndata/io/N5Options.java:125-131 | without overflow the flattened block holds as many elements |
| Options.BlockSizeTo1DWraps | src/main/java/org/janelia/n5anndata/io/N5Options.java:125-131 | 65536 x 65536 flattens to 0 |
| Options.EqualsAsWritten | src/main/java/org/janelia/n5anndata/io/N5Options.java:144-153 | throws exactly when a distinct object has equal block size and compression and this executor is null; otherwise agrees with the intended equality |
| Options.Equals | src/main/java/org/janelia/n5anndata/io/N5Options.java:144-153 | same object, or equal block size, compression and executor |
| Options.EqualsThrowsWithoutExecutor | src/main/java/org/janelia/n5anndata/io/N5Options.java:151 | two equal options without executors make equals throw, though they are equal |
| Options.EqualsIsEquivalence | src/main/java/org/janelia/n5anndata/io/N5Options.java:144-153 | the intended equality is reflexive, symmetric and transitive |
| Compare.CheckCondition | src/test/python/utils.py:79-81 | fails exactly when the condition is false, naming the check |
| Compare.Lookup | src/test/python/utils.py:99-118 | a missing key is a KeyError naming it |
| Compare.DecodeAll | src/test/python/utils.py:108 | the decoder applied to every value, in order |
| Compare.Cells | src/test/python/utils.py:108 | iterating a column yields its labels or its numbers, in order |
| Compare.CategoricalEqual | src/test/python/utils.py:108 | missing keys are KeyErrors; otherwise true iff the columns have equal length and each expected value equals the decoded actual value, whatever the column kinds |
| Compare.DefaultCellTypeByValue | src/test/python/utils.py:84-108 | with the default decoder, two equal numeric cell_type columns pass and a categorical one never equals a non-empty numeric one |
| Compare.CloseAt | src/test/python/utils.py:99-101 | missing keys are KeyErrors, the expected one first; otherwise the closeness of the two arrays |
| Compare.CloseColumns | src/test/python/utils.py:111-112 | missing keys are KeyErrors; a column that is not numeric is a TypeError; otherwise the closeness of the two columns |
| Compare.EqualAt | src/test/python/utils.py:117 | a missing key is a KeyError; otherwise true iff the two sequences agree entry by entry |
| Compare.Steps | src/test/python/utils.py:99-118 | the twelve checks in order |
| Compare.StepNames | src/test/python/utils.py:99-118 | the name of each check, in order |
| Compare.RunChecks | src/test/python/utils.py:99-118 | passes iff every check holds |
| Compare.FirstFailure | src/test/python/utils.py:99-118 | the first check that does not hold, all before it holding |
| Compare.RunChecksStopsAtFirstFailure | src/test/python/utils.py:79-118 | a failing run reports the first failing check, error or validation failure |
| Compare.CompareAnnDatas | src/test/python/utils.py:84-118 | passes iff all twelve checks hold |
| Compare.CompareWithDefaults | src/test/python/utils.py:84 | default decoder and encoder are the identity |
| Compare.CheckOrder | src/test/python/utils.py:99-118 | the checks run in source order: X, obsp, varp, obs_names, var_names, the cell_type categorical, gene_stuff1, gene_stuff2, obsm, varm, uns, layers, each under its own name |
| Compare.XReportedFirst | src/test/python/utils.py:99 | a differing X is reported before everything else |
| Compare.EncodedCopyPasses | src/test/python/utils.py:84-118 | a copy with encoded categorical keys passes when decoding inverts encoding |
| Compare.SelfComparisonPasses | src/test/python/utils.py:84-118 | an AnnData compared with itself passes |

## Left out

- External I/O: the N5, Zarr and HDF5 readers and writers are maps from dataset paths to
  attributes and from (path, block index) to blocks. Path normalisation is not modelled: one
  string names a dataset.
- `SparseArrays.New` and the sparse kinds: element and index types are `int`. The value, index
  and pixel types of ImgLib2 are reduced to flags. 64-bit overflow is not modelled.
- SparseArray's `randomAccess(Interval)`, `min`/`max`/`dimension` getters and the n-dimension
  cursor constructor are not modelled beyond what the 2-D members use.
- SparseCursors.SparseLocalizingCursor.constructor: the cursor is valid only on a canonical matrix
  with at least one stored entry. That is what its walk relies on. On other matrices the model
  proves only the shape facts.
- SparseArrays.GetNumberOfNonzeros: counts pixels of a 2-D grid. The source iterates any
  RandomAccessibleInterval.
- `DenseArray` and `DenseArrayImgWrapper` are not part of this model.
- `io/Checker.java` line 30 assigns an AnnDataPath to a String. As written that does not type-check.
  The model takes the parent path as an AnnDataPath.
- Paths: a null field inside an AnnDataPath is not modelled. Field paths always have a field.
- Constraints.Check and LegacyCheckers.Check: the container's field types, `n_obs`/`n_var` and the
  dataframe index sizes are the `Container` argument. They are not read from a container.
- SparseRandomAccesses.SparseRandomAccess.Get: requires the slice at the secondary coordinate to be
  readable: for that coordinate j, `0 <= j < |indptr| - 1` and `0 <= indptr[j] <= indptr[j + 1] <= |indices|`.
  Two cases the Java accepts are not modelled. First, a secondary coordinate outside the indptr
  array makes Java's indptr access throw. Second, SparseArray.java:93-100 accepts an indptr that
  decreases or points past `indices`. On such a slice the do-while at SparseRandomAccess.java:192-206
  can loop forever: with start 3, end 1 and indices[2] above the target, the first pass sets end to
  2, and from then on current is 2, start stays 3 and `current != start` repeats the same step.
  An indptr pointing past `indices` can also make Java read `indices` out of range. The leading
  coordinate is unrestricted.
- StringIo.StringStore.Save: a block size of 0 or less fails with an explicit error. In Java a
  negative block size throws NegativeArraySizeException when the chunk buffer is allocated
  (N5StringUtils.java:139). A block size of 0 with a non-empty list makes `(int) Math.ceil(size / 0.0)`
  equal Integer.MAX_VALUE, so about 2^31 empty blocks are written before `copy` throws on the
  zero-length buffer (N5StringUtils.java:155, 168-173). A block size of 0 with an empty list is
  covered on the next line.
- StringIo.StringStore.SaveAsWritten: a block size of 0 or less fails with the same explicit error,
  after the dataset has been created, and no block is written. For an empty list with block size [0]
  Java returns normally: `(int) NaN` gives 0 chunks, `start` is 0, nothing is copied, and one
  zero-length block is written at grid position -1. The model reports InvalidChunkSize(0) there.
- StringIo.Read: a dimension below Integer.MIN_VALUE wraps in Java's `(int)` cast. The model reports
  every negative size as NegativeSize.
- StringIo.StringStore.Open, StringIo.StringStore.ReadBlocks, StringIo.Assemble and StringIo.Read:
  a block shorter than the dataset says is a ShortBlock error. Java's `copyOfRange` pads with nulls
  in that case.
- StringIo.StringStore.Save: the compression of the dataset (Gzip by default, N5StringUtils.java:114-116)
  is not modelled. The store records the dimensions, block size and data type only.
- StringIo.StringStore.Save: int overflow of `(i + 1) * chunkSize` is not modelled.
- `N5Options.toString`, `hashCode` and the getters are not modelled. The executor service is an
  identity and is never run.
- Compare.EqualAt: the values are mathematical reals, so NaN is not modelled. With NaN,
  `np.array_equal` is false even for identical arrays.
- Compare.CategoricalEqual: the decoder is a total function on values, so a decoder that raises
  is not modelled. Values are compared one by one; numpy's conversion of a list that mixes strings
  and numbers to one type is not modelled.
- Compare.Steps: `np.allclose` and the other numerical comparisons are a `close` parameter.
  Comparing a var column that is not numeric with `np.allclose` raises a TypeError in Python;
  CloseColumns returns it as an error value.
- `create_test_anndata` and the other test-data generators are not modelled.

## Findings

| source | as written | input that shows it | evidently intended | confidence | as-written member | corrected member |
|---|---|---|---|---|---|---|
| src/main/java/org/janelia/n5anndata/datastructures/SparseArray.java:228-231 | size() returns max[0] * max[1] | the 10 x 9 test matrix: 72 instead of 90 | the number of pixels, dimension(0) * dimension(1) | high, not executed | SparseArrays.SizeUndercounts | SparseArrays.CorrectedSize |
| src/main/java/org/janelia/n5anndata/datastructures/SparseLocalizingCursor.java:167-174 | reset() does not clear isInitialized | the 2 x 1 matrix holding 5 at (0, 0): a cursor stepped twice (ending on a miss) then reset sits at -1 but counts as started, so the next fwd() compares its position with the index at entry -1 | reset to the state after construction | high, not executed | SparseCursors.ResetKeepsStartedFlag | SparseCursors.SparseLocalizingCursor.Reset |
| src/main/java/org/janelia/n5anndata/io/N5StringUtils.java:128-130 | the guard throws when the block size is [n, 1] | blockSize [4, 1] rejected; [4, 3] and [] accepted | reject all but [n] and [n, 1] | medium, not executed | StringIo.BlockSizeGuardInverted | StringIo.StringStore.Save |
| src/main/java/org/janelia/n5anndata/io/N5StringUtils.java:154 | an empty list gives nChunks 0 and start -chunkSize | save of [] with blockSize [4] | write an empty dataset | high, not executed | StringIo.EmptyListLastChunkOutOfRange | StringIo.SaveReadRoundTrip |
| src/main/java/org/janelia/n5anndata/io/N5Options.java:110-117 | hasExecutorService returns exec == null, the opposite of its name and @return line; the summary line and the one caller (AnnDataUtils.java:480-484) use the null meaning, so writes are unaffected | options built without an executor: hasExecutorService() is true | a name and @return line that match the answer (or the documented answer with the caller's branches swapped) | low, not executed | Options.HasExecutorServiceInverted | Options.DenseSaveExecutor |
| src/main/java/org/janelia/n5anndata/io/N5Options.java:151 | exec.equals is called on a null executor | two distinct equal options without executors | compare executors null-safely | high, not executed | Options.EqualsThrowsWithoutExecutor | Options.EqualsIsEquivalence |
| src/main/java/org/janelia/n5anndata/io/Checker.java:111-114 | obs and obsm rows are compared with nVar | nObs 3, nVar 5: an obs of shape [3] is rejected | obs/obsm against nObs, var/varm against nVar | high, not executed | LegacyCheckers.ObsRuleUsesWrongExtent | LegacyCheckers.StrictFieldRule |
