/**
 * The chunked string-dataset codec (N5StringUtils.java). A list of strings is saved
 * as a one-dimensional string dataset split into blocks of `chunkSize` strings, and
 * read back by concatenating the relevant part of every block. The N5 writer is
 * modelled by a `StringStore`: the attributes of each dataset and the blocks written,
 * keyed by dataset path and block index.
 */
module StringIo {
  import opened Wrappers

  const INT_MAX: int := 0x7fff_ffff

  datatype DataType = StringData | OtherData

  /** The dataset attributes the codec writes and reads: dimensions, block size and data type. */
  datatype DatasetAttributes = DatasetAttributes(dimensions: seq<int>, blockSize: seq<int>, dataType: DataType)

  /** The exceptions save and open raise. */
  datatype IoError =
    | MissingDataset(path: string)                 // no attributes at the path
    | NotOneDimensionalString(path: string)        // IllegalArgumentException, not a 1D string dataset
    | TooLarge(path: string)                       // IllegalArgumentException, more than Integer.MAX_VALUE strings
    | NegativeSize(size: int)                      // new ArrayList<>(size) with size < 0
    | UnsuitableBlockSize(blockSize: seq<int>)     // IllegalArgumentException from save
    | InvalidChunkSize(chunkSize: int)            // a block size whose first entry is not positive
    | IndexOutOfBounds(index: int)                 // an array or list read out of range
    | MissingBlock(index: int)                     // readBlock finds no block there
    | ShortBlock(index: int)                       // a block shorter than the part it should supply

  function Min(a: int, b: int): int
  {
    if a <= b then a else b
  }

  // ---------------------------------------------------------------------------
  // Chunk arithmetic
  // ---------------------------------------------------------------------------

  /**
   * nChunks = ceil(size / chunkSize); for int operands the double division of the
   * source is exact, so this is the integer ceiling.
   */
  function NumChunks(size: nat, chunkSize: int): (n: nat)
    requires chunkSize > 0
    ensures n == 0 <==> size == 0
  {
    (size + chunkSize - 1) / chunkSize
  }

  /** ceil(size / chunkSize) blocks of chunkSize strings cover the data, and one block fewer does not. */
  lemma {:induction false} NumChunksBounds(size: nat, chunkSize: int)
    requires chunkSize > 0
    ensures size == 0 ==> NumChunks(size, chunkSize) == 0
    ensures size > 0 ==> NumChunks(size, chunkSize) >= 1
    ensures size > 0 ==> (NumChunks(size, chunkSize) - 1) * chunkSize < size <= NumChunks(size, chunkSize) * chunkSize
  {
    var n := (size + chunkSize - 1) / chunkSize;
    var rest := (size + chunkSize - 1) % chunkSize;
    assert size + chunkSize - 1 == n * chunkSize + rest;
    assert (n - 1) * chunkSize == n * chunkSize - chunkSize;
    if size > 0 && n < 1 {
      MulMonotone(n, 0, chunkSize);
    }
  }

  /** The number of blocks is zero exactly for the empty list. */
  lemma {:induction false} NumChunksPositive(size: nat, chunkSize: int)
    requires chunkSize > 0
    ensures size == 0 <==> NumChunks(size, chunkSize) == 0
  {
    NumChunksBounds(size, chunkSize);
  }

  lemma {:induction false} MulMonotone(a: int, b: int, c: int)
    requires a <= b && c >= 0
    ensures a * c <= b * c
  {
    assert b * c - a * c == (b - a) * c;
  }

  /** Block i exists exactly when it starts before the end of the data. */
  lemma {:induction false} ChunkIndexBound(size: nat, chunkSize: int, i: nat)
    requires chunkSize > 0
    ensures i < NumChunks(size, chunkSize) <==> i * chunkSize < size
  {
    var n := NumChunks(size, chunkSize);
    NumChunksBounds(size, chunkSize);
    if i < n {
      MulMonotone(i, n - 1, chunkSize);
    } else {
      MulMonotone(n, i, chunkSize);
    }
  }

  /** Every block but the last is full, and the last ends at or past the end of the data. */
  lemma {:induction false} ChunkBounds(size: nat, chunkSize: int, i: nat)
    requires chunkSize > 0 && i < NumChunks(size, chunkSize)
    ensures 0 <= i * chunkSize < size
    ensures i < NumChunks(size, chunkSize) - 1 ==> (i + 1) * chunkSize < size
    ensures i == NumChunks(size, chunkSize) - 1 ==> size <= (i + 1) * chunkSize
  {
    ChunkIndexBound(size, chunkSize, i);
    ChunkIndexBound(size, chunkSize, i + 1);
    MulMonotone(0, i, chunkSize);
    assert (i + 1) * chunkSize == i * chunkSize + chunkSize;
  }

  /** `k` empty strings: the padding of a Zarr block. */
  function Padding(k: nat): (p: seq<string>)
    ensures |p| == k && forall j :: 0 <= j < k ==> p[j] == ""
  {
    seq(k, _ => "")
  }

  /**
   * Block i as save writes it: data[i*cs .. (i+1)*cs) for every block but the last;
   * the last holds the rest of the data, padded with "" up to cs for Zarr and
   * truncated to the rest otherwise.
   */
  function Block(data: seq<string>, chunkSize: int, i: nat, isZarr: bool): (b: seq<string>)
    requires chunkSize > 0 && i < NumChunks(|data|, chunkSize)
    ensures 0 <= i * chunkSize < |data|
    ensures i < NumChunks(|data|, chunkSize) - 1 ==>
      i * chunkSize + chunkSize < |data| && b == data[i * chunkSize .. i * chunkSize + chunkSize]
    ensures i == NumChunks(|data|, chunkSize) - 1 ==>
      && |data| <= i * chunkSize + chunkSize
      && |b| == (if isZarr then chunkSize else |data| - i * chunkSize)
      && b[..|data| - i * chunkSize] == data[i * chunkSize..]
      && forall j :: |data| - i * chunkSize <= j < |b| ==> b[j] == ""
  {
    ChunkBounds(|data|, chunkSize, i);
    var start := i * chunkSize;
    if i < NumChunks(|data|, chunkSize) - 1 then data[start .. start + chunkSize]
    else if isZarr then data[start..] + Padding(chunkSize - (|data| - start))
    else data[start..]
  }

  /** The block map after the first k blocks of `data` are written at `path`, one map update per block. */
  function StoreChunks(blocks: map<(string, int), seq<string>>, path: string, data: seq<string>,
                       chunkSize: int, isZarr: bool, k: nat): (r: map<(string, int), seq<string>>)
    requires chunkSize > 0 && k <= NumChunks(|data|, chunkSize)
    decreases k
  {
    if k == 0 then blocks
    else StoreChunks(blocks, path, data, chunkSize, isZarr, k - 1)[(path, k - 1) := Block(data, chunkSize, k - 1, isZarr)]
  }

  /**
   * After the first k blocks are written, block j < k of the dataset holds Block(j),
   * and every key outside the dataset's first k blocks keeps its old block.
   */
  lemma {:induction false} StoreChunksContents(blocks: map<(string, int), seq<string>>, path: string, data: seq<string>,
                                               chunkSize: int, isZarr: bool, k: nat, key: (string, int))
    requires chunkSize > 0 && k <= NumChunks(|data|, chunkSize)
    ensures key.0 == path && 0 <= key.1 < k ==>
      key in StoreChunks(blocks, path, data, chunkSize, isZarr, k)
      && StoreChunks(blocks, path, data, chunkSize, isZarr, k)[key] == Block(data, chunkSize, key.1, isZarr)
    ensures !(key.0 == path && 0 <= key.1 < k) && key in blocks ==>
      key in StoreChunks(blocks, path, data, chunkSize, isZarr, k) &&
      StoreChunks(blocks, path, data, chunkSize, isZarr, k)[key] == blocks[key]
    decreases k
  {
    if k > 0 {
      StoreChunksContents(blocks, path, data, chunkSize, isZarr, k - 1, key);
    }
  }

  lemma {:induction false} StoreChunksStep(blocks: map<(string, int), seq<string>>, path: string, data: seq<string>,
                                           chunkSize: int, isZarr: bool, k: nat)
    requires chunkSize > 0 && 0 < k <= NumChunks(|data|, chunkSize)
    ensures StoreChunks(blocks, path, data, chunkSize, isZarr, k)
         == StoreChunks(blocks, path, data, chunkSize, isZarr, k - 1)[(path, k - 1) := Block(data, chunkSize, k - 1, isZarr)]
  {
  }

  /** relevantPart: the first n strings of a block. */
  function RelevantPart(chunk: seq<string>, n: nat): (r: seq<string>)
    requires n <= |chunk|
    ensures |r| == n && forall j :: 0 <= j < n ==> r[j] == chunk[j]
  {
    chunk[..n]
  }

  function Prepend(prefix: seq<string>, r: Result<seq<string>, IoError>): Result<seq<string>, IoError>
  {
    match r
    case Ok(rest) => Ok(prefix + rest)
    case Err(e) => Err(e)
  }

  lemma {:induction false} PrependFacts(a: seq<string>, b: seq<string>, r: Result<seq<string>, IoError>)
    ensures Prepend([], r) == r
    ensures Prepend(a, Prepend(b, r)) == Prepend(a + b, r)
  {
    match r
    case Ok(rest) =>
      assert [] + rest == rest;
      assert a + (b + rest) == (a + b) + rest;
    case Err(_) =>
  }

  /**
   * The strings open collects from block i on, while `remaining` strings are still
   * missing: min(remaining, chunkSize) from each block, in block order.
   */
  function Assemble(blocks: map<(string, int), seq<string>>, path: string, remaining: int, chunkSize: int, i: nat)
    : (r: Result<seq<string>, IoError>)
    requires chunkSize > 0
    ensures r.Ok? ==> |r.value| == (if remaining <= 0 then 0 else remaining)
    decreases if remaining <= 0 then 0 else remaining
  {
    if remaining <= 0 then Ok([])
    else if (path, i) !in blocks then Err(MissingBlock(i))
    else if |blocks[(path, i)]| < Min(remaining, chunkSize) then Err(ShortBlock(i))
    else Prepend(RelevantPart(blocks[(path, i)], Min(remaining, chunkSize)),
                 Assemble(blocks, path, remaining - chunkSize, chunkSize, i + 1))
  }

  /**
   * What open returns for the dataset at `path`: the attribute checks first, then
   * the concatenated relevant parts of all ceil(size / chunkSize) blocks.
   */
  function Read(attributes: map<string, DatasetAttributes>, blocks: map<(string, int), seq<string>>, path: string)
    : (r: Result<seq<string>, IoError>)
    ensures path in attributes && attributes[path].dataType != StringData ==> r == Err(NotOneDimensionalString(path))
    ensures path in attributes && |attributes[path].dimensions| != 1 ==> r == Err(NotOneDimensionalString(path))
    ensures r.Ok? ==> path in attributes && |attributes[path].dimensions| == 1
                      && 0 <= attributes[path].dimensions[0] <= INT_MAX && |attributes[path].blockSize| > 0
    ensures r.Ok? && attributes[path].blockSize[0] > 0 ==> |r.value| == attributes[path].dimensions[0]
    ensures r.Ok? && attributes[path].blockSize[0] <= 0 ==> r.value == []
  {
    if path !in attributes then Err(MissingDataset(path))
    else
      var a := attributes[path];
      if |a.dimensions| != 1 || a.dataType != StringData then Err(NotOneDimensionalString(path))
      else if a.dimensions[0] > INT_MAX then Err(TooLarge(path))
      else if |a.blockSize| == 0 then Err(IndexOutOfBounds(0))
      else if a.dimensions[0] < 0 then Err(NegativeSize(a.dimensions[0]))
      else if a.blockSize[0] > 0 then Assemble(blocks, path, a.dimensions[0], a.blockSize[0], 0)
      // ceil(size / chunkSize) is at most 0 for a negative chunk size, and NaN (cast to 0) for 0 / 0
      else if a.blockSize[0] < 0 || a.dimensions[0] == 0 then Ok([])
      // size / 0 is infinite and the cast gives Integer.MAX_VALUE rounds, each appending nothing
      else ScanBlocks(blocks, path, 0, INT_MAX)
  }

  /**
   * The rounds of open with a chunk size of 0: blocks i to n - 1 are read and contribute
   * no strings, so the result is empty unless one of them is missing.
   */
  function ScanBlocks(blocks: map<(string, int), seq<string>>, path: string, i: nat, n: nat)
    : (r: Result<seq<string>, IoError>)
    ensures r.Ok? <==> forall j :: i <= j < n ==> (path, j) in blocks
    ensures r.Ok? ==> r.value == []
    ensures r.Err? ==> r.error.MissingBlock? && i <= r.error.index < n && (path, r.error.index) !in blocks
                       && forall j :: i <= j < r.error.index ==> (path, j) in blocks
    decreases n - i
  {
    if i >= n then Ok([])
    else if (path, i) !in blocks then Err(MissingBlock(i))
    else ScanBlocks(blocks, path, i + 1, n)
  }

  /** One round of open: a present, long enough block supplies the next strings. */
  lemma AssembleStep(blocks: map<(string, int), seq<string>>, path: string, remaining: int, chunkSize: int, i: nat)
    requires chunkSize > 0 && remaining > 0
    requires (path, i) in blocks && |blocks[(path, i)]| >= Min(remaining, chunkSize)
    ensures Assemble(blocks, path, remaining, chunkSize, i)
         == Prepend(RelevantPart(blocks[(path, i)], Min(remaining, chunkSize)),
                    Assemble(blocks, path, remaining - chunkSize, chunkSize, i + 1))
  {
  }

  /** A missing or short block ends open with that error, whatever was collected before. */
  lemma AssembleFailsAt(blocks: map<(string, int), seq<string>>, path: string, remaining: int, chunkSize: int, i: nat,
                        done: seq<string>)
    requires chunkSize > 0 && remaining > 0
    ensures (path, i) !in blocks ==>
      Prepend(done, Assemble(blocks, path, remaining, chunkSize, i)) == Err(MissingBlock(i))
    ensures (path, i) in blocks && |blocks[(path, i)]| < Min(remaining, chunkSize) ==>
      Prepend(done, Assemble(blocks, path, remaining, chunkSize, i)) == Err(ShortBlock(i))
  {
  }

  /** The start of the next chunk is one chunk size further. */
  lemma NextChunkStart(size: int, chunkSize: int, i: int)
    ensures size - (i + 1) * chunkSize == size - i * chunkSize - chunkSize
  {
  }

  /** Open's step over a block save wrote: the block supplies the next min(remaining, chunkSize) strings of the data. */
  lemma {:induction false} AssembleOneBlock(stored: map<(string, int), seq<string>>, path: string, data: seq<string>,
                                            chunkSize: int, isZarr: bool, i: nat, start: int)
    requires chunkSize > 0 && i < NumChunks(|data|, chunkSize) && start == i * chunkSize
    requires (path, i) in stored && stored[(path, i)] == Block(data, chunkSize, i, isZarr)
    ensures 0 <= start < |data|
    ensures Assemble(stored, path, |data| - start, chunkSize, i)
         == Prepend(data[start .. start + Min(|data| - start, chunkSize)],
                    Assemble(stored, path, |data| - (start + chunkSize), chunkSize, i + 1))
  {
    var m := Min(|data| - start, chunkSize);
    var b := Block(data, chunkSize, i, isZarr);
    assert |b| >= m && b[..m] == data[start .. start + m];
  }

  /** Reading back, from block i (which starts at string `start`) on, a store holding the blocks of `data`. */
  lemma {:induction false} AssembleBlocks(stored: map<(string, int), seq<string>>, path: string, data: seq<string>,
                                          chunkSize: int, isZarr: bool, i: nat, start: int)
    requires chunkSize > 0 && i <= NumChunks(|data|, chunkSize) && start == i * chunkSize
    requires forall k :: 0 <= k < NumChunks(|data|, chunkSize) ==>
      (path, k) in stored && stored[(path, k)] == Block(data, chunkSize, k, isZarr)
    ensures start >= |data| ==> Assemble(stored, path, |data| - start, chunkSize, i) == Ok([])
    ensures start < |data| ==> Assemble(stored, path, |data| - start, chunkSize, i) == Ok(data[start..])
    decreases NumChunks(|data|, chunkSize) - i
  {
    ChunkIndexBound(|data|, chunkSize, i);
    if i < NumChunks(|data|, chunkSize) {
      AssembleOneBlock(stored, path, data, chunkSize, isZarr, i, start);
      NextChunkStart(|data|, chunkSize, i);
      AssembleBlocks(stored, path, data, chunkSize, isZarr, i + 1, start + chunkSize);
      PrependChunk(data, start, chunkSize, Assemble(stored, path, |data| - start, chunkSize, i),
                   Assemble(stored, path, |data| - (start + chunkSize), chunkSize, i + 1));
    }
  }

  /** The chunk at `start` followed by everything after it is the data from `start` on. */
  lemma {:induction false} PrependChunk(data: seq<string>, start: int, chunkSize: int,
                                        r: Result<seq<string>, IoError>, rest: Result<seq<string>, IoError>)
    requires chunkSize > 0 && 0 <= start < |data|
    requires r == Prepend(data[start .. start + Min(|data| - start, chunkSize)], rest)
    requires start + chunkSize >= |data| ==> rest == Ok([])
    requires start + chunkSize < |data| ==> rest == Ok(data[start + chunkSize..])
    ensures r == Ok(data[start..])
  {
    if start + chunkSize < |data| {
      assert data[start..] == data[start .. start + chunkSize] + data[start + chunkSize..];
    } else {
      assert data[start..] == data[start .. |data|] + [];
    }
  }

  /** Reading back the blocks save stored from block i on yields the data from string i*cs on. */
  lemma {:induction false} AssembleStored(blocks: map<(string, int), seq<string>>, path: string, data: seq<string>,
                                          chunkSize: int, isZarr: bool, i: nat)
    requires chunkSize > 0 && i <= NumChunks(|data|, chunkSize)
    ensures i * chunkSize >= |data| ==>
      Assemble(StoreChunks(blocks, path, data, chunkSize, isZarr, NumChunks(|data|, chunkSize)),
               path, |data| - i * chunkSize, chunkSize, i) == Ok([])
    ensures i * chunkSize < |data| ==>
      Assemble(StoreChunks(blocks, path, data, chunkSize, isZarr, NumChunks(|data|, chunkSize)),
               path, |data| - i * chunkSize, chunkSize, i) == Ok(data[i * chunkSize..])
  {
    var n := NumChunks(|data|, chunkSize);
    var stored := StoreChunks(blocks, path, data, chunkSize, isZarr, n);
    forall k | 0 <= k < n
      ensures (path, k) in stored && stored[(path, k)] == Block(data, chunkSize, k, isZarr)
    {
      StoreChunksContents(blocks, path, data, chunkSize, isZarr, n, (path, k));
    }
    AssembleBlocks(stored, path, data, chunkSize, isZarr, i, i * chunkSize);
  }

  /** The intended guard of save: a 1-D block size, or a 2-D one whose second entry is 1. */
  predicate SuitableBlockSize(blockSize: seq<int>)
  {
    |blockSize| == 1 || (|blockSize| == 2 && blockSize[1] == 1)
  }

  /** The guard of save as written: it throws for exactly the 2-D block sizes ending in 1. */
  predicate RejectedAsWritten(blockSize: seq<int>)
    ensures RejectedAsWritten(blockSize) <==> |blockSize| == 2 && blockSize[1] == 1
  {
    |blockSize| != 1 && (|blockSize| == 2 && blockSize[1] == 1)
  }

  /** As written the guard rejects [4, 1] and accepts [4, 3] and the empty block size; the intended one does the opposite. */
  lemma {:induction false} BlockSizeGuardInverted(b0: int)
    ensures RejectedAsWritten([b0, 1]) && SuitableBlockSize([b0, 1])
    ensures !RejectedAsWritten([b0, 3]) && !SuitableBlockSize([b0, 3])
    ensures !RejectedAsWritten([]) && !SuitableBlockSize([])
    ensures forall bs: seq<int> :: RejectedAsWritten(bs) ==> SuitableBlockSize(bs)
  {
  }

  /** Where the last block of save starts: (nChunks - 1) * chunkSize. */
  function LastChunkStart(size: nat, chunkSize: int): (start: int)
    requires chunkSize > 0
    ensures size == 0 ==> start == -chunkSize
    ensures size > 0 ==> 0 <= start < size <= start + chunkSize
  {
    NumChunksBounds(size, chunkSize);
    (NumChunks(size, chunkSize) - 1) * chunkSize
  }

  /** For an empty list the last block starts at -chunkSize, so the copy reads data[-chunkSize]. */
  lemma {:induction false} EmptyListLastChunkOutOfRange(chunkSize: int)
    requires chunkSize > 0
    ensures LastChunkStart(0, chunkSize) == -chunkSize < 0
  {
  }

  /** For a nonempty list the last block starts inside the data and the copy stays in range. */
  lemma {:induction false} LastChunkInRange(size: nat, chunkSize: int)
    requires chunkSize > 0 && size > 0
    ensures 0 <= LastChunkStart(size, chunkSize) < size <= LastChunkStart(size, chunkSize) + chunkSize
  {
    ChunkBounds(size, chunkSize, NumChunks(size, chunkSize) - 1);
  }

  /** copy: dest[0 .. end-start) := src[start .. end); the rest of dest is unchanged. */
  method CopyInto(src: seq<string>, start: int, end: int, dest: array<string>)
    requires 0 <= start <= end <= |src| && end - start <= dest.Length
    modifies dest
    ensures dest[..end - start] == src[start..end]
    ensures dest[end - start..] == old(dest[end - start..])
  {
    var n := end - start;
    var i := 0;
    while i < n
      invariant 0 <= i <= n
      invariant dest[..i] == src[start .. start + i]
      invariant dest[n..] == old(dest[n..])
    {
      dest[i] := src[start + i];
      i := i + 1;
    }
  }

  /** One pass of the block loop of save: the reused buffer is refilled with block i, a full block. */
  method FillChunk(data: seq<string>, chunkSize: int, i: nat, isZarr: bool, chunkData: array<string>)
    requires chunkSize > 0 && i < NumChunks(|data|, chunkSize) - 1 && chunkData.Length == chunkSize
    modifies chunkData
    ensures chunkData[..] == Block(data, chunkSize, i, isZarr)
  {
    ChunkBounds(|data|, chunkSize, i);
    assert (i + 1) * chunkSize == i * chunkSize + chunkSize;
    CopyInto(data, i * chunkSize, (i + 1) * chunkSize, chunkData);
  }

  /**
   * The last block of save: the rest of the data is copied into the reused buffer,
   * which is then padded with "" for Zarr or truncated to the rest otherwise.
   */
  method FillLastChunk(data: seq<string>, chunkSize: int, isZarr: bool, chunkData: array<string>) returns (b: seq<string>)
    requires |data| > 0 && chunkSize > 0 && chunkData.Length == chunkSize
    modifies chunkData
    ensures b == Block(data, chunkSize, NumChunks(|data|, chunkSize) - 1, isZarr)
  {
    var size := |data|;
    var n := NumChunks(size, chunkSize);
    ChunkBounds(size, chunkSize, n - 1);
    var start := (n - 1) * chunkSize;
    CopyInto(data, start, size, chunkData);
    if isZarr {
      var k := size - start;
      while k < chunkSize
        invariant size - start <= k <= chunkSize
        invariant chunkData[..size - start] == data[start..]
        invariant forall j :: size - start <= j < k ==> chunkData[j] == ""
      {
        chunkData[k] := "";
        k := k + 1;
      }
      b := chunkData[..];
    } else {
      b := chunkData[..size - start];
    }
  }

  /** An N5 (or Zarr) writer and reader over string datasets. */
  class StringStore {
    const isZarr: bool
    var attributes: map<string, DatasetAttributes>
    var blocks: map<(string, int), seq<string>>

    constructor (isZarr: bool)
      ensures this.isZarr == isZarr && attributes == map[] && blocks == map[]
    {
      this.isZarr := isZarr;
      attributes := map[];
      blocks := map[];
    }

    /**
     * The block loop of save: blocks 0 .. nChunks-2 are copied into one reused
     * buffer and written in turn, then the last block is copied, padded or truncated
     * and written.
     */
    method WriteChunks(data: seq<string>, path: string, chunkSize: int)
      requires |data| > 0 && chunkSize > 0
      modifies this
      ensures attributes == old(attributes)
      ensures blocks == StoreChunks(old(blocks), path, data, chunkSize, isZarr, NumChunks(|data|, chunkSize))
    {
      var size := |data|;
      var n := NumChunks(size, chunkSize);
      var chunkData := new string[chunkSize](_ => "");
      NumChunksPositive(size, chunkSize);
      var i := 0;
      while i < n - 1
        invariant 0 <= i <= n - 1
        invariant attributes == old(attributes)
        invariant blocks == StoreChunks(old(blocks), path, data, chunkSize, isZarr, i)
      {
        FillChunk(data, chunkSize, i, isZarr, chunkData);
        blocks := blocks[(path, i) := chunkData[..]];
        i := i + 1;
      }
      var last := FillLastChunk(data, chunkSize, isZarr, chunkData);
      StoreChunksStep(old(blocks), path, data, chunkSize, isZarr, n);
      blocks := blocks[(path, n - 1) := last];
    }

    /**
     * save with the guard as evidently intended and the empty list handled: a block
     * size that is not [n] or [n, 1] is rejected before anything is written; otherwise
     * the dataset is created and its ceil(size / n) blocks are written.
     */
    method Save(data: seq<string>, path: string, blockSize: seq<int>) returns (r: Outcome<IoError>)
      requires |data| <= INT_MAX
      modifies this
      ensures !SuitableBlockSize(blockSize) ==>
        r == Fail(UnsuitableBlockSize(blockSize)) && attributes == old(attributes) && blocks == old(blocks)
      ensures SuitableBlockSize(blockSize) && blockSize[0] <= 0 ==>
        r == Fail(InvalidChunkSize(blockSize[0])) && attributes == old(attributes) && blocks == old(blocks)
      ensures SuitableBlockSize(blockSize) && blockSize[0] > 0 ==>
        && r == Pass
        && attributes == old(attributes)[path := DatasetAttributes([|data|], blockSize, StringData)]
        && blocks == StoreChunks(old(blocks), path, data, blockSize[0], isZarr, NumChunks(|data|, blockSize[0]))
    {
      if !SuitableBlockSize(blockSize) {
        return Fail(UnsuitableBlockSize(blockSize));
      }
      var chunkSize := blockSize[0];
      if chunkSize <= 0 {
        return Fail(InvalidChunkSize(chunkSize));
      }
      attributes := attributes[path := DatasetAttributes([|data|], blockSize, StringData)];
      if |data| > 0 {
        WriteChunks(data, path, chunkSize);
      }
      r := Pass;
    }

    /**
     * save as written: the inverted guard, the dataset created before the block size
     * is read, and for an empty list a last block that starts at -chunkSize, so the
     * copy reads out of range.
     */
    method SaveAsWritten(data: seq<string>, path: string, blockSize: seq<int>) returns (r: Outcome<IoError>)
      requires |data| <= INT_MAX
      modifies this
      ensures RejectedAsWritten(blockSize) ==>
        r == Fail(UnsuitableBlockSize(blockSize)) && attributes == old(attributes) && blocks == old(blocks)
      ensures !RejectedAsWritten(blockSize) ==>
        attributes == old(attributes)[path := DatasetAttributes([|data|], blockSize, StringData)]
      ensures !RejectedAsWritten(blockSize) && |blockSize| == 0 ==> r == Fail(IndexOutOfBounds(0)) && blocks == old(blocks)
      ensures !RejectedAsWritten(blockSize) && |blockSize| > 0 && blockSize[0] <= 0 ==>
        r == Fail(InvalidChunkSize(blockSize[0])) && blocks == old(blocks)
      ensures !RejectedAsWritten(blockSize) && |blockSize| > 0 && blockSize[0] > 0 && |data| == 0 ==>
        r == Fail(IndexOutOfBounds(-blockSize[0])) && blocks == old(blocks)
      ensures !RejectedAsWritten(blockSize) && |blockSize| > 0 && blockSize[0] > 0 && |data| > 0 ==>
        r == Pass && blocks == StoreChunks(old(blocks), path, data, blockSize[0], isZarr, NumChunks(|data|, blockSize[0]))
    {
      if RejectedAsWritten(blockSize) {
        return Fail(UnsuitableBlockSize(blockSize));
      }
      attributes := attributes[path := DatasetAttributes([|data|], blockSize, StringData)];
      if |blockSize| == 0 {
        return Fail(IndexOutOfBounds(0));
      }
      var chunkSize := blockSize[0];
      if chunkSize <= 0 {
        return Fail(InvalidChunkSize(chunkSize));
      }
      if |data| == 0 {
        EmptyListLastChunkOutOfRange(chunkSize);
        return Fail(IndexOutOfBounds(LastChunkStart(0, chunkSize)));
      }
      WriteChunks(data, path, chunkSize);
      r := Pass;
    }

    /**
     * open: check the attributes, then append min(remaining, chunkSize) strings of
     * each block in turn, decreasing `remaining` by chunkSize per block.
     */
    method Open(path: string) returns (r: Result<seq<string>, IoError>)
      ensures r == Read(attributes, blocks, path)
    {
      if path !in attributes {
        return Err(MissingDataset(path));
      }
      var a := attributes[path];
      if |a.dimensions| != 1 || a.dataType != StringData {
        return Err(NotOneDimensionalString(path));
      }
      var longSize := a.dimensions[0];
      if longSize > INT_MAX {
        return Err(TooLarge(path));
      }
      if |a.blockSize| == 0 {
        return Err(IndexOutOfBounds(0));
      }
      var chunkSize := a.blockSize[0];
      if longSize < 0 {
        return Err(NegativeSize(longSize));
      }
      if chunkSize > 0 {
        r := ReadBlocks(path, longSize, chunkSize);
      } else if chunkSize < 0 || longSize == 0 {
        r := Ok([]);
      } else {
        r := ScanForMissing(path, INT_MAX);
      }
    }

    /** The n rounds of open with a chunk size of 0: each reads its block and appends nothing. */
    method ScanForMissing(path: string, n: nat) returns (r: Result<seq<string>, IoError>)
      ensures r == ScanBlocks(blocks, path, 0, n)
    {
      var i := 0;
      while i < n
        invariant 0 <= i <= n
        invariant ScanBlocks(blocks, path, 0, n) == ScanBlocks(blocks, path, i, n)
      {
        if (path, i) !in blocks {
          return Err(MissingBlock(i));
        }
        i := i + 1;
      }
      r := Ok([]);
    }

    /**
     * The block loop of open: for each of the ceil(size / chunkSize) blocks, append
     * its first min(remaining, chunkSize) strings and decrease `remaining` by chunkSize.
     */
    method ReadBlocks(path: string, size: nat, chunkSize: int) returns (r: Result<seq<string>, IoError>)
      requires chunkSize > 0
      ensures r == Assemble(blocks, path, size, chunkSize, 0)
    {
      var n := NumChunks(size, chunkSize);
      var data: seq<string> := [];
      var remaining := size;
      var i := 0;
      PrependFacts([], [], Assemble(blocks, path, size, chunkSize, 0));
      while i < n
        invariant 0 <= i <= n
        invariant remaining == size - i * chunkSize
        invariant Prepend(data, Assemble(blocks, path, remaining, chunkSize, i)) == Assemble(blocks, path, size, chunkSize, 0)
      {
        ChunkIndexBound(size, chunkSize, i);
        AssembleFailsAt(blocks, path, remaining, chunkSize, i, data);
        if (path, i) !in blocks {
          return Err(MissingBlock(i));
        }
        var chunk := blocks[(path, i)];
        var m := Min(remaining, chunkSize);
        if |chunk| < m {
          return Err(ShortBlock(i));
        }
        AssembleStep(blocks, path, remaining, chunkSize, i);
        PrependFacts(data, RelevantPart(chunk, m), Assemble(blocks, path, remaining - chunkSize, chunkSize, i + 1));
        data := data + RelevantPart(chunk, m);
        NextChunkStart(size, chunkSize, i);
        remaining := remaining - chunkSize;
        i := i + 1;
      }
      ChunkIndexBound(size, chunkSize, n);
      assert data + [] == data;
      return Ok(data);
    }

    /** save followed by open at the same path gives back the list (StringIoTest). */
    method SaveThenOpen(data: seq<string>, path: string, blockSize: seq<int>) returns (r: Result<seq<string>, IoError>)
      requires |data| <= INT_MAX && SuitableBlockSize(blockSize) && blockSize[0] > 0
      modifies this
      ensures r == Ok(data)
    {
      var saved := Save(data, path, blockSize);
      SaveReadRoundTrip(attributes, old(blocks), path, data, blockSize, isZarr);
      r := Open(path);
    }
  }

  /**
   * The round trip: reading the dataset save writes gives back the list, whatever the
   * chunk size (smaller than, equal to or larger than the list) and whichever the writer.
   */
  lemma {:induction false} SaveReadRoundTrip(attributes: map<string, DatasetAttributes>,
                                             blocks: map<(string, int), seq<string>>, path: string,
                                             data: seq<string>, blockSize: seq<int>, isZarr: bool)
    requires |data| <= INT_MAX && SuitableBlockSize(blockSize) && blockSize[0] > 0
    requires path in attributes && attributes[path] == DatasetAttributes([|data|], blockSize, StringData)
    ensures Read(attributes, StoreChunks(blocks, path, data, blockSize[0], isZarr, NumChunks(|data|, blockSize[0])), path)
            == Ok(data)
  {
    AssembleStored(blocks, path, data, blockSize[0], isZarr, 0);
    assert data[0..] == data;
  }

  /** The six strings of StringIoTest. */
  function TestStrings(): seq<string>
  {
    ["", "a", "b", "cd", "efg", ":-þ"]
  }

  /** With chunk size 4 the six strings take two blocks; the second is padded with "" for Zarr and has two strings otherwise. */
  lemma {:induction false} TestStringsInTwoBlocks(isZarr: bool)
    ensures NumChunks(6, 4) == 2
    ensures Block(TestStrings(), 4, 0, isZarr) == ["", "a", "b", "cd"]
    ensures Block(TestStrings(), 4, 1, isZarr) == (if isZarr then ["efg", ":-þ", "", ""] else ["efg", ":-þ"])
  {
    var n := NumChunks(6, 4);
    assert n == 2;
  }
}
