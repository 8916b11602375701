/**
 * The write options (N5Options.java): a block size of one or two entries, a
 * compression and an optional executor. The object is immutable; its equality
 * compares block sizes element by element, compressions by value and executors by
 * identity.
 */
module Options {
  import opened Wrappers

  const INT_MIN: int := -0x8000_0000
  const INT_MAX: int := 0x7fff_ffff

  predicate IsInt(x: int)
  {
    INT_MIN <= x <= INT_MAX
  }

  /** Java's int multiplication: the product wrapped around to 32 bits. */
  function IntMul(a: int, b: int): (r: int)
    ensures IsInt(r)
    ensures IsInt(a * b) ==> r == a * b
  {
    (a * b - INT_MIN) % 0x1_0000_0000 + INT_MIN
  }

  /** A compression, compared by value (the compressions of N5 define equals over their parameters). */
  datatype Compression = Compression(kind: string, level: int)

  /** An executor service, compared by identity: `ref` names the object. */
  datatype Executor = Executor(ref: nat)

  datatype N5Options = N5Options(blockSize: seq<int>, compression: Compression, exec: Option<Executor>)
  {
    /** What the constructor guarantees: a block size of one or two ints. */
    predicate Valid()
    {
      (|blockSize| == 1 || |blockSize| == 2) && forall k :: 0 <= k < |blockSize| ==> IsInt(blockSize[k])
    }
  }

  /** A null-reference exception (NPE) from requireNonNull or equals, IllegalArgumentException from the constructor. */
  datatype OptionsError = NullBlockSize | NullCompression | BlockSizeNot1DOr2D(blockSize: seq<int>) | NullExecutor

  /**
   * The three-argument constructor: a null block size, then a null compression, throw a
   * null-reference exception (NPE); a block size of neither one nor two entries throws
   * IllegalArgumentException. The executor may be null.
   */
  function New(blockSize: Option<seq<int>>, compression: Option<Compression>, exec: Option<Executor>)
    : (r: Result<N5Options, OptionsError>)
    requires blockSize.Some? ==> forall k :: 0 <= k < |blockSize.value| ==> IsInt(blockSize.value[k])
    ensures blockSize.None? ==> r == Err(NullBlockSize)
    ensures blockSize.Some? && compression.None? ==> r == Err(NullCompression)
    ensures r.Ok? <==> blockSize.Some? && compression.Some? && 1 <= |blockSize.value| <= 2
    ensures r.Ok? ==> r.value.Valid() && r.value == N5Options(blockSize.value, compression.value, exec)
    ensures blockSize.Some? && compression.Some? && r.Err? ==> r.error == BlockSizeNot1DOr2D(blockSize.value)
  {
    if blockSize.None? then Err(NullBlockSize)
    else if compression.None? then Err(NullCompression)
    else if |blockSize.value| != 1 && |blockSize.value| != 2 then Err(BlockSizeNot1DOr2D(blockSize.value))
    else Ok(N5Options(blockSize.value, compression.value, exec))
  }

  /** The two-argument constructor: the same checks, with no executor. */
  function NewWithoutExecutor(blockSize: Option<seq<int>>, compression: Option<Compression>)
    : (r: Result<N5Options, OptionsError>)
    requires blockSize.Some? ==> forall k :: 0 <= k < |blockSize.value| ==> IsInt(blockSize.value[k])
    ensures r == New(blockSize, compression, None)
    ensures r.Ok? ==> r.value.exec.None?
  {
    New(blockSize, compression, None)
  }

  /** hasExecutorService as written: true when the executor is null. */
  function HasExecutorServiceAsWritten(o: N5Options): (r: bool)
    ensures r <==> o.exec.None?
  {
    o.exec.None?
  }

  /** hasExecutorService as documented: true when an executor is set. */
  function HasExecutorService(o: N5Options): (r: bool)
    ensures r <==> o.exec.Some?
  {
    o.exec.Some?
  }

  /** As written, the answer is the negation of the documented one for every options object. */
  lemma {:induction false} HasExecutorServiceInverted(o: N5Options)
    ensures HasExecutorServiceAsWritten(o) == !HasExecutorService(o)
    ensures o.exec.Some? ==> !HasExecutorServiceAsWritten(o)
  {
  }

  /**
   * The executor the dense-array write of AnnDataUtils hands to N5Utils.save: none
   * when hasExecutorService() as written holds, the options' executor otherwise. The
   * caller follows the written meaning, so every write uses the executor exactly when
   * one is set.
   */
  function DenseSaveExecutorAsWritten(o: N5Options): (r: Option<Executor>)
    ensures r == o.exec
  {
    if HasExecutorServiceAsWritten(o) then None else o.exec
  }

  /** The same choice on the documented hasExecutorService needs its branches swapped to keep that. */
  function DenseSaveExecutor(o: N5Options): (r: Option<Executor>)
    ensures r == o.exec
  {
    if HasExecutorService(o) then o.exec else None
  }

  /**
   * blockSizeTo1D: a one-entry block size is returned as it is; a two-entry one
   * becomes the single int product of its entries.
   */
  function BlockSizeTo1D(o: N5Options): (r: seq<int>)
    requires o.Valid()
    ensures |r| == 1 && IsInt(r[0])
    ensures |o.blockSize| == 1 ==> r == o.blockSize
    ensures |o.blockSize| == 2 ==> r[0] == IntMul(o.blockSize[0], o.blockSize[1])
  {
    if |o.blockSize| == 1 then o.blockSize
    else [IntMul(o.blockSize[0], o.blockSize[1])]
  }

  /** The flattened block has as many elements as the original one, as long as that number fits an int. */
  lemma {:induction false} BlockSizeTo1DKeepsVolume(o: N5Options)
    requires o.Valid() && |o.blockSize| == 2 && IsInt(o.blockSize[0] * o.blockSize[1])
    ensures BlockSizeTo1D(o) == [o.blockSize[0] * o.blockSize[1]]
  {
  }

  /** A 2-D block of 65536 x 65536 strings flattens to a block size of 0: the product wraps around. */
  lemma {:induction false} BlockSizeTo1DWraps(c: Compression)
    ensures BlockSizeTo1D(N5Options([65536, 65536], c, None)) == [0]
  {
  }

  /** An options object as an identity-carrying Java object. */
  datatype Instance = Instance(ref: nat, options: N5Options)

  /** The argument of equals: an N5Options instance or any other object. */
  datatype Object = OptionsObject(instance: Instance) | OtherObject

  /**
   * equals as written: the same object is equal; anything but an N5Options is not;
   * otherwise block sizes, compressions and executors must be equal, and the last
   * test calls exec.equals, which throws when this object has no executor.
   */
  function EqualsAsWritten(self: Instance, o: Object): (r: Result<bool, OptionsError>)
    ensures o.OptionsObject? && o.instance.ref == self.ref ==> r == Ok(true)
    ensures o.OtherObject? ==> r == Ok(false)
    ensures r.Err? <==> o.OptionsObject? && o.instance.ref != self.ref && self.options.exec.None?
                        && self.options.blockSize == o.instance.options.blockSize
                        && self.options.compression == o.instance.options.compression
    ensures r.Ok? ==> r.value == Equals(self, o)
  {
    match o
    case OtherObject => Ok(false)
    case OptionsObject(other) =>
      if other.ref == self.ref then Ok(true)
      else if self.options.blockSize != other.options.blockSize then Ok(false)
      else if self.options.compression != other.options.compression then Ok(false)
      else if self.options.exec.None? then Err(NullExecutor)
      else Ok(self.options.exec == other.options.exec)
  }

  /** equals as evidently intended: the executors compared null-safely, as hashCode already treats them. */
  function Equals(self: Instance, o: Object): (r: bool)
    ensures o.OtherObject? ==> !r
    ensures o.OptionsObject? ==>
      (r <==> o.instance.ref == self.ref || o.instance.options == self.options)
  {
    match o
    case OtherObject => false
    case OptionsObject(other) =>
      other.ref == self.ref
      || (self.options.blockSize == other.options.blockSize
          && self.options.compression == other.options.compression
          && self.options.exec == other.options.exec)
  }

  /** Two distinct objects built by the two-argument constructor with equal arguments make equals throw. */
  lemma {:induction false} EqualsThrowsWithoutExecutor(a: Instance, b: Instance)
    requires a.ref != b.ref && a.options == b.options && a.options.exec.None?
    ensures EqualsAsWritten(a, OptionsObject(b)) == Err(NullExecutor)
    ensures Equals(a, OptionsObject(b))
  {
  }

  /** The intended equality is an equivalence over objects whose identity determines their contents. */
  lemma {:induction false} EqualsIsEquivalence(a: Instance, b: Instance, c: Instance)
    requires a.ref == b.ref ==> a == b
    requires b.ref == c.ref ==> b == c
    requires a.ref == c.ref ==> a == c
    ensures Equals(a, OptionsObject(a))
    ensures Equals(a, OptionsObject(b)) == Equals(b, OptionsObject(a))
    ensures Equals(a, OptionsObject(b)) && Equals(b, OptionsObject(c)) ==> Equals(a, OptionsObject(c))
  {
  }
}
