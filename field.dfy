/**
 * The top-level fields of an AnnData container (AnnDataField.java): each has a base
 * path, the types it may have itself and the types that may sit below it.
 */
module Fields {
  import opened Wrappers
  import opened FieldTypes

  datatype Field = X | Layers | Obs | Obsm | Obsp | Var | Varm | Varp | Uns

  /** IllegalArgumentException from fromString. */
  datatype FieldError = UnknownField(name: string)

  /** values(): every field, in declaration order. */
  function AllFields(): (fs: seq<Field>)
    ensures |fs| == 9 && fs[0] == X && fs[8] == Uns
  {
    [X, Layers, Obs, Obsm, Obsp, Var, Varm, Varp, Uns]
  }

  /** values() lists every field. */
  lemma {:induction false} AllFieldsComplete()
    ensures forall f :: f in AllFields()
  {
    forall f ensures f in AllFields() {
      match f
      case X =>
      case Layers =>
      case Obs =>
      case Obsm =>
      case Obsp =>
      case Var =>
      case Varm =>
      case Varp =>
      case Uns =>
    }
  }

  function BasePath(f: Field): string
  {
    match f
    case X => "X"
    case Layers => "layers"
    case Obs => "obs"
    case Obsm => "obsm"
    case Obsp => "obsp"
    case Var => "var"
    case Varm => "varm"
    case Varp => "varp"
    case Uns => "uns"
  }

  /** The types a field may itself have. */
  function AllowedTypes(f: Field): seq<FieldType>
  {
    match f
    case X => [DenseArray, CsrMatrix, CscMatrix]
    case Obs | Var => [DataFrame]
    case Layers | Obsm | Obsp | Varm | Varp | Uns => [Mapping]
  }

  /** The types that may be placed below a field. */
  function AllowedChildTypes(f: Field): seq<FieldType>
  {
    match f
    case X => []
    case Layers | Obsp | Varp => [DenseArray, CsrMatrix, CscMatrix]
    case Obsm | Varm => [DenseArray, CsrMatrix, CscMatrix, DataFrame]
    case Obs | Var | Uns => AllTypes()
  }

  /** getPath() and toString(): the base path. */
  function GetPath(f: Field): (p: string)
    ensures p == BasePath(f) && |p| >= 1 && p[0] > ' '
  {
    BasePath(f)
  }

  function ToString(f: Field): (p: string)
    ensures p == GetPath(f)
  {
    BasePath(f)
  }

  /** Base paths are nonempty, free of '/' and pairwise distinct. */
  lemma {:induction false} BasePathsDistinct(f: Field)
    ensures |BasePath(f)| >= 1 && '/' !in BasePath(f)
    ensures forall g :: BasePath(g) == BasePath(f) ==> g == f
  {
  }

  /**
   * canBeA: X may be a dense, CSR or CSC array; obs and var must be data frames;
   * every other field must be a mapping.
   */
  function CanBeA(f: Field, t: FieldType): (r: bool)
    ensures f == X ==> (r <==> IsNumericalArray(t))
    ensures f == Obs || f == Var ==> (r <==> t == DataFrame)
    ensures f in {Layers, Obsm, Obsp, Varm, Varp, Uns} ==> (r <==> t == Mapping)
  {
    t in AllowedTypes(f)
  }

  /**
   * canHaveAsChild: nothing below X; the numerical arrays below layers, obsp and
   * varp; those or a data frame below obsm and varm; anything below obs, var and uns.
   */
  function CanHaveAsChild(f: Field, t: FieldType): (r: bool)
    ensures f == X ==> !r
    ensures f in {Layers, Obsp, Varp} ==> (r <==> IsNumericalArray(t))
    ensures f in {Obsm, Varm} ==> (r <==> IsNumericalArray(t) || t == DataFrame)
    ensures f in {Obs, Var, Uns} ==> r
  {
    AllTypesComplete();
    t in AllowedChildTypes(f)
  }

  /** The first field of `fs` whose base path is `name`. */
  function Find(fs: seq<Field>, name: string): (r: Option<Field>)
    ensures r.Some? ==> r.value in fs && BasePath(r.value) == name
    ensures r.None? <==> forall f :: f in fs ==> BasePath(f) != name
    decreases |fs|
  {
    if |fs| == 0 then None
    else if BasePath(fs[0]) == name then Some(fs[0])
    else Find(fs[1..], name)
  }

  /** fromString: the field whose base path is the name, IllegalArgumentException for any other name. */
  function FromString(name: string): (r: Result<Field, FieldError>)
    ensures r.Ok? <==> exists f :: BasePath(f) == name
    ensures r.Ok? ==> BasePath(r.value) == name
    ensures r.Err? ==> r.error == UnknownField(name)
  {
    AllFieldsComplete();
    match Find(AllFields(), name)
    case Some(f) => Ok(f)
    case None => Err(UnknownField(name))
  }

  /** Every field is read back from its string form. */
  lemma {:induction false} FromStringRoundTrip(f: Field)
    ensures FromString(ToString(f)) == Ok(f)
  {
    BasePathsDistinct(f);
  }
}
