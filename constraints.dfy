/**
 * The write-constraint checkers (io/constraints): before an array is written to a
 * path, the checker tests its type against the field and the parent, and its shape
 * against the container's numbers of observations and variables or the index size
 * of the parent data frame.
 */
module Constraints {
  import opened Wrappers
  import opened FieldTypes
  import opened Fields
  import opened Paths

  /** What a checker reads from the container being written to. */
  datatype Container = Container(
    typeAt: AnnDataPath -> FieldType,    // AnnDataUtils.getFieldType
    nObs: int,                           // AnnDataUtils.getNObs
    nVar: int,                           // AnnDataUtils.getNVar
    indexSizeAt: AnnDataPath -> int)     // AnnDataUtils.getDataFrameIndexSize

  /** The four checker classes. */
  datatype CheckerKind = StrictChecker | TypeOnlyChecker | DimensionOnlyChecker | NoChecker

  /** The constants of the Checker interface. */
  const NONE: CheckerKind := NoChecker
  const ONLY_TYPE: CheckerKind := TypeOnlyChecker
  const ONLY_DIMENSION: CheckerKind := DimensionOnlyChecker
  const STRICT: CheckerKind := StrictChecker

  /** The exceptions check throws: AnnDataException for the three rules, and those of path handling. */
  datatype CheckError =
    | RootHasNoParent                      // ROOT.getParentPath()
    | MalformedPath(error: PathError)      // AnnDataPath.fromString
    | TypeViolation(field: Field, fieldType: FieldType, parentType: FieldType)
    | DataFrameViolation(shape: seq<int>, indexSize: int)
    | DimensionViolation(field: Field, shape: seq<int>, nObs: int, nVar: int)

  predicate Is1D(shape: seq<int>)
  {
    |shape| == 1 || (|shape| == 2 && shape[1] == 1)
  }

  predicate Is2D(shape: seq<int>)
  {
    |shape| == 2
  }

  /** The types a data frame may hold as columns. */
  function AllowedDataFrameTypes(): seq<FieldType>
  {
    [StringArray, CategoricalArray, DenseArray]
  }

  /**
   * The strict type rule: below the AnnData root the field's own type list decides,
   * inside a data frame only string, categorical and dense arrays are allowed, and
   * elsewhere the field's child type list decides.
   */
  function StrictTypeRule(field: Field, t: FieldType, parentType: FieldType): (ok: bool)
    ensures parentType == Anndata ==> (ok <==> CanBeA(field, t))
    ensures parentType == DataFrame ==> (ok <==> t == StringArray || t == CategoricalArray || t == DenseArray)
    ensures parentType != Anndata && parentType != DataFrame ==> (ok <==> CanHaveAsChild(field, t))
  {
    if parentType == Anndata then CanBeA(field, t)
    else if parentType == DataFrame then t in AllowedDataFrameTypes()
    else CanHaveAsChild(field, t)
  }

  /**
   * The strict dimension rule: X and layers are nObs x nVar, obsm is nObs x k and varm
   * nVar x k with k > 1, obsp is nObs x nObs, varp nVar x nVar; obs, var and uns take any shape.
   */
  function StrictDimensionRule(field: Field, shape: seq<int>, nObs: int, nVar: int): (ok: bool)
    ensures field == X || field == Layers ==> (ok <==> shape == [nObs, nVar])
    ensures field == Obsm ==> (ok <==> |shape| == 2 && shape[0] == nObs && shape[1] > 1)
    ensures field == Varm ==> (ok <==> |shape| == 2 && shape[0] == nVar && shape[1] > 1)
    ensures field == Obsp ==> (ok <==> shape == [nObs, nObs])
    ensures field == Varp ==> (ok <==> shape == [nVar, nVar])
    ensures field == Obs || field == Var || field == Uns ==> ok
  {
    match field
    case X | Layers => Is2D(shape) && shape[0] == nObs && shape[1] == nVar
    case Obs | Var => true
    case Obsm => Is2D(shape) && shape[0] == nObs && shape[1] > 1
    case Varm => Is2D(shape) && shape[0] == nVar && shape[1] > 1
    case Obsp => Is2D(shape) && shape[0] == nObs && shape[1] == nObs
    case Varp => Is2D(shape) && shape[0] == nVar && shape[1] == nVar
    case Uns => true
  }

  /** The strict data-frame rule: a column is one-dimensional and as long as the index. */
  function StrictDataFrameRule(shape: seq<int>, indexSize: int): (ok: bool)
    ensures ok <==> shape == [indexSize] || shape == [indexSize, 1]
  {
    Is1D(shape) && shape[0] == indexSize
  }

  /** satisfiesTypeConstraints as each class defines it: the strict rule or always true. */
  function SatisfiesTypeConstraints(kind: CheckerKind, field: Field, t: FieldType, parentType: FieldType): (ok: bool)
    ensures kind == DimensionOnlyChecker || kind == NoChecker ==> ok
    ensures kind == StrictChecker || kind == TypeOnlyChecker ==> ok == StrictTypeRule(field, t, parentType)
  {
    match kind
    case StrictChecker | TypeOnlyChecker => StrictTypeRule(field, t, parentType)
    case DimensionOnlyChecker | NoChecker => true
  }

  /** satisfiesDimensionConstraints as each class defines it. */
  function SatisfiesDimensionConstraints(kind: CheckerKind, field: Field, shape: seq<int>, nObs: int, nVar: int): (ok: bool)
    ensures kind == TypeOnlyChecker || kind == NoChecker ==> ok
    ensures kind == StrictChecker || kind == DimensionOnlyChecker ==> ok == StrictDimensionRule(field, shape, nObs, nVar)
  {
    match kind
    case StrictChecker | DimensionOnlyChecker => StrictDimensionRule(field, shape, nObs, nVar)
    case TypeOnlyChecker | NoChecker => true
  }

  /** satisfiesDataFrameConstraints as each class defines it. */
  function SatisfiesDataFrameConstraints(kind: CheckerKind, shape: seq<int>, indexSize: int): (ok: bool)
    ensures kind == TypeOnlyChecker || kind == NoChecker ==> ok
    ensures kind == StrictChecker || kind == DimensionOnlyChecker ==> ok == StrictDataFrameRule(shape, indexSize)
  {
    match kind
    case StrictChecker | DimensionOnlyChecker => StrictDataFrameRule(shape, indexSize)
    case TypeOnlyChecker | NoChecker => true
  }

  /**
   * check: NoChecker does nothing. The others take the parent path (ROOT has none),
   * test the type first, and then the data-frame rule under a data-frame parent or
   * the field's dimension rule elsewhere, throwing at the first violation.
   */
  function Check(kind: CheckerKind, c: Container, path: AnnDataPath, t: FieldType, shape: seq<int>)
    : (r: Outcome<CheckError>)
    ensures kind == NoChecker ==> r == Pass
    ensures kind != NoChecker && path == Root ==> r == Fail(RootHasNoParent)
    ensures kind != NoChecker && path.FieldPath? ==>
      var parentType := c.typeAt(GetParentPath(path).value);
      (r.Pass? <==>
        && SatisfiesTypeConstraints(kind, path.field, t, parentType)
        && (parentType == DataFrame ==>
              SatisfiesDataFrameConstraints(kind, shape, c.indexSizeAt(GetParentPath(path).value)))
        && (parentType != DataFrame ==> SatisfiesDimensionConstraints(kind, path.field, shape, c.nObs, c.nVar)))
    ensures r.Fail? && kind != NoChecker && path.FieldPath? ==>
      var parentType := c.typeAt(GetParentPath(path).value);
      (r.error.TypeViolation? <==> !SatisfiesTypeConstraints(kind, path.field, t, parentType))
  {
    if kind == NoChecker then Pass
    else
      match GetParentPath(path)
      case Err(_) => Fail(RootHasNoParent)
      case Ok(parentPath) =>
        var parentType := c.typeAt(parentPath);
        var field := path.field;
        if !SatisfiesTypeConstraints(kind, field, t, parentType) then Fail(TypeViolation(field, t, parentType))
        else if parentType == DataFrame then
          var indexSize := c.indexSizeAt(parentPath);
          if !SatisfiesDataFrameConstraints(kind, shape, indexSize) then Fail(DataFrameViolation(shape, indexSize))
          else Pass
        else if !SatisfiesDimensionConstraints(kind, field, shape, c.nObs, c.nVar) then
          Fail(DimensionViolation(field, shape, c.nObs, c.nVar))
        else Pass
  }

  /** The default check(reader, String, ...): parse the path first, so a malformed string throws before any rule. */
  function CheckString(kind: CheckerKind, c: Container, path: Option<string>, t: FieldType, shape: seq<int>)
    : (r: Outcome<CheckError>)
    ensures Paths.FromString(path).Err? ==> r == Fail(MalformedPath(Paths.FromString(path).error))
    ensures Paths.FromString(path).Ok? ==> r == Check(kind, c, Paths.FromString(path).value, t, shape)
  {
    CheckParsed(path, e => MalformedPath(e), p => Check(kind, c, p, t, shape))
  }

  // ---------------------------------------------------------------------------
  // How the checkers relate
  // ---------------------------------------------------------------------------

  /** A type violation is reported whatever the shape: the type is checked before any shape rule. */
  lemma {:induction false} TypeCheckedFirst(kind: CheckerKind, c: Container, path: AnnDataPath, t: FieldType,
                                            shape1: seq<int>, shape2: seq<int>)
    requires Check(kind, c, path, t, shape1).Fail? && Check(kind, c, path, t, shape1).error.TypeViolation?
    ensures Check(kind, c, path, t, shape2) == Check(kind, c, path, t, shape1)
  {
  }

  /** The type-only checker can only report a type violation (or the root's missing parent). */
  lemma {:induction false} TypeOnlyReportsOnlyTypes(c: Container, path: AnnDataPath, t: FieldType, shape: seq<int>)
    ensures Check(TypeOnlyChecker, c, path, t, shape).Fail? ==>
      Check(TypeOnlyChecker, c, path, t, shape).error.TypeViolation?
      || Check(TypeOnlyChecker, c, path, t, shape).error == RootHasNoParent
    ensures path.FieldPath? ==>
      (Check(TypeOnlyChecker, c, path, t, shape).Pass? <==>
       StrictTypeRule(path.field, t, c.typeAt(GetParentPath(path).value)))
  {
  }

  /**
   * The dimension-only checker never reports a type violation, and whenever the
   * strict checker gets past the type rule both report the same outcome.
   */
  lemma {:induction false} DimensionOnlyMatchesStrict(c: Container, path: AnnDataPath, t: FieldType, shape: seq<int>)
    ensures var r := Check(DimensionOnlyChecker, c, path, t, shape);
      r.Fail? ==> !r.error.TypeViolation?
    ensures var s := Check(StrictChecker, c, path, t, shape);
      !(s.Fail? && s.error.TypeViolation?) ==> Check(DimensionOnlyChecker, c, path, t, shape) == s
  {
  }

  /** The strict checker passes exactly when the type-only and the dimension-only checkers both pass. */
  lemma {:induction false} StrictIsBoth(c: Container, path: AnnDataPath, t: FieldType, shape: seq<int>)
    ensures Check(StrictChecker, c, path, t, shape).Pass? <==>
      Check(TypeOnlyChecker, c, path, t, shape).Pass? && Check(DimensionOnlyChecker, c, path, t, shape).Pass?
  {
  }

  /** Under a data-frame parent the field's dimension rule is not consulted, and elsewhere the data-frame rule is not. */
  lemma {:induction false} OneShapeRuleApplies(kind: CheckerKind, c: Container, f: Field, keys: seq<string>,
                                               t: FieldType, shape: seq<int>)
    requires kind == StrictChecker || kind == DimensionOnlyChecker
    requires StrictTypeRule(f, t, c.typeAt(GetParentPath(FieldPath(f, keys)).value))
    ensures var parent := GetParentPath(FieldPath(f, keys)).value;
      c.typeAt(parent) == DataFrame ==>
        (Check(kind, c, FieldPath(f, keys), t, shape).Pass? <==> StrictDataFrameRule(shape, c.indexSizeAt(parent)))
    ensures var parent := GetParentPath(FieldPath(f, keys)).value;
      c.typeAt(parent) != DataFrame ==>
        (Check(kind, c, FieldPath(f, keys), t, shape).Pass? <==> StrictDimensionRule(f, shape, c.nObs, c.nVar))
  {
  }

  /** A one-dimensional shape fails every field rule that needs two dimensions. */
  lemma {:induction false} OneDimensionalShapeFails(f: Field, n: int, nObs: int, nVar: int)
    requires f in {X, Layers, Obsm, Varm, Obsp, Varp}
    ensures !StrictDimensionRule(f, [n], nObs, nVar)
  {
  }
}
