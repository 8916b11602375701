/**
 * The older write checker (io/Checker.java): a pair of strategies, one for types and
 * one for dimensions, applied to a shape first widened to two dimensions. Unlike the
 * checkers of io/constraints it reads the parent path even when it does nothing else,
 * lets any type into a data frame, applies the field rule under a data-frame parent
 * too, and indexes the shape without testing its length.
 */
module LegacyCheckers {
  import opened Wrappers
  import opened FieldTypes
  import opened Fields
  import opened Paths
  import Constraints

  datatype TypeChecker = NoTypeChecker | StrictTypeChecker
  datatype DimensionChecker = NoDimensionChecker | StrictDimensionChecker

  /** A Checker is the pair of strategies its private constructor receives. */
  datatype Checker = Checker(typeChecker: TypeChecker, dimensionChecker: DimensionChecker)

  const NONE: Checker := Checker(NoTypeChecker, NoDimensionChecker)
  const ONLY_TYPE: Checker := Checker(StrictTypeChecker, NoDimensionChecker)
  const ONLY_DIMENSION: Checker := Checker(NoTypeChecker, StrictDimensionChecker)
  const STRICT: Checker := Checker(StrictTypeChecker, StrictDimensionChecker)

  datatype CheckError =
    | RootHasNoParent                               // ROOT.getParentPath()
    | MalformedPath(error: PathError)               // AnnDataPath.fromString
    | ShapeIndexOutOfBounds(index: int)             // shape[index] on a too short shape
    | TypeViolation(field: Field, fieldType: FieldType, parentType: FieldType)
    | DimensionViolation(field: Field, shape: seq<int>, nObs: int, nVar: int)
    | DataFrameViolation(shape: seq<int>, indexSize: int)

  /** ensure2D: a one-entry shape [n] becomes [n, 1]; every other shape is returned as it is. */
  function Ensure2D(shape: seq<int>): (r: seq<int>)
    ensures |shape| == 1 ==> r == [shape[0], 1]
    ensures |shape| != 1 ==> r == shape
    ensures |r| != 1 && (|shape| >= 1 ==> r[0] == shape[0])
  {
    if |shape| == 1 then [shape[0], 1] else shape
  }

  /**
   * Java's `shape[0] ... && shape[1] ...` on a long[]: the first entry is read (and may
   * be out of bounds), and the second only when the first test holds.
   */
  function BothEntries(shape: seq<int>, first: int -> bool, second: int -> bool): (r: Result<bool, CheckError>)
    ensures |shape| >= 2 ==> r == Ok(first(shape[0]) && second(shape[1]))
    ensures |shape| == 0 ==> r == Err(ShapeIndexOutOfBounds(0))
    ensures r.Err? <==> |shape| == 0 || (|shape| == 1 && first(shape[0]))
  {
    if |shape| == 0 then Err(ShapeIndexOutOfBounds(0))
    else if !first(shape[0]) then Ok(false)
    else if |shape| == 1 then Err(ShapeIndexOutOfBounds(1))
    else Ok(second(shape[1]))
  }

  /** StrictTypeChecker: canBeA below the root, anything inside a data frame, canHaveAsChild elsewhere. */
  function StrictTypeCheck(field: Field, t: FieldType, parentType: FieldType): (ok: bool)
    ensures parentType == Anndata ==> (ok <==> CanBeA(field, t))
    ensures parentType == DataFrame ==> ok
    ensures parentType != Anndata && parentType != DataFrame ==> (ok <==> CanHaveAsChild(field, t))
  {
    if parentType == Anndata then CanBeA(field, t)
    else if parentType == DataFrame then true
    else CanHaveAsChild(field, t)
  }

  function TypeCheck(k: TypeChecker, field: Field, t: FieldType, parentType: FieldType): (ok: bool)
    ensures k == NoTypeChecker ==> ok
    ensures k == StrictTypeChecker ==> ok == StrictTypeCheck(field, t, parentType)
  {
    match k
    case NoTypeChecker => true
    case StrictTypeChecker => StrictTypeCheck(field, t, parentType)
  }

  /**
   * StrictDimensionChecker.checkFieldConstraints AS WRITTEN: obs, var, obsm and varm
   * all compare the first extent with nVar.
   */
  function StrictFieldRuleAsWritten(field: Field, shape: seq<int>, nObs: int, nVar: int): (r: Result<bool, CheckError>)
    ensures |shape| >= 2 ==>
      r.Ok? && (r.value <==>
        match field
        case X | Layers => shape[0] == nObs && shape[1] == nVar
        case Obs | Var => shape[0] == nVar && shape[1] == 1
        case Obsm | Varm => shape[0] == nVar && shape[1] > 1
        case Obsp => shape[0] == nObs && shape[1] == nObs
        case Varp => shape[0] == nVar && shape[1] == nVar
        case Uns => true)
    ensures field == Uns ==> r == Ok(true)
  {
    match field
    case X | Layers => BothEntries(shape, n => n == nObs, n => n == nVar)
    case Obs | Var => BothEntries(shape, n => n == nVar, n => n == 1)
    case Obsm | Varm => BothEntries(shape, n => n == nVar, n => n > 1)
    case Obsp => BothEntries(shape, n => n == nObs, n => n == nObs)
    case Varp => BothEntries(shape, n => n == nVar, n => n == nVar)
    case Uns => Ok(true)
  }

  /**
   * The field rule as evidently intended: observation-indexed fields (obs, obsm)
   * compare the first extent with nObs, variable-indexed ones (var, varm) with nVar.
   */
  function StrictFieldRule(field: Field, shape: seq<int>, nObs: int, nVar: int): (r: Result<bool, CheckError>)
    ensures |shape| >= 2 ==>
      r.Ok? && (r.value <==>
        match field
        case X | Layers => shape[0] == nObs && shape[1] == nVar
        case Obs => shape[0] == nObs && shape[1] == 1
        case Var => shape[0] == nVar && shape[1] == 1
        case Obsm => shape[0] == nObs && shape[1] > 1
        case Varm => shape[0] == nVar && shape[1] > 1
        case Obsp => shape[0] == nObs && shape[1] == nObs
        case Varp => shape[0] == nVar && shape[1] == nVar
        case Uns => true)
    ensures field == Uns ==> r == Ok(true)
  {
    match field
    case X | Layers => BothEntries(shape, n => n == nObs, n => n == nVar)
    case Obs => BothEntries(shape, n => n == nObs, n => n == 1)
    case Var => BothEntries(shape, n => n == nVar, n => n == 1)
    case Obsm => BothEntries(shape, n => n == nObs, n => n > 1)
    case Varm => BothEntries(shape, n => n == nVar, n => n > 1)
    case Obsp => BothEntries(shape, n => n == nObs, n => n == nObs)
    case Varp => BothEntries(shape, n => n == nVar, n => n == nVar)
    case Uns => Ok(true)
  }

  /** StrictDimensionChecker.checkDataFrameConstraints: the first extent is the index size and the second is 1. */
  function StrictDataFrameRule(shape: seq<int>, indexSize: int): (r: Result<bool, CheckError>)
    ensures |shape| >= 2 ==> r == Ok(shape[0] == indexSize && shape[1] == 1)
    ensures |shape| == 0 ==> r.Err?
  {
    BothEntries(shape, n => n == indexSize, n => n == 1)
  }

  function FieldConstraints(k: DimensionChecker, field: Field, shape: seq<int>, nObs: int, nVar: int)
    : (r: Result<bool, CheckError>)
    ensures k == NoDimensionChecker ==> r == Ok(true)
    ensures k == StrictDimensionChecker ==> r == StrictFieldRule(field, shape, nObs, nVar)
  {
    match k
    case NoDimensionChecker => Ok(true)
    case StrictDimensionChecker => StrictFieldRule(field, shape, nObs, nVar)
  }

  function DataFrameConstraints(k: DimensionChecker, shape: seq<int>, indexSize: int): (r: Result<bool, CheckError>)
    ensures k == NoDimensionChecker ==> r == Ok(true)
    ensures k == StrictDimensionChecker ==> r == StrictDataFrameRule(shape, indexSize)
  {
    match k
    case NoDimensionChecker => Ok(true)
    case StrictDimensionChecker => StrictDataFrameRule(shape, indexSize)
  }

  /**
   * check: take the parent path (ROOT has none) and widen the shape, then test the
   * type, then the field's dimensions, then, under a data-frame parent only, the
   * data-frame rule; the first failure (or out-of-bounds read) is raised.
   */
  function Check(k: Checker, c: Constraints.Container, path: AnnDataPath, t: FieldType, shape: seq<int>)
    : (r: Outcome<CheckError>)
    ensures path == Root ==> r == Fail(RootHasNoParent)
    ensures path.FieldPath? ==>
      var parent := GetParentPath(path).value;
      var shape2D := Ensure2D(shape);
      (r.Pass? <==>
        && TypeCheck(k.typeChecker, path.field, t, c.typeAt(parent))
        && FieldConstraints(k.dimensionChecker, path.field, shape2D, c.nObs, c.nVar) == Ok(true)
        && (c.typeAt(parent) == DataFrame ==>
              DataFrameConstraints(k.dimensionChecker, shape2D, c.indexSizeAt(parent)) == Ok(true)))
  {
    match GetParentPath(path)
    case Err(_) => Fail(RootHasNoParent)
    case Ok(parentPath) =>
      var parentType := c.typeAt(parentPath);
      var shape2D := Ensure2D(shape);
      var field := path.field;
      if !TypeCheck(k.typeChecker, field, t, parentType) then Fail(TypeViolation(field, t, parentType))
      else
        match FieldConstraints(k.dimensionChecker, field, shape2D, c.nObs, c.nVar)
        case Err(e) => Fail(e)
        case Ok(false) => Fail(DimensionViolation(field, shape2D, c.nObs, c.nVar))
        case Ok(true) =>
          if parentType != DataFrame then Pass
          else
            var indexSize := c.indexSizeAt(parentPath);
            match DataFrameConstraints(k.dimensionChecker, shape2D, indexSize)
            case Err(e) => Fail(e)
            case Ok(false) => Fail(DataFrameViolation(shape2D, indexSize))
            case Ok(true) => Pass
  }

  /** check(reader, String, ...): parse the path first. */
  function CheckString(k: Checker, c: Constraints.Container, path: Option<string>, t: FieldType, shape: seq<int>)
    : (r: Outcome<CheckError>)
    ensures Paths.FromString(path).Err? ==> r == Fail(MalformedPath(Paths.FromString(path).error))
    ensures Paths.FromString(path).Ok? ==> r == Check(k, c, Paths.FromString(path).value, t, shape)
  {
    CheckParsed(path, e => MalformedPath(e), p => Check(k, c, p, t, shape))
  }

  // ---------------------------------------------------------------------------
  // Properties
  // ---------------------------------------------------------------------------

  /** NONE accepts every field path; unlike the newer NoChecker it still fails on the root, whose parent it asks for. */
  lemma {:induction false} NoneAcceptsFieldPaths(c: Constraints.Container, path: AnnDataPath, t: FieldType, shape: seq<int>)
    ensures Check(NONE, c, path, t, shape) == (if path == Root then Fail(RootHasNoParent) else Pass)
  {
  }

  /** A type violation is raised before any shape is looked at. */
  lemma {:induction false} TypeCheckedFirst(k: Checker, c: Constraints.Container, path: AnnDataPath, t: FieldType,
                                            shape1: seq<int>, shape2: seq<int>)
    requires Check(k, c, path, t, shape1).Fail? && Check(k, c, path, t, shape1).error.TypeViolation?
    ensures Check(k, c, path, t, shape2) == Check(k, c, path, t, shape1)
  {
  }

  /** ONLY_TYPE fails only on a type violation or at the root. */
  lemma {:induction false} OnlyTypeReportsOnlyTypes(c: Constraints.Container, path: AnnDataPath, t: FieldType, shape: seq<int>)
    ensures var r := Check(ONLY_TYPE, c, path, t, shape);
      r.Fail? ==> r.error.TypeViolation? || r.error == RootHasNoParent
  {
  }

  /** ONLY_DIMENSION never reports a type violation. */
  lemma {:induction false} OnlyDimensionIgnoresTypes(c: Constraints.Container, path: AnnDataPath, t: FieldType, shape: seq<int>)
    ensures var r := Check(ONLY_DIMENSION, c, path, t, shape);
      r.Fail? ==> !r.error.TypeViolation?
  {
  }

  /**
   * The strict type strategies of the two checkers agree except inside a data frame,
   * where the older one accepts every type and the newer one only string,
   * categorical and dense arrays.
   */
  lemma {:induction false} TypeRulesCompared(field: Field, t: FieldType, parentType: FieldType)
    ensures parentType != DataFrame ==> StrictTypeCheck(field, t, parentType) == Constraints.StrictTypeRule(field, t, parentType)
    ensures parentType == DataFrame ==>
      (StrictTypeCheck(field, t, parentType) && !Constraints.StrictTypeRule(field, t, parentType) <==>
       t !in Constraints.AllowedDataFrameTypes())
  {
  }

  /**
   * On the one- and two-entry shapes the newer checker calls one-dimensional, the
   * older data-frame rule (on the widened shape) decides as the newer one does.
   */
  lemma {:induction false} DataFrameRulesAgreeOnColumns(shape: seq<int>, indexSize: int)
    requires |shape| == 1 || |shape| == 2
    ensures StrictDataFrameRule(Ensure2D(shape), indexSize) == Ok(Constraints.StrictDataFrameRule(shape, indexSize))
  {
  }

  /** The older data-frame rule reads only two entries, so it lets a three-dimensional column through. */
  lemma {:induction false} DataFrameRuleMissesExtraDimensions(n: int, m: int)
    ensures StrictDataFrameRule(Ensure2D([n, 1, m]), n) == Ok(true)
    ensures !Constraints.StrictDataFrameRule([n, 1, m], n)
  {
  }

  /** An empty shape makes the strict field rule of every field but uns read out of bounds. */
  lemma {:induction false} EmptyShapeOutOfBounds(field: Field, nObs: int, nVar: int)
    requires field != Uns
    ensures StrictFieldRuleAsWritten(field, Ensure2D([]), nObs, nVar) == Err(ShapeIndexOutOfBounds(0))
    ensures StrictFieldRule(field, Ensure2D([]), nObs, nVar) == Err(ShapeIndexOutOfBounds(0))
  {
  }

  /** The written rule and the intended one differ only for obs and obsm, and only when nObs != nVar. */
  lemma {:induction false} FieldRulesDifferOnlyOnObs(field: Field, shape: seq<int>, nObs: int, nVar: int)
    requires (field != Obs && field != Obsm) || nObs == nVar
    ensures StrictFieldRuleAsWritten(field, shape, nObs, nVar) == StrictFieldRule(field, shape, nObs, nVar)
  {
  }

  /**
   * As written, a column of the obs data frame (nObs entries, widened to [nObs, 1])
   * and an nObs x 2 obsm array are rejected whenever nObs != nVar, while the
   * intended rule accepts both.
   */
  lemma {:induction false} ObsRuleUsesWrongExtent(nObs: int, nVar: int)
    requires nObs != nVar
    ensures StrictFieldRuleAsWritten(Obs, Ensure2D([nObs]), nObs, nVar) == Ok(false)
    ensures StrictFieldRule(Obs, Ensure2D([nObs]), nObs, nVar) == Ok(true)
    ensures StrictFieldRuleAsWritten(Obsm, [nObs, 2], nObs, nVar) == Ok(false)
    ensures StrictFieldRule(Obsm, [nObs, 2], nObs, nVar) == Ok(true)
  {
  }

  /**
   * With the intended rule, the older strict checker accepts two-dimensional shapes on
   * the fields X, layers, obsm, varm, obsp and varp exactly as the newer one does,
   * outside a data frame.
   */
  lemma {:induction false} FieldRulesAgreeOn2D(field: Field, shape: seq<int>, nObs: int, nVar: int)
    requires |shape| == 2 && field !in {Obs, Var}
    ensures StrictFieldRule(field, shape, nObs, nVar) == Ok(Constraints.StrictDimensionRule(field, shape, nObs, nVar))
  {
  }
}
