/**
 * The AnnData on-disk field types (AnnDataFieldType.java): each type is named by an
 * (encoding, version) pair of attribute strings.
 */
module FieldTypes {
  import opened Wrappers

  datatype FieldType =
    | Anndata | DenseArray | CsrMatrix | CscMatrix | DataFrame | Mapping
    | NumericScalar | StringScalar | CategoricalArray | StringArray
    | NullableInteger | NullableBool | Missing

  /** The exceptions of this file: IllegalArgumentException from fromString, AnnDataException from the guards. */
  datatype FieldTypeError =
    | UnknownFieldType(encoding: string, version: string)
    | NotNumericalArray(found: FieldType)
    | NotStringArray(found: FieldType)

  /** values(): every type, in declaration order. */
  function AllTypes(): (ts: seq<FieldType>)
    ensures |ts| == 13 && ts[0] == Anndata && ts[12] == Missing
  {
    [Anndata, DenseArray, CsrMatrix, CscMatrix, DataFrame, Mapping,
     NumericScalar, StringScalar, CategoricalArray, StringArray,
     NullableInteger, NullableBool, Missing]
  }

  /** values() lists every type. */
  lemma {:induction false} AllTypesComplete()
    ensures forall t :: t in AllTypes()
  {
    forall t ensures t in AllTypes() {
      match t
      case Anndata =>
      case DenseArray =>
      case CsrMatrix =>
      case CscMatrix =>
      case DataFrame =>
      case Mapping =>
      case NumericScalar =>
      case StringScalar =>
      case CategoricalArray =>
      case StringArray =>
      case NullableInteger =>
      case NullableBool =>
      case Missing =>
    }
  }

  function Encoding(t: FieldType): (e: string)
    ensures |e| > 0 && forall i :: 0 <= i < |e| ==> e[i] != ','
  {
    match t
    case Anndata => "anndata"
    case DenseArray => "array"
    case CsrMatrix => "csr_matrix"
    case CscMatrix => "csc_matrix"
    case DataFrame => "dataframe"
    case Mapping => "dict"
    case NumericScalar => "numeric-scalar"
    case StringScalar => "string"
    case CategoricalArray => "categorical"
    case StringArray => "string-array"
    case NullableInteger => "nullable-integer"
    case NullableBool => "nullable-bool"
    case Missing => "missing"
  }

  function Version(t: FieldType): (v: string)
    ensures v == "missing" <==> t == Missing
    ensures t != Missing ==> v == "0.1.0" || v == "0.2.0"
  {
    match t
    case DenseArray | DataFrame | NumericScalar | StringScalar | CategoricalArray | StringArray => "0.2.0"
    case Missing => "missing"
    case _ => "0.1.0"
  }

  /** toString(): "encoding: <encoding>, version: <version>". */
  function ToString(t: FieldType): (s: string)
    ensures |s| == 10 + |Encoding(t)| + 11 + |Version(t)|
    ensures s[..10] == "encoding: " && s[10..10 + |Encoding(t)|] == Encoding(t)
    ensures s[10 + |Encoding(t)|..|s| - |Version(t)|] == ", version: "
    ensures s[|s| - |Version(t)|..] == Version(t)
  {
    "encoding: " + Encoding(t) + ", version: " + Version(t)
  }

  /** Character k of the encoding in toString, and the comma that follows the encoding. */
  lemma PrintedAt(t: FieldType, k: int)
    ensures 0 <= k < |Encoding(t)| ==> ToString(t)[10 + k] == Encoding(t)[k]
    ensures k == |Encoding(t)| ==> ToString(t)[10 + k] == ','
  {
  }

  /** Distinct types print differently: toString names its type. */
  lemma {:induction false} ToStringInjective(t1: FieldType, t2: FieldType)
    ensures ToString(t1) == ToString(t2) ==> t1 == t2
  {
    if ToString(t1) == ToString(t2) {
      // a longer encoding would have the comma of ", version: " inside it
      if |Encoding(t1)| < |Encoding(t2)| {
        PrintedAt(t1, |Encoding(t1)|);
        PrintedAt(t2, |Encoding(t1)|);
        assert false;
      } else if |Encoding(t2)| < |Encoding(t1)| {
        PrintedAt(t2, |Encoding(t2)|);
        PrintedAt(t1, |Encoding(t2)|);
        assert false;
      }
      EncodingsDistinct(t1, t2);
    }
  }

  /** No two types share an (encoding, version) pair, and in fact no two share an encoding. */
  lemma {:induction false} EncodingsDistinct(t1: FieldType, t2: FieldType)
    ensures Encoding(t1) == Encoding(t2) ==> t1 == t2
  {
    if Encoding(t1) == Encoding(t2) && t1 != t2 {
      assert false;
    }
  }

  /** The first type of `ts` with the given encoding and version. */
  function Find(ts: seq<FieldType>, encoding: string, version: string): (r: Option<FieldType>)
    ensures r.Some? ==> r.value in ts && Encoding(r.value) == encoding && Version(r.value) == version
    ensures r.None? <==> forall t :: t in ts ==> !(Encoding(t) == encoding && Version(t) == version)
    decreases |ts|
  {
    if |ts| == 0 then None
    else if Encoding(ts[0]) == encoding && Version(ts[0]) == version then Some(ts[0])
    else Find(ts[1..], encoding, version)
  }

  /**
   * fromString(encoding, version): MISSING when either attribute is absent (null),
   * otherwise the type with both strings, and IllegalArgumentException when none has them.
   */
  function FromString(encoding: Option<string>, version: Option<string>): (r: Result<FieldType, FieldTypeError>)
    ensures encoding.None? || version.None? ==> r == Ok(Missing)
    ensures encoding.Some? && version.Some? ==>
      (r.Ok? <==> exists t :: Encoding(t) == encoding.value && Version(t) == version.value)
    ensures encoding.Some? && version.Some? && r.Ok? ==>
      Encoding(r.value) == encoding.value && Version(r.value) == version.value
    ensures r.Err? ==> r.error == UnknownFieldType(encoding.value, version.value)
  {
    AllTypesComplete();
    if encoding.None? || version.None? then Ok(Missing)
    else
      match Find(AllTypes(), encoding.value, version.value)
      case Some(t) => Ok(t)
      case None => Err(UnknownFieldType(encoding.value, version.value))
  }

  /** Every type, Missing included, is read back from its own encoding and version. */
  lemma {:induction false} FromStringRoundTrip(t: FieldType)
    ensures FromString(Some(Encoding(t)), Some(Version(t))) == Ok(t)
  {
    var r := FromString(Some(Encoding(t)), Some(Version(t)));
    EncodingsDistinct(t, r.value);
  }

  predicate IsNumericalArray(t: FieldType)
  {
    t == DenseArray || t == CsrMatrix || t == CscMatrix
  }

  predicate IsStringArray(t: FieldType)
  {
    t == StringArray || t == CategoricalArray
  }

  /** ensureNumericalArray: passes exactly for the dense, CSR and CSC array types. */
  function EnsureNumericalArray(t: FieldType): (r: Outcome<FieldTypeError>)
    ensures r.Pass? <==> Encoding(t) in {"array", "csr_matrix", "csc_matrix"}
    ensures r.Fail? ==> r.error == NotNumericalArray(t)
  {
    EncodingsDistinct(t, DenseArray);
    EncodingsDistinct(t, CsrMatrix);
    EncodingsDistinct(t, CscMatrix);
    if !IsNumericalArray(t) then Fail(NotNumericalArray(t)) else Pass
  }

  /** ensureStringArray: passes exactly for the string-array and categorical types. */
  function EnsureStringArray(t: FieldType): (r: Outcome<FieldTypeError>)
    ensures r.Pass? <==> Encoding(t) in {"string-array", "categorical"}
    ensures r.Fail? ==> r.error == NotStringArray(t)
  {
    EncodingsDistinct(t, StringArray);
    EncodingsDistinct(t, CategoricalArray);
    if !IsStringArray(t) then Fail(NotStringArray(t)) else Pass
  }

  /** No type is both a numerical and a string array. */
  lemma {:induction false} ArrayKindsDisjoint(t: FieldType)
    ensures !(EnsureNumericalArray(t).Pass? && EnsureStringArray(t).Pass?)
  {
  }
}
