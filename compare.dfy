/**
 * The comparison the Python consistency tests use (src/test/python/utils.py): a
 * fixed sequence of named checks over two AnnData objects that stops at the first
 * failure. Numeric closeness (numpy's allclose) is a parameter; the AnnData objects
 * are records of the fields the comparison reads.
 */
module Compare {
  import opened Wrappers

  /** A numeric array after toarray(): its shape and its values in row-major order. */
  datatype NumArray = NumArray(shape: seq<nat>, values: seq<real>)

  /** A data-frame column: categorical labels, or numbers. */
  datatype Column = Categorical(labels: seq<string>) | Dense(numbers: NumArray)

  /** One value of a column as Python iterates it: a label or a number. */
  datatype Cell = Text(text: string) | Number(number: real)

  /** The parts of an AnnData object the comparison reads. */
  datatype AnnData = AnnData(
    x: NumArray,
    obsp: map<string, NumArray>,
    varp: map<string, NumArray>,
    obsNames: seq<string>,
    varNames: seq<string>,
    obs: map<string, Column>,
    vars: map<string, Column>,
    obsm: map<string, NumArray>,
    varm: map<string, NumArray>,
    uns: map<string, seq<real>>,
    layers: map<string, NumArray>)

  /** ValueError from _check; KeyError and TypeError from the lookups and numpy. */
  datatype CompareError = ValidationFailed(name: string) | KeyError(key: string) | TypeError(key: string)

  /** One check: its name and its condition, which may itself raise. */
  datatype Step = Step(name: string, condition: Result<bool, CompareError>)

  /** _check: raise ValueError naming the field exactly when the condition is false. */
  function CheckCondition(condition: bool, name: string): (r: Outcome<CompareError>)
    ensures r.Fail? <==> !condition
    ensures r.Fail? ==> r.error == ValidationFailed(name)
  {
    if !condition then Fail(ValidationFailed(name)) else Pass
  }

  function Lookup<T>(m: map<string, T>, key: string): (r: Result<T, CompareError>)
    ensures key in m ==> r == Ok(m[key])
    ensures key !in m ==> r == Err(KeyError(key))
  {
    if key in m then Ok(m[key]) else Err(KeyError(key))
  }

  /** allclose of two looked-up arrays, the expected one looked up first. */
  function CloseAt(close: (NumArray, NumArray) -> bool, e: map<string, NumArray>, a: map<string, NumArray>,
                   expectedKey: string, actualKey: string): (r: Result<bool, CompareError>)
    ensures expectedKey !in e ==> r == Err(KeyError(expectedKey))
    ensures expectedKey in e && actualKey !in a ==> r == Err(KeyError(actualKey))
    ensures r.Ok? <==> expectedKey in e && actualKey in a
    ensures r.Ok? ==> (r.value <==> close(e[expectedKey], a[actualKey]))
  {
    match Lookup(e, expectedKey)
    case Err(err) => Err(err)
    case Ok(ea) =>
      match Lookup(a, actualKey)
      case Err(err) => Err(err)
      case Ok(aa) => Ok(close(ea, aa))
  }

  /** allclose of two data-frame columns; numpy cannot compare labels numerically. */
  function CloseColumns(close: (NumArray, NumArray) -> bool, e: map<string, Column>, a: map<string, Column>,
                        expectedKey: string, actualKey: string): (r: Result<bool, CompareError>)
    ensures expectedKey !in e ==> r == Err(KeyError(expectedKey))
    ensures expectedKey in e && actualKey !in a ==> r == Err(KeyError(actualKey))
    ensures expectedKey in e && actualKey in a && !(e[expectedKey].Dense? && a[actualKey].Dense?) ==>
      r == Err(TypeError(actualKey))
    ensures r.Ok? <==> expectedKey in e && actualKey in a && e[expectedKey].Dense? && a[actualKey].Dense?
    ensures r.Ok? ==> (r.value <==> close(e[expectedKey].numbers, a[actualKey].numbers))
  {
    match Lookup(e, expectedKey)
    case Err(err) => Err(err)
    case Ok(ec) =>
      match Lookup(a, actualKey)
      case Err(err) => Err(err)
      case Ok(ac) =>
        if ec.Dense? && ac.Dense? then Ok(close(ec.numbers, ac.numbers)) else Err(TypeError(actualKey))
  }

  /** The values of a column, in order, as iterating it yields them. */
  function Cells(c: Column): (r: seq<Cell>)
    ensures c.Categorical? ==> |r| == |c.labels| && forall k :: 0 <= k < |r| ==> r[k] == Text(c.labels[k])
    ensures c.Dense? ==> |r| == |c.numbers.values| && forall k :: 0 <= k < |r| ==> r[k] == Number(c.numbers.values[k])
  {
    match c
    case Categorical(labels) => seq(|labels|, k requires 0 <= k < |labels| => Text(labels[k]))
    case Dense(numbers) => seq(|numbers.values|, k requires 0 <= k < |numbers.values| => Number(numbers.values[k]))
  }

  /** The list comprehension: the decoder applied to every value of the column. */
  function DecodeAll(decoder: Cell -> Cell, cells: seq<Cell>): (r: seq<Cell>)
    ensures |r| == |cells| && forall k :: 0 <= k < |cells| ==> r[k] == decoder(cells[k])
  {
    seq(|cells|, k requires 0 <= k < |cells| => decoder(cells[k]))
  }

  /**
   * The categorical check: array_equal of the expected column and the decoded values
   * of the actual column stored under the encoded name. Whatever the kinds of the two
   * columns, they are compared value by value.
   */
  function CategoricalEqual(e: map<string, Column>, a: map<string, Column>, key: string,
                            decoder: Cell -> Cell, encoder: string -> string): (r: Result<bool, CompareError>)
    ensures key !in e ==> r == Err(KeyError(key))
    ensures key in e && encoder(key) !in a ==> r == Err(KeyError(encoder(key)))
    ensures r.Ok? <==> key in e && encoder(key) in a
    ensures r.Ok? ==> (r.value <==>
      && |Cells(e[key])| == |Cells(a[encoder(key)])|
      && forall k :: 0 <= k < |Cells(e[key])| ==> Cells(e[key])[k] == decoder(Cells(a[encoder(key)])[k]))
  {
    match Lookup(e, key)
    case Err(err) => Err(err)
    case Ok(ec) =>
      match Lookup(a, encoder(key))
      case Err(err) => Err(err)
      case Ok(ac) => Ok(Cells(ec) == DecodeAll(decoder, Cells(ac)))
  }

  /** array_equal of two looked-up sequences. */
  function EqualAt(e: map<string, seq<real>>, a: map<string, seq<real>>, key: string): (r: Result<bool, CompareError>)
    ensures key !in e || key !in a ==> r == Err(KeyError(key))
    ensures r.Ok? <==> key in e && key in a
    ensures r.Ok? ==> (r.value <==> |e[key]| == |a[key]| && forall k :: 0 <= k < |e[key]| ==> e[key][k] == a[key][k])
  {
    match Lookup(e, key)
    case Err(err) => Err(err)
    case Ok(ev) =>
      match Lookup(a, key)
      case Err(err) => Err(err)
      case Ok(av) => Ok(ev == av)
  }

  /** The twelve checks of compare_anndatas, in the order the source runs them. */
  function Steps(expected: AnnData, actual: AnnData, close: (NumArray, NumArray) -> bool,
                 decoder: Cell -> Cell, encoder: string -> string): (steps: seq<Step>)
    ensures |steps| == 12
  {
    [ Step("X (scipy csr, float32)", Ok(close(expected.x, actual.x))),
      Step("obsp (scipy csr, float64)", CloseAt(close, expected.obsp, actual.obsp, "rnd", "rnd")),
      Step("varp (scipy csc, int16)", CloseAt(close, expected.varp, actual.varp, "rnd", "rnd")),
      Step("obs_names", Ok(expected.obsNames == actual.obsNames)),
      Step("var_names", Ok(expected.varNames == actual.varNames)),
      Step("obs['cell_type'] (categorical)", CategoricalEqual(expected.obs, actual.obs, "cell_type", decoder, encoder)),
      Step("var['gene_stuff1'] (int32)", CloseColumns(close, expected.vars, actual.vars, "gene_stuff1", encoder("gene_stuff1"))),
      Step("var['gene_stuff2'] (int64)", CloseColumns(close, expected.vars, actual.vars, "gene_stuff2", encoder("gene_stuff2"))),
      Step("obsm['X_umap'] (float64)", CloseAt(close, expected.obsm, actual.obsm, "X_umap", "X_umap")),
      Step("varm['X_umap'] (float64)", CloseAt(close, expected.varm, actual.varm, "X_umap", "X_umap")),
      Step("uns['random'] (float64)", EqualAt(expected.uns, actual.uns, "random")),
      Step("layers['log'] (scipy csr, float32)", CloseAt(close, expected.layers, actual.layers, "log", "log")) ]
  }

  /** The names of the checks, in order. */
  function StepNames(steps: seq<Step>): (names: seq<string>)
    ensures |names| == |steps| && forall k :: 0 <= k < |steps| ==> names[k] == steps[k].name
  {
    seq(|steps|, k requires 0 <= k < |steps| => steps[k].name)
  }

  /** Run the checks in order and stop at the first that raises or fails. */
  function RunChecks(steps: seq<Step>): (r: Outcome<CompareError>)
    ensures r.Pass? <==> forall k :: 0 <= k < |steps| ==> steps[k].condition == Ok(true)
    decreases |steps|
  {
    if |steps| == 0 then Pass
    else
      match steps[0].condition
      case Err(e) => Fail(e)
      case Ok(c) =>
        if !c then CheckCondition(c, steps[0].name)
        else RunChecks(steps[1..])
  }

  /** The first check that did not pass decides the error; every check before it passed. */
  function FirstFailure(steps: seq<Step>): (k: nat)
    requires exists j :: 0 <= j < |steps| && steps[j].condition != Ok(true)
    ensures k < |steps| && steps[k].condition != Ok(true)
    ensures forall j :: 0 <= j < k ==> steps[j].condition == Ok(true)
    decreases |steps|
  {
    if steps[0].condition != Ok(true) then 0
    else
      var j :| 0 <= j < |steps| && steps[j].condition != Ok(true);
      assert steps[1..][j - 1] == steps[j];
      var k := FirstFailure(steps[1..]);
      assert forall i :: 1 <= i < k + 1 ==> steps[i] == steps[1..][i - 1];
      k + 1
  }

  /**
   * Fail-fast: the outcome is that of the first check that did not pass. A false
   * condition names that check; a condition that raised passes its error on.
   */
  lemma {:induction false} RunChecksStopsAtFirstFailure(steps: seq<Step>)
    requires exists j :: 0 <= j < |steps| && steps[j].condition != Ok(true)
    ensures var k := FirstFailure(steps);
      RunChecks(steps) == (match steps[k].condition
                           case Err(e) => Fail(e)
                           case Ok(_) => Fail(ValidationFailed(steps[k].name)))
    decreases |steps|
  {
    if steps[0].condition == Ok(true) {
      var j :| 0 <= j < |steps| && steps[j].condition != Ok(true);
      assert steps[1..][j - 1] == steps[j];
      RunChecksStopsAtFirstFailure(steps[1..]);
    }
  }

  /** compare_anndatas: the twelve checks, fail-fast. */
  function CompareAnnDatas(expected: AnnData, actual: AnnData, close: (NumArray, NumArray) -> bool,
                           decoder: Cell -> Cell, encoder: string -> string): (r: Outcome<CompareError>)
    ensures r.Pass? <==> forall k :: 0 <= k < 12 ==> Steps(expected, actual, close, decoder, encoder)[k].condition == Ok(true)
  {
    RunChecks(Steps(expected, actual, close, decoder, encoder))
  }

  function Identity(s: string): string
  {
    s
  }

  function IdentityCell(c: Cell): Cell
  {
    c
  }

  /** compare_anndatas with its default decoder and encoder, both the identity. */
  function CompareWithDefaults(expected: AnnData, actual: AnnData, close: (NumArray, NumArray) -> bool)
    : (r: Outcome<CompareError>)
    ensures r == CompareAnnDatas(expected, actual, close, IdentityCell, Identity)
  {
    CompareAnnDatas(expected, actual, close, IdentityCell, Identity)
  }

  /**
   * With the default decoder the cell_type check compares the two columns value by
   * value, whatever their kinds: two equal numeric columns pass, and a categorical
   * column never equals a non-empty numeric one.
   */
  lemma {:induction false} DefaultCellTypeByValue(e: map<string, Column>, a: map<string, Column>)
    requires "cell_type" in e && "cell_type" in a
    ensures CategoricalEqual(e, a, "cell_type", IdentityCell, Identity) == Ok(Cells(e["cell_type"]) == Cells(a["cell_type"]))
    ensures e["cell_type"].Dense? && e["cell_type"] == a["cell_type"] ==>
      CategoricalEqual(e, a, "cell_type", IdentityCell, Identity) == Ok(true)
    ensures e["cell_type"].Categorical? && a["cell_type"].Dense? && |a["cell_type"].numbers.values| > 0 ==>
      CategoricalEqual(e, a, "cell_type", IdentityCell, Identity) == Ok(false)
  {
    var ac := Cells(a["cell_type"]);
    assert DecodeAll(IdentityCell, ac) == ac;
    if e["cell_type"].Categorical? && a["cell_type"].Dense? && |a["cell_type"].numbers.values| > 0 {
      assert ac[0].Number?;
      if |Cells(e["cell_type"])| > 0 {
        assert Cells(e["cell_type"])[0].Text?;
      }
    }
  }

  /** The check names, in the order they run. */
  lemma {:induction false} CheckOrder(expected: AnnData, actual: AnnData, close: (NumArray, NumArray) -> bool,
                                      decoder: Cell -> Cell, encoder: string -> string)
    ensures StepNames(Steps(expected, actual, close, decoder, encoder)) ==
      [ "X (scipy csr, float32)", "obsp (scipy csr, float64)", "varp (scipy csc, int16)",
        "obs_names", "var_names", "obs['cell_type'] (categorical)",
        "var['gene_stuff1'] (int32)", "var['gene_stuff2'] (int64)",
        "obsm['X_umap'] (float64)", "varm['X_umap'] (float64)",
        "uns['random'] (float64)", "layers['log'] (scipy csr, float32)" ]
  {
  }

  /** When X is not close, only X is reported, whatever else differs. */
  lemma {:induction false} XReportedFirst(expected: AnnData, actual: AnnData, close: (NumArray, NumArray) -> bool,
                                          decoder: Cell -> Cell, encoder: string -> string)
    requires !close(expected.x, actual.x)
    ensures CompareAnnDatas(expected, actual, close, decoder, encoder) == Fail(ValidationFailed("X (scipy csr, float32)"))
  {
  }

  /** The fields the comparison needs, with the column kinds it expects. */
  predicate Complete(d: AnnData)
  {
    && "rnd" in d.obsp && "rnd" in d.varp
    && "cell_type" in d.obs && d.obs["cell_type"].Categorical?
    && "gene_stuff1" in d.vars && d.vars["gene_stuff1"].Dense?
    && "gene_stuff2" in d.vars && d.vars["gene_stuff2"].Dense?
    && "X_umap" in d.obsm && "X_umap" in d.varm
    && "random" in d.uns && "log" in d.layers
  }

  /**
   * The object as a writer with a string encoder stores it: the categorical labels
   * encoded, and the categorical column and the two var columns also under their
   * encoded names.
   */
  function Encoded(d: AnnData, encoder: string -> string): (r: AnnData)
    requires Complete(d)
  {
    var labels := d.obs["cell_type"].labels;
    d.(obs := d.obs[encoder("cell_type") := Categorical(seq(|labels|, k requires 0 <= k < |labels| => encoder(labels[k])))],
       vars := d.vars[encoder("gene_stuff1") := d.vars["gene_stuff1"]][encoder("gene_stuff2") := d.vars["gene_stuff2"]])
  }

  /**
   * An object compares equal to its encoded form under a decoder that undoes the
   * encoder, for any closeness test that holds of equal arrays.
   */
  lemma {:induction false} EncodedCopyPasses(d: AnnData, close: (NumArray, NumArray) -> bool,
                                             decoder: Cell -> Cell, encoder: string -> string)
    requires Complete(d)
    requires forall a :: close(a, a)
    requires forall s :: decoder(Text(encoder(s))) == Text(s)
    ensures CompareAnnDatas(d, Encoded(d, encoder), close, decoder, encoder) == Pass
  {
    var a := Encoded(d, encoder);
    assert decoder(Text(encoder("gene_stuff1"))) != decoder(Text(encoder("gene_stuff2")));
    var labels := d.obs["cell_type"].labels;
    assert DecodeAll(decoder, Cells(a.obs[encoder("cell_type")])) == Cells(d.obs["cell_type"]);
    var steps := Steps(d, a, close, decoder, encoder);
    assert forall k :: 0 <= k < 12 ==> steps[k].condition == Ok(true);
  }

  /** With the default identity codec, every object compares equal to itself. */
  lemma {:induction false} SelfComparisonPasses(d: AnnData, close: (NumArray, NumArray) -> bool)
    requires Complete(d)
    requires forall a :: close(a, a)
    ensures CompareWithDefaults(d, d, close) == Pass
  {
    var cells := Cells(d.obs["cell_type"]);
    assert DecodeAll(IdentityCell, cells) == cells;
    var steps := Steps(d, d, close, IdentityCell, Identity);
    assert forall k :: 0 <= k < 12 ==> steps[k].condition == Ok(true);
  }
}
