/** The name tables of the project format and the lookups over them
    (ProjectParser.cpp `m_toBlend`, `m_toBlendOp`, `m_toComparisonFunc`,
    `m_toStencilOp`, `m_toCullMode`, and the geometry `type`/`topology`
    searches). The tables themselves are defined in a header that is not part
    of this model, so they are a parameter (`Tables`). */
module Names {
  import opened Common

  datatype NamedValue = NamedValue(name: string, value: GLenum)

  /** A pair of parallel arrays `X_NAMES[k]`, `X_VALUES[k]`. */
  type NameTable = seq<NamedValue>

  datatype Tables = Tables(
    blend: NameTable,              // BLEND_NAMES / BLEND_VALUES
    blendOperator: NameTable,      // BLEND_OPERATOR_NAMES / _VALUES
    comparisonFunction: NameTable, // COMPARISON_FUNCTION_NAMES / _VALUES
    stencilOperation: NameTable,   // STENCIL_OPERATION_NAMES / _VALUES
    cullMode: NameTable,           // CULL_MODE_NAMES / _VALUES
    topology: NameTable,           // TOPOLOGY_ITEM_NAMES / _VALUES
    format: NameTable,             // FORMAT_NAMES / FORMAT_VALUES
    geometry: seq<string>,         // GEOMETRY_NAMES, indexed by geometry type
    systemVariables: seq<string>,  // SYSTEM_VARIABLE_NAMES, indexed by system kind
    functions: seq<string>)        // FUNCTION_NAMES, indexed by function kind

  ghost predicate NamesDistinct(t: NameTable)
  {
    forall i, j :: 0 <= i < j < |t| ==> t[i].name != t[j].name
  }

  ghost predicate Distinct(names: seq<string>)
  {
    forall i, j :: 0 <= i < j < |names| ==> names[i] != names[j]
  }

  /** Index of the first entry called `name`: the linear search with `return`
      on the first `strcmp` match. */
  function FirstIndex(t: NameTable, name: string): (r: Option<nat>)
    ensures r.Some? ==> r.value < |t| && t[r.value].name == name
    ensures r.Some? ==> forall j :: 0 <= j < r.value ==> t[j].name != name
    ensures r.None? ==> forall j :: 0 <= j < |t| ==> t[j].name != name
    decreases |t|
  {
    if t == [] then None
    else if t[0].name == name then Some(0)
    else match FirstIndex(t[1..], name)
      case None => None
      case Some(k) => Some(k + 1)
  }

  /** Index of the first name equal to `name` in a plain list of names (the
      searches over VARIABLE_TYPE_NAMES, SYSTEM_VARIABLE_NAMES, FUNCTION_NAMES
      and FORMAT_NAMES, which `break` on the first match). */
  function FirstIn(names: seq<string>, name: string): (r: Option<nat>)
    ensures r.Some? ==> r.value < |names| && names[r.value] == name
    ensures r.Some? ==> forall j :: 0 <= j < r.value ==> names[j] != name
    ensures r.None? ==> forall j :: 0 <= j < |names| ==> names[j] != name
    decreases |names|
  {
    if names == [] then None
    else if names[0] == name then Some(0)
    else match FirstIn(names[1..], name)
      case None => None
      case Some(k) => Some(k + 1)
  }

  /** `m_toX(text)`: the value of the first entry called `text`, or the fixed
      default when no entry has that name. */
  function ToValue(t: NameTable, name: string, default: GLenum): GLenum
    decreases |t|
  {
    if t == [] then default
    else if t[0].name == name then t[0].value
    else ToValue(t[1..], name, default)
  }

  /** The lookup is the first-match search: it finds the first entry with the
      name, and gives the default exactly when there is none. */
  lemma {:induction false} ToValueFirstMatch(t: NameTable, name: string, default: GLenum)
    ensures FirstIndex(t, name).None? ==> ToValue(t, name, default) == default
    ensures FirstIndex(t, name).Some? ==> ToValue(t, name, default) == t[FirstIndex(t, name).value].value
    decreases |t|
  {
    if t != [] && t[0].name != name {
      ToValueFirstMatch(t[1..], name, default);
    }
  }

  /** `m_toBlend`: unknown factor names become GL_CONSTANT_COLOR. */
  function ToBlend(tables: Tables, name: string): GLenum
  {
    ToValue(tables.blend, name, GL_CONSTANT_COLOR)
  }

  /** `m_toBlendOp`: unknown operator names become GL_FUNC_ADD. */
  function ToBlendOp(tables: Tables, name: string): GLenum
  {
    ToValue(tables.blendOperator, name, GL_FUNC_ADD)
  }

  /** `m_toComparisonFunc`: unknown names become GL_ALWAYS. */
  function ToComparisonFunc(tables: Tables, name: string): GLenum
  {
    ToValue(tables.comparisonFunction, name, GL_ALWAYS)
  }

  /** `m_toStencilOp`: unknown names become GL_KEEP. */
  function ToStencilOp(tables: Tables, name: string): GLenum
  {
    ToValue(tables.stencilOperation, name, GL_KEEP)
  }

  /** `m_toCullMode`: unknown names become GL_BACK. */
  function ToCullMode(tables: Tables, name: string): GLenum
  {
    ToValue(tables.cullMode, name, GL_BACK)
  }

  predicate NameIn(t: NameTable, name: string)
  {
    exists j :: 0 <= j < |t| && t[j].name == name
  }

  /** A name that is in no table entry gives each lookup's fixed default. */
  lemma UnknownNames(tables: Tables, name: string)
    ensures !NameIn(tables.blend, name) ==> ToBlend(tables, name) == GL_CONSTANT_COLOR
    ensures !NameIn(tables.blendOperator, name) ==> ToBlendOp(tables, name) == GL_FUNC_ADD
    ensures !NameIn(tables.comparisonFunction, name) ==> ToComparisonFunc(tables, name) == GL_ALWAYS
    ensures !NameIn(tables.stencilOperation, name) ==> ToStencilOp(tables, name) == GL_KEEP
    ensures !NameIn(tables.cullMode, name) ==> ToCullMode(tables, name) == GL_BACK
  {
    ToValueFirstMatch(tables.blend, name, GL_CONSTANT_COLOR);
    ToValueFirstMatch(tables.blendOperator, name, GL_FUNC_ADD);
    ToValueFirstMatch(tables.comparisonFunction, name, GL_ALWAYS);
    ToValueFirstMatch(tables.stencilOperation, name, GL_KEEP);
    ToValueFirstMatch(tables.cullMode, name, GL_BACK);
  }

  /** Index of the LAST entry called `name`: the geometry `type` and
      `topology` searches assign on every match and have no `break`. */
  function LastIndex(names: seq<string>, name: string): (r: Option<nat>)
    ensures r.Some? ==> r.value < |names| && names[r.value] == name
    ensures r.Some? ==> forall j :: r.value < j < |names| ==> names[j] != name
    ensures r.None? ==> forall j :: 0 <= j < |names| ==> names[j] != name
    decreases |names|
  {
    if names == [] then None
    else if names[|names| - 1] == name then Some(|names| - 1)
    else LastIndex(names[..|names| - 1], name)
  }

  function TableNames(t: NameTable): (r: seq<string>)
    ensures |r| == |t| && forall k :: 0 <= k < |t| ==> r[k] == t[k].name
  {
    seq(|t|, k requires 0 <= k < |t| => t[k].name)
  }

  /** Entry search the writer does with `gl::String::X(value)`: the name of the
      first entry carrying `value`. That function is not part of this model;
      it is taken to be the inverse of the same table, and a value missing
      from the table gets the empty name. */
  function NameOf(t: NameTable, v: GLenum): string
    decreases |t|
  {
    if t == [] then ""
    else if t[0].value == v then t[0].name
    else NameOf(t[1..], v)
  }

  predicate HasValue(t: NameTable, v: GLenum)
  {
    exists k :: 0 <= k < |t| && t[k].value == v
  }

  /** A value in the table is written as the name of an entry carrying it. */
  lemma {:induction false} NameOfFinds(t: NameTable, v: GLenum) returns (k: nat)
    requires HasValue(t, v)
    ensures k < |t| && t[k].value == v && t[k].name == NameOf(t, v)
    decreases |t|
  {
    if t[0].value == v {
      k := 0;
    } else {
      var j :| 0 <= j < |t| && t[j].value == v;
      assert t[1..][j - 1].value == v;
      var k' := NameOfFinds(t[1..], v);
      k := k' + 1;
    }
  }

  /** Writing a value by name and reading the name back gives the value,
      when the value is in the table and the table's names are distinct. */
  lemma NameRoundTrip(t: NameTable, v: GLenum, default: GLenum)
    requires NamesDistinct(t) && HasValue(t, v)
    ensures ToValue(t, NameOf(t, v), default) == v
  {
    var k := NameOfFinds(t, v);
    assert FirstIndex(t, NameOf(t, v)) == Some(k);
    ToValueFirstMatch(t, NameOf(t, v), default);
  }

  /** With distinct names the last-match search finds the entry itself. */
  lemma LastIndexOfDistinct(names: seq<string>, k: nat)
    requires Distinct(names) && k < |names|
    ensures LastIndex(names, names[k]) == Some(k)
  {
  }

  /** With distinct names the first-match search finds the entry itself. */
  lemma FirstInOfDistinct(names: seq<string>, k: nat)
    requires Distinct(names) && k < |names|
    ensures FirstIn(names, names[k]) == Some(k)
  {
  }

  /** `SYSTEM_VARIABLE_NAMES[i]` and the like, for an index the writer has. */
  function NameAt(names: seq<string>, i: nat): string
  {
    if i < |names| then names[i] else ""
  }

  /** The geometry `type` search: the index of the last name equal to
      `name`, or the current value when there is none. */
  function LastPosition(names: seq<string>, name: string, current: nat): (r: nat)
    ensures r == current || (r < |names| && names[r] == name)
  {
    match LastIndex(names, name)
    case Some(k) => k
    case None => current
  }

  /** The geometry `topology` search: the value of the last entry called
      `name`, or the current value when there is none. */
  function LastValue(t: NameTable, name: string, current: GLenum): (r: GLenum)
    ensures r == current || exists k :: 0 <= k < |t| && t[k].name == name && t[k].value == r
  {
    match LastIndex(TableNames(t), name)
    case Some(k) => t[k].value
    case None => current
  }

  /** The topology the writer names is the one the reader finds again. */
  lemma LastValueOfName(t: NameTable, v: GLenum, current: GLenum)
    requires NamesDistinct(t) && HasValue(t, v)
    ensures LastValue(t, NameOf(t, v), current) == v
  {
    var k := NameOfFinds(t, v);
    var names := TableNames(t);
    assert names[k] == NameOf(t, v);
    LastIndexOfDistinct(names, k);
  }
}
