/** Shader variables as the project parser reads and writes them
    (ProjectParser.cpp `m_parseVariableValue`, `m_exportVariableValue`,
    `m_exportShaderVariables` and the `variable` readers of both versions).

    `ShaderVariable`, `SystemVariableManager` and `FunctionVariableManager`
    are not part of this model; what the parser asks of them (the type a system
    variable has, whether a function can return a type, how many arguments a
    function has, the byte size and column count of a type) is taken as given
    through `VariableOracles`. */
module Variables {
  import opened Common
  import opened Document
  import opened Names

  datatype ValueType =
    | Boolean1 | Boolean2 | Boolean3 | Boolean4
    | Integer1 | Integer2 | Integer3 | Integer4
    | Float1 | Float2 | Float3 | Float4
    | Float2x2 | Float3x3 | Float4x4

  /** The types in enumeration order; VARIABLE_TYPE_NAMES follows it. */
  const AllTypes: seq<ValueType> := [
    Boolean1, Boolean2, Boolean3, Boolean4,
    Integer1, Integer2, Integer3, Integer4,
    Float1, Float2, Float3, Float4,
    Float2x2, Float3x3, Float4x4]

  /** `GetType() >= Boolean1 && GetType() <= Boolean4` */
  predicate IsBoolean(t: ValueType)
  {
    t.Boolean1? || t.Boolean2? || t.Boolean3? || t.Boolean4?
  }

  /** `GetType() >= Integer1 && GetType() <= Integer4` */
  predicate IsInteger(t: ValueType)
  {
    t.Integer1? || t.Integer2? || t.Integer3? || t.Integer4?
  }

  /** `SystemShaderVariable::None` and `FunctionShaderVariable::None`. */
  const NoSystem: nat := 0
  const NoFunction: nat := 0

  datatype VariableOracles = VariableOracles(
    typeName: ValueType -> string,                  // VARIABLE_TYPE_NAMES[(int)type]
    systemType: nat -> ValueType,                   // SystemVariableManager::GetType
    hasValidReturnType: (ValueType, nat) -> bool,   // FunctionVariableManager::HasValidReturnType
    argumentCount: nat -> nat,                      // FunctionVariableManager::GetArgumentCount
    pointer: nat,                                   // FunctionShaderVariable::Pointer
    size: ValueType -> nat,                         // ShaderVariable::GetSize, in bytes
    columnCount: ValueType -> nat)                  // ShaderVariable::GetColumnCount

  function TypeNames(vo: VariableOracles): (r: seq<string>)
    ensures |r| == |AllTypes| && forall k :: 0 <= k < |AllTypes| ==> r[k] == vo.typeName(AllTypes[k])
  {
    seq(|AllTypes|, k requires 0 <= k < |AllTypes| => vo.typeName(AllTypes[k]))
  }

  lemma AllTypesComplete(t: ValueType)
    ensures exists k :: 0 <= k < |AllTypes| && AllTypes[k] == t
  {
    match t
    case Boolean1 => assert AllTypes[0] == t;
    case Boolean2 => assert AllTypes[1] == t;
    case Boolean3 => assert AllTypes[2] == t;
    case Boolean4 => assert AllTypes[3] == t;
    case Integer1 => assert AllTypes[4] == t;
    case Integer2 => assert AllTypes[5] == t;
    case Integer3 => assert AllTypes[6] == t;
    case Integer4 => assert AllTypes[7] == t;
    case Float1 => assert AllTypes[8] == t;
    case Float2 => assert AllTypes[9] == t;
    case Float3 => assert AllTypes[10] == t;
    case Float4 => assert AllTypes[11] == t;
    case Float2x2 => assert AllTypes[12] == t;
    case Float3x3 => assert AllTypes[13] == t;
    case Float4x4 => assert AllTypes[14] == t;
  }

  /** One cell of the value grid. */
  datatype Cell = BoolCell(b: bool) | IntCell(i: int) | FloatCell(f: Scalar)

  /** A shader variable. The value grid `data` is addressed by
      (column, row); boolean and integer vectors use row 0 and their component
      index as the column. A cell that was never set reads as zero. A function
      variable keeps its arguments instead: float slots, or one string for the
      Pointer function. */
  datatype ShaderVariable = ShaderVariable(
    vtype: ValueType,
    name: string,
    system: nat,
    func: nat,
    invert: bool,
    lastFrame: bool,
    data: map<(nat, nat), Cell>,
    arguments: map<nat, Scalar>,
    pointerArgument: string)

  /** `new ShaderVariable(type, name, system)`: no flags, no function, a zero value. */
  function NewVariable(t: ValueType, name: string, system: nat): (v: ShaderVariable)
    ensures v.vtype == t && v.name == name && v.system == system
    ensures v.func == NoFunction && !v.invert && !v.lastFrame && v.data == map[]
  {
    ShaderVariable(t, name, system, NoFunction, false, false, map[], map[], "")
  }

  /** `FunctionVariableManager::AllocateArgumentSpace(var, func)`: the
      variable takes the function and blank, zero arguments. */
  function AllocateArgumentSpace(v: ShaderVariable, f: nat): (r: ShaderVariable)
    ensures r == v.(func := f, arguments := map[], pointerArgument := "")
  {
    v.(func := f, arguments := map[], pointerArgument := "")
  }

  function AsBoolean(v: ShaderVariable, i: nat): bool
  {
    if (i, 0) in v.data && v.data[(i, 0)].BoolCell? then v.data[(i, 0)].b else false
  }

  function AsInteger(v: ShaderVariable, i: nat): int
  {
    if (i, 0) in v.data && v.data[(i, 0)].IntCell? then v.data[(i, 0)].i else 0
  }

  function AsFloat(v: ShaderVariable, col: nat, row: nat): Scalar
  {
    if (col, row) in v.data && v.data[(col, row)].FloatCell? then v.data[(col, row)].f else Zero
  }

  /** `*FunctionVariableManager::LoadFloat(var->Arguments, i)` */
  function LoadFloat(v: ShaderVariable, i: nat): Scalar
  {
    if i in v.arguments then v.arguments[i] else Zero
  }

  // ---------------------------------------------------------------------
  // Declaration: type, system kind, function kind and flags

  /** The `type` attribute: the first type whose name it is; Float1 when the
      attribute is missing or names no type. */
  function ReadType(vo: VariableOracles, n: Node): (t: ValueType)
    ensures "type" !in n.attrs ==> t == Float1
    ensures t == Float1 || vo.typeName(t) == n.attrs["type"]
    ensures "type" in n.attrs && (exists u :: vo.typeName(u) == n.attrs["type"]) ==> vo.typeName(t) == n.attrs["type"]
  {
    if "type" !in n.attrs then Float1
    else
      var names := TypeNames(vo);
      match FirstIn(names, n.attrs["type"])
      case None =>
        assert forall u :: vo.typeName(u) != n.attrs["type"] by {
          forall u ensures vo.typeName(u) != n.attrs["type"] {
            AllTypesComplete(u);
          }
        }
        Float1
      case Some(k) => AllTypes[k]
  }

  /** The `system` attribute: the first system kind with that name, kept only
      when that system variable has the declared type. */
  function ReadSystem(tables: Tables, vo: VariableOracles, n: Node, t: ValueType): (s: nat)
    ensures s != NoSystem ==> "system" in n.attrs && s < |tables.systemVariables|
                              && tables.systemVariables[s] == n.attrs["system"] && vo.systemType(s) == t
    ensures "system" in n.attrs ==>
              match FirstIn(tables.systemVariables, n.attrs["system"])
              case None => s == NoSystem
              case Some(k) => s == (if vo.systemType(k) == t then k else NoSystem)
  {
    if "system" !in n.attrs then NoSystem
    else match FirstIn(tables.systemVariables, n.attrs["system"])
      case None => NoSystem
      case Some(k) => if vo.systemType(k) == t then k else NoSystem
  }

  /** The `function` attribute: the first function kind with that name, kept
      only when no system kind was kept and the function can return the type. */
  function ReadFunction(tables: Tables, vo: VariableOracles, n: Node, t: ValueType, s: nat): (f: nat)
    ensures s != NoSystem ==> f == NoFunction
    ensures f != NoFunction ==> "function" in n.attrs && f < |tables.functions|
                                && tables.functions[f] == n.attrs["function"] && vo.hasValidReturnType(t, f)
    ensures "function" in n.attrs && s == NoSystem ==>
              match FirstIn(tables.functions, n.attrs["function"])
              case None => f == NoFunction
              case Some(k) => f == (if vo.hasValidReturnType(t, k) then k else NoFunction)
  {
    if "function" !in n.attrs then NoFunction
    else match FirstIn(tables.functions, n.attrs["function"])
      case None => NoFunction
      case Some(k) => if s != NoSystem || !vo.hasValidReturnType(t, k) then NoFunction else k
  }

  /** The declaration part of a `variable` node: everything but its value.
      Version 1 documents have no flags; version 2 reads `invert` and
      `lastframe`. */
  function ReadDeclaration(cv: Conv, tables: Tables, vo: VariableOracles, n: Node, withFlags: bool): (v: ShaderVariable)
    ensures v.name == AttrText(n, "name") && v.vtype == ReadType(vo, n)
    ensures v.system != NoSystem ==> vo.systemType(v.system) == v.vtype
    ensures v.func != NoFunction ==> v.system == NoSystem && vo.hasValidReturnType(v.vtype, v.func)
    ensures v.invert == (withFlags && AttrBool(cv, n, "invert"))
    ensures v.lastFrame == (withFlags && AttrBool(cv, n, "lastframe"))
    ensures v.data == map[] && v.arguments == map[] && v.pointerArgument == ""
  {
    var t := ReadType(vo, n);
    var s := ReadSystem(tables, vo, n, t);
    var f := ReadFunction(tables, vo, n, t, s);
    var v := NewVariable(t, AttrText(n, "name"), s);
    var v := v.(invert := withFlags && AttrBool(cv, n, "invert"), lastFrame := withFlags && AttrBool(cv, n, "lastframe"));
    AllocateArgumentSpace(v, f)
  }

  /** A variable that a system variable drives never has both tags set. */
  lemma SystemAndFunctionExclusive(cv: Conv, tables: Tables, vo: VariableOracles, n: Node, withFlags: bool)
    ensures var v := ReadDeclaration(cv, tables, vo, n, withFlags);
            !(v.system != NoSystem && v.func != NoFunction)
  {
  }

  // ---------------------------------------------------------------------
  // Value parsing (m_parseVariableValue)

  /** Where one `value` element is stored. */
  datatype Target = Grid(col: nat, row: nat) | Argument(index: nat) | PointerText

  datatype Write = Write(target: Target, text: string)

  /** The cell the value in column `col` of row `row` goes to. */
  function TargetOf(vo: VariableOracles, v: ShaderVariable, col: nat, row: nat): Target
  {
    if v.func != NoFunction then
      (if v.func == vo.pointer then PointerText else Argument(col))
    else if IsBoolean(v.vtype) || IsInteger(v.vtype) then Grid(col, 0)
    else Grid(col, row)
  }

  /** What the cell holding `t` reads as. */
  datatype Stored = CellValue(cell: Cell) | ArgumentValue(arg: Scalar) | TextValue(text: string) | Unset

  function Lookup(v: ShaderVariable, t: Target): Stored
  {
    match t
    case Grid(c, r) => if (c, r) in v.data then CellValue(v.data[(c, r)]) else Unset
    case Argument(i) => if i in v.arguments then ArgumentValue(v.arguments[i]) else Unset
    case PointerText => TextValue(v.pointerArgument)
  }

  /** The conversion the parser applies to a value's text before storing it at `t`. */
  function Converted(cv: Conv, v: ShaderVariable, t: Target, text: string): Stored
  {
    match t
    case PointerText => TextValue(text)
    case Argument(_) => ArgumentValue(cv.asFloat(text))
    case Grid(_, _) =>
      CellValue(if IsBoolean(v.vtype) then BoolCell(cv.asBool(text))
                else if IsInteger(v.vtype) then IntCell(cv.asInt(text))
                else FloatCell(cv.asFloat(text)))
  }

  /** One store: `strcpy(var->Arguments, ...)`, `*LoadFloat(...) = ...`,
      `SetBooleanValue`, `SetIntegerValue` or `SetFloat`. */
  function Put(cv: Conv, v: ShaderVariable, w: Write): (r: ShaderVariable)
    ensures r.vtype == v.vtype && r.name == v.name && r.system == v.system && r.func == v.func
    ensures r.invert == v.invert && r.lastFrame == v.lastFrame
    ensures Lookup(r, w.target) == Converted(cv, v, w.target, w.text)
  {
    match w.target
    case PointerText => v.(pointerArgument := w.text)
    case Argument(i) => v.(arguments := v.arguments[i := cv.asFloat(w.text)])
    case Grid(c, r) =>
      var cell := if IsBoolean(v.vtype) then BoolCell(cv.asBool(w.text))
                  else if IsInteger(v.vtype) then IntCell(cv.asInt(w.text))
                  else FloatCell(cv.asFloat(w.text));
      v.(data := v.data[(c, r) := cell])
  }

  /** A store changes the cell it names and no other. */
  lemma PutLookup(cv: Conv, v: ShaderVariable, w: Write, t: Target)
    ensures Lookup(Put(cv, v, w), t) == if t == w.target then Converted(cv, v, t, w.text) else Lookup(v, t)
  {
  }

  function Apply(cv: Conv, v: ShaderVariable, ws: seq<Write>): ShaderVariable
    decreases |ws|
  {
    if ws == [] then v else Put(cv, Apply(cv, v, ws[..|ws| - 1]), ws[|ws| - 1])
  }

  /** The text of the last write to `t`, if any. */
  function LastFor(ws: seq<Write>, t: Target): Option<string>
    decreases |ws|
  {
    if ws == [] then None
    else if ws[|ws| - 1].target == t then Some(ws[|ws| - 1].text)
    else LastFor(ws[..|ws| - 1], t)
  }

  /** The texts of the `value` elements of each `row` element, in order. */
  function ValueRows(n: Node): (rows: seq<seq<string>>)
    ensures |rows| == |ChildrenNamed(n, "row")|
  {
    var rs := ChildrenNamed(n, "row");
    seq(|rs|, i requires 0 <= i < |rs| => Texts(ChildrenNamed(rs[i], "value")))
  }

  function Texts(ns: seq<Node>): (r: seq<string>)
    ensures |r| == |ns| && forall i :: 0 <= i < |ns| ==> r[i] == ns[i].text
  {
    seq(|ns|, i requires 0 <= i < |ns| => ns[i].text)
  }

  function RowWrites(vo: VariableOracles, v: ShaderVariable, row: nat, values: seq<string>): (ws: seq<Write>)
    ensures |ws| == |values|
    ensures forall c :: 0 <= c < |values| ==> ws[c] == Write(TargetOf(vo, v, c, row), values[c])
  {
    seq(|values|, c requires 0 <= c < |values| => Write(TargetOf(vo, v, c, row), values[c]))
  }

  /** All stores of a parse, in document order. */
  function Writes(vo: VariableOracles, v: ShaderVariable, rows: seq<seq<string>>): seq<Write>
    decreases |rows|
  {
    if rows == [] then []
    else Writes(vo, v, rows[..|rows| - 1]) + RowWrites(vo, v, |rows| - 1, rows[|rows| - 1])
  }

  /** The variable after `m_parseVariableValue(node, v)`. */
  function ParsedValue(cv: Conv, vo: VariableOracles, n: Node, v: ShaderVariable): ShaderVariable
  {
    Apply(cv, v, Writes(vo, v, ValueRows(n)))
  }

  lemma {:induction false} ApplyAppend(cv: Conv, v: ShaderVariable, a: seq<Write>, b: seq<Write>)
    ensures Apply(cv, v, a + b) == Apply(cv, Apply(cv, v, a), b)
    decreases |b|
  {
    if b == [] {
      assert a + b == a;
    } else {
      assert (a + b)[..|a + b| - 1] == a + b[..|b| - 1];
      ApplyAppend(cv, v, a, b[..|b| - 1]);
    }
  }

  /** The last store to a cell decides what it holds; a cell nobody stores to keeps its value. */
  lemma {:induction false} ApplyLastWins(cv: Conv, v: ShaderVariable, ws: seq<Write>, t: Target)
    ensures Apply(cv, v, ws).vtype == v.vtype && Apply(cv, v, ws).func == v.func
    ensures Apply(cv, v, ws).name == v.name && Apply(cv, v, ws).system == v.system
    ensures Lookup(Apply(cv, v, ws), t) ==
              match LastFor(ws, t)
              case Some(x) => Converted(cv, v, t, x)
              case None => Lookup(v, t)
    decreases |ws|
  {
    if ws != [] {
      ApplyLastWins(cv, v, ws[..|ws| - 1], t);
      PutLookup(cv, Apply(cv, v, ws[..|ws| - 1]), ws[|ws| - 1], t);
    }
  }

  lemma {:induction false} LastForAppend(a: seq<Write>, b: seq<Write>, t: Target)
    ensures LastFor(a + b, t) == if LastFor(b, t).Some? then LastFor(b, t) else LastFor(a, t)
    decreases |b|
  {
    if b == [] {
      assert a + b == a;
    } else {
      assert (a + b)[..|a + b| - 1] == a + b[..|b| - 1];
      LastForAppend(a, b[..|b| - 1], t);
    }
  }

  lemma {:induction false} LastForRow(vo: VariableOracles, v: ShaderVariable, row: nat, values: seq<string>, t: Target)
    ensures var ws := RowWrites(vo, v, row, values);
            LastFor(ws, t).Some? ==> exists c :: 0 <= c < |values| && TargetOf(vo, v, c, row) == t
                                      && LastFor(ws, t) == Some(values[c])
                                      && forall c' :: c < c' < |values| ==> TargetOf(vo, v, c', row) != t
    ensures var ws := RowWrites(vo, v, row, values);
            LastFor(ws, t).None? ==> forall c :: 0 <= c < |values| ==> TargetOf(vo, v, c, row) != t
    decreases |values|
  {
    var ws := RowWrites(vo, v, row, values);
    if values != [] {
      var k := |values| - 1;
      assert ws[..k] == RowWrites(vo, v, row, values[..k]);
      LastForRow(vo, v, row, values[..k], t);
    }
  }

  predicate IsConstantFloat(v: ShaderVariable)
  {
    v.func == NoFunction && !IsBoolean(v.vtype) && !IsInteger(v.vtype)
  }

  predicate IsConstantVector(v: ShaderVariable)
  {
    v.func == NoFunction && (IsBoolean(v.vtype) || IsInteger(v.vtype))
  }

  /** Float values: the value in column c of row r lands in cell (c, r), and
      no other value lands there. */
  lemma {:induction false} FloatWrites(vo: VariableOracles, v: ShaderVariable, rows: seq<seq<string>>, c: nat, r: nat)
    requires IsConstantFloat(v)
    ensures LastFor(Writes(vo, v, rows), Grid(c, r)) == if r < |rows| && c < |rows[r]| then Some(rows[r][c]) else None
    decreases |rows|
  {
    if rows != [] {
      var k := |rows| - 1;
      FloatWrites(vo, v, rows[..k], c, r);
      LastForAppend(Writes(vo, v, rows[..k]), RowWrites(vo, v, k, rows[k]), Grid(c, r));
      LastForRow(vo, v, k, rows[k], Grid(c, r));
    }
  }

  /** The value that column c of the LAST row having a c-th value holds. */
  function LastInColumn(rows: seq<seq<string>>, c: nat): (r: Option<string>)
    ensures r.Some? ==> exists k :: 0 <= k < |rows| && c < |rows[k]| && rows[k][c] == r.value
                                && forall k' :: k < k' < |rows| ==> |rows[k']| <= c
    ensures r.None? ==> forall k :: 0 <= k < |rows| ==> |rows[k]| <= c
    decreases |rows|
  {
    if rows == [] then None
    else if c < |rows[|rows| - 1]| then Some(rows[|rows| - 1][c])
    else LastInColumn(rows[..|rows| - 1], c)
  }

  /** Boolean and integer vectors: the column counter restarts at 0 in each
      row and the row is ignored, so component c ends up holding the c-th value
      of the last row that has one. */
  lemma {:induction false} VectorWrites(vo: VariableOracles, v: ShaderVariable, rows: seq<seq<string>>, c: nat, r: nat)
    requires IsConstantVector(v)
    ensures LastFor(Writes(vo, v, rows), Grid(c, r)) == if r == 0 then LastInColumn(rows, c) else None
    decreases |rows|
  {
    if rows != [] {
      var k := |rows| - 1;
      VectorWrites(vo, v, rows[..k], c, r);
      LastForAppend(Writes(vo, v, rows[..k]), RowWrites(vo, v, k, rows[k]), Grid(c, r));
      LastForRow(vo, v, k, rows[k], Grid(c, r));
      assert rows[..k] == rows[..|rows| - 1];
    }
  }

  /** Non-pointer functions: argument slot c holds the c-th value of the last row that has one. */
  lemma {:induction false} ArgumentWrites(vo: VariableOracles, v: ShaderVariable, rows: seq<seq<string>>, c: nat)
    requires v.func != NoFunction && v.func != vo.pointer
    ensures LastFor(Writes(vo, v, rows), Argument(c)) == LastInColumn(rows, c)
    decreases |rows|
  {
    if rows != [] {
      var k := |rows| - 1;
      ArgumentWrites(vo, v, rows[..k], c);
      LastForAppend(Writes(vo, v, rows[..k]), RowWrites(vo, v, k, rows[k]), Argument(c));
      LastForRow(vo, v, k, rows[k], Argument(c));
    }
  }

  /** The last value of the last non-empty row. */
  function LastRowValue(rows: seq<seq<string>>): (r: Option<string>)
    ensures r.Some? ==> exists k :: 0 <= k < |rows| && |rows[k]| > 0 && rows[k][|rows[k]| - 1] == r.value
                                && forall k' :: k < k' < |rows| ==> rows[k'] == []
    ensures r.None? ==> forall k :: 0 <= k < |rows| ==> rows[k] == []
    decreases |rows|
  {
    if rows == [] then None
    else if rows[|rows| - 1] != [] then Some(rows[|rows| - 1][|rows[|rows| - 1]| - 1])
    else
      var init := rows[..|rows| - 1];
      assert forall k :: 0 <= k < |init| ==> init[k] == rows[k];
      LastRowValue(init)
  }

  /** The Pointer function: every value overwrites the one string argument,
      so the last value of the document wins. */
  lemma {:induction false} PointerWrites(vo: VariableOracles, v: ShaderVariable, rows: seq<seq<string>>)
    requires v.func != NoFunction && v.func == vo.pointer
    ensures LastFor(Writes(vo, v, rows), PointerText) == LastRowValue(rows)
    decreases |rows|
  {
    if rows != [] {
      var k := |rows| - 1;
      PointerWrites(vo, v, rows[..k]);
      LastForAppend(Writes(vo, v, rows[..k]), RowWrites(vo, v, k, rows[k]), PointerText);
      var ws := RowWrites(vo, v, k, rows[k]);
      if rows[k] != [] {
        assert ws[|ws| - 1].target == PointerText;
      } else {
        assert ws == [];
      }
    }
  }

  /** What parsing puts in a float grid cell. */
  lemma ParseFloatCell(cv: Conv, vo: VariableOracles, n: Node, v: ShaderVariable, c: nat, r: nat)
    requires IsConstantFloat(v)
    ensures var rows := ValueRows(n);
            Lookup(ParsedValue(cv, vo, n, v), Grid(c, r)) ==
              if r < |rows| && c < |rows[r]| then CellValue(FloatCell(cv.asFloat(rows[r][c]))) else Lookup(v, Grid(c, r))
  {
    FloatWrites(vo, v, ValueRows(n), c, r);
    ApplyLastWins(cv, v, Writes(vo, v, ValueRows(n)), Grid(c, r));
  }

  /** What parsing puts in a boolean or integer component. */
  lemma ParseVectorComponent(cv: Conv, vo: VariableOracles, n: Node, v: ShaderVariable, c: nat)
    requires IsConstantVector(v)
    ensures Lookup(ParsedValue(cv, vo, n, v), Grid(c, 0)) ==
              match LastInColumn(ValueRows(n), c)
              case Some(x) => CellValue(if IsBoolean(v.vtype) then BoolCell(cv.asBool(x)) else IntCell(cv.asInt(x)))
              case None => Lookup(v, Grid(c, 0))
  {
    VectorWrites(vo, v, ValueRows(n), c, 0);
    ApplyLastWins(cv, v, Writes(vo, v, ValueRows(n)), Grid(c, 0));
  }

  /** What parsing puts in a float argument slot of a function variable. */
  lemma ParseArgument(cv: Conv, vo: VariableOracles, n: Node, v: ShaderVariable, c: nat)
    requires v.func != NoFunction && v.func != vo.pointer
    ensures Lookup(ParsedValue(cv, vo, n, v), Argument(c)) ==
              match LastInColumn(ValueRows(n), c)
              case Some(x) => ArgumentValue(cv.asFloat(x))
              case None => Lookup(v, Argument(c))
  {
    ArgumentWrites(vo, v, ValueRows(n), c);
    ApplyLastWins(cv, v, Writes(vo, v, ValueRows(n)), Argument(c));
  }

  /** What parsing puts in the string argument of a Pointer variable. */
  lemma ParsePointer(cv: Conv, vo: VariableOracles, n: Node, v: ShaderVariable)
    requires v.func != NoFunction && v.func == vo.pointer
    ensures ParsedValue(cv, vo, n, v).pointerArgument ==
              match LastRowValue(ValueRows(n))
              case Some(x) => x
              case None => v.pointerArgument
  {
    PointerWrites(vo, v, ValueRows(n));
    ApplyLastWins(cv, v, Writes(vo, v, ValueRows(n)), PointerText);
  }

  lemma ApplySnoc(cv: Conv, v: ShaderVariable, ws: seq<Write>, w: Write)
    ensures Apply(cv, v, ws + [w]) == Put(cv, Apply(cv, v, ws), w)
  {
    assert (ws + [w])[..|ws|] == ws;
  }

  lemma RowWritesSnoc(vo: VariableOracles, v: ShaderVariable, row: nat, values: seq<string>, j: nat)
    requires j < |values|
    ensures RowWrites(vo, v, row, values[..j + 1]) == RowWrites(vo, v, row, values[..j]) + [Write(TargetOf(vo, v, j, row), values[j])]
  {
  }

  lemma WritesSnoc(vo: VariableOracles, v: ShaderVariable, rows: seq<seq<string>>, k: nat)
    requires k < |rows|
    ensures Writes(vo, v, rows[..k + 1]) == Writes(vo, v, rows[..k]) + RowWrites(vo, v, k, rows[k])
  {
    assert rows[..k + 1][..k] == rows[..k];
  }

  /** The inner loop of `m_parseVariableValue`: the `value` elements of row
      `rowID`, with a column counter that starts at 0 and that the Pointer
      case does not advance. `v` is the variable as declared, `r0` its value
      so far. */
  method ParseRow(cv: Conv, vo: VariableOracles, v: ShaderVariable, r0: ShaderVariable, rowID: nat, values: seq<Node>)
    returns (r: ShaderVariable)
    requires r0.vtype == v.vtype
    ensures r == Apply(cv, r0, RowWrites(vo, v, rowID, Texts(values)))
    ensures r.vtype == v.vtype
  {
    ghost var texts := Texts(values);
    assert texts[..0] == [];
    r := r0;
    var colID := 0;
    var j := 0;
    while j < |values|
      invariant 0 <= j <= |values|
      invariant colID == if v.func != NoFunction && v.func == vo.pointer then 0 else j
      invariant r == Apply(cv, r0, RowWrites(vo, v, rowID, texts[..j]))
      invariant r.vtype == v.vtype
    {
      var text := values[j].text;
      ghost var w := Write(TargetOf(vo, v, j, rowID), text);
      RowWritesSnoc(vo, v, rowID, texts, j);
      ApplySnoc(cv, r0, RowWrites(vo, v, rowID, texts[..j]), w);
      if v.func != NoFunction {
        if v.func == vo.pointer {
          r := r.(pointerArgument := text);
        } else {
          r := r.(arguments := r.arguments[colID := cv.asFloat(text)]);
          colID := colID + 1;
        }
      } else {
        if IsBoolean(v.vtype) {
          r := r.(data := r.data[(colID, 0) := BoolCell(cv.asBool(text))]);
        } else if IsInteger(v.vtype) {
          r := r.(data := r.data[(colID, 0) := IntCell(cv.asInt(text))]);
        } else {
          r := r.(data := r.data[(colID, rowID) := FloatCell(cv.asFloat(text))]);
        }
        colID := colID + 1;
      }
      j := j + 1;
    }
    assert texts[..j] == texts;
  }

  /** `m_parseVariableValue(node, var)`: the `row` elements in order, with a
      row counter. */
  method ParseVariableValue(cv: Conv, vo: VariableOracles, node: Node, v: ShaderVariable) returns (r: ShaderVariable)
    ensures r == ParsedValue(cv, vo, node, v)
  {
    var rows := ChildrenNamed(node, "row");
    ghost var texts := ValueRows(node);
    assert texts[..0] == [];
    r := v;
    var rowID := 0;
    while rowID < |rows|
      invariant 0 <= rowID <= |rows|
      invariant r == Apply(cv, v, Writes(vo, v, texts[..rowID]))
      invariant r.vtype == v.vtype
    {
      ghost var before := Writes(vo, v, texts[..rowID]);
      var values := ChildrenNamed(rows[rowID], "value");
      assert texts[rowID] == Texts(values);
      r := ParseRow(cv, vo, v, r, rowID, values);
      ApplyAppend(cv, v, before, RowWrites(vo, v, rowID, texts[rowID]));
      WritesSnoc(vo, v, texts, rowID);
      rowID := rowID + 1;
    }
    assert texts[..rowID] == texts;
  }

  // ---------------------------------------------------------------------
  // Value export (m_exportVariableValue)

  /** How many values the writer emits: `GetSize(type)/4` for a constant,
      one string for Pointer, `GetArgumentCount` for other functions. */
  function ExportCount(vo: VariableOracles, v: ShaderVariable): nat
  {
    if v.func == NoFunction then vo.size(v.vtype) / 4
    else if v.func == vo.pointer then 1
    else vo.argumentCount(v.func)
  }

  /** The text of the constant value at loop index `i` while the row counter is `row`. */
  function ConstantText(cv: Conv, vo: VariableOracles, v: ShaderVariable, i: nat, row: nat): string
    requires vo.columnCount(v.vtype) > 0
  {
    if IsBoolean(v.vtype) then cv.boolText(AsBoolean(v, i))
    else if IsInteger(v.vtype) then cv.intText(AsInteger(v, i))
    else cv.floatText(AsFloat(v, i % vo.columnCount(v.vtype), row))
  }

  /** The rows after the first `n` iterations of the export loop: the value
      goes to the current row, and a new row starts after index `i` when
      `i % cols == 0 && i != 0`. */
  function ConstantRows(cv: Conv, vo: VariableOracles, v: ShaderVariable, n: nat): (rows: seq<seq<string>>)
    requires vo.columnCount(v.vtype) > 0
    ensures |rows| >= 1
    decreases n
  {
    if n == 0 then [[]]
    else
      var prev := ConstantRows(cv, vo, v, n - 1);
      var i := n - 1;
      Grow(prev, ConstantText(cv, vo, v, i, |prev| - 1), i % vo.columnCount(v.vtype) == 0 && i != 0)
  }

  /** One iteration of the export loop: the text joins the last row, and a
      new empty row follows when `brk` holds. */
  function Grow(rows: seq<seq<string>>, t: string, brk: bool): (r: seq<seq<string>>)
    requires |rows| >= 1
    ensures |r| == |rows| + (if brk then 1 else 0)
    ensures r[..|rows| - 1] == rows[..|rows| - 1] && r[|rows| - 1] == rows[|rows| - 1] + [t]
    ensures brk ==> r[|rows|] == []
  {
    var last := |rows| - 1;
    var grown := rows[..last] + [rows[last] + [t]];
    if brk then grown + [[]] else grown
  }

  function ArgumentTexts(cv: Conv, v: ShaderVariable, count: nat): (r: seq<string>)
    ensures |r| == count && forall i :: 0 <= i < count ==> r[i] == cv.floatText(LoadFloat(v, i))
  {
    seq(count, i requires 0 <= i < count => cv.floatText(LoadFloat(v, i)))
  }

  /** The rows `m_exportVariableValue` writes. */
  function ExportRows(cv: Conv, vo: VariableOracles, v: ShaderVariable): seq<seq<string>>
    requires v.func == NoFunction ==> vo.columnCount(v.vtype) > 0
  {
    if v.func == NoFunction then ConstantRows(cv, vo, v, ExportCount(vo, v))
    else if v.func == vo.pointer then [[v.pointerArgument]]
    else [ArgumentTexts(cv, v, vo.argumentCount(v.func))]
  }

  function ValueNodes(texts: seq<string>): (r: seq<Node>)
    ensures |r| == |texts| && forall i :: 0 <= i < |texts| ==> r[i] == TextNode("value", texts[i])
  {
    seq(|texts|, i requires 0 <= i < |texts| => TextNode("value", texts[i]))
  }

  function RowNodes(rows: seq<seq<string>>): (r: seq<Node>)
    ensures |r| == |rows| && forall i :: 0 <= i < |rows| ==> r[i] == Node("row", map[], "", ValueNodes(rows[i]))
  {
    seq(|rows|, i requires 0 <= i < |rows| => Node("row", map[], "", ValueNodes(rows[i])))
  }

  lemma TextsOfValueNodes(texts: seq<string>)
    ensures Texts(ValueNodes(texts)) == texts
  {
  }

  /** Reading back rows that the writer produced gives the same texts. */
  lemma ValueRowsOfRowNodes(n: Node, rows: seq<seq<string>>)
    requires n.children == RowNodes(rows)
    ensures ValueRows(n) == rows
  {
    var rs := RowNodes(rows);
    AllNamed(rs, "row");
    assert ChildrenNamed(n, "row") == rs;
    var vr := ValueRows(n);
    assert |vr| == |rows|;
    forall i | 0 <= i < |rows| ensures vr[i] == rows[i] {
      AllNamed(ValueNodes(rows[i]), "value");
      assert ChildrenNamed(rs[i], "value") == ValueNodes(rows[i]);
      TextsOfValueNodes(rows[i]);
    }
  }

  /** The `variable` element holding exactly the given rows. */
  function RowsNode(rows: seq<seq<string>>): Node
  {
    Node("variable", map[], "", RowNodes(rows))
  }

  /** Parsing `rows` back into `v`. */
  function Reload(cv: Conv, vo: VariableOracles, v: ShaderVariable, rows: seq<seq<string>>): ShaderVariable
  {
    ParsedValue(cv, vo, RowsNode(rows), v)
  }

  lemma ReloadFloatCell(cv: Conv, vo: VariableOracles, v: ShaderVariable, rows: seq<seq<string>>, c: nat, r: nat)
    requires IsConstantFloat(v)
    ensures AsFloat(Reload(cv, vo, v, rows), c, r) ==
              if r < |rows| && c < |rows[r]| then cv.asFloat(rows[r][c]) else AsFloat(v, c, r)
  {
    ValueRowsOfRowNodes(RowsNode(rows), rows);
    ParseFloatCell(cv, vo, RowsNode(rows), v, c, r);
  }

  lemma ReloadVectorComponent(cv: Conv, vo: VariableOracles, v: ShaderVariable, rows: seq<seq<string>>, c: nat, x: string)
    requires IsConstantVector(v) && LastInColumn(rows, c) == Some(x)
    ensures Lookup(Reload(cv, vo, v, rows), Grid(c, 0)) ==
              CellValue(if IsBoolean(v.vtype) then BoolCell(cv.asBool(x)) else IntCell(cv.asInt(x)))
  {
    var n := RowsNode(rows);
    ValueRowsOfRowNodes(n, rows);
    ParseVectorComponent(cv, vo, n, v, c);
  }

  lemma ReloadArgument(cv: Conv, vo: VariableOracles, v: ShaderVariable, rows: seq<seq<string>>, c: nat)
    requires v.func != NoFunction && v.func != vo.pointer
    ensures LoadFloat(Reload(cv, vo, v, rows), c) ==
              match LastInColumn(rows, c)
              case Some(x) => cv.asFloat(x)
              case None => LoadFloat(v, c)
  {
    ValueRowsOfRowNodes(RowsNode(rows), rows);
    ParseArgument(cv, vo, RowsNode(rows), v, c);
  }

  lemma ReloadPointer(cv: Conv, vo: VariableOracles, v: ShaderVariable, rows: seq<seq<string>>)
    requires v.func != NoFunction && v.func == vo.pointer
    ensures Reload(cv, vo, v, rows).pointerArgument ==
              match LastRowValue(rows)
              case Some(x) => x
              case None => v.pointerArgument
  {
    ValueRowsOfRowNodes(RowsNode(rows), rows);
    ParsePointer(cv, vo, RowsNode(rows), v);
  }

  lemma {:induction false} AllNamed(kids: seq<Node>, tag: string)
    requires forall i :: 0 <= i < |kids| ==> kids[i].tag == tag
    ensures Named(kids, tag) == kids
    decreases |kids|
  {
    if kids != [] {
      var init, last := kids[..|kids| - 1], kids[|kids| - 1];
      assert Named(init, tag) == init by {
        assert forall i :: 0 <= i < |init| ==> init[i] == kids[i];
        AllNamed(init, tag);
      }
      assert Named(kids, tag) == Named(init, tag) + [last] by {
        assert last.tag == tag;
      }
      assert init + [last] == kids;
    }
  }

  /** `m_exportVariableValue(node, var)`: appends the rows to `node`. */
  method ExportVariableValue(cv: Conv, vo: VariableOracles, node: Node, v: ShaderVariable) returns (r: Node)
    requires v.func == NoFunction ==> vo.columnCount(v.vtype) > 0
    ensures r == node.(children := node.children + RowNodes(ExportRows(cv, vo, v)))
  {
    var rows: seq<seq<string>> := [[]];
    if v.func == NoFunction {
      var cols := vo.columnCount(v.vtype);
      var n := vo.size(v.vtype) / 4;
      var rowID := 0;
      var i := 0;
      while i < n
        invariant 0 <= i <= n
        invariant rows == ConstantRows(cv, vo, v, i)
        invariant rowID == |rows| - 1
      {
        var text;
        if IsBoolean(v.vtype) {
          text := cv.boolText(AsBoolean(v, i));
        } else if IsInteger(v.vtype) {
          text := cv.intText(AsInteger(v, i));
        } else {
          text := cv.floatText(AsFloat(v, i % cols, rowID));
        }
        ghost var prev := rows;
        assert text == ConstantText(cv, vo, v, i, |prev| - 1);
        rows := rows[..rowID] + [rows[rowID] + [text]];
        if i % cols == 0 && i != 0 {
          rows := rows + [[]];
          rowID := rowID + 1;
        }
        assert rows == Grow(prev, text, i % cols == 0 && i != 0);
        assert rows == ConstantRows(cv, vo, v, i + 1);
        i := i + 1;
      }
    } else if v.func == vo.pointer {
      rows := [[v.pointerArgument]];
    } else {
      var count := vo.argumentCount(v.func);
      var args: seq<string> := [];
      var i := 0;
      while i < count
        invariant 0 <= i <= count
        invariant args == ArgumentTexts(cv, v, i)
      {
        args := args + [cv.floatText(LoadFloat(v, i))];
        i := i + 1;
      }
      rows := [args];
    }
    r := node.(children := node.children + RowNodes(rows));
  }

  function Flatten(rows: seq<seq<string>>): seq<string>
    decreases |rows|
  {
    if rows == [] then [] else Flatten(rows[..|rows| - 1]) + rows[|rows| - 1]
  }

  /** The row counter's value when the loop reaches index `i`. */
  function RowOf(i: nat, cols: nat): nat
    requires cols > 0
  {
    if i == 0 then 0 else (i - 1) / cols
  }

  lemma DivStep(m: nat, c: nat)
    requires c > 0 && m >= 1
    ensures m / c == (m - 1) / c + (if m % c == 0 then 1 else 0)
  {
    var q, r := (m - 1) / c, (m - 1) % c;
    assert m - 1 == q * c + r && 0 <= r < c;
    if r + 1 == c {
      assert m == (q + 1) * c;
      LemmaDivUnique(m, c, q + 1, 0);
    } else {
      assert m == q * c + (r + 1);
      LemmaDivUnique(m, c, q, r + 1);
    }
  }

  lemma LemmaDivUnique(m: nat, c: nat, q: nat, r: nat)
    requires c > 0 && r < c && m == q * c + r
    ensures m / c == q && m % c == r
  {
    var q', r' := m / c, m % c;
    assert m == q' * c + r';
    if q' > q {
      assert q' * c >= (q + 1) * c by { LemmaMulMono(q + 1, q', c); }
      assert false;
    } else if q' < q {
      assert q * c >= (q' + 1) * c by { LemmaMulMono(q' + 1, q, c); }
      assert false;
    }
  }

  lemma LemmaMulMono(a: nat, b: nat, c: nat)
    requires a <= b
    ensures a * c <= b * c
  {
  }

  lemma FlattenGrow(rows: seq<seq<string>>, t: string, brk: bool)
    requires |rows| >= 1
    ensures Flatten(Grow(rows, t, brk)) == Flatten(rows) + [t]
  {
    var last := |rows| - 1;
    var grown := rows[..last] + [rows[last] + [t]];
    assert grown[..|grown| - 1] == rows[..last];
    assert Flatten(grown) == Flatten(rows[..last]) + (rows[last] + [t]);
    assert Flatten(rows) == Flatten(rows[..last]) + rows[last];
    assert (grown + [[]])[..|grown|] == grown;
  }

  /** The row-break rule, in closed form: after n values there are
      `1 + (n - 1) / cols` rows. */
  lemma {:induction false} ConstantRowsCount(cv: Conv, vo: VariableOracles, v: ShaderVariable, n: nat)
    requires vo.columnCount(v.vtype) > 0
    ensures |ConstantRows(cv, vo, v, n)| == 1 + (if n == 0 then 0 else (n - 1) / vo.columnCount(v.vtype))
    decreases n
  {
    if n > 0 {
      var cols := vo.columnCount(v.vtype);
      var prev := ConstantRows(cv, vo, v, n - 1);
      assert |ConstantRows(cv, vo, v, n)| == |prev| + (if (n - 1) % cols == 0 && n - 1 != 0 then 1 else 0);
      ConstantRowsCount(cv, vo, v, n - 1);
      if n - 1 > 0 {
        DivStep(n - 1, cols);
      }
    }
  }

  /** Reading the rows back to back gives the n values in loop order, the one
      at index i taken while the row counter was `RowOf(i)`. */
  lemma {:induction false} ConstantRowsFlat(cv: Conv, vo: VariableOracles, v: ShaderVariable, n: nat)
    requires vo.columnCount(v.vtype) > 0
    ensures var f := Flatten(ConstantRows(cv, vo, v, n));
            |f| == n && forall i :: 0 <= i < n ==> f[i] == ConstantText(cv, vo, v, i, RowOf(i, vo.columnCount(v.vtype)))
    decreases n
  {
    if n > 0 {
      ConstantRowsFlat(cv, vo, v, n - 1);
      ConstantRowsCount(cv, vo, v, n - 1);
      var prev := ConstantRows(cv, vo, v, n - 1);
      var t := ConstantText(cv, vo, v, n - 1, |prev| - 1);
      var brk := (n - 1) % vo.columnCount(v.vtype) == 0 && n - 1 != 0;
      assert |prev| - 1 == RowOf(n - 1, vo.columnCount(v.vtype));
      FlattenGrow(prev, t, brk);
      var f := Flatten(ConstantRows(cv, vo, v, n));
      assert f == Flatten(prev) + [t];
      forall i | 0 <= i < n ensures f[i] == ConstantText(cv, vo, v, i, RowOf(i, vo.columnCount(v.vtype))) {
        if i < n - 1 {
          assert f[i] == Flatten(prev)[i];
        }
      }
    }
  }

  /** Why multi-row values do not survive a save and a load: a 2x2 matrix is
      written as a first row of three values (loop indices 0, 1 and 2, the
      last being cell (0, 0) again) and a second row of one value (cell
      (1, 1)), so reading it back puts cell (1, 1) into cell (0, 1) and leaves
      cell (1, 1) unset. */
  lemma MatrixDoesNotRoundTrip(cv: Conv, vo: VariableOracles, v: ShaderVariable)
    requires IsConstantFloat(v) && v.vtype == Float2x2
    requires vo.columnCount(Float2x2) == 2 && vo.size(Float2x2) == 16
    requires forall x :: cv.asFloat(cv.floatText(x)) == x
    ensures var back := Reload(cv, vo, Cleared(v), ExportRows(cv, vo, v));
            AsFloat(back, 0, 1) == AsFloat(v, 1, 1) && AsFloat(back, 1, 1) == Zero
  {
    var rows := ExportRows(cv, vo, v);
    MatrixRows(cv, vo, v);
    assert rows[1][0] == cv.floatText(AsFloat(v, 1, 1));
    ReloadFloatCell(cv, vo, Cleared(v), rows, 0, 1);
    ReloadFloatCell(cv, vo, Cleared(v), rows, 1, 1);
  }

  /** One iteration grows the first row only while it is the only row. */
  lemma GrowFirst(rows: seq<seq<string>>, t: string, brk: bool)
    requires |rows| >= 1
    ensures Grow(rows, t, brk)[0] == if |rows| == 1 then rows[0] + [t] else rows[0]
  {
    var r := Grow(rows, t, brk);
    if |rows| > 1 {
      assert r[..|rows| - 1][0] == rows[..|rows| - 1][0];
    }
  }

  /** After `m` values there is a single row exactly when `m <= cols`. */
  lemma SingleRow(m: nat, cols: nat)
    requires cols > 0
    ensures (if m == 0 then 0 else (m - 1) / cols) == 0 <==> m <= cols
  {
    if 0 < m <= cols {
      LemmaDivUnique(m - 1, cols, 0, m - 1);
    } else if m > cols {
      DivLowerBound(m - 1, cols, 0);
    }
  }

  /** The row-break rule puts `cols + 1` values in the first row: the test
      `i % cols == 0 && i != 0` first holds after index `cols` has been
      written, not after index `cols - 1`. */
  lemma {:induction false} FirstRowLength(cv: Conv, vo: VariableOracles, v: ShaderVariable, n: nat)
    requires vo.columnCount(v.vtype) > 0
    ensures |ConstantRows(cv, vo, v, n)[0]| == if n <= vo.columnCount(v.vtype) + 1 then n else vo.columnCount(v.vtype) + 1
    decreases n
  {
    if n > 0 {
      FirstRowLength(cv, vo, v, n - 1);
      FirstRowStep(cv, vo, v, n);
    }
  }

  /** The export loop has one row so far exactly while at most `cols`
      values have been written. */
  lemma OnlyRow(cv: Conv, vo: VariableOracles, v: ShaderVariable, m: nat)
    requires vo.columnCount(v.vtype) > 0
    ensures |ConstantRows(cv, vo, v, m)| == 1 <==> m <= vo.columnCount(v.vtype)
  {
    ConstantRowsCount(cv, vo, v, m);
    SingleRow(m, vo.columnCount(v.vtype));
  }

  /** One iteration of the export loop adds to the first row only while it
      is the only row, so the first row's length keeps following the rule. */
  lemma FirstRowStep(cv: Conv, vo: VariableOracles, v: ShaderVariable, n: nat)
    requires vo.columnCount(v.vtype) > 0 && n > 0
    requires |ConstantRows(cv, vo, v, n - 1)[0]| == if n - 1 <= vo.columnCount(v.vtype) + 1 then n - 1 else vo.columnCount(v.vtype) + 1
    ensures |ConstantRows(cv, vo, v, n)[0]| == if n <= vo.columnCount(v.vtype) + 1 then n else vo.columnCount(v.vtype) + 1
  {
    var cols := vo.columnCount(v.vtype);
    var prev := ConstantRows(cv, vo, v, n - 1);
    var i := n - 1;
    var t := ConstantText(cv, vo, v, i, |prev| - 1);
    assert ConstantRows(cv, vo, v, n) == Grow(prev, t, i % cols == 0 && i != 0);
    GrowFirst(prev, t, i % cols == 0 && i != 0);
    OnlyRow(cv, vo, v, n - 1);
  }

  /** Between `cols + 2` and `2 * cols` values make two rows of `cols + 1`
      and `n - cols - 1` values, read back to back. */
  lemma TwoRowsShape(cv: Conv, vo: VariableOracles, v: ShaderVariable, n: nat)
    requires vo.columnCount(v.vtype) > 0 && vo.columnCount(v.vtype) + 1 < n <= 2 * vo.columnCount(v.vtype)
    ensures var rows := ConstantRows(cv, vo, v, n);
            && |rows| == 2 && |rows[0]| == vo.columnCount(v.vtype) + 1 && |rows[1]| == n - vo.columnCount(v.vtype) - 1
            && Flatten(rows) == rows[0] + rows[1]
  {
    var rows := ConstantRows(cv, vo, v, n);
    TwoRowCount(cv, vo, v, n);
    FirstRowLength(cv, vo, v, n);
    FlattenTwo(rows);
    ConstantRowsFlat(cv, vo, v, n);
  }

  /** Between `cols + 2` and `2 * cols` values the row counter ends at 1. */
  lemma TwoRowCount(cv: Conv, vo: VariableOracles, v: ShaderVariable, n: nat)
    requires vo.columnCount(v.vtype) > 0 && vo.columnCount(v.vtype) + 1 < n <= 2 * vo.columnCount(v.vtype)
    ensures |ConstantRows(cv, vo, v, n)| == 2
  {
    var cols := vo.columnCount(v.vtype);
    ConstantRowsCount(cv, vo, v, n);
    LemmaDivUnique(n - 1, cols, 1, n - 1 - cols);
  }

  lemma FlattenTwo(rows: seq<seq<string>>)
    requires |rows| == 2
    ensures Flatten(rows) == rows[0] + rows[1]
  {
    assert Flatten(rows[..1]) == Flatten(rows[..1][..0]) + rows[0];
    assert rows[..1][..0] == [];
  }

  /** Between `cols + 2` and `2 * cols` values make two rows: the first
      `cols + 1` values, taken while the row counter is 0, then the rest,
      taken while it is 1. */
  lemma TwoRows(cv: Conv, vo: VariableOracles, v: ShaderVariable, n: nat)
    requires vo.columnCount(v.vtype) > 0 && vo.columnCount(v.vtype) + 1 < n <= 2 * vo.columnCount(v.vtype)
    ensures var rows := ConstantRows(cv, vo, v, n);
            && |rows| == 2 && |rows[0]| == vo.columnCount(v.vtype) + 1 && |rows[1]| == n - vo.columnCount(v.vtype) - 1
            && (forall c :: 0 <= c < |rows[0]| ==> rows[0][c] == ConstantText(cv, vo, v, c, 0))
            && (forall c :: 0 <= c < |rows[1]| ==> rows[1][c] == ConstantText(cv, vo, v, vo.columnCount(v.vtype) + 1 + c, 1))
  {
    var cols := vo.columnCount(v.vtype);
    var rows := ConstantRows(cv, vo, v, n);
    TwoRowsShape(cv, vo, v, n);
    forall c | 0 <= c < |rows[0]| ensures rows[0][c] == ConstantText(cv, vo, v, c, 0) {
      FirstRowText(cv, vo, v, n, c);
    }
    forall c | 0 <= c < |rows[1]| ensures rows[1][c] == ConstantText(cv, vo, v, cols + 1 + c, 1) {
      SecondRowText(cv, vo, v, n, c);
    }
  }

  /** Column `c` of the first of two rows holds loop index `c`, taken while
      the row counter was 0. */
  lemma FirstRowText(cv: Conv, vo: VariableOracles, v: ShaderVariable, n: nat, c: nat)
    requires vo.columnCount(v.vtype) > 0 && vo.columnCount(v.vtype) + 1 < n <= 2 * vo.columnCount(v.vtype)
    requires c < |ConstantRows(cv, vo, v, n)[0]|
    ensures ConstantRows(cv, vo, v, n)[0][c] == ConstantText(cv, vo, v, c, 0)
  {
    var cols := vo.columnCount(v.vtype);
    var rows := ConstantRows(cv, vo, v, n);
    TwoRowsShape(cv, vo, v, n);
    assert rows[0][c] == Flatten(rows)[c];
    assert RowOf(c, cols) == 0 by {
      if c > 0 {
        LemmaDivUnique(c - 1, cols, 0, c - 1);
      }
    }
    FlatText(cv, vo, v, n, c);
  }

  /** Column `c` of the second of two rows holds loop index `cols + 1 + c`,
      taken while the row counter was 1. */
  lemma SecondRowText(cv: Conv, vo: VariableOracles, v: ShaderVariable, n: nat, c: nat)
    requires vo.columnCount(v.vtype) > 0 && vo.columnCount(v.vtype) + 1 < n <= 2 * vo.columnCount(v.vtype)
    requires 1 < |ConstantRows(cv, vo, v, n)| && c < |ConstantRows(cv, vo, v, n)[1]|
    ensures ConstantRows(cv, vo, v, n)[1][c] == ConstantText(cv, vo, v, vo.columnCount(v.vtype) + 1 + c, 1)
  {
    var cols := vo.columnCount(v.vtype);
    var rows := ConstantRows(cv, vo, v, n);
    TwoRowsShape(cv, vo, v, n);
    assert rows[1][c] == Flatten(rows)[cols + 1 + c];
    assert RowOf(cols + 1 + c, cols) == 1 by {
      LemmaDivUnique(cols + c, cols, 1, c);
    }
    FlatText(cv, vo, v, n, cols + 1 + c);
  }

  /** The value at index `i` of the rows read back to back. */
  lemma FlatText(cv: Conv, vo: VariableOracles, v: ShaderVariable, n: nat, i: nat)
    requires vo.columnCount(v.vtype) > 0 && i < n
    ensures i < |Flatten(ConstantRows(cv, vo, v, n))|
    ensures Flatten(ConstantRows(cv, vo, v, n))[i] == ConstantText(cv, vo, v, i, RowOf(i, vo.columnCount(v.vtype)))
  {
    ConstantRowsFlat(cv, vo, v, n);
  }

  /** The rows the writer emits for a 2x2 float matrix: a first row of three
      values, cell (0, 0) twice, and a second row holding cell (1, 1). */
  lemma MatrixRows(cv: Conv, vo: VariableOracles, v: ShaderVariable)
    requires IsConstantFloat(v) && v.vtype == Float2x2
    requires vo.columnCount(Float2x2) == 2 && vo.size(Float2x2) == 16
    ensures var rows := ExportRows(cv, vo, v);
            && |rows| == 2 && |rows[0]| == 3 && |rows[1]| == 1
            && rows[0][0] == cv.floatText(AsFloat(v, 0, 0)) && rows[0][1] == cv.floatText(AsFloat(v, 1, 0))
            && rows[0][2] == cv.floatText(AsFloat(v, 0, 0)) && rows[1][0] == cv.floatText(AsFloat(v, 1, 1))
  {
    var k := ExportCount(vo, v);
    assert k == 4;
    TwoRows(cv, vo, v, k);
  }

  // The layout the reader expects: value (c, r) in column c of row r,
  // `cols` values to a row. The writer below uses it.

  function IntendedRowCount(n: nat, cols: nat): nat
    requires cols > 0
  {
    if n == 0 then 1 else (n + cols - 1) / cols
  }

  function IntendedRowLength(n: nat, cols: nat, r: nat): nat
  {
    if (r + 1) * cols <= n then cols else if r * cols <= n then n - r * cols else 0
  }

  function IntendedText(cv: Conv, vo: VariableOracles, v: ShaderVariable, c: nat, r: nat): string
  {
    if IsBoolean(v.vtype) then cv.boolText(AsBoolean(v, r * vo.columnCount(v.vtype) + c))
    else if IsInteger(v.vtype) then cv.intText(AsInteger(v, r * vo.columnCount(v.vtype) + c))
    else cv.floatText(AsFloat(v, c, r))
  }

  function IntendedConstantRows(cv: Conv, vo: VariableOracles, v: ShaderVariable): (rows: seq<seq<string>>)
    requires vo.columnCount(v.vtype) > 0
    ensures |rows| == IntendedRowCount(ExportCount(vo, v), vo.columnCount(v.vtype))
    ensures forall r :: 0 <= r < |rows| ==>
              |rows[r]| == IntendedRowLength(ExportCount(vo, v), vo.columnCount(v.vtype), r)
              && forall c :: 0 <= c < |rows[r]| ==> rows[r][c] == IntendedText(cv, vo, v, c, r)
  {
    var n := ExportCount(vo, v);
    var cols := vo.columnCount(v.vtype);
    seq(IntendedRowCount(n, cols), r requires 0 <= r < IntendedRowCount(n, cols) =>
      seq(IntendedRowLength(n, cols, r), c requires 0 <= c < IntendedRowLength(n, cols, r) => IntendedText(cv, vo, v, c, r)))
  }

  /** The rows the writer emits for a variable. */
  function IntendedExportRows(cv: Conv, vo: VariableOracles, v: ShaderVariable): seq<seq<string>>
    requires v.func == NoFunction ==> vo.columnCount(v.vtype) > 0
  {
    if v.func == NoFunction then IntendedConstantRows(cv, vo, v)
    else if v.func == vo.pointer then [[v.pointerArgument]]
    else [ArgumentTexts(cv, v, vo.argumentCount(v.func))]
  }

  lemma DivLowerBound(a: nat, c: nat, r: nat)
    requires c > 0 && a >= (r + 1) * c
    ensures a / c >= r + 1
  {
    var q, m := a / c, a % c;
    assert a == q * c + m && m < c;
    if q < r + 1 {
      LemmaMulMono(q + 1, r + 1, c);
      assert false;
    }
  }

  /** With that layout every float cell survives a save and a load. */
  lemma IntendedFloatRoundTrip(cv: Conv, vo: VariableOracles, v: ShaderVariable, c: nat, r: nat)
    requires IsConstantFloat(v) && vo.columnCount(v.vtype) > 0
    requires c < vo.columnCount(v.vtype) && r * vo.columnCount(v.vtype) + c < ExportCount(vo, v)
    requires forall x :: cv.asFloat(cv.floatText(x)) == x
    ensures AsFloat(Reload(cv, vo, Cleared(v), IntendedExportRows(cv, vo, v)), c, r) == AsFloat(v, c, r)
  {
    var cols := vo.columnCount(v.vtype);
    var count := ExportCount(vo, v);
    var rows := IntendedExportRows(cv, vo, v);
    DivLowerBound(count + cols - 1, cols, r);
    assert r < |rows|;
    assert c < |rows[r]|;
    ReloadFloatCell(cv, vo, Cleared(v), rows, c, r);
  }

  /** A value of at most one row is laid out in a single row. */
  lemma IntendedSingleRow(cv: Conv, vo: VariableOracles, v: ShaderVariable)
    requires v.func == NoFunction && vo.columnCount(v.vtype) > 0
    requires 0 < ExportCount(vo, v) <= vo.columnCount(v.vtype)
    ensures var rows := IntendedExportRows(cv, vo, v);
            |rows| == 1 && |rows[0]| == ExportCount(vo, v)
            && forall c :: 0 <= c < |rows[0]| ==> rows[0][c] == IntendedText(cv, vo, v, c, 0)
  {
    var cols := vo.columnCount(v.vtype);
    var count := ExportCount(vo, v);
    LemmaDivUnique(count + cols - 1, cols, 1, count - 1);
  }

  /** The last text in column `c` of a one-row layout is the text of component `c`. */
  lemma IntendedVectorText(cv: Conv, vo: VariableOracles, v: ShaderVariable, c: nat)
    requires v.func == NoFunction && vo.columnCount(v.vtype) > 0
    requires c < ExportCount(vo, v) <= vo.columnCount(v.vtype)
    ensures LastInColumn(IntendedExportRows(cv, vo, v), c) == Some(IntendedText(cv, vo, v, c, 0))
  {
    var rows := IntendedExportRows(cv, vo, v);
    IntendedSingleRow(cv, vo, v);
    assert rows[..0] == [];
    assert LastInColumn(rows, c) == Some(rows[0][c]);
  }

  /** And every component of a boolean vector does too, ... */
  lemma IntendedBooleanRoundTrip(cv: Conv, vo: VariableOracles, v: ShaderVariable, c: nat)
    requires IsConstantVector(v) && IsBoolean(v.vtype) && vo.columnCount(v.vtype) > 0
    requires c < ExportCount(vo, v) <= vo.columnCount(v.vtype)
    requires Coherent(cv)
    ensures AsBoolean(Reload(cv, vo, Cleared(v), IntendedExportRows(cv, vo, v)), c) == AsBoolean(v, c)
  {
    var rows := IntendedExportRows(cv, vo, v);
    assert 0 * vo.columnCount(v.vtype) + c == c;
    var x := cv.boolText(AsBoolean(v, c));
    assert IntendedText(cv, vo, v, c, 0) == x;
    IntendedVectorText(cv, vo, v, c);
    ReloadVectorComponent(cv, vo, Cleared(v), rows, c, x);
    var back := Reload(cv, vo, Cleared(v), rows);
    assert (c, 0) in back.data && back.data[(c, 0)] == BoolCell(cv.asBool(x));
    assert cv.asBool(x) == AsBoolean(v, c);
  }

  /** ... and of an integer vector. */
  lemma IntendedIntegerRoundTrip(cv: Conv, vo: VariableOracles, v: ShaderVariable, c: nat)
    requires IsConstantVector(v) && IsInteger(v.vtype) && vo.columnCount(v.vtype) > 0
    requires c < ExportCount(vo, v) <= vo.columnCount(v.vtype)
    requires Coherent(cv)
    ensures AsInteger(Reload(cv, vo, Cleared(v), IntendedExportRows(cv, vo, v)), c) == AsInteger(v, c)
  {
    var rows := IntendedExportRows(cv, vo, v);
    assert 0 * vo.columnCount(v.vtype) + c == c;
    var x := cv.intText(AsInteger(v, c));
    assert IntendedText(cv, vo, v, c, 0) == x;
    IntendedVectorText(cv, vo, v, c);
    ReloadVectorComponent(cv, vo, Cleared(v), rows, c, x);
    var back := Reload(cv, vo, Cleared(v), rows);
    assert (c, 0) in back.data && back.data[(c, 0)] == IntCell(cv.asInt(x));
    assert cv.asInt(x) == AsInteger(v, c);
  }

  /** The writer as the source has it agrees with that layout whenever the
      value fits in one row (every vector, and single-row float types), so
      what `IntendedFloatRoundTrip`, `IntendedBooleanRoundTrip` and
      `IntendedIntegerRoundTrip` promise holds of the source for those
      types. */
  lemma OneRowAgrees(cv: Conv, vo: VariableOracles, v: ShaderVariable)
    requires v.func == NoFunction && vo.columnCount(v.vtype) > 0
    requires ExportCount(vo, v) <= vo.columnCount(v.vtype)
    ensures ExportRows(cv, vo, v) == IntendedExportRows(cv, vo, v)
  {
    var count := ExportCount(vo, v);
    var rows := ConstantRows(cv, vo, v, count);
    var ir := IntendedConstantRows(cv, vo, v);
    if count == 0 {
      assert rows == [[]];
      assert |ir| == 1 && |ir[0]| == 0;
    } else {
      AsWrittenSingleRow(cv, vo, v);
      IntendedSingleRow(cv, vo, v);
      forall c | 0 <= c < count ensures rows[0][c] == ir[0][c] {
        TextOnFirstRow(cv, vo, v, c);
      }
      assert rows[0] == ir[0];
    }
  }

  /** The writer as the source has it, for a value of at most one row. */
  lemma AsWrittenSingleRow(cv: Conv, vo: VariableOracles, v: ShaderVariable)
    requires v.func == NoFunction && vo.columnCount(v.vtype) > 0
    requires 0 < ExportCount(vo, v) <= vo.columnCount(v.vtype)
    ensures var rows := ConstantRows(cv, vo, v, ExportCount(vo, v));
            |rows| == 1 && |rows[0]| == ExportCount(vo, v)
            && forall c :: 0 <= c < |rows[0]| ==> rows[0][c] == ConstantText(cv, vo, v, c, 0)
  {
    var cols := vo.columnCount(v.vtype);
    var count := ExportCount(vo, v);
    var rows := ConstantRows(cv, vo, v, count);
    assert |rows| == 1 by {
      ConstantRowsCount(cv, vo, v, count);
      LemmaDivUnique(count - 1, cols, 0, count - 1);
    }
    assert Flatten(rows) == rows[0] by {
      assert rows[..0] == [];
    }
    assert |rows[0]| == count by {
      ConstantRowsFlat(cv, vo, v, count);
    }
    forall c | 0 <= c < count ensures rows[0][c] == ConstantText(cv, vo, v, c, 0) {
      assert RowOf(c, cols) == 0 by {
        if c > 0 {
          LemmaDivUnique(c - 1, cols, 0, c - 1);
        }
      }
      FlatText(cv, vo, v, count, c);
    }
  }

  lemma TextOnFirstRow(cv: Conv, vo: VariableOracles, v: ShaderVariable, c: nat)
    requires vo.columnCount(v.vtype) > 0 && c < vo.columnCount(v.vtype)
    ensures ConstantText(cv, vo, v, c, 0) == IntendedText(cv, vo, v, c, 0)
  {
    LemmaDivUnique(c, vo.columnCount(v.vtype), 0, c);
    assert 0 * vo.columnCount(v.vtype) + c == c;
  }

  /** What the source saves for a float value of at most one row (a scalar
      or a vector) reads back cell for cell; `MatrixDoesNotRoundTrip` shows
      why the bound on the size is needed. */
  lemma SavedFloatRoundTrip(cv: Conv, vo: VariableOracles, v: ShaderVariable, c: nat)
    requires IsConstantFloat(v) && vo.columnCount(v.vtype) > 0
    requires c < ExportCount(vo, v) <= vo.columnCount(v.vtype)
    requires forall x :: cv.asFloat(cv.floatText(x)) == x
    ensures AsFloat(Reload(cv, vo, Cleared(v), ExportRows(cv, vo, v)), c, 0) == AsFloat(v, c, 0)
  {
    OneRowAgrees(cv, vo, v);
    assert 0 * vo.columnCount(v.vtype) + c == c;
    IntendedFloatRoundTrip(cv, vo, v, c, 0);
  }

  /** What the source saves for a boolean vector reads back component for
      component. */
  lemma SavedBooleanRoundTrip(cv: Conv, vo: VariableOracles, v: ShaderVariable, c: nat)
    requires IsConstantVector(v) && IsBoolean(v.vtype) && vo.columnCount(v.vtype) > 0
    requires c < ExportCount(vo, v) <= vo.columnCount(v.vtype)
    requires Coherent(cv)
    ensures AsBoolean(Reload(cv, vo, Cleared(v), ExportRows(cv, vo, v)), c) == AsBoolean(v, c)
  {
    OneRowAgrees(cv, vo, v);
    IntendedBooleanRoundTrip(cv, vo, v, c);
  }

  /** What the source saves for an integer vector reads back component for
      component. */
  lemma SavedIntegerRoundTrip(cv: Conv, vo: VariableOracles, v: ShaderVariable, c: nat)
    requires IsConstantVector(v) && IsInteger(v.vtype) && vo.columnCount(v.vtype) > 0
    requires c < ExportCount(vo, v) <= vo.columnCount(v.vtype)
    requires Coherent(cv)
    ensures AsInteger(Reload(cv, vo, Cleared(v), ExportRows(cv, vo, v)), c) == AsInteger(v, c)
  {
    OneRowAgrees(cv, vo, v);
    IntendedIntegerRoundTrip(cv, vo, v, c);
  }

  /** Function arguments survive a save and a load. */
  lemma ArgumentsRoundTrip(cv: Conv, vo: VariableOracles, v: ShaderVariable, c: nat)
    requires v.func != NoFunction && v.func != vo.pointer && c < vo.argumentCount(v.func)
    requires forall x :: cv.asFloat(cv.floatText(x)) == x
    ensures LoadFloat(Reload(cv, vo, Cleared(v), ExportRows(cv, vo, v)), c) == LoadFloat(v, c)
  {
    var rows := ExportRows(cv, vo, v);
    assert rows[..0] == [];
    assert LastInColumn(rows, c) == Some(rows[0][c]);
    ReloadArgument(cv, vo, Cleared(v), rows, c);
  }

  /** The Pointer argument survives a save and a load. */
  lemma PointerRoundTrip(cv: Conv, vo: VariableOracles, v: ShaderVariable)
    requires v.func != NoFunction && v.func == vo.pointer
    ensures Reload(cv, vo, Cleared(v), ExportRows(cv, vo, v)).pointerArgument == v.pointerArgument
  {
    var rows := ExportRows(cv, vo, v);
    assert rows[..0] == [];
    assert LastRowValue(rows) == Some(v.pointerArgument);
    ReloadPointer(cv, vo, Cleared(v), rows);
  }

  // ---------------------------------------------------------------------
  // Whole variables

  /** The variable as the reader declares it, before any value is parsed in. */
  function Cleared(v: ShaderVariable): (r: ShaderVariable)
    ensures r.vtype == v.vtype && r.name == v.name && r.system == v.system && r.func == v.func
    ensures r.invert == v.invert && r.lastFrame == v.lastFrame
    ensures r.data == map[] && r.arguments == map[] && r.pointerArgument == ""
  {
    v.(data := map[], arguments := map[], pointerArgument := "")
  }

  /** A `variable` element read in full: the value is parsed only when no
      system variable drives it. */
  function ReadVariable(cv: Conv, tables: Tables, vo: VariableOracles, n: Node, withFlags: bool): ShaderVariable
  {
    var d := ReadDeclaration(cv, tables, vo, n, withFlags);
    if d.system == NoSystem then ParsedValue(cv, vo, n, d) else d
  }

  /** The body of the loop over `variable` elements: declare, then parse the value unless a system
      variable drives it. */
  method ReadOneVariable(cv: Conv, tables: Tables, vo: VariableOracles, variableNode: Node, withFlags: bool)
    returns (v: ShaderVariable)
    ensures v == ReadVariable(cv, tables, vo, variableNode, withFlags)
  {
    v := ReadDeclaration(cv, tables, vo, variableNode, withFlags);
    if v.system == NoSystem {
      v := ParseVariableValue(cv, vo, variableNode, v);
    }
  }

  /** What the writer needs of a variable: a column count where it writes a constant. */
  predicate Exportable(vo: VariableOracles, v: ShaderVariable)
  {
    v.func == NoFunction ==> vo.columnCount(v.vtype) > 0
  }

  /** The attribute names of a `variable` element differ from one another. */
  lemma AttributeNamesDiffer()
    ensures "type" != "name" && "type" != "invert" && "type" != "lastframe" && "type" != "system" && "type" != "function"
    ensures "name" != "invert" && "name" != "lastframe" && "name" != "system" && "name" != "function"
    ensures "invert" != "lastframe" && "invert" != "system" && "invert" != "function"
    ensures "lastframe" != "system" && "lastframe" != "function" && "system" != "function"
  {
    assert "type"[0] == 't' && "name"[0] == 'n' && "invert"[0] == 'i' && "lastframe"[0] == 'l';
    assert "system"[0] == 's' && "function"[0] == 'f';
  }

  /** The `variable` element `m_exportShaderVariables` writes for one variable:
      type and name, the flags that are set, the system kind or else the
      function kind, and the value rows unless a system variable drives it. */
  function VariableNode(cv: Conv, tables: Tables, vo: VariableOracles, v: ShaderVariable): (n: Node)
    requires Exportable(vo, v)
    ensures n.tag == "variable"
    ensures "type" in n.attrs && n.attrs["type"] == vo.typeName(v.vtype)
    ensures "name" in n.attrs && n.attrs["name"] == v.name
    ensures ("invert" in n.attrs <==> v.invert) && (v.invert ==> n.attrs["invert"] == cv.boolText(true))
    ensures ("lastframe" in n.attrs <==> v.lastFrame) && (v.lastFrame ==> n.attrs["lastframe"] == cv.boolText(true))
    ensures ("system" in n.attrs <==> v.system != NoSystem)
    ensures v.system != NoSystem ==> n.attrs["system"] == NameAt(tables.systemVariables, v.system)
    ensures ("function" in n.attrs <==> v.system == NoSystem && v.func != NoFunction)
    ensures v.system == NoSystem && v.func != NoFunction ==> n.attrs["function"] == NameAt(tables.functions, v.func)
    ensures n.children == if v.system == NoSystem then RowNodes(ExportRows(cv, vo, v)) else []
  {
    AttributeNamesDiffer();
    var a0 := map["type" := vo.typeName(v.vtype), "name" := v.name];
    var a1 := if v.invert then a0["invert" := cv.boolText(true)] else a0;
    var a2 := if v.lastFrame then a1["lastframe" := cv.boolText(true)] else a1;
    var a3 := if v.system != NoSystem then a2["system" := NameAt(tables.systemVariables, v.system)]
              else if v.func != NoFunction then a2["function" := NameAt(tables.functions, v.func)]
              else a2;
    Node("variable", a3, "", if v.system == NoSystem then RowNodes(ExportRows(cv, vo, v)) else [])
  }

  /** What the reader needs for a declaration to read back as written: names
      that tell the kinds apart, indices inside the tables, and a variable the
      reader itself would have accepted. */
  ghost predicate Reloadable(cv: Conv, tables: Tables, vo: VariableOracles, v: ShaderVariable)
  {
    && cv.asBool(cv.boolText(true))
    && (forall t, u :: vo.typeName(t) == vo.typeName(u) ==> t == u)
    && Distinct(tables.systemVariables) && Distinct(tables.functions)
    && v.system < |tables.systemVariables| && v.func < |tables.functions|
    && (v.system != NoSystem ==> vo.systemType(v.system) == v.vtype)
    && (v.func != NoFunction ==> v.system == NoSystem && vo.hasValidReturnType(v.vtype, v.func))
  }

  /** Writing a variable and reading it back gives the same declaration. */
  lemma DeclarationRoundTrip(cv: Conv, tables: Tables, vo: VariableOracles, v: ShaderVariable)
    requires Exportable(vo, v) && Reloadable(cv, tables, vo, v)
    ensures ReadDeclaration(cv, tables, vo, VariableNode(cv, tables, vo, v), true) == Cleared(v)
  {
    var n := VariableNode(cv, tables, vo, v);
    assert AttrBool(cv, n, "invert") == v.invert;
    assert AttrBool(cv, n, "lastframe") == v.lastFrame;
    AllTypesComplete(v.vtype);
    var k :| 0 <= k < |AllTypes| && AllTypes[k] == v.vtype;
    assert ReadType(vo, n) == v.vtype;
    if v.system != NoSystem {
      FirstInOfDistinct(tables.systemVariables, v.system);
    }
    assert ReadSystem(tables, vo, n, v.vtype) == v.system;
    if v.func != NoFunction {
      FirstInOfDistinct(tables.functions, v.func);
    }
    assert ReadFunction(tables, vo, n, v.vtype, v.system) == v.func;
  }

  /** A variable element is parsed from its rows alone. */
  lemma ParsedFromRows(cv: Conv, vo: VariableOracles, n: Node, v: ShaderVariable, rows: seq<seq<string>>)
    requires n.children == RowNodes(rows)
    ensures ParsedValue(cv, vo, n, v) == Reload(cv, vo, v, rows)
  {
    ValueRowsOfRowNodes(n, rows);
    ValueRowsOfRowNodes(RowsNode(rows), rows);
  }

  /** Writing a variable and reading it back gives its declaration with the
      value the rows carry; the value lemmas above say what that value is. */
  lemma VariableRoundTrip(cv: Conv, tables: Tables, vo: VariableOracles, v: ShaderVariable)
    requires Exportable(vo, v) && Reloadable(cv, tables, vo, v)
    ensures ReadVariable(cv, tables, vo, VariableNode(cv, tables, vo, v), true) ==
              if v.system == NoSystem then Reload(cv, vo, Cleared(v), ExportRows(cv, vo, v)) else Cleared(v)
  {
    DeclarationRoundTrip(cv, tables, vo, v);
    if v.system == NoSystem {
      ParsedFromRows(cv, vo, VariableNode(cv, tables, vo, v), Cleared(v), ExportRows(cv, vo, v));
    }
  }

  function VariableNodes(cv: Conv, tables: Tables, vo: VariableOracles, vars: seq<ShaderVariable>): (r: seq<Node>)
    requires forall i :: 0 <= i < |vars| ==> Exportable(vo, vars[i])
    ensures |r| == |vars| && forall i :: 0 <= i < |vars| ==> r[i] == VariableNode(cv, tables, vo, vars[i])
  {
    seq(|vars|, i requires 0 <= i < |vars| => VariableNode(cv, tables, vo, vars[i]))
  }

  /** `m_exportShaderVariables(node, vars)`: a `variables` element holding one
      `variable` element per variable, in order, and nothing at all for an
      empty list. */
  method ExportShaderVariables(cv: Conv, tables: Tables, vo: VariableOracles, node: Node, vars: seq<ShaderVariable>)
    returns (r: Node)
    requires forall i :: 0 <= i < |vars| ==> Exportable(vo, vars[i])
    ensures vars == [] ==> r == node
    ensures vars != [] ==> r == node.(children := node.children + [Node("variables", map[], "", VariableNodes(cv, tables, vo, vars))])
  {
    r := node;
    if |vars| > 0 {
      var varNodes: seq<Node> := [];
      var i := 0;
      while i < |vars|
        invariant 0 <= i <= |vars|
        invariant varNodes == VariableNodes(cv, tables, vo, vars[..i])
      {
        varNodes := varNodes + [VariableNode(cv, tables, vo, vars[i])];
        i := i + 1;
        assert vars[..i] == vars[..i - 1] + [vars[i - 1]];
      }
      assert vars[..i] == vars;
      r := node.(children := node.children + [Node("variables", map[], "", varNodes)]);
    }
  }

  /** Reading back what `ExportShaderVariables` appended to an element that
      had no `variables` child gives, variable by variable, what
      `VariableRoundTrip` describes. */
  lemma VariablesRoundTrip(cv: Conv, tables: Tables, vo: VariableOracles, owner: Node, vars: seq<ShaderVariable>)
    requires forall i :: 0 <= i < |vars| ==> Exportable(vo, vars[i])
    requires forall c :: c in owner.children ==> c.tag != "variables"
    ensures var written := if vars == [] then owner
                           else owner.(children := owner.children + [Node("variables", map[], "", VariableNodes(cv, tables, vo, vars))]);
            var kids := ChildrenNamed(Child(written, "variables"), "variable");
            |kids| == |vars| && forall i :: 0 <= i < |vars| ==> kids[i] == VariableNode(cv, tables, vo, vars[i])
  {
    if vars != [] {
      var vn := Node("variables", map[], "", VariableNodes(cv, tables, vo, vars));
      var written := owner.(children := owner.children + [vn]);
      FirstAfter(owner.children, vn, "variables");
      AllNamed(VariableNodes(cv, tables, vo, vars), "variable");
    } else {
      assert Child(owner, "variables") == Null;
      assert ChildrenNamed(Null, "variable") == [];
    }
  }

  lemma {:induction false} FirstAfter(kids: seq<Node>, n: Node, tag: string)
    requires forall c :: c in kids ==> c.tag != tag
    requires n.tag == tag
    ensures FirstNamed(kids + [n], tag) == n
    decreases |kids|
  {
    if kids != [] {
      assert (kids + [n])[1..] == kids[1..] + [n];
      FirstAfter(kids[1..], n, tag);
    }
  }
}
