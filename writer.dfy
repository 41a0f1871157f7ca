/** `SaveAs`: the version 2 document the writer builds from the pipeline and
    the object registry, and what the version 2 reader gets back from it.
    The document is built as a value; saving it to disk, the settings
    section and the copying of shader files are not part of this model. A
    file name is turned into the path the document carries by `relative`,
    which stands for `GetRelativePath` applied to the file's place under the
    old project directory. */
module Writer {
  import opened Common
  import opened Document
  import opened Names
  import opened Paths
  import opened Variables
  import opened Items
  import opened RenderStates
  import opened Pipeline
  import opened Objects
  import opened Binding
  import opened ObjectReader
  import opened Reader
  import opened Project

  // ---- the render-target chain ----

  /** How many entries of a render-target buffer come before its first 0. */
  function LeadingTargets(handles: seq<Handle>): (k: nat)
    ensures k <= |handles|
    ensures forall i :: 0 <= i < k ==> handles[i] != NoTexture
    ensures k < |handles| ==> handles[k] == NoTexture
    decreases |handles|
  {
    if handles == [] || handles[0] == NoTexture then 0
    else
      var k := 1 + LeadingTargets(handles[1..]);
      assert forall i :: 1 <= i < |handles| ==> handles[i] == handles[1..][i - 1];
      k
  }

  /** The name a chain entry is written under: none for the window's
      texture, the object's name for any other handle. */
  function TargetName(objects: ObjectManager, h: Handle): string
    reads objects
  {
    if h == WindowTexture then "" else objects.NameOfTexture(h)
  }

  /** The `rendertexture` element of one chain entry: nameless for the
      window's texture. */
  function TargetNode(objects: ObjectManager, h: Handle): Node
    reads objects
  {
    if h == WindowTexture then Node("rendertexture", map[], "", [])
    else Node("rendertexture", map["name" := objects.NameOfTexture(h)], "", [])
  }

  /** One `rendertexture` element per entry before the first 0. */
  function ChainNodes(objects: ObjectManager, handles: seq<Handle>): (r: seq<Node>)
    reads objects
    ensures |r| == LeadingTargets(handles)
    ensures forall i :: 0 <= i < |r| ==> r[i] == TargetNode(objects, handles[i])
  {
    var k := LeadingTargets(handles);
    seq(k, i requires 0 <= i < k reads objects => TargetNode(objects, handles[i]))
  }

  /** The names the reader finds on a written chain. */
  function ChainNames(objects: ObjectManager, handles: seq<Handle>): (r: seq<string>)
    reads objects
    ensures |r| == LeadingTargets(handles)
  {
    var k := LeadingTargets(handles);
    seq(k, i requires 0 <= i < k reads objects => TargetName(objects, handles[i]))
  }

  /** The render-texture loop of `SaveAs`: from slot 0, one element per
      entry, stopping at the first 0 or at the end of the buffer. */
  method WriteTargets(objects: ObjectManager, pass: ShaderPass, kids: seq<Node>) returns (r: seq<Node>)
    requires pass.Valid()
    ensures r == kids + ChainNodes(objects, pass.renderTextures[..])
  {
    ghost var handles := pass.renderTextures[..];
    r := kids;
    var i := 0;
    while i < MaxRenderTextures
      invariant 0 <= i <= MaxRenderTextures
      invariant forall j :: 0 <= j < i ==> handles[j] != NoTexture
      invariant r == kids + seq(i, j requires 0 <= j < i reads objects => TargetNode(objects, handles[j]))
    {
      if pass.renderTextures[i] == NoTexture {
        break;
      }
      var rtID := pass.renderTextures[i];
      if rtID == WindowTexture {
        r := r + [Node("rendertexture", map[], "", [])];
      } else {
        r := r + [Node("rendertexture", map["name" := objects.NameOfTexture(rtID)], "", [])];
      }
      i := i + 1;
    }
    assert i == LeadingTargets(handles);
  }

  /** A handle the reader can find again by its written name: the window's
      texture, or an object of the registry with a name. */
  ghost predicate Findable(objects: ObjectManager, h: Handle)
    reads objects
  {
    h == WindowTexture || (h.ObjectTexture? && h.id < |objects.names| && objects.names[h.id] != "")
  }

  /** Reading a written chain back against the same registry gives the
      handles before the first 0, each in its slot and none dropped, since
      the buffer never holds more than the reader's loop writes. */
  lemma ChainRoundTrip(objects: ObjectManager, handles: seq<Handle>)
    requires objects.Valid() && |handles| == MaxRenderTextures
    requires forall i :: 0 <= i < LeadingTargets(handles) ==> Findable(objects, handles[i])
    ensures ChainLength(ChainNames(objects, handles)) == LeadingTargets(handles)
    ensures forall i :: 0 <= i < LeadingTargets(handles) ==>
              Resolve(false, objects, ChainNames(objects, handles)[i]) == handles[i]
  {
    var names := ChainNames(objects, handles);
    forall i | 0 <= i < LeadingTargets(handles)
      ensures Resolve(false, objects, names[i]) == handles[i]
    {
      var h := handles[i];
      if h != WindowTexture {
        objects.TextureNameRoundTrip(h);
      }
    }
  }

  /** A pass whose buffer starts with 0 is saved with no target at all, and
      the reader then gives it one target, the window's texture, in slot 0. */
  lemma EmptyChainReadsAsWindow(objects: ObjectManager, handles: seq<Handle>)
    requires |handles| > 0 && handles[0] == NoTexture
    ensures ChainNames(objects, handles) == []
    ensures TargetCount(ChainNames(objects, handles)) == 1
    ensures Chained(false, objects, ChainNames(objects, handles), InitialTargets()) == InitialTargets()
    ensures InitialTargets()[0] == WindowTexture
  {
    assert InitialTargets()[0..] == InitialTargets();
  }

  // ---- shaders ----

  /** The `shader` element of the vertex or pixel stage. */
  function StageNode(stage: string, path: string, entry: string): Node
  {
    Node("shader", map["type" := stage, "path" := path, "entry" := entry], "", [])
  }

  /** The geometry stage is written only when both its entry and its path
      are set. */
  predicate WritesGeometryShader(s: ShaderSet)
  {
    |s.gsEntry| > 0 && |s.gsPath| > 0
  }

  /** The `shader` element of the geometry stage, which also carries its
      `used` switch. */
  function GeometryStageNode(cv: Conv, path: string, entry: string, used: bool): Node
  {
    Node("shader", map["used" := cv.boolText(used), "type" := "gs", "path" := path, "entry" := entry], "", [])
  }

  /** The `shader` elements of a pass: vertex, pixel and, when it is set,
      geometry. */
  function ShaderNodes(cv: Conv, s: ShaderSet, relative: string -> string): seq<Node>
  {
    [StageNode("vs", relative(s.vsPath), s.vsEntry), StageNode("ps", relative(s.psPath), s.psEntry)]
    + (if WritesGeometryShader(s) then [GeometryStageNode(cv, relative(s.gsPath), s.gsEntry, s.gsUsed)] else [])
  }

  /** The stages of a saved pass as the reader sees them: each written path
      in generic form, and a geometry stage that was not written at the
      stages' starting values. */
  function ReloadedShaders(s: ShaderSet, relative: string -> string): ShaderSet
  {
    var gs := WritesGeometryShader(s);
    ShaderSet(ToGenericPath(relative(s.vsPath)), s.vsEntry, ToGenericPath(relative(s.psPath)), s.psEntry,
              if gs then ToGenericPath(relative(s.gsPath)) else NoShaders.gsPath,
              if gs then s.gsEntry else NoShaders.gsEntry,
              if gs then s.gsUsed else NoShaders.gsUsed)
  }

  lemma ShaderKeysDiffer()
    ensures "type" != "path" && "type" != "entry" && "path" != "entry" && "used" != "type" && "used" != "path" && "used" != "entry"
    ensures "vs" != "ps" && "vs" != "gs" && "ps" != "gs"
  {
    assert "type"[0] == 't' && "path"[0] == 'p' && "used"[0] == 'u';
    assert "vs"[0] == 'v' && "ps"[0] == 'p' && "gs"[0] == 'g';
  }

  /** What the reader takes from a vertex or pixel stage element. */
  lemma StageRead(cv: Conv, s: ShaderSet, stage: string, path: string, entry: string)
    ensures ShaderStep(cv, false)(s, StageNode(stage, path, entry)) == SetStage(s, stage, ToGenericPath(path), entry, false)
  {
    ShaderKeysDiffer();
    var n := StageNode(stage, path, entry);
    assert AttrText(n, "type") == stage;
    assert AttrText(n, "path") == path;
    assert AttrText(n, "entry") == entry;
    assert AttrBool(cv, n, "used") == false;
  }

  /** What the reader takes from a geometry stage element. */
  lemma GeometryStageRead(cv: Conv, s: ShaderSet, path: string, entry: string, used: bool)
    requires Coherent(cv)
    ensures ShaderStep(cv, false)(s, GeometryStageNode(cv, path, entry, used)) == s.(gsPath := ToGenericPath(path), gsEntry := entry, gsUsed := used)
  {
    ShaderKeysDiffer();
    var n := GeometryStageNode(cv, path, entry, used);
    assert AttrText(n, "type") == "gs";
    assert AttrText(n, "path") == path;
    assert AttrText(n, "entry") == entry;
    assert cv.asBool(cv.boolText(used)) == used;
    assert AttrBool(cv, n, "used") == used;
    assert ShaderStep(cv, false)(s, n) == SetStage(s, "gs", ShaderPath(false, n), ShaderEntry(false, n), used);
    assert ShaderPath(false, n) == ToGenericPath(path) && ShaderEntry(false, n) == entry;
    assert SetStage(s, "gs", ToGenericPath(path), entry, used) == s.(gsPath := ToGenericPath(path), gsEntry := entry, gsUsed := used);
  }

  /** Reading the vertex and pixel elements from the stages' starting
      values. */
  lemma VertexPixelRead(cv: Conv, s: ShaderSet, relative: string -> string)
    ensures Fold(NoShaders, [StageNode("vs", relative(s.vsPath), s.vsEntry), StageNode("ps", relative(s.psPath), s.psEntry)], ShaderStep(cv, false))
            == NoShaders.(vsPath := ToGenericPath(relative(s.vsPath)), vsEntry := s.vsEntry,
                          psPath := ToGenericPath(relative(s.psPath)), psEntry := s.psEntry)
  {
    var step := ShaderStep(cv, false);
    var vs := StageNode("vs", relative(s.vsPath), s.vsEntry);
    var ps := StageNode("ps", relative(s.psPath), s.psEntry);
    ShaderKeysDiffer();
    StageRead(cv, NoShaders, "vs", relative(s.vsPath), s.vsEntry);
    var s1 := step(NoShaders, vs);
    StageRead(cv, s1, "ps", relative(s.psPath), s.psEntry);
    FoldOne(NoShaders, vs, step);
    FoldAppend(NoShaders, [vs], [ps], step);
    FoldOne(s1, ps, step);
    assert [vs] + [ps] == [vs, ps];
  }

  /** Saving a pass's stages and reading them back gives each stage the
      relative path in generic form and the same entry point; a geometry
      stage keeps its switch when it was written. */
  lemma ShadersRoundTrip(cv: Conv, s: ShaderSet, relative: string -> string)
    requires Coherent(cv)
    ensures Fold(NoShaders, ShaderNodes(cv, s, relative), ShaderStep(cv, false)) == ReloadedShaders(s, relative)
  {
    var step := ShaderStep(cv, false);
    var vp := [StageNode("vs", relative(s.vsPath), s.vsEntry), StageNode("ps", relative(s.psPath), s.psEntry)];
    VertexPixelRead(cv, s, relative);
    if WritesGeometryShader(s) {
      var gs := GeometryStageNode(cv, relative(s.gsPath), s.gsEntry, s.gsUsed);
      FoldAppend(NoShaders, vp, [gs], step);
      FoldOne(Fold(NoShaders, vp, step), gs, step);
      GeometryStageRead(cv, Fold(NoShaders, vp, step), relative(s.gsPath), s.gsEntry, s.gsUsed);
    } else {
      assert ShaderNodes(cv, s, relative) == vp;
    }
  }

  // ---- macros ----

  /** A `define` element: the name, the switch and the value as its text. */
  function MacroNode(cv: Conv, m: Macro): Node
  {
    Node("define", map["name" := m.name, "active" := cv.boolText(m.active)], m.value, [])
  }

  /** The `define` elements of a pass, one per macro, in order. */
  function Defines(cv: Conv, macros: seq<Macro>): (r: seq<Node>)
    ensures |r| == |macros|
    ensures forall i :: 0 <= i < |r| ==> r[i].tag == "define"
    decreases |macros|
  {
    if macros == [] then []
    else Defines(cv, macros[..|macros| - 1]) + [MacroNode(cv, macros[|macros| - 1])]
  }

  /** The macros loop of `SaveAs`. */
  method WriteMacros(cv: Conv, macros: seq<Macro>) returns (r: Node)
    ensures r == Node("macros", map[], "", Defines(cv, macros))
  {
    var defines: seq<Node> := [];
    var i := 0;
    while i < |macros|
      invariant 0 <= i <= |macros|
      invariant defines == Defines(cv, macros[..i])
    {
      var macro := macros[i];
      defines := defines + [Node("define", map["name" := macro.name, "active" := cv.boolText(macro.active)], macro.value, [])];
      i := i + 1;
      assert macros[..i][..i - 1] == macros[..i - 1];
    }
    assert macros[..i] == macros;
    r := Node("macros", map[], "", defines);
  }

  /** Saved macros read back as themselves, in order. */
  lemma {:induction false} MacrosRoundTrip(cv: Conv, macros: seq<Macro>)
    requires Coherent(cv)
    ensures MacrosOf(cv, Defines(cv, macros)) == macros
    decreases |macros|
  {
    if macros != [] {
      var init := macros[..|macros| - 1];
      var m := macros[|macros| - 1];
      var ds := Defines(cv, macros);
      assert ds[..|ds| - 1] == Defines(cv, init);
      MacrosRoundTrip(cv, init);
      assert "name" != "active";
      assert ReadMacro(cv, MacroNode(cv, m)) == m;
    }
  }

  // ---- pipeline items ----

  /** An `item` element: the name, the type the data's kind selects and the
      data's children; a model's file is written as `relative` makes it. */
  function ItemNode(cv: Conv, tables: Tables, it: PipelineItem, relative: string -> string): Node
  {
    match it.data
    case GeometryData(g) => Node("item", map["name" := it.name, "type" := "geometry"], "", GeometryNodes(cv, tables, g))
    case RenderStateData(s) => Node("item", map["name" := it.name, "type" := "renderstate"], "", RenderStateNodes(cv, tables, s))
    case ModelData(m) => Node("item", map["name" := it.name, "type" := "model"], "", ModelNodes(cv, m, relative(m.filename)))
  }

  /** An item as a save and a reload leave it: same name and kind, each kind's
      data as its own reload lemma says. */
  function ReloadedItem(cv: Conv, tables: Tables, it: PipelineItem, relative: string -> string): PipelineItem
  {
    PipelineItem(it.name,
      match it.data
      case GeometryData(g) => GeometryData(ReloadedGeometry(tables, g))
      case RenderStateData(s) => RenderStateData(ReloadedRenderState(cv, tables, s))
      case ModelData(m) =>
        ModelData(ModelItem(ToGenericPath(relative(m.filename)), if m.onlyGroup then m.groupName else FreshModel.groupName,
                            m.onlyGroup, ReloadedTransform(m.transform))))
  }

  /** The name tables the item reader searches are free of repeats. */
  ghost predicate ItemTablesDistinct(tables: Tables)
  {
    Distinct(tables.geometry) && NamesDistinct(tables.topology)
  }

  /** A geometry's shape indexes `GEOMETRY_NAMES`. */
  predicate ShapeKnown(tables: Tables, it: PipelineItem)
  {
    it.data.GeometryData? ==> it.data.geometry.kind < |tables.geometry|
  }

  /** A saved item reads back, by the version 2 reader, as its reloaded self. */
  lemma ItemRoundTrip(cv: Conv, tables: Tables, it: PipelineItem, relative: string -> string)
    requires Coherent(cv) && ItemTablesDistinct(tables) && ShapeKnown(tables, it)
    ensures ReadItem(cv, tables, false, ItemNode(cv, tables, it, relative)) == Some(ReloadedItem(cv, tables, it, relative))
  {
    var n := ItemNode(cv, tables, it, relative);
    assert "name" != "type";
    assert AttrText(n, "name") == it.name;
    match it.data
    case GeometryData(g) =>
      assert AttrText(n, "type") == "geometry";
      GeometryReload(cv, tables, g, n);
    case RenderStateData(s) =>
      assert AttrText(n, "type") == "renderstate";
      RenderStateReload(cv, tables, s, n);
    case ModelData(m) =>
      assert AttrText(n, "type") == "model";
      ModelReload(cv, m, relative(m.filename), n);
  }

  /** The `item` elements of an `items` element, one per item, in order. */
  function ItemNodes(cv: Conv, tables: Tables, items: seq<PipelineItem>, relative: string -> string): (r: seq<Node>)
    ensures |r| == |items| && forall i :: 0 <= i < |items| ==> r[i] == ItemNode(cv, tables, items[i], relative)
  {
    seq(|items|, i requires 0 <= i < |items| => ItemNode(cv, tables, items[i], relative))
  }

  function ReloadedItems(cv: Conv, tables: Tables, items: seq<PipelineItem>, relative: string -> string): (r: seq<PipelineItem>)
    ensures |r| == |items| && forall i :: 0 <= i < |items| ==> r[i] == ReloadedItem(cv, tables, items[i], relative)
  {
    seq(|items|, i requires 0 <= i < |items| => ReloadedItem(cv, tables, items[i], relative))
  }

  /** The pass items loop of `SaveAs`. */
  method WriteItems(cv: Conv, tables: Tables, items: seq<PipelineItem>, relative: string -> string) returns (r: Node)
    ensures r == Node("items", map[], "", ItemNodes(cv, tables, items, relative))
  {
    var kids: seq<Node> := [];
    var i := 0;
    while i < |items|
      invariant 0 <= i <= |items|
      invariant kids == ItemNodes(cv, tables, items[..i], relative)
    {
      kids := kids + [ItemNode(cv, tables, items[i], relative)];
      i := i + 1;
    }
    assert items[..i] == items;
    r := Node("items", map[], "", kids);
  }

  /** A list of elements each of which `read` reads as something reads as
      those things, in order. */
  lemma {:induction false} ItemsOfEach(read: Node -> Option<PipelineItem>, nodes: seq<Node>, out: seq<PipelineItem>)
    requires |nodes| == |out| && forall i :: 0 <= i < |nodes| ==> read(nodes[i]) == Some(out[i])
    ensures ItemsOf(read, nodes) == out
    decreases |nodes|
  {
    if nodes != [] {
      ItemsOfEach(read, nodes[..|nodes| - 1], out[..|out| - 1]);
    }
  }

  /** Every saved item reads back, in order, and none is skipped. */
  lemma ItemsRoundTrip(env: Environment, items: seq<PipelineItem>, relative: string -> string)
    requires env == StandardEnvironment(env.cv, env.tables, env.vo, env.fileExists, env.loadsModel)
    requires Coherent(env.cv) && ItemTablesDistinct(env.tables)
    requires forall i :: 0 <= i < |items| ==> ShapeKnown(env.tables, items[i])
    ensures ItemsOf(ItemReader(env, false), ItemNodes(env.cv, env.tables, items, relative)) == ReloadedItems(env.cv, env.tables, items, relative)
  {
    var ns := ItemNodes(env.cv, env.tables, items, relative);
    var out := ReloadedItems(env.cv, env.tables, items, relative);
    forall i | 0 <= i < |ns|
      ensures ItemReader(env, false)(ns[i]) == Some(out[i])
    {
      ItemRoundTrip(env.cv, env.tables, items[i], relative);
    }
    ItemsOfEach(ItemReader(env, false), ns, out);
  }

  // ---- item variable values ----

  /** An override is saved with a pass when its item is one of the pass's items. */
  predicate OverridesItemOf(iv: ItemValue, items: seq<PipelineItem>)
  {
    iv.item.Some? && iv.item.value in items
  }

  predicate ValuesExportable(vo: VariableOracles, values: seq<ItemValue>)
  {
    forall i :: 0 <= i < |values| ==> Exportable(vo, values[i].newValue)
  }

  /** The overrides whose item lives in the pass `owner`, in order: the
      candidates for that pass's `itemvalues` element. */
  function OverridesOf(values: seq<ItemValue>, owner: ShaderPass): (r: seq<ItemValue>)
    ensures |r| <= |values|
    decreases |values|
  {
    if values == [] then []
    else
      var last := values[|values| - 1];
      OverridesOf(values[..|values| - 1], owner) + (if last.pass == owner then [last] else [])
  }

  /** The candidates for `owner` are exactly the overrides whose pass is
      `owner`. */
  lemma {:induction false} OverridesOfMembers(values: seq<ItemValue>, owner: ShaderPass)
    ensures forall i :: 0 <= i < |OverridesOf(values, owner)| ==>
              OverridesOf(values, owner)[i].pass == owner && OverridesOf(values, owner)[i] in values
    ensures forall i :: 0 <= i < |values| && values[i].pass == owner ==> values[i] in OverridesOf(values, owner)
    decreases |values|
  {
    if values != [] {
      var init := values[..|values| - 1];
      var last := values[|values| - 1];
      OverridesOfMembers(init, owner);
      var prior := OverridesOf(init, owner);
      var r := OverridesOf(values, owner);
      assert r == prior + (if last.pass == owner then [last] else []);
      forall i | 0 <= i < |r|
        ensures r[i].pass == owner && r[i] in values
      {
        if i < |prior| {
          var j :| 0 <= j < |init| && init[j] == prior[i];
          assert values[j] == init[j];
        } else {
          assert r[i] == last && values[|values| - 1] == last;
        }
      }
      forall i | 0 <= i < |values| && values[i].pass == owner
        ensures values[i] in r
      {
        if i < |init| {
          assert values[i] == init[i];
          var j :| 0 <= j < |prior| && prior[j] == init[i];
          assert r[j] == prior[j];
        } else {
          assert r[|r| - 1] == last;
        }
      }
    }
  }

  /** The candidates of an exportable list are exportable. */
  lemma OverridesExportable(vo: VariableOracles, values: seq<ItemValue>, owner: ShaderPass)
    requires ValuesExportable(vo, values)
    ensures ValuesExportable(vo, OverridesOf(values, owner))
  {
    var r := OverridesOf(values, owner);
    OverridesOfMembers(values, owner);
    forall i | 0 <= i < |r|
      ensures Exportable(vo, r[i].newValue)
    {
      var j :| 0 <= j < |values| && values[j] == r[i];
    }
  }

  /** An override is a candidate for at most one of a run of distinct passes. */
  lemma OverrideOfOnePass(values: seq<ItemValue>, passes: seq<ShaderPass>, iv: ItemValue, k1: nat, k2: nat)
    requires forall i, j :: 0 <= i < j < |passes| ==> passes[i] != passes[j]
    requires k1 < |passes| && k2 < |passes|
    requires iv in OverridesOf(values, passes[k1]) && iv in OverridesOf(values, passes[k2])
    ensures k1 == k2
  {
    OverridesOfMembers(values, passes[k1]);
    OverridesOfMembers(values, passes[k2]);
    var r1, r2 := OverridesOf(values, passes[k1]), OverridesOf(values, passes[k2]);
    var i1 :| 0 <= i1 < |r1| && r1[i1] == iv;
    var i2 :| 0 <= i2 < |r2| && r2[i2] == iv;
  }

  /** A `value` element: the variable's name, the item's name and the rows of
      the new value. */
  function ValueNode(cv: Conv, vo: VariableOracles, iv: ItemValue): Node
    requires iv.item.Some? && Exportable(vo, iv.newValue)
  {
    Node("value", map["variable" := iv.variable.name, "for" := iv.item.value.name], "", RowNodes(ExportRows(cv, vo, iv.newValue)))
  }

  /** The `value` elements of a pass's candidates, in order. */
  function ValueNodes(cv: Conv, vo: VariableOracles, values: seq<ItemValue>, items: seq<PipelineItem>): (r: seq<Node>)
    requires ValuesExportable(vo, values)
    ensures |r| <= |values|
    ensures forall k :: 0 <= k < |r| ==> r[k].tag == "value"
    decreases |values|
  {
    if values == [] then []
    else
      var last := values[|values| - 1];
      var prefix := ValueNodes(cv, vo, values[..|values| - 1], items);
      if OverridesItemOf(last, items) then prefix + [ValueNode(cv, vo, last)] else prefix
  }

  /** The saved `value` elements are exactly those of the overrides whose
      item belongs to the pass. */
  lemma {:induction false} ValueNodesSelect(cv: Conv, vo: VariableOracles, values: seq<ItemValue>, items: seq<PipelineItem>)
    requires ValuesExportable(vo, values)
    ensures forall n :: n in ValueNodes(cv, vo, values, items) ==>
              exists i :: 0 <= i < |values| && OverridesItemOf(values[i], items) && n == ValueNode(cv, vo, values[i])
    ensures forall i :: 0 <= i < |values| && OverridesItemOf(values[i], items) ==> ValueNode(cv, vo, values[i]) in ValueNodes(cv, vo, values, items)
    decreases |values|
  {
    if values != [] {
      var init := values[..|values| - 1];
      var last := values[|values| - 1];
      var prefix := ValueNodes(cv, vo, init, items);
      var r := ValueNodes(cv, vo, values, items);
      ValueNodesSelect(cv, vo, init, items);
      assert r == if OverridesItemOf(last, items) then prefix + [ValueNode(cv, vo, last)] else prefix;
      forall n | n in r
        ensures exists i :: 0 <= i < |values| && OverridesItemOf(values[i], items) && n == ValueNode(cv, vo, values[i])
      {
        if n in prefix {
          var i :| 0 <= i < |init| && OverridesItemOf(init[i], items) && n == ValueNode(cv, vo, init[i]);
          assert values[i] == init[i];
        } else {
          assert values[|values| - 1] == last;
        }
      }
      forall i | 0 <= i < |values| && OverridesItemOf(values[i], items)
        ensures ValueNode(cv, vo, values[i]) in r
      {
        if i < |init| { assert values[i] == init[i]; }
      }
    }
  }

  /** The `value` elements saved with the pass `owner` are those of the
      overrides whose item is an item of that pass, the same item of the same
      pass and not an equal item of another one. */
  lemma WrittenOverrides(cv: Conv, vo: VariableOracles, values: seq<ItemValue>, owner: ShaderPass, items: seq<PipelineItem>)
    requires ValuesExportable(vo, values)
    ensures ValuesExportable(vo, OverridesOf(values, owner))
    ensures forall n :: n in ValueNodes(cv, vo, OverridesOf(values, owner), items) ==>
              exists iv :: iv in values && iv.pass == owner && OverridesItemOf(iv, items) && n == ValueNode(cv, vo, iv)
    ensures forall iv :: iv in values && iv.pass == owner && OverridesItemOf(iv, items) ==>
              ValueNode(cv, vo, iv) in ValueNodes(cv, vo, OverridesOf(values, owner), items)
  {
    var own := OverridesOf(values, owner);
    OverridesOfMembers(values, owner);
    OverridesExportable(vo, values, owner);
    ValueNodesSelect(cv, vo, own, items);
    forall iv | iv in values && iv.pass == owner && OverridesItemOf(iv, items)
      ensures ValueNode(cv, vo, iv) in ValueNodes(cv, vo, own, items)
    {
      var i :| 0 <= i < |own| && own[i] == iv;
    }
  }

  /** The candidates of a prefix grow by the next override when it is one. */
  lemma OverridesOfSnoc(values: seq<ItemValue>, owner: ShaderPass, i: nat)
    requires i < |values|
    ensures values[i].pass == owner ==> OverridesOf(values[..i + 1], owner) == OverridesOf(values[..i], owner) + [values[i]]
    ensures values[i].pass != owner ==> OverridesOf(values[..i + 1], owner) == OverridesOf(values[..i], owner)
  {
    assert values[..i + 1][..i] == values[..i];
    assert OverridesOf(values[..i], owner) + [] == OverridesOf(values[..i], owner);
  }

  /** One more candidate adds its `value` element when its item is one of `items`. */
  lemma ValueNodesSnoc(cv: Conv, vo: VariableOracles, prior: seq<ItemValue>, iv: ItemValue, items: seq<PipelineItem>)
    requires ValuesExportable(vo, prior + [iv])
    ensures ValuesExportable(vo, prior) && Exportable(vo, iv.newValue)
    ensures ValueNodes(cv, vo, prior + [iv], items) ==
            ValueNodes(cv, vo, prior, items) + (if OverridesItemOf(iv, items) then [ValueNode(cv, vo, iv)] else [])
  {
    assert forall k :: 0 <= k < |prior| ==> (prior + [iv])[k] == prior[k];
    assert (prior + [iv])[|prior|] == iv;
    assert (prior + [iv])[..|prior|] == prior;
  }

  /** The search of the pass's items for the very item of an override: the
      pointer comparison of the source, as the same item of the same pass. */
  method HoldsItem(pass: ShaderPass, itemVal: ItemValue) returns (found: bool)
    ensures found <==> itemVal.pass == pass && OverridesItemOf(itemVal, pass.items)
  {
    found := false;
    var j := 0;
    while j < |pass.items|
      invariant 0 <= j <= |pass.items|
      invariant found <==> itemVal.pass == pass && itemVal.item.Some? && itemVal.item.value in pass.items[..j]
    {
      if itemVal.pass == pass && itemVal.item == Some(pass.items[j]) {
        found := true;
        break;
      }
      j := j + 1;
    }
    if !found {
      assert pass.items[..j] == pass.items;
    }
  }

  /** The item values loop of `SaveAs` for the pass `pass`, with its search
      of the pass's items for the very item of each override. */
  method WriteItemValues(cv: Conv, vo: VariableOracles, values: seq<ItemValue>, pass: ShaderPass) returns (r: Node)
    requires ValuesExportable(vo, values)
    ensures ValuesExportable(vo, OverridesOf(values, pass))
    ensures r == Node("itemvalues", map[], "", ValueNodes(cv, vo, OverridesOf(values, pass), pass.items))
  {
    var kids: seq<Node> := [];
    var i := 0;
    while i < |values|
      invariant 0 <= i <= |values|
      invariant ValuesExportable(vo, OverridesOf(values[..i], pass))
      invariant kids == ValueNodes(cv, vo, OverridesOf(values[..i], pass), pass.items)
    {
      var itemVal := values[i];
      var found := HoldsItem(pass, itemVal);
      OverridesOfSnoc(values, pass, i);
      OverridesExportable(vo, values[..i + 1], pass);
      ghost var next := OverridesOf(values[..i + 1], pass);
      if itemVal.pass == pass {
        ValueNodesSnoc(cv, vo, OverridesOf(values[..i], pass), itemVal, pass.items);
        assert ValueNodes(cv, vo, next, pass.items) == kids + (if found then [ValueNode(cv, vo, itemVal)] else []);
      } else {
        assert ValueNodes(cv, vo, next, pass.items) == kids;
      }
      if found {
        kids := kids + [ValueNode(cv, vo, itemVal)];
      }
      i := i + 1;
    }
    assert values[..i] == values;
    r := Node("itemvalues", map[], "", kids);
  }

  /** A saved override reads back, for the pass it is read into, when that
      pass still has a variable and an item of those names: for the first
      such variable and item, with the saved rows parsed on top of that
      variable. */
  lemma ValueReadBack(env: Environment, iv: ItemValue, vars: seq<ShaderVariable>, items: seq<PipelineItem>, owner: ShaderPass)
    requires env == StandardEnvironment(env.cv, env.tables, env.vo, env.fileExists, env.loadsModel)
    requires iv.item.Some? && Exportable(env.vo, iv.newValue)
    requires exists k :: 0 <= k < |vars| && vars[k].name == iv.variable.name
    requires exists j :: 0 <= j < |items| && items[j].name == iv.item.value.name
    ensures var r := ItemValueOf(env.readValue, ValueNode(env.cv, env.vo, iv), vars, items, owner);
            && r.Some? && r.value.variable.name == iv.variable.name
            && r.value.item.Some? && r.value.item.value.name == iv.item.value.name && r.value.pass == owner
            && r.value.newValue == Reload(env.cv, env.vo, r.value.variable, ExportRows(env.cv, env.vo, iv.newValue))
  {
    var n := ValueNode(env.cv, env.vo, iv);
    assert "variable"[0] == 'v' && "for"[0] == 'f';
    assert AttrText(n, "variable") == iv.variable.name;
    assert AttrText(n, "for") == iv.item.value.name;
    var r := ItemValueOf(env.readValue, n, vars, items, owner);
    ParsedFromRows(env.cv, env.vo, n, r.value.variable, ExportRows(env.cv, env.vo, iv.newValue));
  }

  // ---- a pass element ----

  predicate VariablesExportable(vo: VariableOracles, vars: seq<ShaderVariable>)
  {
    forall i :: 0 <= i < |vars| ==> Exportable(vo, vars[i])
  }

  /** `m_exportShaderVariables` on the pass element: one `variables` child,
      or none for a pass without variables. */
  function VariablesElement(cv: Conv, tables: Tables, vo: VariableOracles, vars: seq<ShaderVariable>): seq<Node>
    requires VariablesExportable(vo, vars)
  {
    if vars == [] then [] else [Node("variables", map[], "", VariableNodes(cv, tables, vo, vars))]
  }

  /** The children written before the macros: shaders, chain, variables. */
  function PassHead(cv: Conv, tables: Tables, vo: VariableOracles, objects: ObjectManager, st: PassState,
                    handles: seq<Handle>, relative: string -> string): seq<Node>
    requires VariablesExportable(vo, st.variables)
    reads objects
  {
    ShaderNodes(cv, st.shaders, relative) + ChainNodes(objects, handles) + VariablesElement(cv, tables, vo, st.variables)
  }

  /** The `macros`, `items` and `itemvalues` children, always written. */
  function PassTail(cv: Conv, tables: Tables, vo: VariableOracles, st: PassState, values: seq<ItemValue>,
                    relative: string -> string): seq<Node>
    requires ValuesExportable(vo, values)
  {
    [Node("macros", map[], "", Defines(cv, st.macros)),
     Node("items", map[], "", ItemNodes(cv, tables, st.items, relative)),
     Node("itemvalues", map[], "", ValueNodes(cv, vo, values, st.items))]
  }

  /** A `pass` element of the version 2 document. */
  function PassNode(cv: Conv, tables: Tables, vo: VariableOracles, objects: ObjectManager, st: PassState,
                    handles: seq<Handle>, values: seq<ItemValue>, relative: string -> string): Node
    requires VariablesExportable(vo, st.variables) && ValuesExportable(vo, values)
    reads objects
  {
    Node("pass", map["name" := st.name], "",
         PassHead(cv, tables, vo, objects, st, handles, relative) + PassTail(cv, tables, vo, st, values, relative))
  }

  predicate HeadTag(t: string)
  {
    t == "shader" || t == "rendertexture" || t == "variables"
  }

  lemma PassTagsDiffer()
    ensures !HeadTag("macros") && !HeadTag("items") && !HeadTag("itemvalues")
    ensures "items" != "macros" && "itemvalues" != "macros" && "itemvalues" != "items"
    ensures "shader" != "rendertexture" && "shader" != "variables" && "rendertexture" != "variables"
  {
    assert "macros"[0] == 'm' && "shader"[0] == 's' && "items"[0] == 'i';
  }

  predicate Tagged(kids: seq<Node>, tag: string)
  {
    forall i :: 0 <= i < |kids| ==> kids[i].tag == tag
  }

  predicate Untagged(kids: seq<Node>, tag: string)
  {
    forall i :: 0 <= i < |kids| ==> kids[i].tag != tag
  }

  lemma TaggedOther(kids: seq<Node>, tag: string, other: string)
    requires Tagged(kids, tag) && tag != other
    ensures Untagged(kids, other)
  {
  }

  /** Selecting by the tag of the first of four runs of children. */
  lemma SelectFirst(a: seq<Node>, b: seq<Node>, c: seq<Node>, d: seq<Node>, tag: string)
    requires Tagged(a, tag) && Untagged(b, tag) && Untagged(c, tag) && Untagged(d, tag)
    ensures Named(a + b + c + d, tag) == a
  {
    NamedAppend(a + b + c, d, tag);
    NamedAppend(a + b, c, tag);
    NamedAppend(a, b, tag);
    AllNamed(a, tag);
    NamedNone(b, tag);
    NamedNone(c, tag);
    NamedNone(d, tag);
  }

  /** Selecting by the tag of the second of four runs of children. */
  lemma SelectSecond(a: seq<Node>, b: seq<Node>, c: seq<Node>, d: seq<Node>, tag: string)
    requires Untagged(a, tag) && Tagged(b, tag) && Untagged(c, tag) && Untagged(d, tag)
    ensures Named(a + b + c + d, tag) == b
  {
    NamedAppend(a + b + c, d, tag);
    NamedAppend(a + b, c, tag);
    NamedAppend(a, b, tag);
    AllNamed(b, tag);
    NamedNone(a, tag);
    NamedNone(c, tag);
    NamedNone(d, tag);
  }

  /** The first child with a tag none of the first three runs carries. */
  lemma FirstInLast(a: seq<Node>, b: seq<Node>, c: seq<Node>, d: seq<Node>, tag: string)
    requires Untagged(a, tag) && Untagged(b, tag) && Untagged(c, tag)
    ensures FirstNamed(a + b + c + d, tag) == FirstNamed(d, tag)
  {
    assert a + b + c + d == (a + b + c) + d;
    assert forall i :: 0 <= i < |a + b + c| ==> (a + b + c)[i].tag != tag by {
      forall i | 0 <= i < |a + b + c| ensures (a + b + c)[i].tag != tag
      {
        if i < |a| { assert (a + b + c)[i] == a[i]; }
        else if i < |a| + |b| { assert (a + b + c)[i] == b[i - |a|]; }
        else { assert (a + b + c)[i] == c[i - |a| - |b|]; }
      }
    }
    FirstNamedSkip(a + b + c, d, tag);
  }

  /** A pass element made of runs of `shader`, `rendertexture` and
      `variables` children, then `macros`, `items` and `itemvalues`. */
  predicate PassShape(n: Node, sh: seq<Node>, ch: seq<Node>, ve: seq<Node>, m: Node, it: Node, iv: Node)
  {
    && n.children == sh + ch + ve + [m, it, iv]
    && Tagged(sh, "shader") && Tagged(ch, "rendertexture") && Tagged(ve, "variables") && |ve| <= 1
    && m.tag == "macros" && it.tag == "items" && iv.tag == "itemvalues"
  }

  /** In such an element the reader's selections by tag find the runs. */
  lemma ShapeHead(n: Node, sh: seq<Node>, ch: seq<Node>, ve: seq<Node>, m: Node, it: Node, iv: Node)
    requires PassShape(n, sh, ch, ve, m, it, iv)
    ensures ChildrenNamed(n, "shader") == sh && ChildrenNamed(n, "rendertexture") == ch
    ensures Child(n, "variables") == if ve == [] then Null else ve[0]
  {
    var tail := [m, it, iv];
    PassTagsDiffer();
    TaggedOther(sh, "shader", "rendertexture");
    TaggedOther(ch, "rendertexture", "shader");
    TaggedOther(ve, "variables", "shader");
    TaggedOther(ve, "variables", "rendertexture");
    TaggedOther(sh, "shader", "variables");
    TaggedOther(ch, "rendertexture", "variables");
    assert Untagged(tail, "shader") && Untagged(tail, "rendertexture") && Untagged(tail, "variables");
    SelectFirst(sh, ch, ve, tail, "shader");
    SelectSecond(sh, ch, ve, tail, "rendertexture");
    assert sh + ch + ve + tail == sh + ch + [] + (ve + tail);
    FirstInLast(sh, ch, [], ve + tail, "variables");
    if ve == [] {
      assert FirstNamed(tail, "variables") == Null;
    } else {
      assert (ve + tail)[0] == ve[0];
    }
  }

  /** The first of three children with a tag. */
  lemma FirstOfThree(m: Node, it: Node, iv: Node, tag: string)
    ensures FirstNamed([m, it, iv], tag) ==
            if m.tag == tag then m else if it.tag == tag then it else if iv.tag == tag then iv else Null
  {
    if m.tag != tag {
      assert [m, it, iv][1..] == [it, iv];
      if it.tag != tag {
        assert [it, iv][1..] == [iv];
        if iv.tag != tag {
          assert [iv][1..] == [];
          assert FirstNamed([iv], tag) == FirstNamed([], tag) == Null;
        }
        assert FirstNamed([it, iv], tag) == FirstNamed([iv], tag);
      }
    }
  }

  /** The runs before the tail carry none of the tail's tags. */
  lemma HeadUntagged(sh: seq<Node>, ch: seq<Node>, ve: seq<Node>, tag: string)
    requires Tagged(sh, "shader") && Tagged(ch, "rendertexture") && Tagged(ve, "variables")
    requires tag == "macros" || tag == "items" || tag == "itemvalues"
    ensures Untagged(sh, tag) && Untagged(ch, tag) && Untagged(ve, tag)
  {
    PassTagsDiffer();
    TaggedOther(sh, "shader", tag);
    TaggedOther(ch, "rendertexture", tag);
    TaggedOther(ve, "variables", tag);
  }

  lemma ShapeMacros(n: Node, sh: seq<Node>, ch: seq<Node>, ve: seq<Node>, m: Node, it: Node, iv: Node)
    requires PassShape(n, sh, ch, ve, m, it, iv)
    ensures Child(WithMacrosElement(n), "macros") == m
  {
    var e := Node("macros", map[], "", []);
    HeadUntagged(sh, ch, ve, "macros");
    assert WithMacrosElement(n).children == sh + ch + ve + ([m, it, iv] + [e]);
    FirstInLast(sh, ch, ve, [m, it, iv] + [e], "macros");
    assert ([m, it, iv] + [e])[0] == m;
  }

  lemma ShapeItems(n: Node, sh: seq<Node>, ch: seq<Node>, ve: seq<Node>, m: Node, it: Node, iv: Node)
    requires PassShape(n, sh, ch, ve, m, it, iv)
    ensures Child(n, "items") == it && Child(n, "itemvalues") == iv
  {
    PassTagsDiffer();
    HeadUntagged(sh, ch, ve, "items");
    HeadUntagged(sh, ch, ve, "itemvalues");
    FirstInLast(sh, ch, ve, [m, it, iv], "items");
    FirstInLast(sh, ch, ve, [m, it, iv], "itemvalues");
    FirstOfThree(m, it, iv, "items");
    FirstOfThree(m, it, iv, "itemvalues");
  }

  /** A written pass element has that shape. */
  lemma PassNodeShape(cv: Conv, tables: Tables, vo: VariableOracles, objects: ObjectManager, st: PassState,
                      handles: seq<Handle>, values: seq<ItemValue>, relative: string -> string)
    requires VariablesExportable(vo, st.variables) && ValuesExportable(vo, values)
    ensures PassShape(PassNode(cv, tables, vo, objects, st, handles, values, relative),
                      ShaderNodes(cv, st.shaders, relative), ChainNodes(objects, handles),
                      VariablesElement(cv, tables, vo, st.variables),
                      Node("macros", map[], "", Defines(cv, st.macros)),
                      Node("items", map[], "", ItemNodes(cv, tables, st.items, relative)),
                      Node("itemvalues", map[], "", ValueNodes(cv, vo, values, st.items)))
  {
  }

  /** The reader finds the saved shaders. */
  lemma PassShadersRead(cv: Conv, tables: Tables, vo: VariableOracles, objects: ObjectManager, st: PassState,
                        handles: seq<Handle>, values: seq<ItemValue>, relative: string -> string)
    requires Coherent(cv) && VariablesExportable(vo, st.variables) && ValuesExportable(vo, values)
    ensures Fold(NoShaders, ChildrenNamed(PassNode(cv, tables, vo, objects, st, handles, values, relative), "shader"), ShaderStep(cv, false))
            == ReloadedShaders(st.shaders, relative)
  {
    var n := PassNode(cv, tables, vo, objects, st, handles, values, relative);
    PassNodeShape(cv, tables, vo, objects, st, handles, values, relative);
    ShapeHead(n, ShaderNodes(cv, st.shaders, relative), ChainNodes(objects, handles), VariablesElement(cv, tables, vo, st.variables),
              Node("macros", map[], "", Defines(cv, st.macros)),
              Node("items", map[], "", ItemNodes(cv, tables, st.items, relative)),
              Node("itemvalues", map[], "", ValueNodes(cv, vo, values, st.items)));
    ShadersRoundTrip(cv, st.shaders, relative);
  }

  /** The `name` attributes of a written chain are the chain's names. */
  lemma ChainTargetNames(objects: ObjectManager, handles: seq<Handle>)
    ensures var ch := ChainNodes(objects, handles);
            seq(|ch|, i requires 0 <= i < |ch| => AttrText(ch[i], "name")) == ChainNames(objects, handles)
  {
  }

  /** The reader finds the names of the saved chain. */
  lemma PassTargetsRead(cv: Conv, tables: Tables, vo: VariableOracles, objects: ObjectManager, st: PassState,
                        handles: seq<Handle>, values: seq<ItemValue>, relative: string -> string)
    requires VariablesExportable(vo, st.variables) && ValuesExportable(vo, values)
    ensures TargetNames(PassNode(cv, tables, vo, objects, st, handles, values, relative)) == ChainNames(objects, handles)
  {
    var n := PassNode(cv, tables, vo, objects, st, handles, values, relative);
    var ch := ChainNodes(objects, handles);
    PassNodeShape(cv, tables, vo, objects, st, handles, values, relative);
    ShapeHead(n, ShaderNodes(cv, st.shaders, relative), ch, VariablesElement(cv, tables, vo, st.variables),
              Node("macros", map[], "", Defines(cv, st.macros)),
              Node("items", map[], "", ItemNodes(cv, tables, st.items, relative)),
              Node("itemvalues", map[], "", ValueNodes(cv, vo, values, st.items)));
    ChainTargetNames(objects, handles);
  }

  /** The reader finds the saved variables' elements, in order. */
  lemma PassVariableNodes(cv: Conv, tables: Tables, vo: VariableOracles, objects: ObjectManager, st: PassState,
                          handles: seq<Handle>, values: seq<ItemValue>, relative: string -> string)
    requires VariablesExportable(vo, st.variables) && ValuesExportable(vo, values)
    ensures VariableNodesOf(PassNode(cv, tables, vo, objects, st, handles, values, relative)) ==
            VariableNodes(cv, tables, vo, st.variables)
  {
    var n := PassNode(cv, tables, vo, objects, st, handles, values, relative);
    PassNodeShape(cv, tables, vo, objects, st, handles, values, relative);
    ShapeHead(n, ShaderNodes(cv, st.shaders, relative), ChainNodes(objects, handles), VariablesElement(cv, tables, vo, st.variables),
              Node("macros", map[], "", Defines(cv, st.macros)),
              Node("items", map[], "", ItemNodes(cv, tables, st.items, relative)),
              Node("itemvalues", map[], "", ValueNodes(cv, vo, values, st.items)));
    if st.variables == [] {
      assert Named(Null.children, "variable") == [];
    } else {
      AllNamed(VariableNodes(cv, tables, vo, st.variables), "variable");
    }
  }

  /** The macros, items and item values elements the reader picks are the
      saved ones. */
  lemma PassTailRead(cv: Conv, tables: Tables, vo: VariableOracles, objects: ObjectManager, st: PassState,
                     handles: seq<Handle>, values: seq<ItemValue>, relative: string -> string)
    requires VariablesExportable(vo, st.variables) && ValuesExportable(vo, values)
    ensures var n := PassNode(cv, tables, vo, objects, st, handles, values, relative);
            && MacroNodes(n) == Defines(cv, st.macros)
            && ItemNodesOf(n) == ItemNodes(cv, tables, st.items, relative)
            && ItemValueNodesOf(n) == ValueNodes(cv, vo, values, st.items)
  {
    var n := PassNode(cv, tables, vo, objects, st, handles, values, relative);
    PassNodeShape(cv, tables, vo, objects, st, handles, values, relative);
    var sh, ch, ve := ShaderNodes(cv, st.shaders, relative), ChainNodes(objects, handles), VariablesElement(cv, tables, vo, st.variables);
    var m := Node("macros", map[], "", Defines(cv, st.macros));
    var it := Node("items", map[], "", ItemNodes(cv, tables, st.items, relative));
    var iv := Node("itemvalues", map[], "", ValueNodes(cv, vo, values, st.items));
    ShapeMacros(n, sh, ch, ve, m, it, iv);
    ShapeItems(n, sh, ch, ve, m, it, iv);
    AllNamed(Defines(cv, st.macros), "define");
    AllNamed(ValueNodes(cv, vo, values, st.items), "value");
  }

  /** The variables of a saved pass as the reader rebuilds them, each from
      its own element; `VariableRoundTrip` says what each one is. */
  function ReloadedVariables(cv: Conv, tables: Tables, vo: VariableOracles, vars: seq<ShaderVariable>): (r: seq<ShaderVariable>)
    requires VariablesExportable(vo, vars)
    ensures |r| == |vars|
    ensures forall i :: 0 <= i < |vars| ==> r[i] == ReadVariable(cv, tables, vo, VariableNode(cv, tables, vo, vars[i]), true)
  {
    seq(|vars|, i requires 0 <= i < |vars| => ReadVariable(cv, tables, vo, VariableNode(cv, tables, vo, vars[i]), true))
  }

  /** The variables loop reads one variable per element, in order. */
  lemma {:induction false} VariablesOfEach(env: Environment, nodes: seq<Node>, withFlags: bool)
    ensures |VariablesOf(env, nodes, withFlags)| == |nodes|
    ensures forall i :: 0 <= i < |nodes| ==> VariablesOf(env, nodes, withFlags)[i] == env.readVariable(nodes[i], withFlags)
    decreases |nodes|
  {
    if nodes != [] {
      VariablesOfEach(env, nodes[..|nodes| - 1], withFlags);
    }
  }

  /** The reader rebuilds the saved variables. */
  lemma PassVariablesRead(env: Environment, objects: ObjectManager, st: PassState, handles: seq<Handle>,
                          values: seq<ItemValue>, relative: string -> string)
    requires env == StandardEnvironment(env.cv, env.tables, env.vo, env.fileExists, env.loadsModel)
    requires VariablesExportable(env.vo, st.variables) && ValuesExportable(env.vo, values)
    ensures PassVariables(env, false, PassNode(env.cv, env.tables, env.vo, objects, st, handles, values, relative)) ==
            ReloadedVariables(env.cv, env.tables, env.vo, st.variables)
  {
    var nodes := VariableNodes(env.cv, env.tables, env.vo, st.variables);
    PassVariableNodes(env.cv, env.tables, env.vo, objects, st, handles, values, relative);
    VariablesOfEach(env, nodes, true);
  }

  /** A saved pass element read back by the version 2 reader: its name, as
      many targets as the chain had entries before its first 0 (or one), the
      stages as the reader's paths, the variables as reloaded, the macros
      unchanged and every item reloaded. */
  lemma PassRoundTrip(env: Environment, objects: ObjectManager, st: PassState, handles: seq<Handle>,
                      values: seq<ItemValue>, relative: string -> string)
    requires env == StandardEnvironment(env.cv, env.tables, env.vo, env.fileExists, env.loadsModel)
    requires Coherent(env.cv) && ItemTablesDistinct(env.tables)
    requires forall i :: 0 <= i < |st.items| ==> ShapeKnown(env.tables, st.items[i])
    requires VariablesExportable(env.vo, st.variables) && ValuesExportable(env.vo, values)
    ensures ReadPassState(env, false, PassNode(env.cv, env.tables, env.vo, objects, st, handles, values, relative)) ==
            PassState(st.name, TargetCount(ChainNames(objects, handles)), ReloadedShaders(st.shaders, relative),
                      ReloadedVariables(env.cv, env.tables, env.vo, st.variables), st.macros,
                      ReloadedItems(env.cv, env.tables, st.items, relative))
  {
    var cv, tables, vo := env.cv, env.tables, env.vo;
    var n := PassNode(cv, tables, vo, objects, st, handles, values, relative);
    assert AttrText(n, "name") == st.name;
    PassShadersRead(cv, tables, vo, objects, st, handles, values, relative);
    PassTargetsRead(cv, tables, vo, objects, st, handles, values, relative);
    PassVariablesRead(env, objects, st, handles, values, relative);
    PassTailRead(cv, tables, vo, objects, st, handles, values, relative);
    MacrosRoundTrip(cv, st.macros);
    ItemsRoundTrip(env, st.items, relative);
  }

  /** The body of the passes loop of `SaveAs` for one pass: its
      `itemvalues` element holds the overrides of its own items. */
  method WritePass(cv: Conv, tables: Tables, vo: VariableOracles, objects: ObjectManager, pass: ShaderPass,
                   values: seq<ItemValue>, relative: string -> string) returns (r: Node)
    requires pass.Valid() && VariablesExportable(vo, pass.variables) && ValuesExportable(vo, values)
    ensures ValuesExportable(vo, OverridesOf(values, pass))
    ensures r == PassNode(cv, tables, vo, objects, pass.State(), pass.renderTextures[..], OverridesOf(values, pass), relative)
  {
    var kids := ShaderNodes(cv, pass.Shaders(), relative);
    kids := WriteTargets(objects, pass, kids);
    kids := kids + VariablesElement(cv, tables, vo, pass.variables);
    var macrosNode := WriteMacros(cv, pass.macros);
    var itemsNode := WriteItems(cv, tables, pass.items, relative);
    var itemValuesNode := WriteItemValues(cv, vo, values, pass);
    r := Node("pass", map["name" := pass.name], "", kids + [macrosNode, itemsNode, itemValuesNode]);
  }
}
