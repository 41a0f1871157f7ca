/** The readers of the two project formats (`m_parseV1`, `m_parseV2`): the
    pass elements of the pipeline, then the object elements with the
    two-phase binding, then the render-target chains. What each element
    contributes is described by the functions below; the methods of
    `ProjectParser` run the reading loops against them. */
module Reader {
  import opened Common
  import opened Document
  import opened Names
  import opened Paths
  import opened Variables
  import opened Items
  import opened Pipeline
  import opened Models
  import opened Objects
  import opened Binding

  /** What the reader takes from outside: pugixml's conversions, the name
      tables, the variable managers, whether a file exists relative to the
      project directory (`FileExists`), whether a model file loads
      (`eng::Model::LoadFromFile`), and the readers of one `variable`
      element, one `item` element and one value (`m_parseVariableValue`).
      The pass loops below are stated for any element readers;
      `StandardEnvironment` supplies the ones of the variable and item
      modules. */
  datatype Environment = Environment(cv: Conv, tables: Tables, vo: VariableOracles,
                                     fileExists: string -> bool, loadsModel: string -> bool,
                                     readVariable: (Node, bool) -> ShaderVariable,
                                     readItem: (bool, Node) -> Option<PipelineItem>,
                                     readValue: (Node, ShaderVariable) -> ShaderVariable)

  function StandardEnvironment(cv: Conv, tables: Tables, vo: VariableOracles,
                               fileExists: string -> bool, loadsModel: string -> bool): Environment
  {
    Environment(cv, tables, vo, fileExists, loadsModel,
                (n: Node, withFlags: bool) => ReadVariable(cv, tables, vo, n, withFlags),
                (version1: bool, n: Node) => ReadItem(cv, tables, version1, n),
                (n: Node, v: ShaderVariable) => ParsedValue(cv, vo, n, v))
  }

  // ---------------------------------------------------------------------
  // A pass element

  function PassNodes(project: Node): seq<Node>
  {
    ChildrenNamed(Child(project, "pipeline"), "pass")
  }

  /** The `name` of each `rendertexture` child, "" for a nameless one; both
      versions read it with `as_string`. */
  function TargetNames(passNode: Node): seq<string>
  {
    var rts := ChildrenNamed(passNode, "rendertexture");
    seq(|rts|, i requires 0 <= i < |rts| => AttrText(rts[i], "name"))
  }

  /** `RTCount`: the number of render targets named, or 1 when none is. */
  function TargetCount(names: seq<string>): (n: nat)
    ensures n >= 1
    ensures |names| > 0 ==> n == |names|
  {
    if |names| == 0 then 1 else |names|
  }

  /** A shader's file: the text of its `path` child in version 1, its
      `path` attribute in version 2, in generic form. */
  function ShaderPath(version1: bool, s: Node): string
  {
    ToGenericPath(if version1 then Child(s, "path").text else AttrText(s, "path"))
  }

  function ShaderEntry(version1: bool, s: Node): string
  {
    if version1 then Child(s, "entry").text else AttrText(s, "entry")
  }

  /** The loop step over one `shader` element. */
  function ShaderStep(cv: Conv, version1: bool): (ShaderSet, Node) -> ShaderSet
  {
    (s: ShaderSet, n: Node) => SetStage(s, AttrText(n, "type"), ShaderPath(version1, n), ShaderEntry(version1, n), AttrBool(cv, n, "used"))
  }

  /** The stage name the missing-file message uses: anything but `vs` and
      `ps` is reported as a geometry shader. */
  function StageName(stage: string): string
  {
    if stage == "vs" then "vertex" else if stage == "ps" then "pixel" else "geometry"
  }

  function MissingShader(group: string, version1: bool, s: Node, fileExists: string -> bool): seq<Diagnostic>
  {
    if fileExists(ShaderPath(version1, s)) then []
    else [Diagnostic(Error, group, StageName(AttrText(s, "type")) + " shader does not exist.")]
  }

  /** One error for each shader element whose file does not exist. */
  function ShaderMessages(group: string, version1: bool, shaders: seq<Node>, fileExists: string -> bool): seq<Diagnostic>
    decreases |shaders|
  {
    if shaders == [] then []
    else ShaderMessages(group, version1, shaders[..|shaders| - 1], fileExists)
         + MissingShader(group, version1, shaders[|shaders| - 1], fileExists)
  }

  /** The variables a list of `variable` elements declares, in order. */
  function VariablesOf(env: Environment, kids: seq<Node>, withFlags: bool): seq<ShaderVariable>
    decreases |kids|
  {
    if kids == [] then []
    else VariablesOf(env, kids[..|kids| - 1], withFlags) + [env.readVariable(kids[|kids| - 1], withFlags)]
  }

  function VariableNodesOf(owner: Node): seq<Node>
  {
    ChildrenNamed(Child(owner, "variables"), "variable")
  }

  /** Version 1: the variables of every shader element, one shader after
      the other, all in the pass's one list. */
  function StageVariables(env: Environment, shaders: seq<Node>): seq<ShaderVariable>
    decreases |shaders|
  {
    if shaders == [] then []
    else StageVariables(env, shaders[..|shaders| - 1]) + VariablesOf(env, VariableNodesOf(shaders[|shaders| - 1]), false)
  }

  /** `ShaderMacro` of a `define` element: active unless it says otherwise. */
  function ReadMacro(cv: Conv, m: Node): Macro
  {
    Macro(AttrText(m, "name"), if "active" in m.attrs then cv.asBool(m.attrs["active"]) else true, m.text)
  }

  function MacrosOf(cv: Conv, defines: seq<Node>): seq<Macro>
    decreases |defines|
  {
    if defines == [] then []
    else MacrosOf(cv, defines[..|defines| - 1]) + [ReadMacro(cv, defines[|defines| - 1])]
  }

  /** The pass element after `append_child("macros")`: an empty `macros`
      element at the end. */
  function WithMacrosElement(passNode: Node): Node
  {
    passNode.(children := passNode.children + [Node("macros", map[], "", [])])
  }

  /** Version 2 reads the `define` children of the first `macros` child of
      the pass element after that append. */
  function MacroNodes(passNode: Node): seq<Node>
  {
    ChildrenNamed(Child(WithMacrosElement(passNode), "macros"), "define")
  }

  /** The reader of one `item` element for a document version. */
  function ItemReader(env: Environment, version1: bool): Node -> Option<PipelineItem>
  {
    n => env.readItem(version1, n)
  }

  /** The items an `items` element lists, in order, as `read` reads each;
      an element it reads as nothing (an unknown type) adds nothing. */
  function ItemsOf(read: Node -> Option<PipelineItem>, kids: seq<Node>): seq<PipelineItem>
    decreases |kids|
  {
    if kids == [] then []
    else
      var prefix := ItemsOf(read, kids[..|kids| - 1]);
      match read(kids[|kids| - 1])
      case Some(it) => prefix + [it]
      case None => prefix
  }

  function ItemNodesOf(passNode: Node): seq<Node>
  {
    Child(passNode, "items").children
  }

  /** The model files of a list of items, in order. */
  function ModelFiles(items: seq<PipelineItem>): seq<string>
    decreases |items|
  {
    if items == [] then []
    else
      var last := items[|items| - 1];
      ModelFiles(items[..|items| - 1]) + (if last.data.ModelData? then [last.data.model.filename] else [])
  }

  /** The errors loading the models of a list of items reports, given the
      cache before the first: an item's model fails when its file was not
      cached yet and does not load. */
  function ModelErrors(entries: seq<CachedModel>, items: seq<PipelineItem>, loads: string -> bool, group: string): seq<Diagnostic>
    decreases |items|
  {
    if items == [] then []
    else
      var init := items[..|items| - 1];
      var last := items[|items| - 1];
      var before := Loaded(entries, ModelFiles(init), loads);
      ModelErrors(entries, init, loads, group)
      + (if last.data.ModelData? && CacheIndex(before, last.data.model.filename).None? && !loads(last.data.model.filename)
         then [Diagnostic(Error, group, "Failed to load .obj model " + last.name)] else [])
  }

  /** An `itemvalues/value` element of the pass `owner`: an override of the
      first variable with its `variable` name, for the first item with its
      `for` name (or for no item), holding the value the element's rows
      give; nothing when no variable has the name. */
  function ItemValueOf(readValue: (Node, ShaderVariable) -> ShaderVariable, node: Node, vars: seq<ShaderVariable>, items: seq<PipelineItem>,
                       owner: ShaderPass): (r: Option<ItemValue>)
    ensures r.Some? <==> exists k :: 0 <= k < |vars| && vars[k].name == AttrText(node, "variable")
    ensures r.Some? ==> exists k :: (0 <= k < |vars| && vars[k] == r.value.variable
                                     && vars[k].name == AttrText(node, "variable")
                                     && forall j :: 0 <= j < k ==> vars[j].name != AttrText(node, "variable"))
    ensures r.Some? ==> (r.value.item.Some? <==> exists j :: 0 <= j < |items| && items[j].name == AttrText(node, "for"))
    ensures r.Some? && r.value.item.Some? ==> exists j :: (0 <= j < |items| && items[j] == r.value.item.value
                                     && items[j].name == AttrText(node, "for")
                                     && forall i :: 0 <= i < j ==> items[i].name != AttrText(node, "for"))
    ensures r.Some? ==> r.value.newValue == readValue(node, r.value.variable) && r.value.pass == owner
  {
    match FindVariable(vars, AttrText(node, "variable"))
    case None => None
    case Some(k) =>
      var item := match FindItem(items, AttrText(node, "for")) case Some(j) => Some(items[j]) case None => None;
      Some(ItemValue(vars[k], item, owner, readValue(node, vars[k])))
  }

  function ItemValuesOf(env: Environment, nodes: seq<Node>, vars: seq<ShaderVariable>, items: seq<PipelineItem>,
                        owner: ShaderPass): seq<ItemValue>
    decreases |nodes|
  {
    if nodes == [] then []
    else
      var prefix := ItemValuesOf(env, nodes[..|nodes| - 1], vars, items, owner);
      match ItemValueOf(env.readValue, nodes[|nodes| - 1], vars, items, owner)
      case Some(iv) => prefix + [iv]
      case None => prefix
  }

  function ItemValueNodesOf(passNode: Node): seq<Node>
  {
    ChildrenNamed(Child(passNode, "itemvalues"), "value")
  }

  /** The variables of a pass element: in version 1 those inside its
      `shader` elements, in version 2 those of its `variables` element. */
  function PassVariables(env: Environment, version1: bool, passNode: Node): seq<ShaderVariable>
  {
    if version1 then StageVariables(env, ChildrenNamed(passNode, "shader"))
    else VariablesOf(env, VariableNodesOf(passNode), true)
  }

  /** Everything a pass element gives its pass. */
  function ReadPassState(env: Environment, version1: bool, passNode: Node): PassState
  {
    var shaders := ChildrenNamed(passNode, "shader");
    PassState(
      AttrText(passNode, "name"),
      TargetCount(TargetNames(passNode)),
      Fold(NoShaders, shaders, ShaderStep(env.cv, version1)),
      PassVariables(env, version1, passNode),
      if version1 then [] else MacrosOf(env.cv, MacroNodes(passNode)),
      ItemsOf(ItemReader(env, version1), ItemNodesOf(passNode)))
  }

  /** The messages one pass element adds: missing shader files, then models
      that fail to load. */
  function PassMessages(env: Environment, version1: bool, entries: seq<CachedModel>, passNode: Node): seq<Diagnostic>
  {
    var name := AttrText(passNode, "name");
    ShaderMessages(name, version1, ChildrenNamed(passNode, "shader"), env.fileExists)
    + ModelErrors(entries, ItemsOf(ItemReader(env, version1), ItemNodesOf(passNode)), env.loadsModel, name)
  }

  /** The model cache after one pass element. */
  function PassCache(env: Environment, version1: bool, entries: seq<CachedModel>, passNode: Node): seq<CachedModel>
  {
    Loaded(entries, ModelFiles(ItemsOf(ItemReader(env, version1), ItemNodesOf(passNode))), env.loadsModel)
  }

  /** The overrides the element of the pass `owner` adds. */
  function PassItemValues(env: Environment, version1: bool, passNode: Node, owner: ShaderPass): seq<ItemValue>
  {
    ItemValuesOf(env, ItemValueNodesOf(passNode), PassVariables(env, version1, passNode),
                 ItemsOf(ItemReader(env, version1), ItemNodesOf(passNode)), owner)
  }

  /** What one pass element gives, as functions of the element: its pass,
      its messages and the model cache after it (both given the cache
      before it). The run of pass elements is stated over these, and
      `StandardPassReaders` binds them to the definitions above. */
  datatype PassReaders = PassReaders(state: Node -> PassState,
                                     messages: (seq<CachedModel>, Node) -> seq<Diagnostic>,
                                     cache: (seq<CachedModel>, Node) -> seq<CachedModel>)

  function StandardPassReaders(env: Environment, version1: bool): PassReaders
  {
    PassReaders(n => ReadPassState(env, version1, n),
                (entries: seq<CachedModel>, n: Node) => PassMessages(env, version1, entries, n),
                (entries: seq<CachedModel>, n: Node) => PassCache(env, version1, entries, n))
  }

  /** The readers give what the definitions give for the element `n`. */
  ghost predicate ReadsPass(rd: PassReaders, env: Environment, version1: bool, n: Node)
  {
    && rd.state(n) == ReadPassState(env, version1, n)
    && (forall entries :: rd.messages(entries, n) == PassMessages(env, version1, entries, n))
    && (forall entries :: rd.cache(entries, n) == PassCache(env, version1, entries, n))
  }

  /** The readers give what the definitions give, for every element. */
  ghost predicate Reads(rd: PassReaders, env: Environment, version1: bool)
  {
    forall n :: ReadsPass(rd, env, version1, n)
  }

  lemma StandardPassReadersRead(env: Environment, version1: bool)
    ensures Reads(StandardPassReaders(env, version1), env, version1)
  {
  }

  /** The cache, the messages and the overrides after a run of pass elements. */
  function CacheAfter(rd: PassReaders, entries: seq<CachedModel>, nodes: seq<Node>): seq<CachedModel>
    decreases |nodes|
  {
    if nodes == [] then entries
    else rd.cache(CacheAfter(rd, entries, nodes[..|nodes| - 1]), nodes[|nodes| - 1])
  }

  function MessagesAfter(rd: PassReaders, entries: seq<CachedModel>, nodes: seq<Node>): seq<Diagnostic>
    decreases |nodes|
  {
    if nodes == [] then []
    else
      var init := nodes[..|nodes| - 1];
      MessagesAfter(rd, entries, init) + rd.messages(CacheAfter(rd, entries, init), nodes[|nodes| - 1])
  }

  /** The overrides after a run of pass elements, those of each element
      belonging to the pass at its position in `made`. */
  function ItemValuesAfter(env: Environment, version1: bool, nodes: seq<Node>, made: seq<ShaderPass>): seq<ItemValue>
    requires |made| == |nodes|
    decreases |nodes|
  {
    if nodes == [] then []
    else ItemValuesAfter(env, version1, nodes[..|nodes| - 1], made[..|made| - 1])
           + PassItemValues(env, version1, nodes[|nodes| - 1], made[|made| - 1])
  }

  // ---------------------------------------------------------------------
  // Properties of a pass element

  lemma {:induction false} FirstNamedSnoc(kids: seq<Node>, tag: string, e: Node)
    requires tag != "" && e.tag == tag
    ensures FirstNamed(kids + [e], tag) == if FirstNamed(kids, tag) != Null then FirstNamed(kids, tag) else e
    decreases |kids|
  {
    if kids != [] {
      assert (kids + [e])[0] == kids[0];
      assert (kids + [e])[1..] == kids[1..] + [e];
      if kids[0].tag != tag {
        FirstNamedSnoc(kids[1..], tag, e);
      }
    }
  }

  /** The `macros` element version 2 appends before reading is never the
      one it reads from when the pass has its own, and holds no `define`
      otherwise: the macros are those of the document's first `macros`
      child. */
  lemma MacrosElementInvisible(passNode: Node)
    ensures MacroNodes(passNode) == ChildrenNamed(Child(passNode, "macros"), "define")
  {
    var e := Node("macros", map[], "", []);
    FirstNamedSnoc(passNode.children, "macros", e);
    assert Named(e.children, "define") == [];
  }

  /** Which stage a stage name of a `shader` element sets. */
  function StageOf(s: ShaderSet, stage: string): (string, string)
  {
    if stage == "vs" then (s.vsPath, s.vsEntry)
    else if stage == "ps" then (s.psPath, s.psEntry)
    else (s.gsPath, s.gsEntry)
  }

  /** The last of the shader elements with the given type. */
  function LastOfType(shaders: seq<Node>, stage: string): (r: Option<Node>)
    ensures r.Some? ==> r.value in shaders && AttrText(r.value, "type") == stage
    ensures r.None? ==> forall k :: 0 <= k < |shaders| ==> AttrText(shaders[k], "type") != stage
    decreases |shaders|
  {
    if shaders == [] then None
    else if AttrText(shaders[|shaders| - 1], "type") == stage then Some(shaders[|shaders| - 1])
    else LastOfType(shaders[..|shaders| - 1], stage)
  }

  /** Each stage's path and entry come from the last shader element of that
      type, and stay as they were when there is none. */
  lemma {:induction false} LastShaderWins(cv: Conv, version1: bool, s0: ShaderSet, shaders: seq<Node>, stage: string)
    requires stage == "vs" || stage == "ps" || stage == "gs"
    ensures StageOf(Fold(s0, shaders, ShaderStep(cv, version1)), stage) ==
            match LastOfType(shaders, stage)
            case None => StageOf(s0, stage)
            case Some(n) => (ShaderPath(version1, n), ShaderEntry(version1, n))
    decreases |shaders|
  {
    if shaders != [] {
      var init, n := shaders[..|shaders| - 1], shaders[|shaders| - 1];
      LastShaderWins(cv, version1, s0, init, stage);
      var before := Fold(s0, init, ShaderStep(cv, version1));
      assert Fold(s0, shaders, ShaderStep(cv, version1)) ==
             SetStage(before, AttrText(n, "type"), ShaderPath(version1, n), ShaderEntry(version1, n), AttrBool(cv, n, "used"));
      SetStageOnly(before, AttrText(n, "type"), ShaderPath(version1, n), ShaderEntry(version1, n), AttrBool(cv, n, "used"), stage);
    }
  }

  lemma SetStageOnly(s: ShaderSet, ty: string, path: string, entry: string, used: bool, stage: string)
    requires stage == "vs" || stage == "ps" || stage == "gs"
    ensures StageOf(SetStage(s, ty, path, entry, used), stage) == if ty == stage then (path, entry) else StageOf(s, stage)
  {
  }

  /** The geometry shader's switch is the `used` attribute of the last `gs`
      element, false when that element has none. */
  lemma {:induction false} LastGeometryShaderSwitch(cv: Conv, version1: bool, s0: ShaderSet, shaders: seq<Node>)
    ensures Fold(s0, shaders, ShaderStep(cv, version1)).gsUsed ==
            match LastOfType(shaders, "gs")
            case None => s0.gsUsed
            case Some(n) => AttrBool(cv, n, "used")
    decreases |shaders|
  {
    if shaders != [] {
      LastGeometryShaderSwitch(cv, version1, s0, shaders[..|shaders| - 1]);
    }
  }

  /** A file the cache has already seen, loaded or not, reports no error the
      second time it is used. */
  lemma RepeatedModelIsSilent(entries: seq<CachedModel>, items: seq<PipelineItem>, loads: string -> bool, group: string, it: PipelineItem)
    requires forall i, j :: 0 <= i < j < |entries| ==> entries[i].path != entries[j].path
    requires it.data.ModelData? && it.data.model.filename in ModelFiles(items)
    ensures ModelErrors(entries, items + [it], loads, group) == ModelErrors(entries, items, loads, group)
  {
    var all := items + [it];
    assert all[..|all| - 1] == items;
    LoadedDistinct(entries, ModelFiles(items), loads);
  }

  // ---------------------------------------------------------------------
  // Reading a pass element

  /** The loop over `variable` elements that adds each to the pass. */
  method ReadVariablesInto(env: Environment, pass: ShaderPass, kids: seq<Node>, withFlags: bool)
    modifies pass
    ensures pass.State() == old(pass.State()).(variables := old(pass.variables) + VariablesOf(env, kids, withFlags))
  {
    var i := 0;
    while i < |kids|
      invariant 0 <= i <= |kids|
      invariant pass.State() == old(pass.State()).(variables := pass.variables)
      invariant pass.variables == old(pass.variables) + VariablesOf(env, kids[..i], withFlags)
    {
      assert kids[..i + 1][..i] == kids[..i];
      var v := env.readVariable(kids[i], withFlags);
      pass.AddVariable(v);
      AppendAssoc(old(pass.variables), VariablesOf(env, kids[..i], withFlags), [v]);
      i := i + 1;
    }
    assert kids[..i] == kids;
  }

  /** One `shader` element sets its stage of the pass and reports a
      missing file. */
  method ReadShaderStage(cv: Conv, version1: bool, fileExists: string -> bool, pass: ShaderPass, msgs: MessageStack, shaderNode: Node)
    modifies pass, msgs
    ensures pass.State() == old(pass.State()).(shaders := ShaderStep(cv, version1)(old(pass.Shaders()), shaderNode))
    ensures msgs.messages == old(msgs.messages) + MissingShader(pass.name, version1, shaderNode, fileExists)
  {
    var stage := AttrText(shaderNode, "type");
    var path := ShaderPath(version1, shaderNode);
    var entry := ShaderEntry(version1, shaderNode);
    var used := AttrBool(cv, shaderNode, "used");
    ghost var before := pass.Shaders();
    pass.SetShader(stage, path, entry, used);
    assert pass.Shaders() == ShaderStep(cv, version1)(before, shaderNode);
    if !fileExists(path) {
      msgs.Add(Error, pass.name, StageName(stage) + " shader does not exist.");
    }
  }

  /** The body of the loop over `shader` elements for the element after
      `done`: the element sets its stage, a missing file is reported, and in
      version 1 the element's own variables are read into the pass. */
  method ReadNextShader(env: Environment, version1: bool, pass: ShaderPass, msgs: MessageStack,
                        done: seq<Node>, shaderNode: Node,
                        ghost s0: ShaderSet, ghost vars0: seq<ShaderVariable>, ghost msgs0: seq<Diagnostic>)
    requires pass.Shaders() == Fold(s0, done, ShaderStep(env.cv, version1))
    requires pass.variables == vars0 + (if version1 then StageVariables(env, done) else [])
    requires msgs.messages == msgs0 + ShaderMessages(pass.name, version1, done, env.fileExists)
    modifies pass, msgs
    ensures pass.State() == old(pass.State()).(shaders := pass.Shaders(), variables := pass.variables)
    ensures pass.Shaders() == Fold(s0, done + [shaderNode], ShaderStep(env.cv, version1))
    ensures pass.variables == vars0 + (if version1 then StageVariables(env, done + [shaderNode]) else [])
    ensures msgs.messages == msgs0 + ShaderMessages(pass.name, version1, done + [shaderNode], env.fileExists)
  {
    assert (done + [shaderNode])[..|done|] == done;
    ReadShaderStage(env.cv, version1, env.fileExists, pass, msgs, shaderNode);
    AppendAssoc(msgs0, ShaderMessages(pass.name, version1, done, env.fileExists),
                MissingShader(pass.name, version1, shaderNode, env.fileExists));
    if version1 {
      ReadVariablesInto(env, pass, VariableNodesOf(shaderNode), false);
      AppendAssoc(vars0, StageVariables(env, done), VariablesOf(env, VariableNodesOf(shaderNode), false));
    }
  }

  /** The loop over the `shader` elements of a pass: each sets its stage and
      reports a missing file; in version 1 each also declares its own
      variables. */
  method ReadShaders(env: Environment, version1: bool, pass: ShaderPass, msgs: MessageStack, shaders: seq<Node>)
    modifies pass, msgs
    ensures pass.State() == old(pass.State()).(
              shaders := Fold(old(pass.Shaders()), shaders, ShaderStep(env.cv, version1)),
              variables := old(pass.variables) + (if version1 then StageVariables(env, shaders) else []))
    ensures msgs.messages == old(msgs.messages) + ShaderMessages(old(pass.name), version1, shaders, env.fileExists)
  {
    var i := 0;
    while i < |shaders|
      invariant 0 <= i <= |shaders|
      invariant pass.State() == old(pass.State()).(shaders := pass.Shaders(), variables := pass.variables)
      invariant pass.Shaders() == Fold(old(pass.Shaders()), shaders[..i], ShaderStep(env.cv, version1))
      invariant pass.variables == old(pass.variables) + (if version1 then StageVariables(env, shaders[..i]) else [])
      invariant msgs.messages == old(msgs.messages) + ShaderMessages(old(pass.name), version1, shaders[..i], env.fileExists)
    {
      TakeNext(shaders, i);
      ReadNextShader(env, version1, pass, msgs, shaders[..i], shaders[i], old(pass.Shaders()), old(pass.variables), old(msgs.messages));
      i := i + 1;
    }
    assert shaders[..i] == shaders;
  }

  /** The loop over `define` elements. A missing `name` leaves the macro's
      name empty. */
  method ReadMacros(cv: Conv, pass: ShaderPass, defines: seq<Node>)
    modifies pass
    ensures pass.State() == old(pass.State()).(macros := old(pass.macros) + MacrosOf(cv, defines))
  {
    var i := 0;
    while i < |defines|
      invariant 0 <= i <= |defines|
      invariant pass.State() == old(pass.State()).(macros := pass.macros)
      invariant pass.macros == old(pass.macros) + MacrosOf(cv, defines[..i])
    {
      var macroNode := defines[i];
      assert defines[..i + 1][..i] == defines[..i];
      var name := if "name" in macroNode.attrs then macroNode.attrs["name"] else "";
      var active := true;
      if "active" in macroNode.attrs {
        active := cv.asBool(macroNode.attrs["active"]);
      }
      var m := Macro(name, active, macroNode.text);
      pass.AddMacro(m);
      AppendAssoc(old(pass.macros), MacrosOf(cv, defines[..i]), [m]);
      i := i + 1;
    }
    assert defines[..i] == defines;
  }

  /** The items of one read: the item, or nothing for an unknown type. */
  function Present(read: Option<PipelineItem>): seq<PipelineItem>
  {
    if read.Some? then [read.value] else []
  }

  lemma ModelFilesAppend(a: seq<PipelineItem>, b: seq<PipelineItem>)
    requires |b| <= 1
    ensures ModelFiles(a + b) == ModelFiles(a) + ModelFiles(b)
  {
    if |b| == 1 {
      assert (a + b)[..|a + b| - 1] == a;
      assert b[..0] == [];
    } else {
      assert a + b == a;
    }
  }

  /** Loading in two runs is loading the names of both, in order. */
  lemma {:induction false} LoadedAppend(entries: seq<CachedModel>, f: seq<string>, g: seq<string>, loads: string -> bool)
    ensures Loaded(entries, f + g, loads) == Loaded(Loaded(entries, f, loads), g, loads)
    decreases |g|
  {
    if g == [] {
      assert f + g == f;
    } else {
      var init := g[..|g| - 1];
      assert (f + g)[..|f + g| - 1] == f + init;
      assert (f + g)[|f + g| - 1] == g[|g| - 1];
      LoadedAppend(entries, f, init, loads);
    }
  }

  /** The errors of a run of items split at any point: the second part sees
      the cache the first part left. */
  lemma {:induction false} ModelErrorsAppend(entries: seq<CachedModel>, a: seq<PipelineItem>, b: seq<PipelineItem>,
                                             loads: string -> bool, group: string)
    requires |b| <= 1
    ensures ModelErrors(entries, a + b, loads, group)
            == ModelErrors(entries, a, loads, group) + ModelErrors(Loaded(entries, ModelFiles(a), loads), b, loads, group)
  {
    if |b| == 1 {
      assert (a + b)[..|a + b| - 1] == a;
      assert b[..0] == [];
    } else {
      assert a + b == a;
    }
  }

  /** The body of the `items` loop for the element after `done`: read it;
      for a model item load its file through the cache and report a model
      that fails; add the item to the pass. Given the loop's state after
      `done`, it leaves the state after `done` and this element. */
  method ReadNextItem(read: Node -> Option<PipelineItem>, loads: string -> bool, pass: ShaderPass,
                      msgs: MessageStack, models: ModelCache, done: seq<Node>, itemNode: Node,
                      ghost items0: seq<PipelineItem>, ghost entries0: seq<CachedModel>, ghost msgs0: seq<Diagnostic>)
    requires models.Valid()
    requires pass.items == items0 + ItemsOf(read, done)
    requires models.entries == Loaded(entries0, ModelFiles(ItemsOf(read, done)), loads)
    requires msgs.messages == msgs0 + ModelErrors(entries0, ItemsOf(read, done), loads, pass.name)
    modifies pass, msgs, models
    ensures models.Valid()
    ensures pass.State() == old(pass.State()).(items := pass.items)
    ensures pass.items == items0 + ItemsOf(read, done + [itemNode])
    ensures models.entries == Loaded(entries0, ModelFiles(ItemsOf(read, done + [itemNode])), loads)
    ensures msgs.messages == msgs0 + ModelErrors(entries0, ItemsOf(read, done + [itemNode]), loads, pass.name)
  {
    ghost var prefix := ItemsOf(read, done);
    assert (done + [itemNode])[..|done|] == done;
    var r := read(itemNode);
    assert ItemsOf(read, done + [itemNode]) == prefix + Present(r);
    ModelFilesAppend(prefix, Present(r));
    LoadedAppend(entries0, ModelFiles(prefix), ModelFiles(Present(r)), loads);
    ModelErrorsAppend(entries0, prefix, Present(r), loads, pass.name);
    AppendAssoc(items0, prefix, Present(r));
    AppendAssoc(msgs0, ModelErrors(entries0, prefix, loads, pass.name),
                ModelErrors(Loaded(entries0, ModelFiles(prefix), loads), Present(r), loads, pass.name));
    if r.Some? {
      var item := r.value;
      LoadItemModel(item, pass.name, loads, msgs, models);
      pass.AddItem(item);
    }
  }

  /** The model of one item goes through the cache; a file that is neither
      cached nor loadable is reported against the pass. */
  method LoadItemModel(item: PipelineItem, group: string, loads: string -> bool, msgs: MessageStack, models: ModelCache)
    requires models.Valid()
    modifies msgs, models
    ensures models.Valid()
    ensures models.entries == Loaded(old(models.entries), ModelFiles([item]), loads)
    ensures msgs.messages == old(msgs.messages) + ModelErrors(old(models.entries), [item], loads, group)
  {
    assert [item][..0] == [];
    if item.data.ModelData? {
      var ptr := models.LoadModel(item.data.model.filename, loads);
      if ptr.None? {
        msgs.Add(Error, group, "Failed to load .obj model " + item.name);
      }
    }
  }

  /** The loop over the children of `items`. */
  method ReadItems(read: Node -> Option<PipelineItem>, loads: string -> bool, pass: ShaderPass,
                   msgs: MessageStack, models: ModelCache, kids: seq<Node>)
    requires models.Valid()
    modifies pass, msgs, models
    ensures models.Valid()
    ensures pass.State() == old(pass.State()).(items := old(pass.items) + ItemsOf(read, kids))
    ensures models.entries == Loaded(old(models.entries), ModelFiles(ItemsOf(read, kids)), loads)
    ensures msgs.messages == old(msgs.messages) + ModelErrors(old(models.entries), ItemsOf(read, kids), loads, old(pass.name))
  {
    var i := 0;
    while i < |kids|
      invariant 0 <= i <= |kids|
      invariant models.Valid()
      invariant pass.State() == old(pass.State()).(items := pass.items)
      invariant pass.items == old(pass.items) + ItemsOf(read, kids[..i])
      invariant models.entries == Loaded(old(models.entries), ModelFiles(ItemsOf(read, kids[..i])), loads)
      invariant msgs.messages == old(msgs.messages) + ModelErrors(old(models.entries), ItemsOf(read, kids[..i]), loads, old(pass.name))
    {
      assert kids[..i + 1] == kids[..i] + [kids[i]];
      ReadNextItem(read, loads, pass, msgs, models, kids[..i], kids[i], old(pass.items), old(models.entries), old(msgs.messages));
      i := i + 1;
    }
    assert kids[..i] == kids;
  }

  /** The loop over `itemvalues/value`: an element whose variable the pass
      has adds an override to the renderer; one whose variable it lacks is
      skipped. */
  method ReadItemValues(env: Environment, pass: ShaderPass, renderer: RenderEngine, nodes: seq<Node>)
    modifies renderer
    ensures renderer.itemValues == old(renderer.itemValues) + ItemValuesOf(env, nodes, pass.variables, pass.items, pass)
  {
    var i := 0;
    while i < |nodes|
      invariant 0 <= i <= |nodes|
      invariant renderer.itemValues == old(renderer.itemValues) + ItemValuesOf(env, nodes[..i], pass.variables, pass.items, pass)
    {
      var node := nodes[i];
      assert nodes[..i + 1][..i] == nodes[..i];
      var found := FindVariable(pass.variables, AttrText(node, "variable"));
      if found.Some? {
        var v := pass.variables[found.value];
        var owner := FindItem(pass.items, AttrText(node, "for"));
        var item := if owner.Some? then Some(pass.items[owner.value]) else None;
        var newValue := env.readValue(node, v);
        renderer.AddItemValue(ItemValue(v, item, pass, newValue));
        AppendAssoc(old(renderer.itemValues), ItemValuesOf(env, nodes[..i], pass.variables, pass.items, pass), [ItemValue(v, item, pass, newValue)]);
      }
      i := i + 1;
    }
    assert nodes[..i] == nodes;
  }

  /** The start of a pass element: the pass is created with the window as
      its only target, takes its target count from the `rendertexture`
      children, whose names are returned for the chain, and joins the
      pipeline. */
  method NewPass(pipe: PipelineManager, passNode: Node) returns (pass: ShaderPass, targets: seq<string>)
    requires pipe.Valid()
    modifies pipe
    ensures fresh(pass) && fresh(pass.renderTextures) && pipe.Valid()
    ensures pipe.passes == old(pipe.passes) + [pass]
    ensures pass.State() == PassState(AttrText(passNode, "name"), TargetCount(TargetNames(passNode)), NoShaders, [], [], [])
    ensures pass.renderTextures[..] == InitialTargets()
    ensures targets == TargetNames(passNode)
  {
    var name := AttrText(passNode, "name");
    pass := new ShaderPass(name);
    pass.ResetTargets();
    var rts := ChildrenNamed(passNode, "rendertexture");
    targets := [];
    var rtCur := 0;
    while rtCur < |rts|
      invariant 0 <= rtCur <= |rts|
      invariant targets == seq(rtCur, i requires 0 <= i < rtCur => AttrText(rts[i], "name"))
    {
      targets := targets + [AttrText(rts[rtCur], "name")];
      rtCur := rtCur + 1;
    }
    pass.SetTargetCount(if rtCur == 0 then 1 else rtCur);
    pipe.AddPass(pass);
  }

  /** The shader part of a pass element: shaders, then in version 2 the
      pass's variables and macros. */
  method ReadPassCode(env: Environment, version1: bool, pass: ShaderPass, msgs: MessageStack, passNode: Node)
    requires pass.Shaders() == NoShaders && pass.variables == [] && pass.macros == []
    modifies pass, msgs
    ensures var st := ReadPassState(env, version1, passNode);
            pass.State() == old(pass.State()).(shaders := st.shaders, variables := st.variables, macros := st.macros)
    ensures msgs.messages == old(msgs.messages) + ShaderMessages(old(pass.name), version1, ChildrenNamed(passNode, "shader"), env.fileExists)
  {
    ghost var st := ReadPassState(env, version1, passNode);
    ghost var s0 := pass.State();
    var shaders := ChildrenNamed(passNode, "shader");
    ReadShaders(env, version1, pass, msgs, shaders);
    assert pass.Shaders() == st.shaders;
    if !version1 {
      ghost var s1 := pass.State();
      assert s1 == s0.(shaders := st.shaders);
      ReadVariablesInto(env, pass, VariableNodesOf(passNode), true);
      assert pass.State() == s1.(variables := st.variables);
      ReadMacros(env.cv, pass, MacroNodes(passNode));
    } else {
      assert pass.variables == st.variables;
    }
  }

  /** The item part of a pass element: items, then item overrides. */
  method ReadPassItems(env: Environment, version1: bool, pass: ShaderPass, msgs: MessageStack, models: ModelCache,
                       renderer: RenderEngine, passNode: Node)
    requires models.Valid() && pass.items == []
    requires pass.variables == ReadPassState(env, version1, passNode).variables
    modifies pass, msgs, models, renderer
    ensures models.Valid()
    ensures pass.State() == old(pass.State()).(items := ReadPassState(env, version1, passNode).items)
    ensures msgs.messages == old(msgs.messages) + ModelErrors(old(models.entries), ReadPassState(env, version1, passNode).items, env.loadsModel, old(pass.name))
    ensures models.entries == PassCache(env, version1, old(models.entries), passNode)
    ensures renderer.itemValues == old(renderer.itemValues) + PassItemValues(env, version1, passNode, pass)
  {
    ReadItems(ItemReader(env, version1), env.loadsModel, pass, msgs, models, ItemNodesOf(passNode));
    ReadItemValues(env, pass, renderer, ItemValueNodesOf(passNode));
  }

  /** The rest of a pass element. */
  method FillPass(env: Environment, version1: bool, pass: ShaderPass, msgs: MessageStack, models: ModelCache,
                  renderer: RenderEngine, passNode: Node)
    requires models.Valid()
    requires pass.State() == PassState(AttrText(passNode, "name"), TargetCount(TargetNames(passNode)), NoShaders, [], [], [])
    modifies pass, msgs, models, renderer
    ensures models.Valid()
    ensures pass.State() == ReadPassState(env, version1, passNode)
    ensures msgs.messages == old(msgs.messages) + PassMessages(env, version1, old(models.entries), passNode)
    ensures models.entries == PassCache(env, version1, old(models.entries), passNode)
    ensures renderer.itemValues == old(renderer.itemValues) + PassItemValues(env, version1, passNode, pass)
  {
    ghost var st := ReadPassState(env, version1, passNode);
    ReadPassCode(env, version1, pass, msgs, passNode);
    ghost var afterCode := msgs.messages;
    ReadPassItems(env, version1, pass, msgs, models, renderer, passNode);
    AppendAssoc(old(msgs.messages), ShaderMessages(pass.name, version1, ChildrenNamed(passNode, "shader"), env.fileExists),
                ModelErrors(old(models.entries), st.items, env.loadsModel, pass.name));
  }

  /** One pass element. */
  method ReadPass(env: Environment, version1: bool, pipe: PipelineManager, msgs: MessageStack, models: ModelCache,
                  renderer: RenderEngine, passNode: Node)
    returns (pass: ShaderPass, targets: seq<string>)
    requires pipe.Valid() && models.Valid()
    modifies pipe, msgs, models, renderer
    ensures fresh(pass) && fresh(pass.renderTextures)
    ensures pipe.Valid() && models.Valid()
    ensures pipe.passes == old(pipe.passes) + [pass]
    ensures pass.State() == ReadPassState(env, version1, passNode)
    ensures pass.renderTextures[..] == InitialTargets()
    ensures targets == TargetNames(passNode)
    ensures msgs.messages == old(msgs.messages) + PassMessages(env, version1, old(models.entries), passNode)
    ensures models.entries == PassCache(env, version1, old(models.entries), passNode)
    ensures renderer.itemValues == old(renderer.itemValues) + PassItemValues(env, version1, passNode, pass)
  {
    pass, targets := NewPass(pipe, passNode);
    FillPass(env, version1, pass, msgs, models, renderer, passNode);
  }

  /** What a run of pass elements gives its passes, element by element. */
  function PassStatesOf(read: Node -> PassState, nodes: seq<Node>): (r: seq<PassState>)
    ensures |r| == |nodes|
    decreases |nodes|
  {
    if nodes == [] then [] else PassStatesOf(read, nodes[..|nodes| - 1]) + [read(nodes[|nodes| - 1])]
  }

  /** What a run of passes holds now. */
  ghost function StatesOf(made: seq<ShaderPass>): (r: seq<PassState>)
    reads made
    ensures |r| == |made|
    decreases |made|
  {
    if made == [] then [] else StatesOf(made[..|made| - 1]) + [made[|made| - 1].State()]
  }

  lemma {:induction false} PassStatesAt(read: Node -> PassState, nodes: seq<Node>, k: nat)
    requires k < |nodes|
    ensures PassStatesOf(read, nodes)[k] == read(nodes[k])
    decreases |nodes|
  {
    if k < |nodes| - 1 {
      PassStatesAt(read, nodes[..|nodes| - 1], k);
    }
  }

  lemma {:induction false} StatesAt(made: seq<ShaderPass>, k: nat)
    requires k < |made|
    ensures StatesOf(made)[k] == made[k].State()
    decreases |made|
  {
    if k < |made| - 1 {
      StatesAt(made[..|made| - 1], k);
    }
  }

  /** The body of the loop over pass elements, for the element after `done`. */
  method ReadNextPass(env: Environment, version1: bool, ghost rd: PassReaders, pipe: PipelineManager, msgs: MessageStack,
                      models: ModelCache, renderer: RenderEngine, done: seq<Node>, passNode: Node, made: seq<ShaderPass>,
                      ghost passes0: seq<ShaderPass>, ghost msgs0: seq<Diagnostic>, ghost entries0: seq<CachedModel>,
                      ghost values0: seq<ItemValue>)
    returns (pass: ShaderPass, names: seq<string>)
    requires ReadsPass(rd, env, version1, passNode)
    requires pipe.Valid() && models.Valid()
    requires StatesOf(made) == PassStatesOf(rd.state, done)
    requires pipe.passes == passes0 + made
    requires msgs.messages == msgs0 + MessagesAfter(rd, entries0, done)
    requires models.entries == CacheAfter(rd, entries0, done)
    requires renderer.itemValues == values0 + ItemValuesAfter(env, version1, done, made)
    modifies pipe, msgs, models, renderer
    ensures fresh(pass) && fresh(pass.renderTextures)
    ensures pipe.Valid() && models.Valid()
    ensures StatesOf(made + [pass]) == PassStatesOf(rd.state, done + [passNode])
    ensures pipe.passes == passes0 + (made + [pass])
    ensures names == TargetNames(passNode)
    ensures msgs.messages == msgs0 + MessagesAfter(rd, entries0, done + [passNode])
    ensures models.entries == CacheAfter(rd, entries0, done + [passNode])
    ensures renderer.itemValues == values0 + ItemValuesAfter(env, version1, done + [passNode], made + [pass])
  {
    pass, names := ReadPass(env, version1, pipe, msgs, models, renderer, passNode);
    StatesKept(made);
    PassesSnoc(made, pass);
    NextPassRuns(rd, env, version1, done, passNode, made, pass, msgs0, entries0, values0);
    AppendAssoc(passes0, made, [pass]);
  }

  /** The runs after one more pass element, in terms of the runs before it
      and what the element itself reads. */
  lemma NextPassRuns(rd: PassReaders, env: Environment, version1: bool, done: seq<Node>, passNode: Node,
                     made: seq<ShaderPass>, pass: ShaderPass, msgs0: seq<Diagnostic>, entries0: seq<CachedModel>,
                     values0: seq<ItemValue>)
    requires ReadsPass(rd, env, version1, passNode) && |made| == |done|
    ensures PassStatesOf(rd.state, done + [passNode]) == PassStatesOf(rd.state, done) + [ReadPassState(env, version1, passNode)]
    ensures CacheAfter(rd, entries0, done + [passNode]) == PassCache(env, version1, CacheAfter(rd, entries0, done), passNode)
    ensures msgs0 + MessagesAfter(rd, entries0, done + [passNode])
            == (msgs0 + MessagesAfter(rd, entries0, done)) + PassMessages(env, version1, CacheAfter(rd, entries0, done), passNode)
    ensures values0 + ItemValuesAfter(env, version1, done + [passNode], made + [pass])
            == (values0 + ItemValuesAfter(env, version1, done, made)) + PassItemValues(env, version1, passNode, pass)
  {
    assert (done + [passNode])[..|done|] == done;
    AfterSnoc(rd, entries0, done, passNode);
    AppendAssoc(msgs0, MessagesAfter(rd, entries0, done), rd.messages(CacheAfter(rd, entries0, done), passNode));
    ItemValuesSnoc(env, version1, done, made, passNode, pass);
    AppendAssoc(values0, ItemValuesAfter(env, version1, done, made), PassItemValues(env, version1, passNode, pass));
  }

  /** One more pass element: its messages follow, read against the cache
      the earlier elements left, and it updates that cache. */
  lemma AfterSnoc(rd: PassReaders, entries: seq<CachedModel>, done: seq<Node>, passNode: Node)
    ensures CacheAfter(rd, entries, done + [passNode]) == rd.cache(CacheAfter(rd, entries, done), passNode)
    ensures MessagesAfter(rd, entries, done + [passNode])
            == MessagesAfter(rd, entries, done) + rd.messages(CacheAfter(rd, entries, done), passNode)
  {
    assert (done + [passNode])[..|done|] == done;
  }

  /** One more pass element and its pass. */
  lemma ItemValuesSnoc(env: Environment, version1: bool, done: seq<Node>, made: seq<ShaderPass>, passNode: Node, pass: ShaderPass)
    requires |made| == |done|
    ensures ItemValuesAfter(env, version1, done + [passNode], made + [pass]) ==
            ItemValuesAfter(env, version1, done, made) + PassItemValues(env, version1, passNode, pass)
  {
    assert (done + [passNode])[..|done|] == done;
    assert (made + [pass])[..|made|] == made;
  }

  /** The render-target arrays of a run of passes. */
  ghost function TargetArrays(made: seq<ShaderPass>): set<array<Handle>>
    decreases |made|
  {
    if made == [] then {} else TargetArrays(made[..|made| - 1]) + {made[|made| - 1].renderTextures}
  }

  lemma {:induction false} TargetArraysHas(made: seq<ShaderPass>, k: nat)
    requires k < |made|
    ensures made[k].renderTextures in TargetArrays(made)
    decreases |made|
  {
    if k < |made| - 1 {
      TargetArraysHas(made[..|made| - 1], k);
    }
  }

  lemma TargetArraysSnoc(made: seq<ShaderPass>, pass: ShaderPass)
    ensures TargetArrays(made + [pass]) == TargetArrays(made) + {pass.renderTextures}
  {
    assert (made + [pass])[..|made|] == made;
  }

  lemma TargetArraysCover(made: seq<ShaderPass>)
    ensures forall p :: p in made ==> p.renderTextures in TargetArrays(made)
  {
    forall p | p in made
      ensures p.renderTextures in TargetArrays(made)
    {
      var k :| 0 <= k < |made| && made[k] == p;
      TargetArraysHas(made, k);
    }
  }

  /** A list of passes none of whose fields changed has the states it had. */
  twostate lemma {:induction false} StatesKept(made: seq<ShaderPass>)
    requires forall i :: 0 <= i < |made| ==> unchanged(made[i])
    ensures StatesOf(made) == old(StatesOf(made))
    decreases |made|
  {
    if made != [] {
      var last := made[|made| - 1];
      StatesKept(made[..|made| - 1]);
      assert last.State() == old(last.State());
    }
  }

  /** One more pass. */
  lemma PassesSnoc(made: seq<ShaderPass>, pass: ShaderPass)
    ensures StatesOf(made + [pass]) == StatesOf(made) + [pass.State()]
  {
    assert (made + [pass])[..|made|] == made;
  }

  function TargetsOf(nodes: seq<Node>): (r: seq<seq<string>>)
    ensures |r| == |nodes|
    decreases |nodes|
  {
    if nodes == [] then [] else TargetsOf(nodes[..|nodes| - 1]) + [TargetNames(nodes[|nodes| - 1])]
  }

  /** The loop over the pass elements of the pipeline: one pass each, in
      document order. The names of each pass's render targets are returned
      for the chain, which is resolved once every object exists. */
  method ReadPasses(env: Environment, version1: bool, ghost rd: PassReaders, pipe: PipelineManager, msgs: MessageStack,
                    models: ModelCache, renderer: RenderEngine, nodes: seq<Node>)
    returns (made: seq<ShaderPass>, targets: seq<seq<string>>)
    requires Reads(rd, env, version1)
    requires pipe.Valid() && models.Valid()
    modifies pipe, msgs, models, renderer
    ensures pipe.Valid() && models.Valid()
    ensures pipe.passes == old(pipe.passes) + made
    ensures fresh(TargetArrays(made))
    ensures StatesOf(made) == PassStatesOf(rd.state, nodes)
    ensures targets == TargetsOf(nodes)
    ensures msgs.messages == old(msgs.messages) + MessagesAfter(rd, old(models.entries), nodes)
    ensures models.entries == CacheAfter(rd, old(models.entries), nodes)
    ensures renderer.itemValues == old(renderer.itemValues) + ItemValuesAfter(env, version1, nodes, made)
  {
    made, targets := [], [];
    var i := 0;
    while i < |nodes|
      invariant 0 <= i <= |nodes|
      invariant fresh(TargetArrays(made))
      invariant pipe.Valid() && models.Valid()
      invariant pipe.passes == old(pipe.passes) + made
      invariant StatesOf(made) == PassStatesOf(rd.state, nodes[..i])
      invariant targets == TargetsOf(nodes[..i])
      invariant msgs.messages == old(msgs.messages) + MessagesAfter(rd, old(models.entries), nodes[..i])
      invariant models.entries == CacheAfter(rd, old(models.entries), nodes[..i])
      invariant |made| == i
      invariant renderer.itemValues == old(renderer.itemValues) + ItemValuesAfter(env, version1, nodes[..i], made)
    {
      TakeNext(nodes, i);
      assert ReadsPass(rd, env, version1, nodes[i]);
      var pass, names := ReadNextPass(env, version1, rd, pipe, msgs, models, renderer, nodes[..i], nodes[i], made,
                                      old(pipe.passes), old(msgs.messages), old(models.entries), old(renderer.itemValues));
      assert (made + [pass])[..|made|] == made;
      TargetArraysSnoc(made, pass);
      assert fresh(TargetArrays(made) + {pass.renderTextures});
      made, targets := made + [pass], targets + [names];
      i := i + 1;
    }
    assert nodes[..i] == nodes;
  }
}
