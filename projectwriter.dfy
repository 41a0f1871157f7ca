/** `SaveAs` and `Save`: the version 2 document of a whole project, one
    `pass` element per pass in pipeline order, one `object` element per
    object in creation order, and what `Open` reads back from it. */
module ProjectWriter {
  import opened Common
  import opened Document
  import opened Names
  import opened Paths
  import opened Variables
  import opened Pipeline
  import opened Objects
  import opened Binding
  import opened Reader
  import opened Project
  import opened Writer
  import opened ObjectWriter

  /** The document: a `project` element of version 2 holding the `pipeline`,
      the `objects` and the `settings` elements, in that order. */
  function ProjectDocument(cv: Conv, passNodes: seq<Node>, objectNodes: seq<Node>): Node
  {
    Node("", map[], "", [Node("project", map["version" := cv.intText(2)], "",
                              [Node("pipeline", map[], "", passNodes),
                               Node("objects", map[], "", objectNodes),
                               Node("settings", map[], "", [])])])
  }

  /** `Open` finds in a saved document a project of version 2, and exactly
      the written pass elements and object elements. */
  lemma DocumentReadBack(cv: Conv, passNodes: seq<Node>, objectNodes: seq<Node>)
    requires Coherent(cv)
    requires forall i :: 0 <= i < |passNodes| ==> passNodes[i].tag == "pass"
    requires forall i :: 0 <= i < |objectNodes| ==> objectNodes[i].tag == "object"
    ensures ProjectVersion(cv, Child(ProjectDocument(cv, passNodes, objectNodes), "project")) == 2
    ensures PassNodes(Child(ProjectDocument(cv, passNodes, objectNodes), "project")) == passNodes
    ensures ObjectNodes(Child(ProjectDocument(cv, passNodes, objectNodes), "project")) == objectNodes
  {
    var pipeline := Node("pipeline", map[], "", passNodes);
    var objects := Node("objects", map[], "", objectNodes);
    var settings := Node("settings", map[], "", []);
    var project := Node("project", map["version" := cv.intText(2)], "", [pipeline, objects, settings]);
    assert Child(ProjectDocument(cv, passNodes, objectNodes), "project") == project;
    assert cv.asInt(cv.intText(2)) == 2;
    assert "pipeline" != "objects" && "pipeline" != "settings" && "objects" != "settings" by {
      assert "pipeline"[0] == 'p' && "objects"[0] == 'o' && "settings"[0] == 's';
    }
    assert FirstNamed([settings], "objects") == FirstNamed([], "objects");
    assert Child(project, "pipeline") == pipeline;
    assert FirstNamed([objects, settings], "objects") == objects;
    assert Child(project, "objects") == objects;
    AllNamed(passNodes, "pass");
    AllNamed(objectNodes, "object");
  }

  /** The render-target handles of each pass. */
  ghost function HandlesOf(passes: seq<ShaderPass>): (r: seq<seq<Handle>>)
    reads set p | p in passes :: p.renderTextures
    ensures |r| == |passes|
    decreases |passes|
  {
    if passes == [] then [] else HandlesOf(passes[..|passes| - 1]) + [passes[|passes| - 1].renderTextures[..]]
  }

  ghost predicate PassesExportable(vo: VariableOracles, states: seq<PassState>)
  {
    forall i :: 0 <= i < |states| ==> VariablesExportable(vo, states[i].variables)
  }

  /** The `pass` elements of passes in the states `states` with the
      render-target handles `handles`, in order. */
  function PassElements(cv: Conv, tables: Tables, vo: VariableOracles, objects: ObjectManager, states: seq<PassState>,
                        handles: seq<seq<Handle>>, owners: seq<ShaderPass>, values: seq<ItemValue>,
                        relative: string -> string): (r: seq<Node>)
    requires |handles| == |states| == |owners| && PassesExportable(vo, states) && ValuesExportable(vo, values)
    reads objects
    ensures |r| == |states|
  {
    seq(|states|, k requires 0 <= k < |states| reads objects =>
      OverridesExportable(vo, values, owners[k]);
      PassNode(cv, tables, vo, objects, states[k], handles[k], OverridesOf(values, owners[k]), relative))
  }

  lemma PassElementAt(cv: Conv, tables: Tables, vo: VariableOracles, objects: ObjectManager, states: seq<PassState>,
                      handles: seq<seq<Handle>>, owners: seq<ShaderPass>, values: seq<ItemValue>,
                      relative: string -> string, k: nat)
    requires |handles| == |states| == |owners| && PassesExportable(vo, states) && ValuesExportable(vo, values) && k < |states|
    ensures ValuesExportable(vo, OverridesOf(values, owners[k]))
    ensures PassElements(cv, tables, vo, objects, states, handles, owners, values, relative)[k]
            == PassNode(cv, tables, vo, objects, states[k], handles[k], OverridesOf(values, owners[k]), relative)
  {
    OverridesExportable(vo, values, owners[k]);
  }

  /** One more pass adds its element. */
  lemma PassElementsSnoc(cv: Conv, tables: Tables, vo: VariableOracles, objects: ObjectManager, states: seq<PassState>,
                         handles: seq<seq<Handle>>, owners: seq<ShaderPass>, values: seq<ItemValue>, relative: string -> string,
                         st: PassState, h: seq<Handle>, owner: ShaderPass)
    requires |handles| == |states| == |owners| && PassesExportable(vo, states + [st]) && ValuesExportable(vo, values)
    ensures PassesExportable(vo, states) && VariablesExportable(vo, st.variables) && ValuesExportable(vo, OverridesOf(values, owner))
    ensures PassElements(cv, tables, vo, objects, states + [st], handles + [h], owners + [owner], values, relative)
            == PassElements(cv, tables, vo, objects, states, handles, owners, values, relative)
               + [PassNode(cv, tables, vo, objects, st, h, OverridesOf(values, owner), relative)]
  {
    assert forall k :: 0 <= k < |states| ==> (states + [st])[k] == states[k];
    assert (states + [st])[|states|] == st;
    assert (states + [st])[..|states|] == states;
    assert (handles + [h])[..|handles|] == handles;
    assert (owners + [owner])[..|owners|] == owners;
    OverridesExportable(vo, values, owner);
  }

  /** Every written pass element is a `pass` element. */
  lemma PassElementsTagged(cv: Conv, tables: Tables, vo: VariableOracles, objects: ObjectManager, states: seq<PassState>,
                           handles: seq<seq<Handle>>, owners: seq<ShaderPass>, values: seq<ItemValue>, relative: string -> string)
    requires |handles| == |states| == |owners| && PassesExportable(vo, states) && ValuesExportable(vo, values)
    ensures forall k :: 0 <= k < |states| ==> PassElements(cv, tables, vo, objects, states, handles, owners, values, relative)[k].tag == "pass"
  {
    forall k | 0 <= k < |states|
      ensures PassElements(cv, tables, vo, objects, states, handles, owners, values, relative)[k].tag == "pass"
    {
      PassElementAt(cv, tables, vo, objects, states, handles, owners, values, relative, k);
    }
  }

  /** The pipeline section of `SaveAs`: every pass, in order. */
  method WritePasses(cv: Conv, tables: Tables, vo: VariableOracles, objects: ObjectManager, passes: seq<ShaderPass>,
                     values: seq<ItemValue>, relative: string -> string) returns (r: seq<Node>)
    requires forall i :: 0 <= i < |passes| ==> passes[i].Valid()
    requires forall k :: 0 <= k < |passes| ==> VariablesExportable(vo, passes[k].variables)
    requires ValuesExportable(vo, values)
    ensures PassesExportable(vo, StatesOf(passes))
    ensures r == PassElements(cv, tables, vo, objects, StatesOf(passes), HandlesOf(passes), passes, values, relative)
  {
    r := [];
    var i := 0;
    StatesExportable(vo, passes, 0);
    assert passes[..0] == [];
    while i < |passes|
      invariant 0 <= i <= |passes|
      invariant PassesExportable(vo, StatesOf(passes[..i]))
      invariant r == PassElements(cv, tables, vo, objects, StatesOf(passes[..i]), HandlesOf(passes[..i]), passes[..i], values, relative)
    {
      r := WriteNextPass(cv, tables, vo, objects, passes, values, relative, i, r);
      i := i + 1;
    }
    assert passes[..i] == passes;
  }

  /** One loop step of `WritePasses`: the next pass's element follows the
      elements of the passes before it. */
  method WriteNextPass(cv: Conv, tables: Tables, vo: VariableOracles, objects: ObjectManager, passes: seq<ShaderPass>,
                       values: seq<ItemValue>, relative: string -> string, i: nat, prior: seq<Node>) returns (r: seq<Node>)
    requires i < |passes| && passes[i].Valid()
    requires forall k :: 0 <= k < |passes| ==> VariablesExportable(vo, passes[k].variables)
    requires ValuesExportable(vo, values)
    requires PassesExportable(vo, StatesOf(passes[..i]))
    requires prior == PassElements(cv, tables, vo, objects, StatesOf(passes[..i]), HandlesOf(passes[..i]), passes[..i], values, relative)
    ensures PassesExportable(vo, StatesOf(passes[..i + 1]))
    ensures r == PassElements(cv, tables, vo, objects, StatesOf(passes[..i + 1]), HandlesOf(passes[..i + 1]), passes[..i + 1], values, relative)
  {
    WrittenPassesSnoc(cv, tables, vo, objects, passes, values, relative, i);
    ghost var next := PassNode(cv, tables, vo, objects, passes[i].State(), passes[i].renderTextures[..],
                               OverridesOf(values, passes[i]), relative);
    var n := WritePass(cv, tables, vo, objects, passes[i], values, relative);
    StatesKept(passes[..i + 1]);
    HandlesKept(passes[..i + 1]);
    assert n == next;
    r := prior + [n];
  }

  /** Passes whose render-target buffers did not change keep their handles. */
  twostate lemma {:induction false} HandlesKept(passes: seq<ShaderPass>)
    requires forall i :: 0 <= i < |passes| ==> unchanged(passes[i], passes[i].renderTextures)
    ensures HandlesOf(passes) == old(HandlesOf(passes))
    decreases |passes|
  {
    if passes != [] {
      HandlesKept(passes[..|passes| - 1]);
    }
  }

  /** The elements of a prefix of the passes grow by the next pass's. */
  lemma WrittenPassesSnoc(cv: Conv, tables: Tables, vo: VariableOracles, objects: ObjectManager, passes: seq<ShaderPass>,
                          values: seq<ItemValue>, relative: string -> string, i: nat)
    requires i < |passes|
    requires forall k :: 0 <= k < |passes| ==> VariablesExportable(vo, passes[k].variables)
    requires ValuesExportable(vo, values)
    ensures PassesExportable(vo, StatesOf(passes[..i])) && PassesExportable(vo, StatesOf(passes[..i + 1]))
    ensures VariablesExportable(vo, passes[i].State().variables) && ValuesExportable(vo, OverridesOf(values, passes[i]))
    ensures PassElements(cv, tables, vo, objects, StatesOf(passes[..i + 1]), HandlesOf(passes[..i + 1]), passes[..i + 1], values, relative)
            == PassElements(cv, tables, vo, objects, StatesOf(passes[..i]), HandlesOf(passes[..i]), passes[..i], values, relative)
               + [PassNode(cv, tables, vo, objects, passes[i].State(), passes[i].renderTextures[..], OverridesOf(values, passes[i]), relative)]
  {
    StatesExportable(vo, passes, i);
    StatesExportable(vo, passes, i + 1);
    TakeNext(passes, i);
    PassElementsSnoc(cv, tables, vo, objects, StatesOf(passes[..i]), HandlesOf(passes[..i]), passes[..i], values, relative,
                     passes[i].State(), passes[i].renderTextures[..], passes[i]);
  }

  /** The states and handles of a prefix of the passes grow by the next
      pass's. */
  lemma StatesExportable(vo: VariableOracles, passes: seq<ShaderPass>, i: nat)
    requires forall k :: 0 <= k < |passes| ==> VariablesExportable(vo, passes[k].variables)
    requires i <= |passes|
    ensures PassesExportable(vo, StatesOf(passes[..i]))
    ensures 0 < i ==> StatesOf(passes[..i]) == StatesOf(passes[..i - 1]) + [passes[i - 1].State()]
    ensures 0 < i ==> HandlesOf(passes[..i]) == HandlesOf(passes[..i - 1]) + [passes[i - 1].renderTextures[..]]
  {
    forall k | 0 <= k < i
      ensures StatesOf(passes[..i])[k] == passes[k].State()
    {
      StatesAt(passes[..i], k);
    }
    if 0 < i {
      assert passes[..i][..i - 1] == passes[..i - 1];
    }
  }

  /** The names of a run of passes, collected by walking it. */
  method NamesOfPasses(passes: seq<ShaderPass>) returns (names: seq<string>)
    ensures names == NamesOf(StatesOf(passes))
    ensures |names| == |passes| && forall j :: 0 <= j < |passes| ==> names[j] == passes[j].name
  {
    names := PassNamesOf(passes);
    forall j | 0 <= j < |passes|
      ensures names[j] == passes[j].name
    {
      NamesAt(StatesOf(passes), j);
      StatesAt(passes, j);
    }
  }

  /** The whole document for the passes `passes`, in pipeline order, and
      the objects of `objects`. */
  ghost function DocumentOf(cv: Conv, tables: Tables, vo: VariableOracles, passes: seq<ShaderPass>, objects: ObjectManager,
                            values: seq<ItemValue>, relative: string -> string): Node
    requires objects.Valid()
    requires PassesExportable(vo, StatesOf(passes)) && ValuesExportable(vo, values)
    reads passes, set p | p in passes :: p.renderTextures, objects
  {
    ProjectDocument(cv, PassElements(cv, tables, vo, objects, StatesOf(passes), HandlesOf(passes), passes, values, relative),
                    ObjectNodesOf(cv, tables, objects, passes, NamesOf(StatesOf(passes))))
  }

  /** The document of a pipeline and its objects: the pass elements, then
      the object elements with the binds the passes' names select. */
  method WriteDocument(cv: Conv, tables: Tables, vo: VariableOracles, passes: seq<ShaderPass>, objects: ObjectManager,
                       values: seq<ItemValue>, relative: string -> string) returns (doc: Node)
    requires objects.Valid()
    requires forall i :: 0 <= i < |passes| ==> passes[i].Valid() && VariablesExportable(vo, passes[i].variables)
    requires ValuesExportable(vo, values)
    ensures PassesExportable(vo, StatesOf(passes))
    ensures doc == DocumentOf(cv, tables, vo, passes, objects, values, relative)
  {
    var passNodes := WritePasses(cv, tables, vo, objects, passes, values, relative);
    var passNames := NamesOfPasses(passes);
    var objectNodes := WriteObjects(cv, tables, objects, passes, passNames);
    doc := ProjectDocument(cv, passNodes, objectNodes);
  }

  /** `SaveAs(file)`: the project takes `file` as its file and the file's
      directory as its directory, and the document of its passes and objects
      is produced, with the item values of the renderer. `relative` turns a
      path of the project as it was opened into the path written to the
      document. */
  method SaveAs(parser: ProjectParser, file: string, cv: Conv, tables: Tables, vo: VariableOracles, relative: string -> string)
    returns (doc: Node)
    requires parser.Valid()
    requires forall i :: 0 <= i < |parser.pipe.passes| ==> VariablesExportable(vo, parser.pipe.passes[i].variables)
    requires ValuesExportable(vo, parser.renderer.itemValues)
    modifies parser
    ensures parser.Valid()
    ensures parser.file == file && parser.projectPath == DirectoryOf(file)
    ensures PassesExportable(vo, StatesOf(parser.pipe.passes))
    ensures doc == DocumentOf(cv, tables, vo, parser.pipe.passes, parser.objects, parser.renderer.itemValues, relative)
  {
    parser.file := file;
    parser.projectPath := DirectoryOf(file);
    var passes := parser.pipe.passes;
    assert forall i :: 0 <= i < |passes| ==> passes[i].Valid();
    doc := WriteDocument(cv, tables, vo, passes, parser.objects, parser.renderer.itemValues, relative);
  }

  /** `Save()`: `SaveAs` to the project's own file. */
  method Save(parser: ProjectParser, cv: Conv, tables: Tables, vo: VariableOracles, relative: string -> string)
    returns (doc: Node)
    requires parser.Valid()
    requires forall i :: 0 <= i < |parser.pipe.passes| ==> VariablesExportable(vo, parser.pipe.passes[i].variables)
    requires ValuesExportable(vo, parser.renderer.itemValues)
    modifies parser
    ensures parser.Valid()
    ensures parser.file == old(parser.file) && parser.projectPath == DirectoryOf(old(parser.file))
    ensures PassesExportable(vo, StatesOf(parser.pipe.passes))
    ensures doc == DocumentOf(cv, tables, vo, parser.pipe.passes, parser.objects, parser.renderer.itemValues, relative)
  {
    doc := SaveAs(parser, parser.file, cv, tables, vo, relative);
  }

  // ---- reading a saved document back ----

  /** What reading the element of a saved pass gives. */
  function ReloadedPass(env: Environment, objects: ObjectManager, st: PassState, handles: seq<Handle>,
                        relative: string -> string): PassState
    requires VariablesExportable(env.vo, st.variables)
    reads objects
  {
    PassState(st.name, TargetCount(ChainNames(objects, handles)), ReloadedShaders(st.shaders, relative),
              ReloadedVariables(env.cv, env.tables, env.vo, st.variables), st.macros,
              ReloadedItems(env.cv, env.tables, st.items, relative))
  }

  function ReloadedPasses(env: Environment, objects: ObjectManager, states: seq<PassState>, handles: seq<seq<Handle>>,
                          relative: string -> string): (r: seq<PassState>)
    requires |handles| == |states| && PassesExportable(env.vo, states)
    reads objects
    ensures |r| == |states| && forall i :: 0 <= i < |r| ==> r[i] == ReloadedPass(env, objects, states[i], handles[i], relative)
  {
    seq(|states|, i requires 0 <= i < |states| reads objects => ReloadedPass(env, objects, states[i], handles[i], relative))
  }

  lemma {:induction false} PassStatesOfEach(read: Node -> PassState, nodes: seq<Node>, out: seq<PassState>)
    requires |out| == |nodes| && forall i :: 0 <= i < |nodes| ==> read(nodes[i]) == out[i]
    ensures PassStatesOf(read, nodes) == out
    decreases |nodes|
  {
    if nodes != [] {
      PassStatesOfEach(read, nodes[..|nodes| - 1], out[..|out| - 1]);
      assert out == out[..|out| - 1] + [out[|out| - 1]];
    }
  }

  /** Saving and reopening keeps every pass: the version 2 reader, run over
      the pass elements of a saved document, gives for each saved pass its
      name, a render-target count for the named leading targets of its
      chain, its shaders with the relative paths, its variables as the value
      codec reloads them, its macros and its items as they reload. */
  lemma PassesRoundTrip(env: Environment, rd: PassReaders, objects: ObjectManager, states: seq<PassState>,
                        handles: seq<seq<Handle>>, owners: seq<ShaderPass>, values: seq<ItemValue>, objectNodes: seq<Node>, relative: string -> string)
    requires env == StandardEnvironment(env.cv, env.tables, env.vo, env.fileExists, env.loadsModel)
    requires Reads(rd, env, false)
    requires Coherent(env.cv) && ItemTablesDistinct(env.tables)
    requires |handles| == |states| == |owners| && PassesExportable(env.vo, states) && ValuesExportable(env.vo, values)
    requires forall i, k :: 0 <= i < |states| && 0 <= k < |states[i].items| ==> ShapeKnown(env.tables, states[i].items[k])
    requires forall i :: 0 <= i < |objectNodes| ==> objectNodes[i].tag == "object"
    ensures PassStatesOf(rd.state, PassNodes(Child(ProjectDocument(env.cv,
                                                                   PassElements(env.cv, env.tables, env.vo, objects, states, handles, owners, values, relative),
                                                                   objectNodes), "project")))
            == ReloadedPasses(env, objects, states, handles, relative)
  {
    var nodes := PassElements(env.cv, env.tables, env.vo, objects, states, handles, owners, values, relative);
    var out := ReloadedPasses(env, objects, states, handles, relative);
    PassElementsTagged(env.cv, env.tables, env.vo, objects, states, handles, owners, values, relative);
    DocumentReadBack(env.cv, nodes, objectNodes);
    forall i | 0 <= i < |nodes|
      ensures rd.state(nodes[i]) == out[i]
    {
      PassElementAt(env.cv, env.tables, env.vo, objects, states, handles, owners, values, relative, i);
      assert ReadsPass(rd, env, false, nodes[i]);
      PassRoundTrip(env, objects, states[i], handles[i], OverridesOf(values, owners[i]), relative);
    }
    PassStatesOfEach(rd.state, nodes, out);
  }

  /** Saving and reopening keeps every binding: the objects of a saved
      document, read against the reopened passes, which carry the saved
      names in the saved order, give each reopened pass the texture and
      uniform buffer bind lists of the saved pass at its position. */
  lemma SavedBindsRoundTrip(cv: Conv, tables: Tables, objects: ObjectManager, saved: seq<ShaderPass>, newPasses: seq<ShaderPass>,
                            passNames: seq<string>, passNodes: seq<Node>, j: nat)
    requires Coherent(cv) && objects.Valid() && NamesKept(objects) && SavedBinds(objects, saved)
    requires |newPasses| == |saved| == |passNames| && j < |newPasses| && PassesDistinct(newPasses) && Distinct(passNames)
    requires forall i :: 0 <= i < |passNodes| ==> passNodes[i].tag == "pass"
    ensures BindListOf(RegistryAfter(cv, tables, false, newPasses, passNames, EmptyRegistry,
                                     ObjectNodes(Child(ProjectDocument(cv, passNodes, ObjectNodesOf(cv, tables, objects, saved, passNames)),
                                                       "project"))).binds, newPasses[j])
            == BindListOf(objects.binds, saved[j])
    ensures BindListOf(RegistryAfter(cv, tables, false, newPasses, passNames, EmptyRegistry,
                                     ObjectNodes(Child(ProjectDocument(cv, passNodes, ObjectNodesOf(cv, tables, objects, saved, passNames)),
                                                       "project"))).uniformBinds, newPasses[j])
            == BindListOf(objects.uniformBinds, saved[j])
  {
    DocumentReadBack(cv, passNodes, ObjectNodesOf(cv, tables, objects, saved, passNames));
    BindsRoundTrip(cv, tables, objects, saved, newPasses, passNames, j);
  }
}
