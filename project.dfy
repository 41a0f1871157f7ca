/** A whole project: the render-target chain each reader resolves last, the
    two readers `m_parseV1` and `m_parseV2` put together, and `Open`, which
    picks one of them by the document's version. */
module Project {
  import opened Common
  import opened Document
  import opened Names
  import opened Paths
  import opened Pipeline
  import opened Models
  import opened Objects
  import opened Binding
  import opened ObjectReader
  import opened Reader

  // ---- the render-target chain ----

  /** The name that stands for the window's own texture: `Window` in
      version 1, the empty name of a nameless `rendertexture` in version 2. */
  predicate IsWindowName(version1: bool, name: string)
  {
    if version1 then name == "Window" else name == ""
  }

  /** `(rtName == "Window") ? m_renderer->GetTexture() : m_objects->GetTexture(rtName)`
      and its version 2 counterpart. */
  function Resolve(version1: bool, objects: ObjectManager, name: string): Handle
    reads objects
  {
    if IsWindowName(version1, name) then WindowTexture else objects.GetTexture(name)
  }

  /** A chain entry is the window's texture exactly when its name is the
      window's name, and otherwise the registry's handle for the name, which
      is an object's exactly when an object has that name. */
  lemma ResolveWindow(version1: bool, objects: ObjectManager, name: string)
    ensures Resolve(version1, objects, name) == WindowTexture <==> IsWindowName(version1, name)
    ensures !IsWindowName(version1, name) ==> Resolve(version1, objects, name) == objects.GetTexture(name)
    ensures !IsWindowName(version1, name) ==> (Resolve(version1, objects, name).ObjectTexture? <==> name in objects.names)
  {
  }

  /** How many entries of the buffer the corrected chain writes: one per
      name, up to the buffer's size. */
  function ChainLength(names: seq<string>): (k: nat)
    ensures k <= |names| && k <= MaxRenderTextures
    ensures k == |names| || k == MaxRenderTextures
  {
    if |names| <= MaxRenderTextures then |names| else MaxRenderTextures
  }

  /** A pass's buffer after its chain is resolved: the first names' handles,
      then what the buffer held. */
  function Chained(version1: bool, objects: ObjectManager, names: seq<string>, before: seq<Handle>): (r: seq<Handle>)
    requires |before| == MaxRenderTextures
    reads objects
  {
    var k := ChainLength(names);
    seq(k, i requires 0 <= i < k reads objects => Resolve(version1, objects, names[i])) + before[k..]
  }

  /** Every entry of a resolved buffer: the handle of its name while there
      is a name for it, what the buffer held after the last name. */
  lemma ChainedEntries(version1: bool, objects: ObjectManager, names: seq<string>, before: seq<Handle>, i: nat)
    requires |before| == MaxRenderTextures && i < MaxRenderTextures
    ensures |Chained(version1, objects, names, before)| == MaxRenderTextures
    ensures i < |names| ==> Chained(version1, objects, names, before)[i] == Resolve(version1, objects, names[i])
    ensures i >= |names| ==> Chained(version1, objects, names, before)[i] == before[i]
  {
  }

  /** The chain loop for one pass, stopping at the end of the buffer. */
  method ResolveTargets(version1: bool, objects: ObjectManager, pass: ShaderPass, names: seq<string>)
    requires pass.Valid()
    modifies pass.renderTextures
    ensures pass.renderTextures[..] == Chained(version1, objects, names, old(pass.renderTextures[..]))
  {
    var k := ChainLength(names);
    var index := 0;
    while index < k
      invariant 0 <= index <= k
      invariant forall j :: 0 <= j < index ==> pass.renderTextures[j] == Resolve(version1, objects, names[j])
      invariant forall j :: index <= j < MaxRenderTextures ==> pass.renderTextures[j] == old(pass.renderTextures[j])
    {
      pass.renderTextures[index] := Resolve(version1, objects, names[index]);
      index := index + 1;
    }
    assert pass.renderTextures[..] == Chained(version1, objects, names, old(pass.renderTextures[..]));
  }

  /** The chain loop as the source has it: one write per name, at the
      name's index, with no check against the buffer's size; its writes stay
      inside the buffer only when a pass names at most `MaxRenderTextures`
      targets. */
  method ResolveTargetsAsWritten(version1: bool, objects: ObjectManager, pass: ShaderPass, names: seq<string>)
    requires pass.Valid() && |names| <= MaxRenderTextures
    modifies pass.renderTextures
    ensures pass.renderTextures[..] == Chained(version1, objects, names, old(pass.renderTextures[..]))
  {
    var index := 0;
    while index < |names|
      invariant 0 <= index <= |names|
      invariant forall j :: 0 <= j < index ==> pass.renderTextures[j] == Resolve(version1, objects, names[j])
      invariant forall j :: index <= j < MaxRenderTextures ==> pass.renderTextures[j] == old(pass.renderTextures[j])
    {
      pass.renderTextures[index] := Resolve(version1, objects, names[index]);
      index := index + 1;
    }
    assert pass.renderTextures[..] == Chained(version1, objects, names, old(pass.renderTextures[..]));
  }

  /** A pass element with seventeen `rendertexture` children. */
  function SeventeenTargets(): Node
  {
    Node("pass", map[], "", seq(17, _ => Node("rendertexture", map["name" := "rt"], "", [])))
  }

  /** Nothing in either reader limits the number of `rendertexture`
      children: this pass gets seventeen names and an `RTCount` of 17, one
      more than the buffer holds, so the chain loop as written would write
      past the buffer's end. */
  lemma TargetOverflow()
    ensures |TargetNames(SeventeenTargets())| == 17 > MaxRenderTextures
    ensures TargetCount(TargetNames(SeventeenTargets())) > MaxRenderTextures
  {
    var kids := SeventeenTargets().children;
    Variables.AllNamed(kids, "rendertexture");
  }

  /** Every pass's buffer, after the chain, holds the handle of each of its
      target names, up to the buffer's size. */
  ghost predicate ChainResolved(version1: bool, objects: ObjectManager, made: seq<ShaderPass>, targets: seq<seq<string>>)
    reads objects, made, set p | p in made :: p.renderTextures
  {
    forall k :: 0 <= k < |made| && k < |targets| ==>
      && made[k].Valid()
      && forall i :: 0 <= i < ChainLength(targets[k]) ==> made[k].renderTextures[i] == Resolve(version1, objects, targets[k][i])
  }

  /** The chain loop over every pass, each with its own buffer. */
  method ResolveChain(version1: bool, objects: ObjectManager, passes: seq<ShaderPass>, targets: seq<seq<string>>)
    requires |targets| == |passes|
    requires forall i :: 0 <= i < |passes| ==> passes[i].Valid()
    requires forall i, j :: 0 <= i < j < |passes| ==> passes[i].renderTextures != passes[j].renderTextures
    modifies set p | p in passes :: p.renderTextures
    ensures forall i :: 0 <= i < |passes| ==>
              passes[i].Valid() && passes[i].renderTextures[..] == Chained(version1, objects, targets[i], old(passes[i].renderTextures[..]))
    ensures ChainResolved(version1, objects, passes, targets)
  {
    var i := 0;
    while i < |passes|
      invariant 0 <= i <= |passes|
      invariant forall j :: 0 <= j < i ==>
                  passes[j].renderTextures[..] == Chained(version1, objects, targets[j], old(passes[j].renderTextures[..]))
      invariant forall j :: i <= j < |passes| ==> passes[j].renderTextures[..] == old(passes[j].renderTextures[..])
    {
      ResolveTargets(version1, objects, passes[i], targets[i]);
      i := i + 1;
    }
    forall k, j | 0 <= k < |passes| && 0 <= j < ChainLength(targets[k])
      ensures passes[k].renderTextures[j] == Resolve(version1, objects, targets[k][j])
    {
      ChainedEntries(version1, objects, targets[k], old(passes[k].renderTextures[..]), j);
    }
  }

  // ---- one reader for both versions ----

  /** The names of a list of passes, in the list's order. */
  function NamesOf(states: seq<PassState>): (r: seq<string>)
    ensures |r| == |states|
    decreases |states|
  {
    if states == [] then [] else NamesOf(states[..|states| - 1]) + [states[|states| - 1].name]
  }

  lemma {:induction false} NamesAt(states: seq<PassState>, k: nat)
    requires k < |states|
    ensures NamesOf(states)[k] == states[k].name
    decreases |states|
  {
    if k < |states| - 1 {
      NamesAt(states[..|states| - 1], k);
    }
  }

  /** The `pass->Name` each binding loop compares a `bind` element's name
      with, read once for the whole list. */
  method PassNamesOf(passes: seq<ShaderPass>) returns (names: seq<string>)
    ensures names == NamesOf(StatesOf(passes))
  {
    names := [];
    var i := 0;
    while i < |passes|
      invariant 0 <= i <= |passes|
      invariant names == NamesOf(StatesOf(passes[..i]))
    {
      assert passes[..i + 1][..i] == passes[..i];
      names := names + [passes[i].name];
      i := i + 1;
    }
    assert passes[..i] == passes;
  }

  /** The passes a reader adds own distinct buffers of the fixed size. */
  lemma NewPassesValid(pipe: PipelineManager, before: seq<ShaderPass>, made: seq<ShaderPass>)
    requires pipe.Valid() && pipe.passes == before + made
    ensures forall i :: 0 <= i < |made| ==> made[i].Valid()
    ensures forall i, j :: 0 <= i < j < |made| ==> made[i].renderTextures != made[j].renderTextures
  {
    forall i | 0 <= i < |made|
      ensures made[i] == pipe.passes[|before| + i]
    {
    }
  }

  /** The object elements of a project. */
  function ObjectNodes(project: Node): seq<Node>
  {
    ChildrenNamed(Child(project, "objects"), "object")
  }

  /** What the object manager holds: its objects in creation order, their
      kinds, and the two binding lists of every pass. */
  datatype Registry = Registry(names: seq<string>, kinds: map<string, ObjectKind>, binds: BindTables, uniformBinds: BindTables)

  function RegistryOf(objects: ObjectManager): Registry
    reads objects
  {
    Registry(objects.names, objects.kinds, objects.binds, objects.uniformBinds)
  }

  /** The registry after the object elements `nodes` are read against
      `passes`, named `passNames`, and their bindings are committed. */
  function RegistryAfter(cv: Conv, tables: Tables, version1: bool, passes: seq<ShaderPass>, passNames: seq<string>,
                         r0: Registry, nodes: seq<Node>): Registry
  {
    var s := ObjectsAfter(cv, tables, version1, passes, passNames, Phase1(r0.names, r0.kinds, map[], map[]), nodes);
    Registry(s.names, s.kinds, Committed(r0.binds, passes, s.textures),
             if version1 then r0.uniformBinds else Committed(r0.uniformBinds, passes, s.buffers))
  }

  /** The objects part of both readers: every object element, then the
      committed binding lists, uniform buffers in version 2 only. */
  method ReadObjectsOf(cv: Conv, tables: Tables, version1: bool, objects: ObjectManager, passes: seq<ShaderPass>,
                       passNames: seq<string>, nodes: seq<Node>)
    requires objects.Valid()
    modifies objects
    ensures objects.Valid()
    ensures RegistryOf(objects) == RegistryAfter(cv, tables, version1, passes, passNames, old(RegistryOf(objects)), nodes)
  {
    var textures, buffers := ReadObjects(cv, tables, version1, objects, passes, passNames, nodes);
    CommitAllTextures(objects, passes, textures);
    if !version1 {
      CommitAllBuffers(objects, passes, buffers);
    }
  }

  /** What both readers do once the passes exist: read the objects
      against every pass, commit their bindings, and resolve the chain of
      the passes just read. */
  method ReadObjectsAndChain(cv: Conv, tables: Tables, version1: bool, pipe: PipelineManager, objects: ObjectManager,
                             ghost before: seq<ShaderPass>, made: seq<ShaderPass>, targets: seq<seq<string>>,
                             objectNodes: seq<Node>)
    requires pipe.Valid() && objects.Valid()
    requires pipe.passes == before + made && |targets| == |made|
    modifies objects, TargetArrays(made)
    ensures objects.Valid()
    ensures StatesOf(made) == old(StatesOf(made))
    ensures RegistryOf(objects) ==
              RegistryAfter(cv, tables, version1, pipe.passes, NamesOf(StatesOf(pipe.passes)), old(RegistryOf(objects)), objectNodes)
    ensures ChainResolved(version1, objects, made, targets)
  {
    ghost var states := StatesOf(pipe.passes);
    ghost var registry := RegistryOf(objects);
    var passNames := PassNamesOf(pipe.passes);
    StatesKept(pipe.passes);
    assert passNames == NamesOf(states) && RegistryOf(objects) == registry;
    ReadObjectsOf(cv, tables, version1, objects, pipe.passes, passNames, objectNodes);
    StatesKept(pipe.passes);
    StatesKept(made);
    ResolveNewChains(version1, pipe, objects, before, made, targets);
  }

  /** The render-target chains of the new passes, resolved against the
      objects; no pass changes except in its render-target buffer. */
  method ResolveNewChains(version1: bool, pipe: PipelineManager, objects: ObjectManager, ghost before: seq<ShaderPass>,
                          made: seq<ShaderPass>, targets: seq<seq<string>>)
    requires pipe.Valid() && pipe.passes == before + made && |targets| == |made|
    modifies TargetArrays(made)
    ensures unchanged(pipe, objects)
    ensures StatesOf(made) == old(StatesOf(made)) && StatesOf(pipe.passes) == old(StatesOf(pipe.passes))
    ensures ChainResolved(version1, objects, made, targets)
  {
    NewPassesValid(pipe, before, made);
    TargetArraysCover(made);
    ResolveChain(version1, objects, made, targets);
    StatesKept(made);
    StatesKept(pipe.passes);
  }

  /** `m_parseV1` (`version1`) and `m_parseV2`: the passes in document
      order, then the objects with the bindings the passes' names select,
      and last the render-target chain of every pass. */
  method ReadProject(env: Environment, version1: bool, ghost rd: PassReaders, project: Node, pipe: PipelineManager,
                     objects: ObjectManager, msgs: MessageStack, models: ModelCache, renderer: RenderEngine)
    returns (made: seq<ShaderPass>)
    requires Reads(rd, env, version1)
    requires pipe.Valid() && models.Valid() && objects.Valid()
    modifies pipe, objects, msgs, models, renderer
    ensures pipe.Valid() && models.Valid() && objects.Valid()
    ensures pipe.passes == old(pipe.passes) + made
    ensures StatesOf(made) == PassStatesOf(rd.state, PassNodes(project))
    ensures msgs.messages == old(msgs.messages) + MessagesAfter(rd, old(models.entries), PassNodes(project))
    ensures models.entries == CacheAfter(rd, old(models.entries), PassNodes(project))
    ensures renderer.itemValues == old(renderer.itemValues) + ItemValuesAfter(env, version1, PassNodes(project), made)
    ensures RegistryOf(objects) ==
              RegistryAfter(env.cv, env.tables, version1, pipe.passes, NamesOf(StatesOf(pipe.passes)), old(RegistryOf(objects)), ObjectNodes(project))
    ensures ChainResolved(version1, objects, made, TargetsOf(PassNodes(project)))
  {
    var targets;
    made, targets := ReadPasses(env, version1, rd, pipe, msgs, models, renderer, PassNodes(project));
    ReadObjectsAndChain(env.cv, env.tables, version1, pipe, objects, old(pipe.passes), made, targets, ObjectNodes(project));
  }

  /** A registry with nothing in it, as `ObjectManager::Clear` leaves it. */
  const EmptyRegistry: Registry := Registry([], map[], map[], map[])

  /** Reading the objects of a project into an emptied registry keeps its
      names distinct, one kind per name, and binds only names of objects;
      version 1 binds no uniform buffers. */
  lemma ReadRegistryBindsObjects(cv: Conv, tables: Tables, version1: bool, passes: seq<ShaderPass>, passNames: seq<string>,
                                 nodes: seq<Node>, p: ShaderPass, x: string)
    requires forall i, j :: 0 <= i < j < |passes| ==> passes[i] != passes[j]
    ensures var r := RegistryAfter(cv, tables, version1, passes, passNames, EmptyRegistry, nodes);
            && Distinct(r.names) && (forall y :: y in r.kinds <==> y in r.names)
            && (x in BindListOf(r.binds, p) ==> x in r.kinds)
            && (x in BindListOf(r.uniformBinds, p) ==> x in r.kinds)
            && (version1 ==> r.uniformBinds == map[])
  {
    var s0 := Phase1([], map[], map[], map[]);
    ObjectsAfterKeeps(cv, tables, version1, passes, passNames, s0, nodes);
    var s := ObjectsAfter(cv, tables, version1, passes, passNames, s0, nodes);
    CommittedList(map[], passes, s.textures, p);
    CommittedList(map[], passes, s.buffers, p);
    if x in NonEmpty(TableOf(s.textures, p)) {
      var k :| 0 <= k < |TableOf(s.textures, p)| && TableOf(s.textures, p)[k] == x;
    }
    if x in NonEmpty(TableOf(s.buffers, p)) {
      var k :| 0 <= k < |TableOf(s.buffers, p)| && TableOf(s.buffers, p)[k] == x;
    }
  }

  /** `projectNode.attribute("version").as_int()`, or 1 when there is no
      such attribute: a project of the first format carries no version. */
  function ProjectVersion(cv: Conv, project: Node): (v: int)
    ensures "version" !in project.attrs ==> v == 1
    ensures "version" in project.attrs ==> v == cv.asInt(project.attrs["version"])
  {
    if "version" in project.attrs then AttrInt(cv, project, "version") else 1
  }

  /** What `Open` leaves after reading `project` with the reader of one
      version into emptied managers: the passes of the pass elements, the
      messages and the model cache those passes produced from nothing, the
      item values appended to `values0`, the objects read against those
      passes, and every pass's chain resolved. */
  ghost predicate ProjectRead(env: Environment, version1: bool, rd: PassReaders, project: Node, pipe: PipelineManager,
                              objects: ObjectManager, msgs: MessageStack, models: ModelCache, renderer: RenderEngine,
                              values0: seq<ItemValue>)
    reads pipe, pipe.passes, objects, msgs, models, renderer, set p | p in pipe.passes :: p.renderTextures
  {
    var nodes := PassNodes(project);
    && StatesOf(pipe.passes) == PassStatesOf(rd.state, nodes)
    && msgs.messages == MessagesAfter(rd, [], nodes)
    && models.entries == CacheAfter(rd, [], nodes)
    && renderer.itemValues == values0 + ItemValuesAfter(env, version1, nodes, pipe.passes)
    && RegistryOf(objects) ==
         RegistryAfter(env.cv, env.tables, version1, pipe.passes, NamesOf(StatesOf(pipe.passes)), EmptyRegistry, ObjectNodes(project))
    && ChainResolved(version1, objects, pipe.passes, TargetsOf(nodes))
  }

  /** `m_parseV1` or `m_parseV2` as `Open` calls it, on emptied managers. */
  method ReadEmptied(env: Environment, version1: bool, ghost rd: PassReaders, project: Node, pipe: PipelineManager,
                     objects: ObjectManager, msgs: MessageStack, models: ModelCache, renderer: RenderEngine)
    requires Reads(rd, env, version1)
    requires pipe.Valid() && models.Valid() && objects.Valid()
    requires pipe.passes == [] && RegistryOf(objects) == EmptyRegistry && msgs.messages == [] && models.entries == []
    modifies pipe, objects, msgs, models, renderer
    ensures pipe.Valid() && models.Valid() && objects.Valid()
    ensures ProjectRead(env, version1, rd, project, pipe, objects, msgs, models, renderer, old(renderer.itemValues))
  {
    var made := ReadProject(env, version1, rd, project, pipe, objects, msgs, models, renderer);
    assert pipe.passes == made;
  }

  /** The part of `Open` after the document parsed: the pipeline and the
      objects are emptied, and the reader of the document's version reads
      it; an unknown version leaves the project empty. */
  method ReadDocument(doc: Node, env: Environment, ghost rd1: PassReaders, ghost rd2: PassReaders, pipe: PipelineManager,
                      objects: ObjectManager, msgs: MessageStack, models: ModelCache, renderer: RenderEngine)
    requires Reads(rd1, env, true) && Reads(rd2, env, false)
    requires pipe.Valid() && models.Valid() && objects.Valid()
    requires msgs.messages == [] && models.entries == []
    modifies pipe, objects, msgs, models, renderer
    ensures pipe.Valid() && models.Valid() && objects.Valid()
    ensures var v := ProjectVersion(env.cv, Child(doc, "project"));
            v != 1 && v != 2 ==>
              && pipe.passes == [] && RegistryOf(objects) == EmptyRegistry
              && msgs.messages == [] && models.entries == [] && unchanged(renderer)
    ensures ProjectVersion(env.cv, Child(doc, "project")) == 1 ==>
              ProjectRead(env, true, rd1, Child(doc, "project"), pipe, objects, msgs, models, renderer, old(renderer.itemValues))
    ensures ProjectVersion(env.cv, Child(doc, "project")) == 2 ==>
              ProjectRead(env, false, rd2, Child(doc, "project"), pipe, objects, msgs, models, renderer, old(renderer.itemValues))
  {
    pipe.Clear();
    objects.Clear();
    var project := Child(doc, "project");
    var version := ProjectVersion(env.cv, project);
    if version == 1 || version == 2 {
      var version1 := version == 1;
      ReadEmptied(env, version1, if version1 then rd1 else rd2, project, pipe, objects, msgs, models, renderer);
    }
  }

  /** `ProjectParser`: the project file, its directory, and the managers a
      project is read into. */
  class ProjectParser {
    const pipe: PipelineManager
    const objects: ObjectManager
    const msgs: MessageStack
    const models: ModelCache
    const renderer: RenderEngine
    var file: string
    var projectPath: string

    ghost predicate Valid()
      reads this, pipe, objects, models
    {
      pipe.Valid() && objects.Valid() && models.Valid()
    }

    constructor (pipe: PipelineManager, objects: ObjectManager, msgs: MessageStack, models: ModelCache, renderer: RenderEngine)
      requires pipe.Valid() && objects.Valid() && models.Valid()
      ensures Valid()
      ensures this.pipe == pipe && this.objects == objects && this.msgs == msgs && this.models == models && this.renderer == renderer
      ensures file == "" && projectPath == ""
    {
      this.pipe, this.objects, this.msgs, this.models, this.renderer := pipe, objects, msgs, models, renderer;
      file, projectPath := "", "";
    }

    /** `Open(file)`, given the document `doc` parses to, or `None` when
        it does not parse. The message list and the model cache are emptied
        first; a document that parses empties the pipeline and the objects
        and is read by the reader of its version, and one of an unknown
        version leaves the project empty. */
    method Open(file: string, doc: Option<Node>, env: Environment, ghost rd1: PassReaders, ghost rd2: PassReaders)
      requires Valid() && Reads(rd1, env, true) && Reads(rd2, env, false)
      modifies this, pipe, objects, msgs, models, renderer
      ensures Valid()
      ensures this.file == file && projectPath == DirectoryOf(file)
      ensures doc.None? ==> msgs.messages == [] && models.entries == [] && unchanged(pipe, objects, renderer)
      ensures doc.Some? ==>
                var project := Child(doc.value, "project");
                var v := ProjectVersion(env.cv, project);
                (v != 1 && v != 2 ==>
                   && pipe.passes == [] && RegistryOf(objects) == EmptyRegistry
                   && msgs.messages == [] && models.entries == [] && unchanged(renderer))
      ensures doc.Some? && ProjectVersion(env.cv, Child(doc.value, "project")) == 1 ==>
                ProjectRead(env, true, rd1, Child(doc.value, "project"), pipe, objects, msgs, models, renderer, old(renderer.itemValues))
      ensures doc.Some? && ProjectVersion(env.cv, Child(doc.value, "project")) == 2 ==>
                ProjectRead(env, false, rd2, Child(doc.value, "project"), pipe, objects, msgs, models, renderer, old(renderer.itemValues))
    {
      this.file := file;
      projectPath := DirectoryOf(file);
      msgs.Clear();
      models.Clear();
      if doc.None? {
        return;
      }
      ReadDocument(doc.value, env, rd1, rd2, pipe, objects, msgs, models, renderer);
    }
  }
}
