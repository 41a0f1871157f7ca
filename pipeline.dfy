/** The engine state the project parser fills and reads back: shader passes
    (`pipe::ShaderPass`), the pass list (`PipelineManager`), the render
    engine's per-item variable overrides and the message list. The bodies of
    `PipelineManager`, `RenderEngine` and `MessageStack` are not part of this
    model; what the parser calls on them is modelled as appending to, clearing
    and searching a list. */
module Pipeline {
  import opened Common
  import opened Variables
  import opened Items

  /** `ShaderMacro`: a preprocessor define of a pass. */
  datatype Macro = Macro(name: string, active: bool, value: string)

  /** The render targets of a pass after the reader's reset: the window
      first, then 0 in every other slot. */
  function InitialTargets(): (r: seq<Handle>)
    ensures |r| == MaxRenderTextures && r[0] == WindowTexture
    ensures forall k :: 1 <= k < |r| ==> r[k] == NoTexture
  {
    seq(MaxRenderTextures, k => if k == 0 then WindowTexture else NoTexture)
  }

  /** The shader stages of a pass: vertex and pixel shader paths and entry
      points, and the geometry shader's with its on/off switch. */
  datatype ShaderSet = ShaderSet(vsPath: string, vsEntry: string, psPath: string, psEntry: string,
                                 gsPath: string, gsEntry: string, gsUsed: bool)

  /** One `shader` element: `vs` and `ps` set that stage's path and entry,
      `gs` also sets the geometry-shader switch, any other stage sets
      nothing. */
  function SetStage(s: ShaderSet, stage: string, path: string, entry: string, used: bool): ShaderSet
  {
    if stage == "vs" then s.(vsPath := path, vsEntry := entry)
    else if stage == "ps" then s.(psPath := path, psEntry := entry)
    else if stage == "gs" then s.(gsPath := path, gsEntry := entry, gsUsed := used)
    else s
  }

  /** Everything a pass holds except its render-target buffer. */
  datatype PassState = PassState(name: string, rtCount: nat, shaders: ShaderSet,
                                 variables: seq<ShaderVariable>, macros: seq<Macro>, items: seq<PipelineItem>)

  /** The stages of a new pass. The constructor is in a header that is not
      part of this model: empty strings and a switched-off geometry shader
      stand for what it leaves. */
  const NoShaders: ShaderSet := ShaderSet("", "", "", "", "", "", false)

  /** `pipe::ShaderPass`, with the name its pipeline item carries. */
  class ShaderPass {
    var name: string
    const renderTextures: array<Handle>
    var rtCount: nat
    var vsPath: string
    var vsEntry: string
    var psPath: string
    var psEntry: string
    var gsPath: string
    var gsEntry: string
    var gsUsed: bool
    var variables: seq<ShaderVariable>
    var macros: seq<Macro>
    var items: seq<PipelineItem>

    /** The render-target buffer has its fixed size. */
    predicate Valid()
    {
      renderTextures.Length == MaxRenderTextures
    }

    function Shaders(): ShaderSet
      reads this
    {
      ShaderSet(vsPath, vsEntry, psPath, psEntry, gsPath, gsEntry, gsUsed)
    }

    function State(): PassState
      reads this
    {
      PassState(name, rtCount, Shaders(), variables, macros, items)
    }

    /** `new pipe::ShaderPass()` named `name`, with one render target and
        nothing else. */
    constructor (name: string)
      ensures Valid() && fresh(renderTextures)
      ensures State() == PassState(name, 1, NoShaders, [], [], [])
    {
      this.name := name;
      renderTextures := new Handle[MaxRenderTextures](_ => NoTexture);
      rtCount := 1;
      vsPath, vsEntry, psPath, psEntry, gsPath, gsEntry := "", "", "", "", "", "";
      gsUsed := false;
      variables, macros, items := [], [], [];
    }

    /** The reader's loop that puts the window in slot 0 and 0 in the rest. */
    method ResetTargets()
      requires Valid()
      modifies renderTextures
      ensures renderTextures[..] == InitialTargets()
    {
      renderTextures[0] := WindowTexture;
      var i := 1;
      while i < renderTextures.Length
        invariant 1 <= i <= renderTextures.Length
        invariant renderTextures[0] == WindowTexture
        invariant forall k :: 1 <= k < i ==> renderTextures[k] == NoTexture
      {
        renderTextures[i] := NoTexture;
        i := i + 1;
      }
      assert renderTextures[..] == InitialTargets();
    }

    /** The loop that stores the resolved targets from slot 0 on; the slots
        after them keep what they held. */
    method SetTargets(handles: seq<Handle>)
      requires Valid() && |handles| <= MaxRenderTextures
      modifies renderTextures
      ensures renderTextures[..] == handles + old(renderTextures[..])[|handles|..]
    {
      var index := 0;
      while index < |handles|
        invariant 0 <= index <= |handles|
        invariant forall k :: 0 <= k < index ==> renderTextures[k] == handles[k]
        invariant forall k :: index <= k < renderTextures.Length ==> renderTextures[k] == old(renderTextures[k])
      {
        renderTextures[index] := handles[index];
        index := index + 1;
      }
      assert renderTextures[..] == handles + old(renderTextures[..])[|handles|..];
    }

    /** `RTCount = n`. */
    method SetTargetCount(n: nat)
      modifies this
      ensures State() == old(State()).(rtCount := n)
    {
      rtCount := n;
    }

    /** The `strcpy`s into the path and entry fields of one stage. */
    method SetShader(stage: string, path: string, entry: string, used: bool)
      modifies this
      ensures State() == old(State()).(shaders := SetStage(old(Shaders()), stage, path, entry, used))
    {
      if stage == "vs" {
        vsPath, vsEntry := path, entry;
      } else if stage == "ps" {
        psPath, psEntry := path, entry;
      } else if stage == "gs" {
        gsUsed := used;
        gsPath, gsEntry := path, entry;
      }
    }

    /** `Variables.Add`: appends. */
    method AddVariable(v: ShaderVariable)
      modifies this
      ensures State() == old(State()).(variables := old(variables) + [v])
    {
      variables := variables + [v];
    }

    /** `Macros.push_back`. */
    method AddMacro(m: Macro)
      modifies this
      ensures State() == old(State()).(macros := old(macros) + [m])
    {
      macros := macros + [m];
    }

    /** `PipelineManager::AddItem` on this pass: appends. */
    method AddItem(item: PipelineItem)
      modifies this
      ensures State() == old(State()).(items := old(items) + [item])
    {
      items := items + [item];
    }
  }

  /** The first variable of a list with that name (`strcmp` search with
      `break`). */
  function FindVariable(vars: seq<ShaderVariable>, name: string): (r: Option<nat>)
    ensures r.Some? ==> r.value < |vars| && vars[r.value].name == name
    ensures r.Some? ==> forall j :: 0 <= j < r.value ==> vars[j].name != name
    ensures r.None? ==> forall j :: 0 <= j < |vars| ==> vars[j].name != name
    decreases |vars|
  {
    if vars == [] then None
    else if vars[0].name == name then Some(0)
    else match FindVariable(vars[1..], name)
      case None => None
      case Some(k) => Some(k + 1)
  }

  /** The first item of a list with that name. */
  function FindItem(items: seq<PipelineItem>, name: string): (r: Option<nat>)
    ensures r.Some? ==> r.value < |items| && items[r.value].name == name
    ensures r.Some? ==> forall j :: 0 <= j < r.value ==> items[j].name != name
    ensures r.None? ==> forall j :: 0 <= j < |items| ==> items[j].name != name
    decreases |items|
  {
    if items == [] then None
    else if items[0].name == name then Some(0)
    else match FindItem(items[1..], name)
      case None => None
      case Some(k) => Some(k + 1)
  }

  /** The first pass of a list with that name: the searches over
      `m_pipe->GetList()` by `strcmp(pass->Name, name)`. */
  function FindPass(passes: seq<ShaderPass>, name: string): (r: Option<nat>)
    reads passes
    ensures r.Some? ==> r.value < |passes| && passes[r.value].name == name
    ensures r.Some? ==> forall j :: 0 <= j < r.value ==> passes[j].name != name
    ensures r.None? ==> forall j :: 0 <= j < |passes| ==> passes[j].name != name
    decreases |passes|
  {
    if passes == [] then None
    else if passes[0].name == name then Some(0)
    else match FindPass(passes[1..], name)
      case None => None
      case Some(k) => Some(k + 1)
  }

  /** `PipelineManager`: the shader passes in order. */
  class PipelineManager {
    var passes: seq<ShaderPass>

    /** Passes are distinct and own distinct render-target buffers of the
        fixed size. */
    ghost predicate Valid()
      reads this
    {
      && (forall i, j :: 0 <= i < j < |passes| ==> passes[i].renderTextures != passes[j].renderTextures)
      && (forall i :: 0 <= i < |passes| ==> passes[i].Valid())
    }

    constructor ()
      ensures passes == [] && Valid()
    {
      passes := [];
    }

    method Clear()
      modifies this
      ensures passes == [] && Valid()
    {
      passes := [];
    }

    /** `AddPass(name, data)`: appends the pass. */
    method AddPass(p: ShaderPass)
      requires Valid() && p.Valid()
      requires forall q :: q in passes ==> q.renderTextures != p.renderTextures
      modifies this
      ensures passes == old(passes) + [p] && Valid()
    {
      passes := passes + [p];
    }
  }

  /** `RenderEngine::ItemVariableValue`: a variable of a pass overridden for
      one item (`None` when no item has the name), and the value it takes.
      The source keeps a pointer to the item, which lives in exactly one
      pass; the item is modelled by its value together with `pass`, the pass
      whose items hold it, so that equal items of two passes stay apart. */
  datatype ItemValue = ItemValue(variable: ShaderVariable, item: Option<PipelineItem>, pass: ShaderPass, newValue: ShaderVariable)

  /** The part of `RenderEngine` the parser uses. */
  class RenderEngine {
    var itemValues: seq<ItemValue>

    constructor ()
      ensures itemValues == []
    {
      itemValues := [];
    }

    /** `AddItemVariableValue`: appends. */
    method AddItemValue(iv: ItemValue)
      modifies this
      ensures itemValues == old(itemValues) + [iv]
    {
      itemValues := itemValues + [iv];
    }
  }

  datatype MessageKind = Error | Warning | Message

  /** One entry of `MessageStack`: its kind, the pass it is about, its text. */
  datatype Diagnostic = Diagnostic(kind: MessageKind, group: string, text: string)

  class MessageStack {
    var messages: seq<Diagnostic>

    constructor ()
      ensures messages == []
    {
      messages := [];
    }

    method Clear()
      modifies this
      ensures messages == []
    {
      messages := [];
    }

    method Add(kind: MessageKind, group: string, text: string)
      modifies this
      ensures messages == old(messages) + [Diagnostic(kind, group, text)]
    {
      messages := messages + [Diagnostic(kind, group, text)];
    }
  }
}
