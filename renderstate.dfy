/** The render-state pipeline item (`pipe::RenderState`): how ProjectParser.cpp
    reads a version 2 `renderstate` item and the three partial version 1
    kinds (`blend`, `depthstencil`, `rasterizer`), and how `SaveAs` writes a
    render state back. Each field is read from the character data of a
    child element, one child per field, in any order; a later child with the
    same tag overrides an earlier one. */
module RenderStates {
  import opened Common
  import opened Document
  import opened Names

  /** Rasterizer fields of `pipe::RenderState`. */
  datatype Raster = Raster(polygonMode: GLenum, cullFace: bool, cullFaceType: GLenum, frontFace: GLenum)

  /** Blend fields of `pipe::RenderState`. */
  datatype Blend = Blend(
    enabled: bool, alphaToCoverage: bool,
    sourceRgb: GLenum, destinationRgb: GLenum, functionColor: GLenum,
    sourceAlpha: GLenum, destinationAlpha: GLenum, functionAlpha: GLenum,
    factor: Color)

  /** Depth fields of `pipe::RenderState`. */
  datatype Depth = Depth(enabled: bool, clamp: bool, mask: bool, compare: GLenum, bias: Scalar)

  /** Stencil fields of `pipe::RenderState`. */
  datatype Stencil = Stencil(
    enabled: bool, mask: nat, reference: nat,
    frontCompare: GLenum, backCompare: GLenum,
    frontPass: GLenum, backPass: GLenum,
    frontStencilFail: GLenum, backStencilFail: GLenum,
    frontDepthFail: GLenum, backDepthFail: GLenum)

  /** `pipe::RenderState`: the fixed-function state a render-state item sets,
      grouped as the writer groups it. */
  datatype RenderState = RenderState(raster: Raster, blend: Blend, depth: Depth, stencil: Stencil)

  /** The state `new pipe::RenderState` starts from. Its constructor is in a
      header that is not part of this model; the values here are the ones the
      writer treats as defaults (fill, culling on, back face, counter-clockwise
      front, and blending, depth test and stencil test off), plus fixed values
      for the fields the writer never omits on their own. */
  const DefaultRenderState: RenderState := RenderState(
    Raster(GL_FILL, true, GL_BACK, GL_CCW),
    Blend(false, false, GL_ONE, GL_ZERO, GL_FUNC_ADD, GL_ONE, GL_ZERO, GL_FUNC_ADD, ColorZero),
    Depth(false, false, true, GL_LESS, Zero),
    Stencil(false, 0xFF, 0, GL_ALWAYS, GL_ALWAYS, GL_KEEP, GL_KEEP, GL_KEEP, GL_KEEP, GL_KEEP, GL_KEEP))

  /** The child tags a version 2 `renderstate` item understands. */
  datatype StateField =
    | Wireframe | Cull | CullFront | Ccw
    | BlendOn | ColorSrcFactor | ColorFunc | ColorDstFactor | AlphaSrcFactor | AlphaFunc | AlphaDstFactor
    | AlphaToCoverage | BlendFactorR | BlendFactorG | BlendFactorB | BlendFactorA
    | DepthTest | DepthFunc | DepthBias | DepthClamp | DepthMask
    | StencilTest | StencilMask | StencilRef | StencilFrontFunc | StencilFrontPass | StencilFrontFail
    | StencilBackFunc | StencilBackPass | StencilBackFail | DepthFrontFail | DepthBackFail

  /** The `strcmp` chain over the child's tag, in the reader's order. */
  function StateFieldOf(tag: string): Option<StateField>
  {
    if tag == "wireframe" then Some(Wireframe)
    else if tag == "cull" then Some(Cull)
    else if tag == "cullfront" then Some(CullFront)
    else if tag == "ccw" then Some(Ccw)
    else if tag == "blend" then Some(BlendOn)
    else if tag == "colorsrcfactor" then Some(ColorSrcFactor)
    else if tag == "colorfunc" then Some(ColorFunc)
    else if tag == "colordstfactor" then Some(ColorDstFactor)
    else if tag == "alphasrcfactor" then Some(AlphaSrcFactor)
    else if tag == "alphafunc" then Some(AlphaFunc)
    else if tag == "alphadstfactor" then Some(AlphaDstFactor)
    else if tag == "alpha2coverage" then Some(AlphaToCoverage)
    else if tag == "blendfactor_r" then Some(BlendFactorR)
    else if tag == "blendfactor_g" then Some(BlendFactorG)
    else if tag == "blendfactor_b" then Some(BlendFactorB)
    else if tag == "blendfactor_a" then Some(BlendFactorA)
    else if tag == "depthtest" then Some(DepthTest)
    else if tag == "depthfunc" then Some(DepthFunc)
    else if tag == "depthbias" then Some(DepthBias)
    else if tag == "depthclamp" then Some(DepthClamp)
    else if tag == "depthmask" then Some(DepthMask)
    else if tag == "stenciltest" then Some(StencilTest)
    else if tag == "stencilmask" then Some(StencilMask)
    else if tag == "stencilref" then Some(StencilRef)
    else if tag == "stencilfrontfunc" then Some(StencilFrontFunc)
    else if tag == "stencilfrontpass" then Some(StencilFrontPass)
    else if tag == "stencilfrontfail" then Some(StencilFrontFail)
    else if tag == "stencilbackfunc" then Some(StencilBackFunc)
    else if tag == "stencilbackpass" then Some(StencilBackPass)
    else if tag == "stencilbackfail" then Some(StencilBackFail)
    else if tag == "depthfrontfail" then Some(DepthFrontFail)
    else if tag == "depthbackfail" then Some(DepthBackFail)
    else None
  }

  /** What each tag of a `renderstate` item sets, from the child's text. */
  function SetStateField(cv: Conv, tables: Tables, s: RenderState, f: StateField, t: string): RenderState
  {
    var r := s.raster;
    var b := s.blend;
    var d := s.depth;
    var st := s.stencil;
    var on := cv.asBool(t);
    var factor := ToBlend(tables, t);
    var op := ToBlendOp(tables, t);
    var compare := ToComparisonFunc(tables, t);
    var stencilOp := ToStencilOp(tables, t);
    var x := cv.uintAsFloat(t);
    match f
    case Wireframe => s.(raster := r.(polygonMode := if on then GL_LINE else GL_FILL))
    case Cull => s.(raster := r.(cullFace := on))
    case CullFront => s.(raster := r.(cullFaceType := if on then GL_FRONT else GL_BACK))
    case Ccw => s.(raster := r.(frontFace := if on then GL_CCW else GL_CW))
    case BlendOn => s.(blend := b.(enabled := on))
    case ColorSrcFactor => s.(blend := b.(sourceRgb := factor))
    case ColorFunc => s.(blend := b.(functionColor := op))
    case ColorDstFactor => s.(blend := b.(destinationRgb := factor))
    case AlphaSrcFactor => s.(blend := b.(sourceAlpha := factor))
    case AlphaFunc => s.(blend := b.(functionAlpha := op))
    case AlphaDstFactor => s.(blend := b.(destinationAlpha := factor))
    case AlphaToCoverage => s.(blend := b.(alphaToCoverage := on))
    case BlendFactorR => s.(blend := b.(factor := b.factor.(r := x)))
    case BlendFactorG => s.(blend := b.(factor := b.factor.(g := x)))
    case BlendFactorB => s.(blend := b.(factor := b.factor.(b := x)))
    case BlendFactorA => s.(blend := b.(factor := b.factor.(a := x)))
    case DepthTest => s.(depth := d.(enabled := on))
    case DepthFunc => s.(depth := d.(compare := compare))
    case DepthBias => s.(depth := d.(bias := cv.asFloat(t)))
    case DepthClamp => s.(depth := d.(clamp := on))
    case DepthMask => s.(depth := d.(mask := on))
    case StencilTest => s.(stencil := st.(enabled := on))
    case StencilMask => s.(stencil := st.(mask := cv.asUint(t)))
    case StencilRef => s.(stencil := st.(reference := cv.asUint(t)))
    case StencilFrontFunc => s.(stencil := st.(frontCompare := compare))
    case StencilFrontPass => s.(stencil := st.(frontPass := stencilOp))
    case StencilFrontFail => s.(stencil := st.(frontStencilFail := stencilOp))
    case StencilBackFunc => s.(stencil := st.(backCompare := compare))
    case StencilBackPass => s.(stencil := st.(backPass := stencilOp))
    case StencilBackFail => s.(stencil := st.(backStencilFail := stencilOp))
    case DepthFrontFail => s.(stencil := st.(frontDepthFail := stencilOp))
    case DepthBackFail => s.(stencil := st.(backDepthFail := stencilOp))
  }

  /** One child of a version 2 `renderstate` item; unknown tags are skipped. */
  function RenderStateStep(cv: Conv, tables: Tables, s: RenderState, n: Node): RenderState
  {
    match StateFieldOf(n.tag)
    case None => s
    case Some(f) => SetStateField(cv, tables, s, f, n.text)
  }

  function RenderStateStepper(cv: Conv, tables: Tables): (RenderState, Node) -> RenderState
  {
    (s, n) => RenderStateStep(cv, tables, s, n)
  }

  /** A version 2 `renderstate` item. */
  function ReadRenderState(cv: Conv, tables: Tables, item: Node): RenderState
  {
    Fold(DefaultRenderState, item.children, RenderStateStepper(cv, tables))
  }

  /** The rasterizer children the writer emits: only the fields that differ
      from fill, culling on, back face and counter-clockwise front. */
  function RasterEntries(cv: Conv, r: Raster): seq<Entry>
  {
    [ Entry(r.polygonMode != GL_FILL, "wireframe", cv.boolText(r.polygonMode == GL_LINE)),
      Entry(!r.cullFace, "cull", cv.boolText(r.cullFace)),
      Entry(r.cullFaceType != GL_BACK, "cullfront", cv.boolText(true)),
      Entry(r.frontFace != GL_CCW, "ccw", cv.boolText(false)) ]
  }

  /** The blend children: none unless blending is on. */
  function BlendEntries(cv: Conv, tables: Tables, b: Blend): seq<Entry>
  {
    BlendColorEntries(cv, tables, b) + BlendAlphaEntries(tables, b) + BlendFactorEntries(cv, b)
  }

  function BlendColorEntries(cv: Conv, tables: Tables, b: Blend): seq<Entry>
  {
    var on := b.enabled;
    [ Entry(on, "blend", cv.boolText(true)),
      Entry(on && b.alphaToCoverage, "alpha2coverage", cv.boolText(true)),
      Entry(on, "colorsrcfactor", NameOf(tables.blend, b.sourceRgb)),
      Entry(on, "colordstfactor", NameOf(tables.blend, b.destinationRgb)),
      Entry(on, "colorfunc", NameOf(tables.blendOperator, b.functionColor)) ]
  }

  function BlendAlphaEntries(tables: Tables, b: Blend): seq<Entry>
  {
    var on := b.enabled;
    [ Entry(on, "alphasrcfactor", NameOf(tables.blend, b.sourceAlpha)),
      Entry(on, "alphadstfactor", NameOf(tables.blend, b.destinationAlpha)),
      Entry(on, "alphafunc", NameOf(tables.blendOperator, b.functionAlpha)) ]
  }

  function BlendFactorEntries(cv: Conv, b: Blend): seq<Entry>
  {
    var on := b.enabled;
    [ Entry(on, "blendfactor_r", cv.floatText(b.factor.r)),
      Entry(on, "blendfactor_g", cv.floatText(b.factor.g)),
      Entry(on, "blendfactor_b", cv.floatText(b.factor.b)),
      Entry(on, "blendfactor_a", cv.floatText(b.factor.a)) ]
  }

  /** The depth children: none unless the depth test is on. */
  function DepthEntries(cv: Conv, tables: Tables, d: Depth): seq<Entry>
  {
    var on := d.enabled;
    [ Entry(on, "depthtest", cv.boolText(true)),
      Entry(on, "depthclamp", cv.boolText(d.clamp)),
      Entry(on, "depthmask", cv.boolText(d.mask)),
      Entry(on, "depthfunc", NameOf(tables.comparisonFunction, d.compare)),
      Entry(on, "depthbias", cv.floatText(d.bias)) ]
  }

  /** The stencil children: none unless the stencil test is on. */
  function StencilEntries(cv: Conv, tables: Tables, s: Stencil): seq<Entry>
  {
    StencilTestEntries(cv, s) + StencilFuncEntries(tables, s) + StencilFailEntries(tables, s)
  }

  function StencilTestEntries(cv: Conv, s: Stencil): seq<Entry>
  {
    var on := s.enabled;
    [ Entry(on, "stenciltest", cv.boolText(true)),
      Entry(on, "stencilmask", cv.intText(s.mask)),
      Entry(on, "stencilref", cv.intText(s.reference)) ]
  }

  function StencilFuncEntries(tables: Tables, s: Stencil): seq<Entry>
  {
    var on := s.enabled;
    [ Entry(on, "stencilfrontfunc", NameOf(tables.comparisonFunction, s.frontCompare)),
      Entry(on, "stencilbackfunc", NameOf(tables.comparisonFunction, s.backCompare)),
      Entry(on, "stencilfrontpass", NameOf(tables.stencilOperation, s.frontPass)),
      Entry(on, "stencilbackpass", NameOf(tables.stencilOperation, s.backPass)) ]
  }

  function StencilFailEntries(tables: Tables, s: Stencil): seq<Entry>
  {
    var on := s.enabled;
    [ Entry(on, "stencilfrontfail", NameOf(tables.stencilOperation, s.frontStencilFail)),
      Entry(on, "stencilbackfail", NameOf(tables.stencilOperation, s.backStencilFail)),
      Entry(on, "depthfrontfail", NameOf(tables.stencilOperation, s.frontDepthFail)),
      Entry(on, "depthbackfail", NameOf(tables.stencilOperation, s.backDepthFail)) ]
  }

  /** The children of a `renderstate` item as `SaveAs` writes them. */
  function RenderStateEntries(cv: Conv, tables: Tables, s: RenderState): seq<Entry>
  {
    RasterEntries(cv, s.raster) + BlendEntries(cv, tables, s.blend) + DepthEntries(cv, tables, s.depth) + StencilEntries(cv, tables, s.stencil)
  }

  function RenderStateNodes(cv: Conv, tables: Tables, s: RenderState): seq<Node>
  {
    Emit(RenderStateEntries(cv, tables, s))
  }

  // What a written render state reads back as.

  function ReloadedRaster(r: Raster): Raster
  {
    Raster(if r.polygonMode == GL_LINE then GL_LINE else GL_FILL, r.cullFace,
           if r.cullFaceType == GL_BACK then GL_BACK else GL_FRONT,
           if r.frontFace == GL_CCW then GL_CCW else GL_CW)
  }

  function ReloadedBlend(cv: Conv, tables: Tables, b: Blend): Blend
  {
    if !b.enabled then DefaultRenderState.blend
    else Blend(true, b.alphaToCoverage,
               ToBlend(tables, NameOf(tables.blend, b.sourceRgb)),
               ToBlend(tables, NameOf(tables.blend, b.destinationRgb)),
               ToBlendOp(tables, NameOf(tables.blendOperator, b.functionColor)),
               ToBlend(tables, NameOf(tables.blend, b.sourceAlpha)),
               ToBlend(tables, NameOf(tables.blend, b.destinationAlpha)),
               ToBlendOp(tables, NameOf(tables.blendOperator, b.functionAlpha)),
               Color(cv.uintAsFloat(cv.floatText(b.factor.r)), cv.uintAsFloat(cv.floatText(b.factor.g)),
                     cv.uintAsFloat(cv.floatText(b.factor.b)), cv.uintAsFloat(cv.floatText(b.factor.a))))
  }

  function ReloadedDepth(tables: Tables, d: Depth): Depth
  {
    if !d.enabled then DefaultRenderState.depth
    else Depth(true, d.clamp, d.mask, ToComparisonFunc(tables, NameOf(tables.comparisonFunction, d.compare)), d.bias)
  }

  function ReloadedStencil(tables: Tables, s: Stencil): Stencil
  {
    if !s.enabled then DefaultRenderState.stencil
    else Stencil(true, s.mask, s.reference,
                 ToComparisonFunc(tables, NameOf(tables.comparisonFunction, s.frontCompare)),
                 ToComparisonFunc(tables, NameOf(tables.comparisonFunction, s.backCompare)),
                 ToStencilOp(tables, NameOf(tables.stencilOperation, s.frontPass)),
                 ToStencilOp(tables, NameOf(tables.stencilOperation, s.backPass)),
                 ToStencilOp(tables, NameOf(tables.stencilOperation, s.frontStencilFail)),
                 ToStencilOp(tables, NameOf(tables.stencilOperation, s.backStencilFail)),
                 ToStencilOp(tables, NameOf(tables.stencilOperation, s.frontDepthFail)),
                 ToStencilOp(tables, NameOf(tables.stencilOperation, s.backDepthFail)))
  }

  lemma ReadWireframe(cv: Conv, tables: Tables, s: RenderState, x: string)
    ensures RenderStateStep(cv, tables, s, TextNode("wireframe", x)) == s.(raster := s.raster.(polygonMode := if cv.asBool(x) then GL_LINE else GL_FILL))
  {
  }

  lemma ReadCull(cv: Conv, tables: Tables, s: RenderState, x: string)
    ensures RenderStateStep(cv, tables, s, TextNode("cull", x)) == s.(raster := s.raster.(cullFace := cv.asBool(x)))
  {
  }

  lemma ReadCullFront(cv: Conv, tables: Tables, s: RenderState, x: string)
    ensures RenderStateStep(cv, tables, s, TextNode("cullfront", x)) == s.(raster := s.raster.(cullFaceType := if cv.asBool(x) then GL_FRONT else GL_BACK))
  {
  }

  lemma ReadCcw(cv: Conv, tables: Tables, s: RenderState, x: string)
    ensures RenderStateStep(cv, tables, s, TextNode("ccw", x)) == s.(raster := s.raster.(frontFace := if cv.asBool(x) then GL_CCW else GL_CW))
  {
  }

  lemma ReadBlend(cv: Conv, tables: Tables, s: RenderState, x: string)
    ensures RenderStateStep(cv, tables, s, TextNode("blend", x)) == s.(blend := s.blend.(enabled := cv.asBool(x)))
  {
  }

  lemma ReadAlphaToCoverage(cv: Conv, tables: Tables, s: RenderState, x: string)
    ensures RenderStateStep(cv, tables, s, TextNode("alpha2coverage", x)) == s.(blend := s.blend.(alphaToCoverage := cv.asBool(x)))
  {
  }

  lemma ReadColorSrcFactor(cv: Conv, tables: Tables, s: RenderState, x: string)
    ensures RenderStateStep(cv, tables, s, TextNode("colorsrcfactor", x)) == s.(blend := s.blend.(sourceRgb := ToBlend(tables, x)))
  {
  }

  lemma ReadColorDstFactor(cv: Conv, tables: Tables, s: RenderState, x: string)
    ensures RenderStateStep(cv, tables, s, TextNode("colordstfactor", x)) == s.(blend := s.blend.(destinationRgb := ToBlend(tables, x)))
  {
  }

  lemma ReadColorFunc(cv: Conv, tables: Tables, s: RenderState, x: string)
    ensures RenderStateStep(cv, tables, s, TextNode("colorfunc", x)) == s.(blend := s.blend.(functionColor := ToBlendOp(tables, x)))
  {
  }

  lemma ReadAlphaSrcFactor(cv: Conv, tables: Tables, s: RenderState, x: string)
    ensures RenderStateStep(cv, tables, s, TextNode("alphasrcfactor", x)) == s.(blend := s.blend.(sourceAlpha := ToBlend(tables, x)))
  {
  }

  lemma ReadAlphaDstFactor(cv: Conv, tables: Tables, s: RenderState, x: string)
    ensures RenderStateStep(cv, tables, s, TextNode("alphadstfactor", x)) == s.(blend := s.blend.(destinationAlpha := ToBlend(tables, x)))
  {
  }

  lemma ReadAlphaFunc(cv: Conv, tables: Tables, s: RenderState, x: string)
    ensures RenderStateStep(cv, tables, s, TextNode("alphafunc", x)) == s.(blend := s.blend.(functionAlpha := ToBlendOp(tables, x)))
  {
  }

  lemma ReadBlendFactorR(cv: Conv, tables: Tables, s: RenderState, x: string)
    ensures RenderStateStep(cv, tables, s, TextNode("blendfactor_r", x)) == s.(blend := s.blend.(factor := s.blend.factor.(r := cv.uintAsFloat(x))))
  {
  }

  lemma ReadBlendFactorG(cv: Conv, tables: Tables, s: RenderState, x: string)
    ensures RenderStateStep(cv, tables, s, TextNode("blendfactor_g", x)) == s.(blend := s.blend.(factor := s.blend.factor.(g := cv.uintAsFloat(x))))
  {
  }

  lemma ReadBlendFactorB(cv: Conv, tables: Tables, s: RenderState, x: string)
    ensures RenderStateStep(cv, tables, s, TextNode("blendfactor_b", x)) == s.(blend := s.blend.(factor := s.blend.factor.(b := cv.uintAsFloat(x))))
  {
  }

  lemma ReadBlendFactorA(cv: Conv, tables: Tables, s: RenderState, x: string)
    ensures RenderStateStep(cv, tables, s, TextNode("blendfactor_a", x)) == s.(blend := s.blend.(factor := s.blend.factor.(a := cv.uintAsFloat(x))))
  {
  }

  lemma ReadDepthTest(cv: Conv, tables: Tables, s: RenderState, x: string)
    ensures RenderStateStep(cv, tables, s, TextNode("depthtest", x)) == s.(depth := s.depth.(enabled := cv.asBool(x)))
  {
  }

  lemma ReadDepthClamp(cv: Conv, tables: Tables, s: RenderState, x: string)
    ensures RenderStateStep(cv, tables, s, TextNode("depthclamp", x)) == s.(depth := s.depth.(clamp := cv.asBool(x)))
  {
  }

  lemma ReadDepthMask(cv: Conv, tables: Tables, s: RenderState, x: string)
    ensures RenderStateStep(cv, tables, s, TextNode("depthmask", x)) == s.(depth := s.depth.(mask := cv.asBool(x)))
  {
  }

  lemma ReadDepthFunc(cv: Conv, tables: Tables, s: RenderState, x: string)
    ensures RenderStateStep(cv, tables, s, TextNode("depthfunc", x)) == s.(depth := s.depth.(compare := ToComparisonFunc(tables, x)))
  {
  }

  lemma ReadDepthBias(cv: Conv, tables: Tables, s: RenderState, x: string)
    ensures RenderStateStep(cv, tables, s, TextNode("depthbias", x)) == s.(depth := s.depth.(bias := cv.asFloat(x)))
  {
  }

  lemma ReadStencilTest(cv: Conv, tables: Tables, s: RenderState, x: string)
    ensures RenderStateStep(cv, tables, s, TextNode("stenciltest", x)) == s.(stencil := s.stencil.(enabled := cv.asBool(x)))
  {
  }

  lemma ReadStencilMask(cv: Conv, tables: Tables, s: RenderState, x: string)
    ensures RenderStateStep(cv, tables, s, TextNode("stencilmask", x)) == s.(stencil := s.stencil.(mask := cv.asUint(x)))
  {
  }

  lemma ReadStencilRef(cv: Conv, tables: Tables, s: RenderState, x: string)
    ensures RenderStateStep(cv, tables, s, TextNode("stencilref", x)) == s.(stencil := s.stencil.(reference := cv.asUint(x)))
  {
  }

  lemma ReadStencilFrontFunc(cv: Conv, tables: Tables, s: RenderState, x: string)
    ensures RenderStateStep(cv, tables, s, TextNode("stencilfrontfunc", x)) == s.(stencil := s.stencil.(frontCompare := ToComparisonFunc(tables, x)))
  {
  }

  lemma ReadStencilBackFunc(cv: Conv, tables: Tables, s: RenderState, x: string)
    ensures RenderStateStep(cv, tables, s, TextNode("stencilbackfunc", x)) == s.(stencil := s.stencil.(backCompare := ToComparisonFunc(tables, x)))
  {
  }

  lemma ReadStencilFrontPass(cv: Conv, tables: Tables, s: RenderState, x: string)
    ensures RenderStateStep(cv, tables, s, TextNode("stencilfrontpass", x)) == s.(stencil := s.stencil.(frontPass := ToStencilOp(tables, x)))
  {
  }

  lemma ReadStencilBackPass(cv: Conv, tables: Tables, s: RenderState, x: string)
    ensures RenderStateStep(cv, tables, s, TextNode("stencilbackpass", x)) == s.(stencil := s.stencil.(backPass := ToStencilOp(tables, x)))
  {
  }

  lemma ReadStencilFrontFail(cv: Conv, tables: Tables, s: RenderState, x: string)
    ensures RenderStateStep(cv, tables, s, TextNode("stencilfrontfail", x)) == s.(stencil := s.stencil.(frontStencilFail := ToStencilOp(tables, x)))
  {
  }

  lemma ReadStencilBackFail(cv: Conv, tables: Tables, s: RenderState, x: string)
    ensures RenderStateStep(cv, tables, s, TextNode("stencilbackfail", x)) == s.(stencil := s.stencil.(backStencilFail := ToStencilOp(tables, x)))
  {
  }

  lemma ReadDepthFrontFail(cv: Conv, tables: Tables, s: RenderState, x: string)
    ensures RenderStateStep(cv, tables, s, TextNode("depthfrontfail", x)) == s.(stencil := s.stencil.(frontDepthFail := ToStencilOp(tables, x)))
  {
  }

  lemma ReadDepthBackFail(cv: Conv, tables: Tables, s: RenderState, x: string)
    ensures RenderStateStep(cv, tables, s, TextNode("depthbackfail", x)) == s.(stencil := s.stencil.(backDepthFail := ToStencilOp(tables, x)))
  {
  }

  /** Reading back the rasterizer children from a fresh state. */
  lemma RasterReload(cv: Conv, tables: Tables, t: RenderState, r: Raster)
    requires Coherent(cv)
    requires t.raster == DefaultRenderState.raster
    ensures Replay(t, RasterEntries(cv, r), RenderStateStepper(cv, tables)) ==
            t.(raster := ReloadedRaster(r))
  {
    var st := RenderStateStepper(cv, tables);
    var es := RasterEntries(cv, r);
    var u0 := t;
    ReadWireframe(cv, tables, u0, es[0].text);
    var u1 := Do(u0, es[0], st);
    ReadCull(cv, tables, u1, es[1].text);
    var u2 := Do(u1, es[1], st);
    ReadCullFront(cv, tables, u2, es[2].text);
    var u3 := Do(u2, es[2], st);
    ReadCcw(cv, tables, u3, es[3].text);
    var u4 := Do(u3, es[3], st);
    Replay4(t, es[0], es[1], es[2], es[3], st);
    assert es == [es[0], es[1], es[2], es[3]];
  }

  /** Reading back the blend switch and the color equation. */
  lemma BlendColorReload(cv: Conv, tables: Tables, t: RenderState, b: Blend)
    requires Coherent(cv)
    requires t.blend == DefaultRenderState.blend
    ensures Replay(t, BlendColorEntries(cv, tables, b), RenderStateStepper(cv, tables)) ==
            if !b.enabled then t
            else t.(blend := t.blend.(enabled := true, alphaToCoverage := b.alphaToCoverage,
                                      sourceRgb := ToBlend(tables, NameOf(tables.blend, b.sourceRgb)),
                                      destinationRgb := ToBlend(tables, NameOf(tables.blend, b.destinationRgb)),
                                      functionColor := ToBlendOp(tables, NameOf(tables.blendOperator, b.functionColor))))
  {
    var st := RenderStateStepper(cv, tables);
    var es := BlendColorEntries(cv, tables, b);
    var u0 := t;
    ReadBlend(cv, tables, u0, es[0].text);
    var u1 := Do(u0, es[0], st);
    ReadAlphaToCoverage(cv, tables, u1, es[1].text);
    var u2 := Do(u1, es[1], st);
    ReadColorSrcFactor(cv, tables, u2, es[2].text);
    var u3 := Do(u2, es[2], st);
    ReadColorDstFactor(cv, tables, u3, es[3].text);
    var u4 := Do(u3, es[3], st);
    ReadColorFunc(cv, tables, u4, es[4].text);
    var u5 := Do(u4, es[4], st);
    Replay5(t, es[0], es[1], es[2], es[3], es[4], st);
    assert es == [es[0], es[1], es[2], es[3], es[4]];
  }

  /** Reading back the alpha equation. */
  lemma BlendAlphaReload(cv: Conv, tables: Tables, t: RenderState, b: Blend)
    ensures Replay(t, BlendAlphaEntries(tables, b), RenderStateStepper(cv, tables)) ==
            if !b.enabled then t
            else t.(blend := t.blend.(sourceAlpha := ToBlend(tables, NameOf(tables.blend, b.sourceAlpha)),
                                      destinationAlpha := ToBlend(tables, NameOf(tables.blend, b.destinationAlpha)),
                                      functionAlpha := ToBlendOp(tables, NameOf(tables.blendOperator, b.functionAlpha))))
  {
    var st := RenderStateStepper(cv, tables);
    var es := BlendAlphaEntries(tables, b);
    var u0 := t;
    ReadAlphaSrcFactor(cv, tables, u0, es[0].text);
    var u1 := Do(u0, es[0], st);
    ReadAlphaDstFactor(cv, tables, u1, es[1].text);
    var u2 := Do(u1, es[1], st);
    ReadAlphaFunc(cv, tables, u2, es[2].text);
    var u3 := Do(u2, es[2], st);
    Replay3(t, es[0], es[1], es[2], st);
    assert es == [es[0], es[1], es[2]];
  }

  /** Reading back the blend factor. */
  lemma BlendFactorReload(cv: Conv, tables: Tables, t: RenderState, b: Blend)
    ensures Replay(t, BlendFactorEntries(cv, b), RenderStateStepper(cv, tables)) ==
            if !b.enabled then t
            else t.(blend := t.blend.(factor := Color(cv.uintAsFloat(cv.floatText(b.factor.r)), cv.uintAsFloat(cv.floatText(b.factor.g)),
                                                      cv.uintAsFloat(cv.floatText(b.factor.b)), cv.uintAsFloat(cv.floatText(b.factor.a)))))
  {
    var st := RenderStateStepper(cv, tables);
    var es := BlendFactorEntries(cv, b);
    var u0 := t;
    ReadBlendFactorR(cv, tables, u0, es[0].text);
    var u1 := Do(u0, es[0], st);
    ReadBlendFactorG(cv, tables, u1, es[1].text);
    var u2 := Do(u1, es[1], st);
    ReadBlendFactorB(cv, tables, u2, es[2].text);
    var u3 := Do(u2, es[2], st);
    ReadBlendFactorA(cv, tables, u3, es[3].text);
    var u4 := Do(u3, es[3], st);
    Replay4(t, es[0], es[1], es[2], es[3], st);
    assert es == [es[0], es[1], es[2], es[3]];
  }

  /** Reading back the depth children from a fresh state. */
  lemma DepthReload(cv: Conv, tables: Tables, t: RenderState, d: Depth)
    requires Coherent(cv)
    requires t.depth == DefaultRenderState.depth
    ensures Replay(t, DepthEntries(cv, tables, d), RenderStateStepper(cv, tables)) ==
            t.(depth := ReloadedDepth(tables, d))
  {
    var st := RenderStateStepper(cv, tables);
    var es := DepthEntries(cv, tables, d);
    var u0 := t;
    ReadDepthTest(cv, tables, u0, es[0].text);
    var u1 := Do(u0, es[0], st);
    ReadDepthClamp(cv, tables, u1, es[1].text);
    var u2 := Do(u1, es[1], st);
    ReadDepthMask(cv, tables, u2, es[2].text);
    var u3 := Do(u2, es[2], st);
    ReadDepthFunc(cv, tables, u3, es[3].text);
    var u4 := Do(u3, es[3], st);
    ReadDepthBias(cv, tables, u4, es[4].text);
    var u5 := Do(u4, es[4], st);
    Replay5(t, es[0], es[1], es[2], es[3], es[4], st);
    assert es == [es[0], es[1], es[2], es[3], es[4]];
  }

  /** Reading back the stencil switch, mask and reference. */
  lemma StencilTestReload(cv: Conv, tables: Tables, t: RenderState, s: Stencil)
    requires Coherent(cv)
    requires t.stencil == DefaultRenderState.stencil
    ensures Replay(t, StencilTestEntries(cv, s), RenderStateStepper(cv, tables)) ==
            if !s.enabled then t else t.(stencil := t.stencil.(enabled := true, mask := s.mask, reference := s.reference))
  {
    var st := RenderStateStepper(cv, tables);
    var es := StencilTestEntries(cv, s);
    var u0 := t;
    ReadStencilTest(cv, tables, u0, es[0].text);
    var u1 := Do(u0, es[0], st);
    ReadStencilMask(cv, tables, u1, es[1].text);
    var u2 := Do(u1, es[1], st);
    ReadStencilRef(cv, tables, u2, es[2].text);
    var u3 := Do(u2, es[2], st);
    Replay3(t, es[0], es[1], es[2], st);
    assert es == [es[0], es[1], es[2]];
  }

  /** Reading back the stencil compare functions and pass operations. */
  lemma StencilFuncReload(cv: Conv, tables: Tables, t: RenderState, s: Stencil)
    ensures Replay(t, StencilFuncEntries(tables, s), RenderStateStepper(cv, tables)) ==
            if !s.enabled then t
            else t.(stencil := t.stencil.(frontCompare := ToComparisonFunc(tables, NameOf(tables.comparisonFunction, s.frontCompare)),
                                          backCompare := ToComparisonFunc(tables, NameOf(tables.comparisonFunction, s.backCompare)),
                                          frontPass := ToStencilOp(tables, NameOf(tables.stencilOperation, s.frontPass)),
                                          backPass := ToStencilOp(tables, NameOf(tables.stencilOperation, s.backPass))))
  {
    var st := RenderStateStepper(cv, tables);
    var es := StencilFuncEntries(tables, s);
    var u0 := t;
    ReadStencilFrontFunc(cv, tables, u0, es[0].text);
    var u1 := Do(u0, es[0], st);
    ReadStencilBackFunc(cv, tables, u1, es[1].text);
    var u2 := Do(u1, es[1], st);
    ReadStencilFrontPass(cv, tables, u2, es[2].text);
    var u3 := Do(u2, es[2], st);
    ReadStencilBackPass(cv, tables, u3, es[3].text);
    var u4 := Do(u3, es[3], st);
    Replay4(t, es[0], es[1], es[2], es[3], st);
    assert es == [es[0], es[1], es[2], es[3]];
  }

  /** Reading back the stencil-fail and depth-fail operations. */
  lemma StencilFailReload(cv: Conv, tables: Tables, t: RenderState, s: Stencil)
    ensures Replay(t, StencilFailEntries(tables, s), RenderStateStepper(cv, tables)) ==
            if !s.enabled then t
            else t.(stencil := t.stencil.(frontStencilFail := ToStencilOp(tables, NameOf(tables.stencilOperation, s.frontStencilFail)),
                                          backStencilFail := ToStencilOp(tables, NameOf(tables.stencilOperation, s.backStencilFail)),
                                          frontDepthFail := ToStencilOp(tables, NameOf(tables.stencilOperation, s.frontDepthFail)),
                                          backDepthFail := ToStencilOp(tables, NameOf(tables.stencilOperation, s.backDepthFail))))
  {
    var st := RenderStateStepper(cv, tables);
    var es := StencilFailEntries(tables, s);
    var u0 := t;
    ReadStencilFrontFail(cv, tables, u0, es[0].text);
    var u1 := Do(u0, es[0], st);
    ReadStencilBackFail(cv, tables, u1, es[1].text);
    var u2 := Do(u1, es[1], st);
    ReadDepthFrontFail(cv, tables, u2, es[2].text);
    var u3 := Do(u2, es[2], st);
    ReadDepthBackFail(cv, tables, u3, es[3].text);
    var u4 := Do(u3, es[3], st);
    Replay4(t, es[0], es[1], es[2], es[3], st);
    assert es == [es[0], es[1], es[2], es[3]];
  }

  lemma BlendReload(cv: Conv, tables: Tables, t: RenderState, b: Blend)
    requires Coherent(cv)
    requires t.blend == DefaultRenderState.blend
    ensures Replay(t, BlendEntries(cv, tables, b), RenderStateStepper(cv, tables)) == t.(blend := ReloadedBlend(cv, tables, b))
  {
    var st := RenderStateStepper(cv, tables);
    var color := BlendColorEntries(cv, tables, b);
    var alpha := BlendAlphaEntries(tables, b);
    var factor := BlendFactorEntries(cv, b);
    ReplayAppend(t, color + alpha, factor, st);
    ReplayAppend(t, color, alpha, st);
    BlendColorReload(cv, tables, t, b);
    var u1 := Replay(t, color, st);
    BlendAlphaReload(cv, tables, u1, b);
    var u2 := Replay(u1, alpha, st);
    BlendFactorReload(cv, tables, u2, b);
  }

  lemma StencilReload(cv: Conv, tables: Tables, t: RenderState, s: Stencil)
    requires Coherent(cv)
    requires t.stencil == DefaultRenderState.stencil
    ensures Replay(t, StencilEntries(cv, tables, s), RenderStateStepper(cv, tables)) == t.(stencil := ReloadedStencil(tables, s))
  {
    var st := RenderStateStepper(cv, tables);
    var test := StencilTestEntries(cv, s);
    var funcs := StencilFuncEntries(tables, s);
    var fails := StencilFailEntries(tables, s);
    ReplayAppend(t, test + funcs, fails, st);
    ReplayAppend(t, test, funcs, st);
    StencilTestReload(cv, tables, t, s);
    var u1 := Replay(t, test, st);
    StencilFuncReload(cv, tables, u1, s);
    var u2 := Replay(u1, funcs, st);
    StencilFailReload(cv, tables, u2, s);
  }

  /** What `SaveAs` writes for a render state and the version 2 reader reads
      back: the rasterizer fields normalised to the values the reader can
      produce, each disabled group at its defaults, and every name passed
      through the writer's and the reader's tables. */
  function ReloadedRenderState(cv: Conv, tables: Tables, s: RenderState): RenderState
  {
    RenderState(ReloadedRaster(s.raster), ReloadedBlend(cv, tables, s.blend), ReloadedDepth(tables, s.depth), ReloadedStencil(tables, s.stencil))
  }

  lemma RenderStateReload(cv: Conv, tables: Tables, s: RenderState, item: Node)
    requires Coherent(cv)
    requires item.children == RenderStateNodes(cv, tables, s)
    ensures ReadRenderState(cv, tables, item) == ReloadedRenderState(cv, tables, s)
  {
    var st := RenderStateStepper(cv, tables);
    var d := DefaultRenderState;
    var r := RasterEntries(cv, s.raster);
    var b := BlendEntries(cv, tables, s.blend);
    var e := DepthEntries(cv, tables, s.depth);
    var c := StencilEntries(cv, tables, s.stencil);
    FoldEmit(d, r + b + e + c, st);
    ReplayAppend(d, r + b + e, c, st);
    ReplayAppend(d, r + b, e, st);
    ReplayAppend(d, r, b, st);
    RasterReload(cv, tables, d, s.raster);
    var u1 := Replay(d, r, st);
    BlendReload(cv, tables, u1, s.blend);
    var u2 := Replay(u1, b, st);
    DepthReload(cv, tables, u2, s.depth);
    var u3 := Replay(u2, e, st);
    StencilReload(cv, tables, u3, s.stencil);
  }

  /** A render state that survives a save and a reload unchanged: rasterizer
      fields the reader can produce, disabled groups at their defaults,
      every enumerant in its table under a name no other entry has, and
      blend factors that `as_uint` reads back as written. */
  ghost predicate Canonical(cv: Conv, tables: Tables, s: RenderState)
  {
    && (s.raster.polygonMode == GL_LINE || s.raster.polygonMode == GL_FILL)
    && (s.raster.cullFaceType == GL_BACK || s.raster.cullFaceType == GL_FRONT)
    && (s.raster.frontFace == GL_CCW || s.raster.frontFace == GL_CW)
    && (if s.blend.enabled then
          var b := s.blend;
          && NamesDistinct(tables.blend) && NamesDistinct(tables.blendOperator)
          && HasValue(tables.blend, b.sourceRgb) && HasValue(tables.blend, b.destinationRgb)
          && HasValue(tables.blend, b.sourceAlpha) && HasValue(tables.blend, b.destinationAlpha)
          && HasValue(tables.blendOperator, b.functionColor) && HasValue(tables.blendOperator, b.functionAlpha)
          && cv.uintAsFloat(cv.floatText(b.factor.r)) == b.factor.r && cv.uintAsFloat(cv.floatText(b.factor.g)) == b.factor.g
          && cv.uintAsFloat(cv.floatText(b.factor.b)) == b.factor.b && cv.uintAsFloat(cv.floatText(b.factor.a)) == b.factor.a
        else s.blend == DefaultRenderState.blend)
    && (if s.depth.enabled then
          NamesDistinct(tables.comparisonFunction) && HasValue(tables.comparisonFunction, s.depth.compare)
        else s.depth == DefaultRenderState.depth)
    && (if s.stencil.enabled then
          var t := s.stencil;
          && NamesDistinct(tables.comparisonFunction) && NamesDistinct(tables.stencilOperation)
          && HasValue(tables.comparisonFunction, t.frontCompare) && HasValue(tables.comparisonFunction, t.backCompare)
          && HasValue(tables.stencilOperation, t.frontPass) && HasValue(tables.stencilOperation, t.backPass)
          && HasValue(tables.stencilOperation, t.frontStencilFail) && HasValue(tables.stencilOperation, t.backStencilFail)
          && HasValue(tables.stencilOperation, t.frontDepthFail) && HasValue(tables.stencilOperation, t.backDepthFail)
        else s.stencil == DefaultRenderState.stencil)
  }

  /** Saving a canonical render state and reading it back gives it unchanged. */
  lemma RenderStateRoundTrip(cv: Conv, tables: Tables, s: RenderState, item: Node)
    requires Coherent(cv) && Canonical(cv, tables, s)
    requires item.children == RenderStateNodes(cv, tables, s)
    ensures ReadRenderState(cv, tables, item) == s
  {
    RenderStateReload(cv, tables, s, item);
    var b := s.blend;
    if b.enabled {
      NameRoundTrip(tables.blend, b.sourceRgb, GL_CONSTANT_COLOR);
      NameRoundTrip(tables.blend, b.destinationRgb, GL_CONSTANT_COLOR);
      NameRoundTrip(tables.blend, b.sourceAlpha, GL_CONSTANT_COLOR);
      NameRoundTrip(tables.blend, b.destinationAlpha, GL_CONSTANT_COLOR);
      NameRoundTrip(tables.blendOperator, b.functionColor, GL_FUNC_ADD);
      NameRoundTrip(tables.blendOperator, b.functionAlpha, GL_FUNC_ADD);
    }
    if s.depth.enabled {
      NameRoundTrip(tables.comparisonFunction, s.depth.compare, GL_ALWAYS);
    }
    var t := s.stencil;
    if t.enabled {
      NameRoundTrip(tables.comparisonFunction, t.frontCompare, GL_ALWAYS);
      NameRoundTrip(tables.comparisonFunction, t.backCompare, GL_ALWAYS);
      NameRoundTrip(tables.stencilOperation, t.frontPass, GL_KEEP);
      NameRoundTrip(tables.stencilOperation, t.backPass, GL_KEEP);
      NameRoundTrip(tables.stencilOperation, t.frontStencilFail, GL_KEEP);
      NameRoundTrip(tables.stencilOperation, t.backStencilFail, GL_KEEP);
      NameRoundTrip(tables.stencilOperation, t.frontDepthFail, GL_KEEP);
      NameRoundTrip(tables.stencilOperation, t.backDepthFail, GL_KEEP);
    }
  }

  /** The writer leaves out the rasterizer children when the rasterizer is at
      fill, culling on, back face and counter-clockwise, and a whole blend,
      depth or stencil group when that feature is off. */
  lemma WriterOmitsDefaults(cv: Conv, tables: Tables, s: RenderState)
    ensures RenderStateNodes(cv, tables, s) ==
              Emit(RasterEntries(cv, s.raster)) + Emit(BlendEntries(cv, tables, s.blend))
              + Emit(DepthEntries(cv, tables, s.depth)) + Emit(StencilEntries(cv, tables, s.stencil))
    ensures s.raster == DefaultRenderState.raster ==> Emit(RasterEntries(cv, s.raster)) == []
    ensures !s.blend.enabled ==> Emit(BlendEntries(cv, tables, s.blend)) == []
    ensures !s.depth.enabled ==> Emit(DepthEntries(cv, tables, s.depth)) == []
    ensures !s.stencil.enabled ==> Emit(StencilEntries(cv, tables, s.stencil)) == []
  {
    var r := RasterEntries(cv, s.raster);
    var b := BlendEntries(cv, tables, s.blend);
    var d := DepthEntries(cv, tables, s.depth);
    var c := StencilEntries(cv, tables, s.stencil);
    EmitAppend(r + b + d, c);
    EmitAppend(r + b, d);
    EmitAppend(r, b);
    if s.raster == DefaultRenderState.raster {
      EmitNone(r);
    }
    if !s.blend.enabled {
      EmitNone(b);
    }
    if !s.depth.enabled {
      EmitNone(d);
    }
    if !s.stencil.enabled {
      EmitNone(c);
    }
  }

  /** With every feature at its default nothing at all is written. */
  lemma DefaultStateWritesNothing(cv: Conv, tables: Tables)
    ensures RenderStateNodes(cv, tables, DefaultRenderState) == []
  {
    WriterOmitsDefaults(cv, tables, DefaultRenderState);
  }

  /** The children of a version 1 `blend` item. */
  datatype BlendItemField =
    | SourceBlend | BlendOperation | DestinationBlend
    | SourceBlendAlpha | AlphaBlendOperation | DestinationBlendAlpha
    | AlphaCoverage | FactorRed | FactorGreen | FactorBlue | FactorAlpha

  function BlendItemFieldOf(tag: string): Option<BlendItemField>
  {
    if tag == "srcblend" then Some(SourceBlend)
    else if tag == "blendop" then Some(BlendOperation)
    else if tag == "destblend" then Some(DestinationBlend)
    else if tag == "srcblendalpha" then Some(SourceBlendAlpha)
    else if tag == "alphablendop" then Some(AlphaBlendOperation)
    else if tag == "destblendalpha" then Some(DestinationBlendAlpha)
    else if tag == "alpha2cov" then Some(AlphaCoverage)
    else if tag == "bf_red" then Some(FactorRed)
    else if tag == "bf_green" then Some(FactorGreen)
    else if tag == "bf_blue" then Some(FactorBlue)
    else if tag == "bf_alpha" then Some(FactorAlpha)
    else None
  }

  function SetBlendItemField(cv: Conv, tables: Tables, b: Blend, f: BlendItemField, t: string): Blend
  {
    var factor := ToBlend(tables, t);
    var op := ToBlendOp(tables, t);
    var x := cv.uintAsFloat(t);
    match f
    case SourceBlend => b.(sourceRgb := factor)
    case BlendOperation => b.(functionColor := op)
    case DestinationBlend => b.(destinationRgb := factor)
    case SourceBlendAlpha => b.(sourceAlpha := factor)
    case AlphaBlendOperation => b.(functionAlpha := op)
    case DestinationBlendAlpha => b.(destinationAlpha := factor)
    case AlphaCoverage => b.(alphaToCoverage := cv.asBool(t))
    case FactorRed => b.(factor := b.factor.(r := x))
    case FactorGreen => b.(factor := b.factor.(g := x))
    case FactorBlue => b.(factor := b.factor.(b := x))
    case FactorAlpha => b.(factor := b.factor.(a := x))
  }

  function BlendItemStep(cv: Conv, tables: Tables, s: RenderState, n: Node): RenderState
  {
    match BlendItemFieldOf(n.tag)
    case None => s
    case Some(f) => s.(blend := SetBlendItemField(cv, tables, s.blend, f, n.text))
  }

  /** A version 1 `blend` item: a fresh render state with blending on, then
      the children. */
  function ReadBlendItem(cv: Conv, tables: Tables, item: Node): RenderState
  {
    Fold(DefaultRenderState.(blend := DefaultRenderState.blend.(enabled := true)), item.children,
         (s, n) => BlendItemStep(cv, tables, s, n))
  }

  /** What a version 1 `blend` item can give: blending on, and the
      rasterizer, depth and stencil state of a fresh render state. */
  predicate BlendItemShape(s: RenderState)
  {
    s.blend.enabled && s.raster == DefaultRenderState.raster
    && s.depth == DefaultRenderState.depth && s.stencil == DefaultRenderState.stencil
  }

  lemma BlendItemStepKeeps(cv: Conv, tables: Tables, s: RenderState, n: Node)
    requires BlendItemShape(s)
    ensures BlendItemShape(BlendItemStep(cv, tables, s, n))
  {
  }

  /** Whatever its children, a version 1 `blend` item turns blending on and
      changes nothing outside the blend state. */
  lemma BlendItemOnlyBlends(cv: Conv, tables: Tables, item: Node)
    ensures BlendItemShape(ReadBlendItem(cv, tables, item))
  {
    var step := (s, n) => BlendItemStep(cv, tables, s, n);
    forall t, n | BlendItemShape(t) ensures BlendItemShape(step(t, n)) {
      BlendItemStepKeeps(cv, tables, t, n);
    }
    FoldPreserves(DefaultRenderState.(blend := DefaultRenderState.blend.(enabled := true)), item.children, step, BlendItemShape);
  }

  /** The children of a version 1 `depthstencil` item. */
  datatype DepthStencilField =
    | DepthEnable | DepthCompare | StencilEnable
    | FrontFunc | FrontPass | FrontFail | BackFunc | BackPass | BackFail | StencilReference

  function DepthStencilFieldOf(tag: string): Option<DepthStencilField>
  {
    if tag == "depthenable" then Some(DepthEnable)
    else if tag == "depthfunc" then Some(DepthCompare)
    else if tag == "stencilenable" then Some(StencilEnable)
    else if tag == "frontfunc" then Some(FrontFunc)
    else if tag == "frontpass" then Some(FrontPass)
    else if tag == "frontfail" then Some(FrontFail)
    else if tag == "backfunc" then Some(BackFunc)
    else if tag == "backpass" then Some(BackPass)
    else if tag == "backfail" then Some(BackFail)
    else if tag == "sref" then Some(StencilReference)
    else None
  }

  /** A `frontfail` or `backfail` child sets both the stencil-fail and the
      depth-fail operation of its face. */
  function SetDepthStencilField(cv: Conv, tables: Tables, s: RenderState, f: DepthStencilField, t: string): RenderState
  {
    var d := s.depth;
    var st := s.stencil;
    var compare := ToComparisonFunc(tables, t);
    var op := ToStencilOp(tables, t);
    match f
    case DepthEnable => s.(depth := d.(enabled := cv.asBool(t)))
    case DepthCompare => s.(depth := d.(compare := compare))
    case StencilEnable => s.(stencil := st.(enabled := cv.asBool(t)))
    case FrontFunc => s.(stencil := st.(frontCompare := compare))
    case FrontPass => s.(stencil := st.(frontPass := op))
    case FrontFail => s.(stencil := st.(frontStencilFail := op, frontDepthFail := op))
    case BackFunc => s.(stencil := st.(backCompare := compare))
    case BackPass => s.(stencil := st.(backPass := op))
    case BackFail => s.(stencil := st.(backStencilFail := op, backDepthFail := op))
    case StencilReference => s.(stencil := st.(reference := cv.asUint(t)))
  }

  function DepthStencilStep(cv: Conv, tables: Tables, s: RenderState, n: Node): RenderState
  {
    match DepthStencilFieldOf(n.tag)
    case None => s
    case Some(f) => SetDepthStencilField(cv, tables, s, f, n.text)
  }

  /** A version 1 `depthstencil` item: a fresh render state with stencil
      mask 0xFF, then the children. */
  function ReadDepthStencilItem(cv: Conv, tables: Tables, item: Node): RenderState
  {
    Fold(DefaultRenderState.(stencil := DefaultRenderState.stencil.(mask := 0xFF)), item.children,
         (s, n) => DepthStencilStep(cv, tables, s, n))
  }

  /** What a version 1 `depthstencil` item can give: fresh rasterizer and
      blend state, the fresh depth clamp, mask and bias, stencil mask 0xFF,
      and on each face one operation for stencil failure and depth failure. */
  predicate DepthStencilShape(s: RenderState)
  {
    && s.raster == DefaultRenderState.raster && s.blend == DefaultRenderState.blend
    && s.depth.clamp == DefaultRenderState.depth.clamp && s.depth.mask == DefaultRenderState.depth.mask
    && s.depth.bias == DefaultRenderState.depth.bias
    && s.stencil.mask == 0xFF
    && s.stencil.frontStencilFail == s.stencil.frontDepthFail
    && s.stencil.backStencilFail == s.stencil.backDepthFail
  }

  lemma DepthStencilStepKeeps(cv: Conv, tables: Tables, s: RenderState, n: Node)
    requires DepthStencilShape(s)
    ensures DepthStencilShape(DepthStencilStep(cv, tables, s, n))
  {
  }

  /** Whatever its children, a version 1 `depthstencil` item leaves the
      rasterizer and blend state fresh, and gives each face the same
      operation on stencil failure and on depth failure. */
  lemma DepthStencilItemShape(cv: Conv, tables: Tables, item: Node)
    ensures DepthStencilShape(ReadDepthStencilItem(cv, tables, item))
  {
    var step := (s, n) => DepthStencilStep(cv, tables, s, n);
    forall t, n | DepthStencilShape(t) ensures DepthStencilShape(step(t, n)) {
      DepthStencilStepKeeps(cv, tables, t, n);
    }
    FoldPreserves(DefaultRenderState.(stencil := DefaultRenderState.stencil.(mask := 0xFF)), item.children, step, DepthStencilShape);
  }

  /** The children of a version 1 `rasterizer` item. */
  datatype RasterizerField = FillMode | CullMode | FrontCounterClockwise | Bias | DepthClip

  function RasterizerFieldOf(tag: string): Option<RasterizerField>
  {
    if tag == "wireframe" then Some(FillMode)
    else if tag == "cull" then Some(CullMode)
    else if tag == "ccw" then Some(FrontCounterClockwise)
    else if tag == "depthbias" then Some(Bias)
    else if tag == "depthclip" then Some(DepthClip)
    else None
  }

  /** A `cull` child names the face to cull; culling is off exactly when the
      name maps to GL_ZERO. */
  function SetRasterizerField(cv: Conv, tables: Tables, s: RenderState, f: RasterizerField, t: string): RenderState
  {
    var r := s.raster;
    var mode := ToCullMode(tables, t);
    match f
    case FillMode => s.(raster := r.(polygonMode := if cv.asBool(t) then GL_LINE else GL_FILL))
    case CullMode => s.(raster := r.(cullFaceType := mode, cullFace := mode != GL_ZERO))
    case FrontCounterClockwise => s.(raster := r.(frontFace := if cv.asBool(t) then GL_CCW else GL_CW))
    case Bias => s.(depth := s.depth.(bias := cv.asFloat(t)))
    case DepthClip => s.(depth := s.depth.(clamp := cv.asBool(t)))
  }

  function RasterizerStep(cv: Conv, tables: Tables, s: RenderState, n: Node): RenderState
  {
    match RasterizerFieldOf(n.tag)
    case None => s
    case Some(f) => SetRasterizerField(cv, tables, s, f, n.text)
  }

  /** A version 1 `rasterizer` item. */
  function ReadRasterizerItem(cv: Conv, tables: Tables, item: Node): RenderState
  {
    Fold(DefaultRenderState, item.children, (s, n) => RasterizerStep(cv, tables, s, n))
  }

  /** What a version 1 `rasterizer` item can give: fresh blend and stencil
      state, the fresh depth switch, mask and function, culling on exactly
      when the cull face is not GL_ZERO, and a polygon mode and front face
      the reader can produce. */
  predicate RasterizerShape(s: RenderState)
  {
    && s.blend == DefaultRenderState.blend && s.stencil == DefaultRenderState.stencil
    && s.depth.enabled == DefaultRenderState.depth.enabled && s.depth.mask == DefaultRenderState.depth.mask
    && s.depth.compare == DefaultRenderState.depth.compare
    && (s.raster.cullFace <==> s.raster.cullFaceType != GL_ZERO)
    && (s.raster.polygonMode == GL_LINE || s.raster.polygonMode == GL_FILL)
    && (s.raster.frontFace == GL_CCW || s.raster.frontFace == GL_CW)
  }

  lemma RasterizerStepKeeps(cv: Conv, tables: Tables, s: RenderState, n: Node)
    requires RasterizerShape(s)
    ensures RasterizerShape(RasterizerStep(cv, tables, s, n))
  {
  }

  /** Whatever its children, a version 1 `rasterizer` item culls exactly when
      its cull face is not GL_ZERO and touches no blend or stencil state. */
  lemma RasterizerItemShape(cv: Conv, tables: Tables, item: Node)
    ensures RasterizerShape(ReadRasterizerItem(cv, tables, item))
  {
    var step := (s, n) => RasterizerStep(cv, tables, s, n);
    forall t, n | RasterizerShape(t) ensures RasterizerShape(step(t, n)) {
      RasterizerStepKeeps(cv, tables, t, n);
    }
    FoldPreserves(DefaultRenderState, item.children, step, RasterizerShape);
  }
}
