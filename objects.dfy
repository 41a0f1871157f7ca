/** The object registry the parser fills (`ObjectManager`) and the object
    properties it reads and writes: render textures, cube maps and buffers.
    `ObjectManager`'s own bodies are not part of this model; what the parser
    calls on it is modelled as a list of object names in creation order, the
    kind of each, and one bind list per pass. */
module Objects {
  import opened Common
  import opened Document
  import opened Names
  import opened Paths
  import opened Pipeline
  import opened Items

  /** `RenderTextureObject` without its size: the pixel format, whether it
      is cleared each frame and the colour it is cleared to. */
  datatype RenderTextureObject = RenderTextureObject(format: GLenum, clear: bool, clearColor: Color)

  /** A render texture as `CreateRenderTexture` leaves it. That function is
      not part of this model; this is what the parser's own defaults and the
      writer's omissions imply. */
  const FreshRenderTexture: RenderTextureObject := RenderTextureObject(GL_RGBA, true, ColorZero)

  /** `BufferObject` without its data: its byte size and view format. */
  datatype BufferInfo = BufferInfo(size: int, viewFormat: string)

  /** A buffer as `CreateBuffer` leaves it (that function is not part of this
      model). */
  const FreshBuffer: BufferInfo := BufferInfo(0, "")

  datatype ObjectKind =
    | Texture                                  // an image file, named by its path
    | CubeMap(left: string, top: string, front: string, bottom: string, right: string, back: string)
    | RenderTexture(rt: RenderTextureObject)
    | Audio                                    // a sound file, named by its path
    | Buffer(buffer: BufferInfo)

  /** A registry's bind list of one pass: the names bound to it in order, or
      nothing when none was. */
  function BindListOf(m: map<ShaderPass, seq<string>>, p: ShaderPass): seq<string>
  {
    if p in m then m[p] else []
  }

  class ObjectManager {
    var names: seq<string>                           // GetObjects(), in creation order
    var kinds: map<string, ObjectKind>
    var binds: map<ShaderPass, seq<string>>          // GetBindList, by object name
    var uniformBinds: map<ShaderPass, seq<string>>   // GetUniformBindList

    /** One object per name; the kind map covers exactly the listed names. */
    ghost predicate Valid()
      reads this
    {
      && Distinct(names)
      && (forall n :: n in kinds <==> n in names)
    }

    constructor ()
      ensures Valid()
      ensures names == [] && kinds == map[] && binds == map[] && uniformBinds == map[]
    {
      names, kinds, binds, uniformBinds := [], map[], map[], map[];
    }

    /** `Clear`: no objects and no bindings. */
    method Clear()
      modifies this
      ensures Valid()
      ensures names == [] && kinds == map[] && binds == map[] && uniformBinds == map[]
    {
      names, kinds, binds, uniformBinds := [], map[], map[], map[];
    }

    /** `CreateTexture`, `CreateCubemap`, `CreateRenderTexture`, `CreateAudio`
        and `CreateBuffer`: a new name is appended with its kind; a name that
        already exists is left as it is. */
    method Create(name: string, kind: ObjectKind)
      requires Valid()
      modifies this
      ensures Valid()
      ensures name in old(kinds) ==> names == old(names) && kinds == old(kinds)
      ensures name !in old(kinds) ==> names == old(names) + [name] && kinds == old(kinds)[name := kind]
      ensures binds == old(binds) && uniformBinds == old(uniformBinds)
    {
      if name !in kinds {
        names := names + [name];
        kinds := kinds[name := kind];
      }
    }

    /** The parser's writes through the pointer `GetRenderTexture` or
        `GetBuffer` returns: the object of that name takes new properties. */
    method Update(name: string, kind: ObjectKind)
      requires Valid() && name in kinds
      modifies this
      ensures Valid()
      ensures names == old(names) && kinds == old(kinds)[name := kind]
      ensures binds == old(binds) && uniformBinds == old(uniformBinds)
    {
      kinds := kinds[name := kind];
    }

    /** `Bind(name, pass)`: the name joins the end of the pass's bind list. */
    method Bind(name: string, pass: ShaderPass)
      modifies this
      ensures binds == old(binds)[pass := BindListOf(old(binds), pass) + [name]]
      ensures names == old(names) && kinds == old(kinds) && uniformBinds == old(uniformBinds)
    {
      binds := binds[pass := BindListOf(binds, pass) + [name]];
    }

    /** `BindUniform(name, pass)`: the same for the pass's uniform buffers. */
    method BindUniform(name: string, pass: ShaderPass)
      modifies this
      ensures uniformBinds == old(uniformBinds)[pass := BindListOf(old(uniformBinds), pass) + [name]]
      ensures names == old(names) && kinds == old(kinds) && binds == old(binds)
    {
      uniformBinds := uniformBinds[pass := BindListOf(uniformBinds, pass) + [name]];
    }

    /** `GetTexture(name)`: the handle of the object of that name, or 0 when
        there is none. It is never the window's texture. */
    function GetTexture(name: string): (h: Handle)
      reads this
      ensures h != WindowTexture
      ensures h.ObjectTexture? <==> name in names
      ensures h.ObjectTexture? ==> h.id < |names| && names[h.id] == name
    {
      match FirstIn(names, name)
      case Some(i) => ObjectTexture(i)
      case None => NoTexture
    }

    /** The name of the object behind a handle
        (`GetRenderTexture(handle)->Name`), or "" for any other handle. */
    function NameOfTexture(h: Handle): string
      reads this
    {
      if h.ObjectTexture? && h.id < |names| then names[h.id] else ""
    }

    /** Looking a handle's name up again gives the handle back. */
    lemma TextureNameRoundTrip(h: Handle)
      requires Valid() && h.ObjectTexture? && h.id < |names|
      ensures GetTexture(NameOfTexture(h)) == h
    {
      FirstInOfDistinct(names, h.id);
    }
  }

  // ---- render texture properties ----

  /** The version 2 `format` attribute: the value of the first FORMAT_NAMES
      entry with that name; the current format when the attribute is missing
      or names no entry. */
  function ReadFormat(tables: Tables, node: Node, current: GLenum): (r: GLenum)
    ensures "format" !in node.attrs ==> r == current
    ensures r == current || exists k :: 0 <= k < |tables.format| && tables.format[k].value == r
  {
    if "format" !in node.attrs then current
    else match FirstIn(TableNames(tables.format), node.attrs["format"])
      case Some(k) => tables.format[k].value
      case None => current
  }

  /** One clear-colour attribute: `as_float` in version 2, `as_int() / 255`
      in version 1, and 0 when the attribute is missing. */
  function ClearComponent(cv: Conv, version1: bool, node: Node, key: string): Scalar
  {
    if key !in node.attrs then Zero
    else if version1 then cv.byteAsColor(node.attrs[key])
    else cv.asFloat(node.attrs[key])
  }

  /** The properties a `rendertexture` object element gives the render
      texture of its name, starting from what that texture held. Version 1
      always sets RGBA and clearing; version 2 reads `format` and `clear`. */
  function ReadRenderTexture(cv: Conv, tables: Tables, version1: bool, node: Node, rt: RenderTextureObject): RenderTextureObject
  {
    RenderTextureObject(
      if version1 then GL_RGBA else ReadFormat(tables, node, rt.format),
      if !version1 && "clear" in node.attrs then cv.asBool(node.attrs["clear"]) else true,
      Color(ClearComponent(cv, version1, node, "r"), ClearComponent(cv, version1, node, "g"),
            ClearComponent(cv, version1, node, "b"), ClearComponent(cv, version1, node, "a")))
  }

  /** Adds `key = text` when `present`. */
  function AttrIf(m: map<string, string>, present: bool, key: string, text: string): map<string, string>
  {
    if present then m[key := text] else m
  }

  /** The attributes the writer puts on a render texture beyond `type` and
      `name`: `format` unless RGBA, `clear` always, and each clear-colour
      component that is not 0. */
  function RenderTextureAttrs(cv: Conv, tables: Tables, rt: RenderTextureObject): map<string, string>
  {
    var m0 := map["clear" := cv.boolText(rt.clear)];
    var m1 := AttrIf(m0, rt.format != GL_RGBA, "format", NameOf(tables.format, rt.format));
    var m2 := AttrIf(m1, !IsZero(rt.clearColor.r), "r", cv.floatText(rt.clearColor.r));
    var m3 := AttrIf(m2, !IsZero(rt.clearColor.g), "g", cv.floatText(rt.clearColor.g));
    var m4 := AttrIf(m3, !IsZero(rt.clearColor.b), "b", cv.floatText(rt.clearColor.b));
    AttrIf(m4, !IsZero(rt.clearColor.a), "a", cv.floatText(rt.clearColor.a))
  }

  /** A colour component the writer leaves out reads back as 0. */
  function SettledScalar(x: Scalar): (r: Scalar)
    ensures !IsZero(x) ==> r == x
    ensures IsZero(x) ==> r == Zero
  {
    if IsZero(x) then Zero else x
  }

  /** What a render texture becomes after writing and reading back. */
  function ReloadedRenderTexture(rt: RenderTextureObject): RenderTextureObject
  {
    rt.(clearColor := Color(SettledScalar(rt.clearColor.r), SettledScalar(rt.clearColor.g),
                            SettledScalar(rt.clearColor.b), SettledScalar(rt.clearColor.a)))
  }

  /** The format the writer would name for a render texture can be read back. */
  ghost predicate FormatNamed(tables: Tables, rt: RenderTextureObject)
  {
    rt.format == GL_RGBA || (NamesDistinct(tables.format) && HasValue(tables.format, rt.format))
  }

  lemma AttrNamesDiffer()
    ensures "clear" != "format" && "clear" != "r" && "clear" != "g" && "clear" != "b" && "clear" != "a"
    ensures "format" != "r" && "format" != "g" && "format" != "b" && "format" != "a"
    ensures "r" != "g" && "r" != "b" && "r" != "a" && "g" != "b" && "g" != "a" && "b" != "a"
    ensures "type" != "clear" && "type" != "format" && "type" != "r" && "type" != "g" && "type" != "b" && "type" != "a"
    ensures "name" != "clear" && "name" != "format" && "name" != "r" && "name" != "g" && "name" != "b" && "name" != "a"
  {
    assert "clear"[0] == 'c' && "format"[0] == 'f' && "type"[0] == 't' && "name"[0] == 'n';
  }

  /** The element the writer makes for a render texture. */
  function RenderTextureNode(cv: Conv, tables: Tables, rt: RenderTextureObject, name: string): Node
  {
    Node("object", RenderTextureAttrs(cv, tables, rt)["type" := "rendertexture"]["name" := name], "", [])
  }

  /** The red and green clear components of a written render texture read
      back as themselves, or as 0 when they were left out. */
  lemma RedGreenLookups(cv: Conv, tables: Tables, rt: RenderTextureObject, name: string)
    requires Coherent(cv)
    ensures var n := RenderTextureNode(cv, tables, rt, name);
            && ClearComponent(cv, false, n, "r") == SettledScalar(rt.clearColor.r)
            && ClearComponent(cv, false, n, "g") == SettledScalar(rt.clearColor.g)
  {
    AttrNamesDiffer();
  }

  /** The same for blue and alpha. */
  lemma BlueAlphaLookups(cv: Conv, tables: Tables, rt: RenderTextureObject, name: string)
    requires Coherent(cv)
    ensures var n := RenderTextureNode(cv, tables, rt, name);
            && ClearComponent(cv, false, n, "b") == SettledScalar(rt.clearColor.b)
            && ClearComponent(cv, false, n, "a") == SettledScalar(rt.clearColor.a)
  {
    AttrNamesDiffer();
  }

  /** The `format` and `clear` attributes of a written render texture. */
  lemma FormatLookups(cv: Conv, tables: Tables, rt: RenderTextureObject, name: string)
    ensures var n := RenderTextureNode(cv, tables, rt, name);
            && ("format" in n.attrs <==> rt.format != GL_RGBA)
            && ("format" in n.attrs ==> n.attrs["format"] == NameOf(tables.format, rt.format))
            && "clear" in n.attrs && n.attrs["clear"] == cv.boolText(rt.clear)
  {
    AttrNamesDiffer();
  }

  /** Reading back what the writer put on a render-texture element into the
      fresh texture `CreateRenderTexture` makes gives the texture again,
      except that a negative-zero clear component becomes 0. */
  lemma RenderTextureRoundTrip(cv: Conv, tables: Tables, rt: RenderTextureObject, name: string)
    requires Coherent(cv) && FormatNamed(tables, rt)
    ensures ReadRenderTexture(cv, tables, false, RenderTextureNode(cv, tables, rt, name), FreshRenderTexture) == ReloadedRenderTexture(rt)
  {
    var n := RenderTextureNode(cv, tables, rt, name);
    RedGreenLookups(cv, tables, rt, name);
    BlueAlphaLookups(cv, tables, rt, name);
    FormatLookups(cv, tables, rt, name);
    if rt.format != GL_RGBA {
      var k := NameOfFinds(tables.format, rt.format);
      FirstInOfDistinct(TableNames(tables.format), k);
    }
  }

  // ---- buffers ----

  /** A `buffer` object element: `size` and `format` when present, each
      otherwise keeping the buffer's value. */
  function ReadBuffer(cv: Conv, node: Node, b: BufferInfo): (r: BufferInfo)
    ensures r.size == if "size" in node.attrs then cv.asInt(node.attrs["size"]) else b.size
    ensures r.viewFormat == if "format" in node.attrs then node.attrs["format"] else b.viewFormat
  {
    BufferInfo(if "size" in node.attrs then cv.asInt(node.attrs["size"]) else b.size,
               if "format" in node.attrs then node.attrs["format"] else b.viewFormat)
  }

  /** The writer always writes both. */
  function BufferAttrs(cv: Conv, b: BufferInfo): map<string, string>
  {
    map["size" := cv.intText(b.size), "format" := b.viewFormat]
  }

  lemma BufferRoundTrip(cv: Conv, b: BufferInfo, from: BufferInfo, name: string)
    requires Coherent(cv)
    ensures ReadBuffer(cv, Node("object", BufferAttrs(cv, b)["type" := "buffer"]["name" := name], "", []), from) == b
  {
    assert "size" != "type" && "size" != "name" && "format" != "type" && "format" != "name" by {
      assert "size"[0] == 's' && "format"[0] == 'f' && "type"[0] == 't' && "name"[0] == 'n';
    }
  }

  // ---- cube maps ----

  /** The six face attributes of a cube-map texture element, each made
      generic. */
  function ReadCubeMap(node: Node): (k: ObjectKind)
  {
    CubeMap(ToGenericPath(AttrText(node, "left")), ToGenericPath(AttrText(node, "top")),
            ToGenericPath(AttrText(node, "front")), ToGenericPath(AttrText(node, "bottom")),
            ToGenericPath(AttrText(node, "right")), ToGenericPath(AttrText(node, "back")))
  }

  /** The face attributes as written: `back` takes `texmaps[4]`, the right
      face, like `right` does. */
  function CubeAttrsAsWritten(cv: Conv, c: ObjectKind): map<string, string>
    requires c.CubeMap?
  {
    map["cube" := cv.boolText(true), "left" := c.left, "top" := c.top, "front" := c.front,
        "bottom" := c.bottom, "right" := c.right, "back" := c.right]
  }

  /** The face attributes with `back` taken from the back face. */
  function CubeAttrs(cv: Conv, c: ObjectKind): map<string, string>
    requires c.CubeMap?
  {
    map["cube" := cv.boolText(true), "left" := c.left, "top" := c.top, "front" := c.front,
        "bottom" := c.bottom, "right" := c.right, "back" := c.back]
  }

  /** The six faces have no backslash, so reading them changes none. */
  ghost predicate GenericFaces(c: ObjectKind)
    requires c.CubeMap?
  {
    '\\' !in c.left && '\\' !in c.top && '\\' !in c.front && '\\' !in c.bottom && '\\' !in c.right && '\\' !in c.back
  }

  lemma FaceNamesDiffer()
    ensures "left" != "top" && "left" != "front" && "left" != "bottom" && "left" != "right" && "left" != "back"
    ensures "top" != "front" && "top" != "bottom" && "top" != "right" && "top" != "back"
    ensures "front" != "bottom" && "front" != "right" && "front" != "back"
    ensures "bottom" != "right" && "bottom" != "back" && "right" != "back"
    ensures "type" != "left" && "type" != "top" && "type" != "front" && "type" != "bottom" && "type" != "right" && "type" != "back"
    ensures "name" != "left" && "name" != "top" && "name" != "front" && "name" != "bottom" && "name" != "right" && "name" != "back"
  {
    assert "left"[0] == 'l' && "top"[0] == 't' && "front"[0] == 'f' && "bottom"[0] == 'b' && "right"[0] == 'r';
    assert "back"[1] == 'a' && "bottom"[1] == 'o' && "top"[1] == 'o' && "type"[1] == 'y' && "name"[0] == 'n';
  }

  /** The face attributes of a written cube-map element. */
  lemma CubeLookups(cv: Conv, c: ObjectKind, name: string, back: string)
    requires c.CubeMap?
    ensures var n := Node("object", CubeAttrs(cv, c.(back := back))["type" := "texture"]["name" := name], "", []);
            && AttrText(n, "left") == c.left && AttrText(n, "top") == c.top && AttrText(n, "front") == c.front
            && AttrText(n, "bottom") == c.bottom && AttrText(n, "right") == c.right && AttrText(n, "back") == back
  {
    FaceNamesDiffer();
  }

  /** As written, a saved cube map comes back with its right face in place
      of its back face. */
  lemma CubeBackLost(cv: Conv, c: ObjectKind, name: string)
    requires c.CubeMap? && GenericFaces(c)
    ensures ReadCubeMap(Node("object", CubeAttrsAsWritten(cv, c)["type" := "texture"]["name" := name], "", [])) == c.(back := c.right)
  {
    assert CubeAttrsAsWritten(cv, c) == CubeAttrs(cv, c.(back := c.right));
    CubeLookups(cv, c, name, c.right);
    GenericPathKeepsGeneric(c.left);
    GenericPathKeepsGeneric(c.top);
    GenericPathKeepsGeneric(c.front);
    GenericPathKeepsGeneric(c.bottom);
    GenericPathKeepsGeneric(c.right);
  }

  /** A cube map whose back and right faces differ does not survive saving. */
  lemma CubeBackCounterexample(cv: Conv)
    ensures var c := CubeMap("l.png", "t.png", "f.png", "d.png", "r.png", "b.png");
            ReadCubeMap(Node("object", CubeAttrsAsWritten(cv, c)["type" := "texture"]["name" := "sky"], "", [])) != c
  {
    var c := CubeMap("l.png", "t.png", "f.png", "d.png", "r.png", "b.png");
    assert "r.png"[0] != "b.png"[0];
    CubeBackLost(cv, c, "sky");
  }

  /** With the back face written from the back face, a cube map survives
      saving. */
  lemma CubeRoundTrip(cv: Conv, c: ObjectKind, name: string)
    requires c.CubeMap? && GenericFaces(c)
    ensures ReadCubeMap(Node("object", CubeAttrs(cv, c)["type" := "texture"]["name" := name], "", [])) == c
  {
    assert c.(back := c.back) == c;
    CubeLookups(cv, c, name, c.back);
    GenericPathKeepsGeneric(c.left);
    GenericPathKeepsGeneric(c.top);
    GenericPathKeepsGeneric(c.front);
    GenericPathKeepsGeneric(c.bottom);
    GenericPathKeepsGeneric(c.right);
    GenericPathKeepsGeneric(c.back);
  }
}
