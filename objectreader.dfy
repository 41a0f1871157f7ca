/** The object phase of reading a project (the `objects` loops of
    `m_parseV1` and `m_parseV2`): every `object` element registers its object
    and records, in the per-pass tables of phase 1, the slots its `bind`
    children name. */
module ObjectReader {
  import opened Common
  import opened Document
  import opened Names
  import opened Paths
  import opened Pipeline
  import opened Objects
  import opened Binding

  /** What the objects loop has built so far: the registry's objects in
      creation order with their kinds, and the two tables of names waiting
      to be bound (`boundTextures`, `boundUBOs`). */
  datatype Phase1 = Phase1(names: seq<string>, kinds: map<string, ObjectKind>, textures: BindTables, buffers: BindTables)

  /** A texture element is a cube map when its `cube` attribute is present
      and reads as true. */
  function IsCube(cv: Conv, n: Node): bool
  {
    "cube" in n.attrs && cv.asBool(n.attrs["cube"])
  }

  /** A cube map is named by its `name` attribute, a plain texture by its
      path made generic. */
  function TextureName(cv: Conv, n: Node): string
  {
    if IsCube(cv, n) then AttrText(n, "name") else ToGenericPath(AttrText(n, "path"))
  }

  function TextureKind(cv: Conv, n: Node): ObjectKind
  {
    if IsCube(cv, n) then ReadCubeMap(n) else Texture
  }

  /** `CreateRenderTexture(name)`, then the element's properties written
      through the pointer to the render texture of that name, starting from
      what it holds (a fresh texture, or the one already registered). */
  function WithRenderTexture(cv: Conv, tables: Tables, version1: bool, names: seq<string>, kinds: map<string, ObjectKind>,
                             n: Node, name: string): (seq<string>, map<string, ObjectKind>)
  {
    var reg := Created(names, kinds, name, RenderTexture(FreshRenderTexture));
    if name in reg.1 && reg.1[name].RenderTexture? then
      (reg.0, reg.1[name := RenderTexture(ReadRenderTexture(cv, tables, version1, n, reg.1[name].rt))])
    else reg
  }

  /** `CreateBuffer(name)`, then `size` and `format` written through
      `GetBuffer(name)`. */
  function WithBuffer(cv: Conv, names: seq<string>, kinds: map<string, ObjectKind>, n: Node, name: string)
    : (seq<string>, map<string, ObjectKind>)
  {
    var reg := Created(names, kinds, name, Buffer(FreshBuffer));
    if name in reg.1 && reg.1[name].Buffer? then
      (reg.0, reg.1[name := Buffer(ReadBuffer(cv, n, reg.1[name].buffer))])
    else reg
  }

  /** The name an element registers and binds: a texture's name, a render
      texture's or buffer's `name` attribute, an audio file's generic path. */
  function ObjectName(cv: Conv, n: Node): string
  {
    var objType := AttrText(n, "type");
    if objType == "texture" then TextureName(cv, n)
    else if objType == "audio" then ToGenericPath(AttrText(n, "path"))
    else AttrText(n, "name")
  }

  /** Which table an element's binds go to: `Some(false)` for the texture
      table (textures, render textures, audio), `Some(true)` for the buffer
      table (buffers, version 2 only), `None` for an element that is
      skipped. */
  function TableOfElement(version1: bool, n: Node): Option<bool>
  {
    var objType := AttrText(n, "type");
    if objType == "texture" || objType == "rendertexture" || objType == "audio" then Some(false)
    else if objType == "buffer" && !version1 then Some(true)
    else None
  }

  /** The registry after one element. A texture (plain or cube) is created
      inside its bind loop, so only when some `bind` names a pass; a render
      texture and an audio file are always created; a buffer exists only in
      version 2; any other type is skipped. */
  function Registration(cv: Conv, tables: Tables, version1: bool, passes: seq<ShaderPass>, passNames: seq<string>,
                        names: seq<string>, kinds: map<string, ObjectKind>, n: Node): (seq<string>, map<string, ObjectKind>)
  {
    var objType := AttrText(n, "type");
    if objType == "texture" then
      if AnyMatch(passes, passNames, ChildrenNamed(n, "bind")) then Created(names, kinds, TextureName(cv, n), TextureKind(cv, n))
      else (names, kinds)
    else if objType == "rendertexture" then WithRenderTexture(cv, tables, version1, names, kinds, n, AttrText(n, "name"))
    else if objType == "audio" then Created(names, kinds, ToGenericPath(AttrText(n, "path")), Audio)
    else if objType == "buffer" && !version1 then WithBuffer(cv, names, kinds, n, AttrText(n, "name"))
    else (names, kinds)
  }

  /** One `object` element: its registration, and its binds recorded under
      its name in its table. */
  function ReadObjectElement(cv: Conv, tables: Tables, version1: bool, passes: seq<ShaderPass>, passNames: seq<string>,
                             s: Phase1, n: Node): Phase1
  {
    var reg := Registration(cv, tables, version1, passes, passNames, s.names, s.kinds, n);
    var binds := ChildrenNamed(n, "bind");
    match TableOfElement(version1, n)
    case None => s
    case Some(toBuffers) =>
      if toBuffers then Phase1(reg.0, reg.1, s.textures, BindAll(cv, passes, passNames, s.buffers, binds, ObjectName(cv, n)))
      else Phase1(reg.0, reg.1, BindAll(cv, passes, passNames, s.textures, binds, ObjectName(cv, n)), s.buffers)
  }

  function ObjectStep(cv: Conv, tables: Tables, version1: bool, passes: seq<ShaderPass>, passNames: seq<string>)
    : (Phase1, Node) -> Phase1
  {
    (s: Phase1, n: Node) => ReadObjectElement(cv, tables, version1, passes, passNames, s, n)
  }

  /** The objects loop over every `object` element. */
  function ObjectsAfter(cv: Conv, tables: Tables, version1: bool, passes: seq<ShaderPass>, passNames: seq<string>,
                        s: Phase1, nodes: seq<Node>): Phase1
  {
    Fold(s, nodes, ObjectStep(cv, tables, version1, passes, passNames))
  }

  // ---- what one element does ----

  /** A texture element registers its object exactly when one of its binds
      names a pass of the pipeline (and the name is new), and nothing else. */
  lemma TextureRegisteredIffBound(cv: Conv, tables: Tables, version1: bool, passes: seq<ShaderPass>, passNames: seq<string>,
                                  s: Phase1, n: Node)
    requires AttrText(n, "type") == "texture"
    ensures var r := ReadObjectElement(cv, tables, version1, passes, passNames, s, n);
            var name := TextureName(cv, n);
            && (name in r.kinds <==> name in s.kinds || AnyMatch(passes, passNames, ChildrenNamed(n, "bind")))
            && (name !in s.kinds && name in r.kinds ==> r.kinds[name] == TextureKind(cv, n) && r.names == s.names + [name])
            && (forall x :: x != name ==> (x in r.kinds <==> x in s.kinds))
            && (name in s.kinds || !AnyMatch(passes, passNames, ChildrenNamed(n, "bind")) ==> r.names == s.names && r.kinds == s.kinds)
            && r.buffers == s.buffers
  {
  }

  /** A render texture element always leaves a render texture of its name
      (unless the name belongs to an object of another kind): a new one
      takes the element's properties over the fresh texture's, an existing
      one over its own. */
  lemma RenderTextureRegistered(cv: Conv, tables: Tables, version1: bool, passes: seq<ShaderPass>, passNames: seq<string>,
                                s: Phase1, n: Node)
    requires AttrText(n, "type") == "rendertexture"
    ensures var r := ReadObjectElement(cv, tables, version1, passes, passNames, s, n);
            var name := AttrText(n, "name");
            && name in r.kinds
            && (name !in s.kinds ==>
                  r.names == s.names + [name]
                  && r.kinds == s.kinds[name := RenderTexture(ReadRenderTexture(cv, tables, version1, n, FreshRenderTexture))])
            && (name in s.kinds && s.kinds[name].RenderTexture? ==>
                  r.names == s.names
                  && r.kinds == s.kinds[name := RenderTexture(ReadRenderTexture(cv, tables, version1, n, s.kinds[name].rt))])
            && (name in s.kinds && !s.kinds[name].RenderTexture? ==> r.names == s.names && r.kinds == s.kinds)
            && r.textures == BindAll(cv, passes, passNames, s.textures, ChildrenNamed(n, "bind"), name)
            && r.buffers == s.buffers
  {
    assert "rendertexture" != "texture";
  }

  /** An audio element always registers its generic path. */
  lemma AudioRegistered(cv: Conv, tables: Tables, version1: bool, passes: seq<ShaderPass>, passNames: seq<string>,
                        s: Phase1, n: Node)
    requires AttrText(n, "type") == "audio"
    ensures var r := ReadObjectElement(cv, tables, version1, passes, passNames, s, n);
            var path := ToGenericPath(AttrText(n, "path"));
            && path in r.kinds && '\\' !in path
            && (path !in s.kinds ==> r.names == s.names + [path] && r.kinds == s.kinds[path := Audio])
            && (path in s.kinds ==> r.names == s.names && r.kinds == s.kinds)
            && r.buffers == s.buffers
  {
    assert "audio" != "texture" && "audio" != "rendertexture";
    GenericPathHasNoBackslash(AttrText(n, "path"));
  }

  /** A buffer element registers a buffer with the element's size and format
      and binds only through the buffer table in version 2; version 1 does
      not know buffers and skips the element. */
  lemma BufferRegistered(cv: Conv, tables: Tables, version1: bool, passes: seq<ShaderPass>, passNames: seq<string>,
                         s: Phase1, n: Node)
    requires AttrText(n, "type") == "buffer"
    ensures var r := ReadObjectElement(cv, tables, version1, passes, passNames, s, n);
            var name := AttrText(n, "name");
            && (version1 ==> r == s)
            && (!version1 ==>
                  && name in r.kinds
                  && (name !in s.kinds ==>
                        r.names == s.names + [name] && r.kinds == s.kinds[name := Buffer(ReadBuffer(cv, n, FreshBuffer))])
                  && r.textures == s.textures
                  && r.buffers == BindAll(cv, passes, passNames, s.buffers, ChildrenNamed(n, "bind"), name))
  {
    assert "buffer" != "texture" && "buffer" != "rendertexture" && "buffer" != "audio";
  }

  /** An element of any other type changes nothing. */
  lemma OtherElementSkipped(cv: Conv, tables: Tables, version1: bool, passes: seq<ShaderPass>, passNames: seq<string>,
                            s: Phase1, n: Node)
    requires AttrText(n, "type") !in {"texture", "rendertexture", "audio", "buffer"}
    ensures ReadObjectElement(cv, tables, version1, passes, passNames, s, n) == s
  {
  }

  // ---- what the whole loop keeps ----

  /** A registry in the shape `ObjectManager.Valid` demands. */
  ghost predicate RegistryValid(s: Phase1)
  {
    Distinct(s.names) && forall x :: x in s.kinds <==> x in s.names
  }

  /** Every name waiting in a table of phase 1 names a registered object, so
      phase 2 binds only objects that exist. */
  ghost predicate BoundAreObjects(s: Phase1)
  {
    && (forall p, k :: p in s.textures && 0 <= k < |s.textures[p]| && s.textures[p][k] != "" ==> s.textures[p][k] in s.kinds)
    && (forall p, k :: p in s.buffers && 0 <= k < |s.buffers[p]| && s.buffers[p][k] != "" ==> s.buffers[p][k] in s.kinds)
  }

  ghost predicate Keeps(s: Phase1)
  {
    RegistryValid(s) && BoundAreObjects(s)
  }

  /** Every entry of a table after a bind loop of `objName` is an entry it
      had, the object's name, or an empty slot. */
  lemma {:induction false} BindAllEntries(cv: Conv, passes: seq<ShaderPass>, passNames: seq<string>, t: BindTables,
                                          binds: seq<Node>, objName: string, p: ShaderPass, k: nat)
    requires p in BindAll(cv, passes, passNames, t, binds, objName)
    requires k < |BindAll(cv, passes, passNames, t, binds, objName)[p]|
    ensures var e := BindAll(cv, passes, passNames, t, binds, objName)[p][k];
            e == objName || e == "" || (p in t && k < |t[p]| && e == t[p][k])
    decreases |binds|
  {
    if binds != [] {
      var init := binds[..|binds| - 1];
      var b := binds[|binds| - 1];
      var before := BindAll(cv, passes, passNames, t, init, objName);
      var r := BindAll(cv, passes, passNames, t, binds, objName);
      assert r == BindToPass(before, passes, passNames, AttrText(b, "name"), AttrInt(cv, b, "slot"), objName);
      if p in before && k < |before[p]| && r[p][k] == before[p][k] {
        BindAllEntries(cv, passes, passNames, t, init, objName, p, k);
      }
    }
  }

  /** A bind loop in which no bind names a pass changes no table. */
  lemma {:induction false} BindAllUnmatched(cv: Conv, passes: seq<ShaderPass>, passNames: seq<string>, t: BindTables,
                                            binds: seq<Node>, objName: string)
    requires !AnyMatch(passes, passNames, binds)
    ensures BindAll(cv, passes, passNames, t, binds, objName) == t
    decreases |binds|
  {
    if binds != [] {
      var init := binds[..|binds| - 1];
      assert Target(passes, passNames, AttrText(binds[|binds| - 1], "name")).None?;
      BindAllUnmatched(cv, passes, passNames, t, init, objName);
    }
  }

  /** A table that gains only `objName` keeps every waiting name an object
      when `objName` is one and no object goes away. */
  lemma BindAllKeepsBound(cv: Conv, passes: seq<ShaderPass>, passNames: seq<string>, t: BindTables, binds: seq<Node>,
                          objName: string, kinds: map<string, ObjectKind>, kinds': map<string, ObjectKind>)
    requires forall p, k :: p in t && 0 <= k < |t[p]| && t[p][k] != "" ==> t[p][k] in kinds
    requires objName in kinds' && kinds.Keys <= kinds'.Keys
    ensures var r := BindAll(cv, passes, passNames, t, binds, objName);
            forall p, k :: p in r && 0 <= k < |r[p]| && r[p][k] != "" ==> r[p][k] in kinds'
  {
    var r := BindAll(cv, passes, passNames, t, binds, objName);
    forall p, k | p in r && 0 <= k < |r[p]| && r[p][k] != "" ensures r[p][k] in kinds' {
      BindAllEntries(cv, passes, passNames, t, binds, objName, p, k);
    }
  }

  /** Registering a name keeps a registry valid and only adds: the names
      already there stay at the front, and no object goes away. */
  lemma CreatedKeeps(s: Phase1, name: string, kind: ObjectKind)
    requires RegistryValid(s)
    ensures var reg := Created(s.names, s.kinds, name, kind);
            && RegistryValid(s.(names := reg.0, kinds := reg.1))
            && name in reg.1 && s.kinds.Keys <= reg.1.Keys
            && |s.names| <= |reg.0| && reg.0[..|s.names|] == s.names
  {
    var reg := Created(s.names, s.kinds, name, kind);
    assert reg.0[..|s.names|] == s.names;
  }

  /** Registering a render texture keeps a registry valid and only adds. */
  lemma WithRenderTextureKeeps(cv: Conv, tables: Tables, version1: bool, s: Phase1, n: Node, name: string)
    requires RegistryValid(s)
    ensures var reg := WithRenderTexture(cv, tables, version1, s.names, s.kinds, n, name);
            && RegistryValid(s.(names := reg.0, kinds := reg.1))
            && name in reg.1 && s.kinds.Keys <= reg.1.Keys
            && |s.names| <= |reg.0| && reg.0[..|s.names|] == s.names
  {
    CreatedKeeps(s, name, RenderTexture(FreshRenderTexture));
  }

  /** Registering a buffer keeps a registry valid and only adds. */
  lemma WithBufferKeeps(cv: Conv, s: Phase1, n: Node, name: string)
    requires RegistryValid(s)
    ensures var reg := WithBuffer(cv, s.names, s.kinds, n, name);
            && RegistryValid(s.(names := reg.0, kinds := reg.1))
            && name in reg.1 && s.kinds.Keys <= reg.1.Keys
            && |s.names| <= |reg.0| && reg.0[..|s.names|] == s.names
  {
    CreatedKeeps(s, name, Buffer(FreshBuffer));
  }

  /** One element keeps the registry valid and only adds objects; an
      element that binds into a table leaves its object registered once a
      bind of it names a pass. */
  lemma RegistrationKeeps(cv: Conv, tables: Tables, version1: bool, passes: seq<ShaderPass>, passNames: seq<string>,
                          s: Phase1, n: Node)
    requires RegistryValid(s)
    ensures var reg := Registration(cv, tables, version1, passes, passNames, s.names, s.kinds, n);
            && RegistryValid(s.(names := reg.0, kinds := reg.1)) && s.kinds.Keys <= reg.1.Keys
            && |s.names| <= |reg.0| && reg.0[..|s.names|] == s.names
            && (TableOfElement(version1, n).Some? && AnyMatch(passes, passNames, ChildrenNamed(n, "bind")) ==> ObjectName(cv, n) in reg.1)
  {
    var objType := AttrText(n, "type");
    if objType == "texture" {
      if AnyMatch(passes, passNames, ChildrenNamed(n, "bind")) {
        CreatedKeeps(s, TextureName(cv, n), TextureKind(cv, n));
      } else {
        assert s.names[..|s.names|] == s.names;
      }
    } else if objType == "rendertexture" {
      WithRenderTextureKeeps(cv, tables, version1, s, n, AttrText(n, "name"));
    } else if objType == "audio" {
      CreatedKeeps(s, ToGenericPath(AttrText(n, "path")), Audio);
    } else if objType == "buffer" && !version1 {
      WithBufferKeeps(cv, s, n, AttrText(n, "name"));
    } else {
      assert s.names[..|s.names|] == s.names;
    }
  }

  /** One element keeps the registry valid, only adds objects, and keeps
      every waiting name an object. */
  lemma ReadObjectElementKeeps(cv: Conv, tables: Tables, version1: bool, passes: seq<ShaderPass>, passNames: seq<string>,
                               s: Phase1, n: Node)
    requires Keeps(s)
    ensures var r := ReadObjectElement(cv, tables, version1, passes, passNames, s, n);
            && Keeps(r) && s.kinds.Keys <= r.kinds.Keys
            && |s.names| <= |r.names| && r.names[..|s.names|] == s.names
  {
    var r := ReadObjectElement(cv, tables, version1, passes, passNames, s, n);
    var binds := ChildrenNamed(n, "bind");
    var name := ObjectName(cv, n);
    RegistrationKeeps(cv, tables, version1, passes, passNames, s, n);
    match TableOfElement(version1, n)
    case None =>
      assert s.names[..|s.names|] == s.names;
    case Some(toBuffers) =>
      var t := if toBuffers then s.buffers else s.textures;
      if AnyMatch(passes, passNames, binds) {
        BindAllKeepsBound(cv, passes, passNames, t, binds, name, s.kinds, r.kinds);
      } else {
        BindAllUnmatched(cv, passes, passNames, t, binds, name);
      }
  }

  /** The whole objects loop leaves a valid registry whose objects include
      every name waiting to be bound; objects are only ever added, and the
      names before the loop stay, in order, at the front. */
  lemma {:induction false} ObjectsAfterKeeps(cv: Conv, tables: Tables, version1: bool, passes: seq<ShaderPass>,
                                             passNames: seq<string>, s: Phase1, nodes: seq<Node>)
    requires Keeps(s)
    ensures var r := ObjectsAfter(cv, tables, version1, passes, passNames, s, nodes);
            && Keeps(r) && s.kinds.Keys <= r.kinds.Keys
            && |s.names| <= |r.names| && r.names[..|s.names|] == s.names
    decreases |nodes|
  {
    if nodes == [] {
      assert s.names[..|s.names|] == s.names;
    } else {
      var init := nodes[..|nodes| - 1];
      ObjectsAfterKeeps(cv, tables, version1, passes, passNames, s, init);
      var m := ObjectsAfter(cv, tables, version1, passes, passNames, s, init);
      ReadObjectElementKeeps(cv, tables, version1, passes, passNames, m, nodes[|nodes| - 1]);
      var r := ObjectsAfter(cv, tables, version1, passes, passNames, s, nodes);
      assert r.names[..|m.names|][..|s.names|] == r.names[..|s.names|];
    }
  }

  // ---- the loops ----

  /** One `object` element. */
  method ReadObject(cv: Conv, tables: Tables, version1: bool, objects: ObjectManager, passes: seq<ShaderPass>,
                    passNames: seq<string>, textures: BindTables, buffers: BindTables, n: Node)
    returns (textures': BindTables, buffers': BindTables)
    requires objects.Valid()
    modifies objects
    ensures objects.Valid()
    ensures Phase1(objects.names, objects.kinds, textures', buffers') ==
              ReadObjectElement(cv, tables, version1, passes, passNames, Phase1(old(objects.names), old(objects.kinds), textures, buffers), n)
    ensures objects.binds == old(objects.binds) && objects.uniformBinds == old(objects.uniformBinds)
  {
    var objType := AttrText(n, "type");
    var binds := ChildrenNamed(n, "bind");
    textures', buffers' := textures, buffers;
    if objType == "texture" {
      textures' := ReadTextureBinds(cv, objects, passes, passNames, textures, binds, TextureName(cv, n), TextureKind(cv, n));
    } else if objType == "rendertexture" {
      var name := AttrText(n, "name");
      objects.Create(name, RenderTexture(FreshRenderTexture));
      if objects.kinds[name].RenderTexture? {
        objects.Update(name, RenderTexture(ReadRenderTexture(cv, tables, version1, n, objects.kinds[name].rt)));
      }
      textures' := ReadBinds(cv, passes, passNames, textures, binds, name);
    } else if objType == "audio" {
      var path := ToGenericPath(AttrText(n, "path"));
      objects.Create(path, Audio);
      textures' := ReadBinds(cv, passes, passNames, textures, binds, path);
    } else if objType == "buffer" && !version1 {
      var name := AttrText(n, "name");
      objects.Create(name, Buffer(FreshBuffer));
      if objects.kinds[name].Buffer? {
        objects.Update(name, Buffer(ReadBuffer(cv, n, objects.kinds[name].buffer)));
      }
      buffers' := ReadBinds(cv, passes, passNames, buffers, binds, name);
    }
  }

  /** The objects loop, which starts with empty tables. */
  method ReadObjects(cv: Conv, tables: Tables, version1: bool, objects: ObjectManager, passes: seq<ShaderPass>,
                     passNames: seq<string>, nodes: seq<Node>)
    returns (textures: BindTables, buffers: BindTables)
    requires objects.Valid()
    modifies objects
    ensures objects.Valid()
    ensures Phase1(objects.names, objects.kinds, textures, buffers) ==
              ObjectsAfter(cv, tables, version1, passes, passNames, Phase1(old(objects.names), old(objects.kinds), map[], map[]), nodes)
    ensures objects.binds == old(objects.binds) && objects.uniformBinds == old(objects.uniformBinds)
  {
    textures, buffers := map[], map[];
    var i := 0;
    assert nodes[..0] == [];
    while i < |nodes|
      invariant 0 <= i <= |nodes|
      invariant objects.Valid()
      invariant Phase1(objects.names, objects.kinds, textures, buffers) ==
                  ObjectsAfter(cv, tables, version1, passes, passNames, Phase1(old(objects.names), old(objects.kinds), map[], map[]), nodes[..i])
      invariant objects.binds == old(objects.binds) && objects.uniformBinds == old(objects.uniformBinds)
    {
      assert nodes[..i + 1][..i] == nodes[..i];
      textures, buffers := ReadObject(cv, tables, version1, objects, passes, passNames, textures, buffers, nodes[i]);
      i := i + 1;
    }
    assert nodes[..i] == nodes;
  }
}
