/** The objects section of `SaveAs`: one `object` element per object of the
    registry, in creation order, with its kind's properties and one `bind`
    child for every slot of a pass's bind list that holds the object; and
    what the version 2 objects loop rebuilds from those elements. */
module ObjectWriter {
  import opened Common
  import opened Document
  import opened Names
  import opened Paths
  import opened Pipeline
  import opened Objects
  import opened Binding
  import opened ObjectReader
  import opened Project
  import opened Variables

  // ---- object elements ----

  /** The `type`, the name (or, for a path-named texture or audio file, the
      path) and the kind's properties: a cube map's faces as the source
      writes them, with `back` taken from the right face
      (`CubeAttrsAsWritten`), a render texture's format and clear colour, a
      buffer's size and view format. */
  function ObjectAttrs(cv: Conv, tables: Tables, name: string, kind: ObjectKind): map<string, string>
  {
    match kind
    case Texture => map["type" := "texture", "path" := name]
    case CubeMap(_, _, _, _, _, _) => CubeAttrsAsWritten(cv, kind)["type" := "texture"]["name" := name]
    case RenderTexture(rt) => RenderTextureAttrs(cv, tables, rt)["type" := "rendertexture"]["name" := name]
    case Audio => map["type" := "audio", "path" := name]
    case Buffer(b) => BufferAttrs(cv, b)["type" := "buffer"]["name" := name]
  }

  /** A `bind` child: the slot and the name of the pass. */
  function BindNode(cv: Conv, slot: nat, passName: string): (n: Node)
    ensures n.tag == "bind" && AttrText(n, "name") == passName && AttrText(n, "slot") == cv.intText(slot)
  {
    assert "slot"[0] != "name"[0];
    Node("bind", map["slot" := cv.intText(slot), "name" := passName], "", [])
  }

  /** The `bind` children for the slots below `k` of one pass's bind list
      that hold `x`, in slot order. */
  function SlotBinds(cv: Conv, list: seq<string>, x: string, passName: string, k: nat): (r: seq<Node>)
    requires k <= |list|
    ensures forall i :: 0 <= i < |r| ==> r[i].tag == "bind" && AttrText(r[i], "name") == passName
    decreases k
  {
    if k == 0 then []
    else SlotBinds(cv, list, x, passName, k - 1) + (if list[k - 1] == x then [BindNode(cv, k - 1, passName)] else [])
  }

  /** A pass's list yields a `bind` child for a slot exactly when that slot
      holds the object. */
  lemma {:induction false} SlotBindsExactly(cv: Conv, list: seq<string>, x: string, passName: string, k: nat, slot: nat)
    requires Coherent(cv) && k <= |list|
    ensures BindNode(cv, slot, passName) in SlotBinds(cv, list, x, passName, k) <==> slot < k && list[slot] == x
    decreases k
  {
    if k > 0 {
      SlotBindsExactly(cv, list, x, passName, k - 1, slot);
      if BindNode(cv, slot, passName) == BindNode(cv, k - 1, passName) {
        assert cv.asInt(cv.intText(slot)) == slot && cv.asInt(cv.intText(k - 1)) == k - 1;
      }
    }
  }

  /** The bind lists of a run of passes. */
  function BindLists(table: BindTables, passes: seq<ShaderPass>): (r: seq<seq<string>>)
    ensures |r| == |passes| && forall j :: 0 <= j < |passes| ==> r[j] == BindListOf(table, passes[j])
  {
    seq(|passes|, j requires 0 <= j < |passes| => BindListOf(table, passes[j]))
  }

  /** The `bind` children of object `x` for the first `m` passes, pass after
      pass. */
  function BindNodes(cv: Conv, lists: seq<seq<string>>, passNames: seq<string>, x: string, m: nat): (r: seq<Node>)
    requires m <= |lists| && m <= |passNames|
    ensures forall i :: 0 <= i < |r| ==> r[i].tag == "bind"
    decreases m
  {
    if m == 0 then []
    else BindNodes(cv, lists, passNames, x, m - 1) + SlotBinds(cv, lists[m - 1], x, passNames[m - 1], |lists[m - 1]|)
  }

  /** A buffer is bound through the uniform bind lists, any other object
      through the texture bind lists. */
  function BindTableOf(binds: BindTables, uniformBinds: BindTables, kind: ObjectKind): BindTables
  {
    if kind.Buffer? then uniformBinds else binds
  }

  /** The `object` element of the object called `name`, of kind `kind`,
      whose binds are kept in `table`. */
  function ObjectNode(cv: Conv, tables: Tables, passes: seq<ShaderPass>, passNames: seq<string>,
                      name: string, kind: ObjectKind, table: BindTables): Node
    requires |passNames| == |passes|
  {
    Node("object", ObjectAttrs(cv, tables, name, kind), "",
         BindNodes(cv, BindLists(table, passes), passNames, name, |passes|))
  }

  /** The `object` elements of the objects `names`, of kinds `kinds`, in
      that order. */
  function ObjectElements(cv: Conv, tables: Tables, passes: seq<ShaderPass>, passNames: seq<string>,
                          names: seq<string>, kinds: map<string, ObjectKind>, binds: BindTables, uniformBinds: BindTables)
    : (r: seq<Node>)
    requires |passNames| == |passes| && forall i :: 0 <= i < |names| ==> names[i] in kinds
    ensures |r| == |names|
    ensures forall i :: 0 <= i < |r| ==>
              r[i] == ObjectNode(cv, tables, passes, passNames, names[i], kinds[names[i]],
                                 BindTableOf(binds, uniformBinds, kinds[names[i]]))
  {
    seq(|names|, i requires 0 <= i < |names| =>
          ObjectNode(cv, tables, passes, passNames, names[i], kinds[names[i]], BindTableOf(binds, uniformBinds, kinds[names[i]])))
  }

  /** The `object` elements of the registry, in creation order. */
  function ObjectNodesOf(cv: Conv, tables: Tables, objects: ObjectManager, passes: seq<ShaderPass>, passNames: seq<string>)
    : (r: seq<Node>)
    requires objects.Valid() && |passNames| == |passes|
    reads objects
    ensures |r| == |objects.names|
    ensures forall i :: 0 <= i < |r| ==> r[i].tag == "object"
  {
    assert forall i :: 0 <= i < |objects.names| ==> objects.names[i] in objects.kinds;
    ObjectElements(cv, tables, passes, passNames, objects.names, objects.kinds, objects.binds, objects.uniformBinds)
  }

  /** The innermost loop of the objects section: a `bind` child for every slot
      of one pass's list that holds the object. */
  method WriteSlotBinds(cv: Conv, bound: seq<string>, name: string, passName: string) returns (kids: seq<Node>)
    ensures kids == SlotBinds(cv, bound, name, passName, |bound|)
  {
    kids := [];
    var slot := 0;
    while slot < |bound|
      invariant 0 <= slot <= |bound|
      invariant kids == SlotBinds(cv, bound, name, passName, slot)
    {
      if bound[slot] == name {
        kids := kids + [BindNode(cv, slot, passName)];
      }
      slot := slot + 1;
    }
  }

  /** The `bind` children of one object, pass after pass. */
  method WriteObjectBinds(cv: Conv, table: BindTables, passes: seq<ShaderPass>, passNames: seq<string>, name: string)
    returns (kids: seq<Node>)
    requires |passNames| == |passes|
    requires forall j :: 0 <= j < |passes| ==> passNames[j] == passes[j].name
    ensures kids == BindNodes(cv, BindLists(table, passes), passNames, name, |passes|)
  {
    ghost var lists := BindLists(table, passes);
    kids := [];
    var j := 0;
    while j < |passes|
      invariant 0 <= j <= |passes|
      invariant kids == BindNodes(cv, lists, passNames, name, j)
    {
      var bound := BindListOf(table, passes[j]);
      var more := WriteSlotBinds(cv, bound, name, passes[j].name);
      kids := kids + more;
      j := j + 1;
    }
  }

  /** The element of one object, with its `bind` children. */
  method WriteObject(cv: Conv, tables: Tables, passes: seq<ShaderPass>, passNames: seq<string>,
                     name: string, kind: ObjectKind, binds: BindTables, uniformBinds: BindTables) returns (n: Node)
    requires |passNames| == |passes|
    requires forall j :: 0 <= j < |passes| ==> passNames[j] == passes[j].name
    ensures n == ObjectNode(cv, tables, passes, passNames, name, kind, BindTableOf(binds, uniformBinds, kind))
  {
    var table := if kind.Buffer? then uniformBinds else binds;
    var kids := WriteObjectBinds(cv, table, passes, passNames, name);
    n := Node("object", ObjectAttrs(cv, tables, name, kind), "", kids);
  }

  /** The objects loop of `SaveAs` over the objects `names`: for every
      object, its element, and for every pass and every slot of the pass's
      bind list, a `bind` child when the slot holds the object. */
  method WriteElements(cv: Conv, tables: Tables, passes: seq<ShaderPass>, passNames: seq<string>,
                       names: seq<string>, kinds: map<string, ObjectKind>, binds: BindTables, uniformBinds: BindTables)
    returns (r: seq<Node>)
    requires |passNames| == |passes| && forall i :: 0 <= i < |names| ==> names[i] in kinds
    requires forall j :: 0 <= j < |passes| ==> passNames[j] == passes[j].name
    ensures r == ObjectElements(cv, tables, passes, passNames, names, kinds, binds, uniformBinds)
  {
    ghost var want := ObjectElements(cv, tables, passes, passNames, names, kinds, binds, uniformBinds);
    r := [];
    var i := 0;
    while i < |names|
      invariant 0 <= i <= |names|
      invariant r == want[..i]
    {
      var n := WriteObject(cv, tables, passes, passNames, names[i], kinds[names[i]], binds, uniformBinds);
      assert want[..i + 1] == want[..i] + [n];
      r := r + [n];
      i := i + 1;
    }
    assert want[..i] == want;
  }

  /** The objects section of `SaveAs`, over the registry's objects. */
  method WriteObjects(cv: Conv, tables: Tables, objects: ObjectManager, passes: seq<ShaderPass>, passNames: seq<string>)
    returns (r: seq<Node>)
    requires objects.Valid() && |passNames| == |passes|
    requires forall j :: 0 <= j < |passes| ==> passNames[j] == passes[j].name
    ensures r == ObjectNodesOf(cv, tables, objects, passes, passNames)
  {
    assert forall k :: 0 <= k < |objects.names| ==> objects.names[k] in objects.kinds;
    r := WriteElements(cv, tables, passes, passNames, objects.names, objects.kinds, objects.binds, objects.uniformBinds);
  }

  // ---- what the reader takes from one object element ----

  /** A path-named object (a plain texture or an audio file) keeps its name
      through the reader's generic path when the name has no backslash. */
  predicate NameKept(name: string, kind: ObjectKind)
  {
    kind.Texture? || kind.Audio? ==> '\\' !in name
  }

  lemma ObjectKeysDiffer()
    ensures "type" != "name" && "type" != "path" && "name" != "path" && "cube" != "type" && "cube" != "path"
    ensures "texture" != "rendertexture" && "texture" != "audio" && "texture" != "buffer"
    ensures "rendertexture" != "audio" && "rendertexture" != "buffer" && "audio" != "buffer"
  {
    assert "type"[0] == 't' && "name"[0] == 'n' && "path"[0] == 'p' && "cube"[0] == 'c';
    assert "texture"[0] == 't' && "audio"[0] == 'a' && "buffer"[0] == 'b';
  }

  /** The reader registers and binds a written element under the object's own
      name, and sends its binds to the table of its kind. */
  lemma ObjectElementRead(cv: Conv, tables: Tables, name: string, kind: ObjectKind, kids: seq<Node>)
    requires Coherent(cv) && NameKept(name, kind)
    ensures var n := Node("object", ObjectAttrs(cv, tables, name, kind), "", kids);
            && ObjectName(cv, n) == name
            && TableOfElement(false, n) == Some(kind.Buffer?)
  {
    var n := Node("object", ObjectAttrs(cv, tables, name, kind), "", kids);
    ObjectKeysDiffer();
    match kind
    case Texture =>
      assert AttrText(n, "type") == "texture" && !IsCube(cv, n);
      GenericPathKeepsGeneric(name);
    case CubeMap(_, _, _, _, _, _) =>
      assert AttrText(n, "type") == "texture";
      assert cv.asBool(cv.boolText(true));
      assert IsCube(cv, n);
    case RenderTexture(rt) =>
      assert AttrText(n, "type") == "rendertexture";
    case Audio =>
      assert AttrText(n, "type") == "audio";
      GenericPathKeepsGeneric(name);
    case Buffer(b) =>
      assert AttrText(n, "type") == "buffer";
  }

  // ---- what the bind children of one element do to the tables ----

  /** Phase 1 on the slots below `k` of one list that hold `x`: each of them,
      in order, is set to `x`. */
  function Overlay(t: seq<string>, list: seq<string>, x: string, k: nat): seq<string>
    requires k <= |list|
    decreases k
  {
    if k == 0 then t
    else
      var prior := Overlay(t, list, x, k - 1);
      if list[k - 1] == x then SetSlot(prior, k - 1, x) else prior
  }

  /** The pass that carries its name is found by it when pass names differ. */
  lemma TargetOfName(passes: seq<ShaderPass>, passNames: seq<string>, j: nat)
    requires Distinct(passNames) && |passNames| == |passes| && j < |passes|
    ensures Binding.Target(passes, passNames, passNames[j]) == Some(passes[j])
  {
    FirstInOfDistinct(passNames, j);
  }

  lemma BindAllAppend(cv: Conv, passes: seq<ShaderPass>, passNames: seq<string>, t: BindTables, a: seq<Node>, b: seq<Node>, x: string)
    ensures BindAll(cv, passes, passNames, t, a + b, x) == BindAll(cv, passes, passNames, BindAll(cv, passes, passNames, t, a, x), b, x)
  {
    FoldAppend(t, a, b, BindStep(cv, passes, passNames, x));
  }

  /** The `bind` children one list yields set, in the table of their pass,
      exactly the slots that hold `x`. */
  lemma {:induction false} SlotBindsEffect(cv: Conv, passes: seq<ShaderPass>, passNames: seq<string>, t: BindTables,
                                           list: seq<string>, x: string, j: nat, k: nat)
    requires Coherent(cv) && j < |passes| && j < |passNames| && k <= |list|
    requires Binding.Target(passes, passNames, passNames[j]) == Some(passes[j])
    ensures TableOf(BindAll(cv, passes, passNames, t, SlotBinds(cv, list, x, passNames[j], k), x), passes[j])
            == Overlay(TableOf(t, passes[j]), list, x, k)
    decreases k
  {
    if k > 0 {
      var pre := SlotBinds(cv, list, x, passNames[j], k - 1);
      SlotBindsEffect(cv, passes, passNames, t, list, x, j, k - 1);
      if list[k - 1] == x {
        assert SlotBinds(cv, list, x, passNames[j], k) == pre + [BindNode(cv, k - 1, passNames[j])];
        BindNodeStep(cv, passes, passNames, t, pre, x, j, k - 1);
      } else {
        assert SlotBinds(cv, list, x, passNames[j], k) == pre;
      }
    }
  }

  /** One more `bind` child for a pass that is found by its name sets one
      slot of that pass's table to the object's name. */
  lemma BindNodeStep(cv: Conv, passes: seq<ShaderPass>, passNames: seq<string>, t: BindTables,
                     pre: seq<Node>, x: string, j: nat, slot: nat)
    requires Coherent(cv) && j < |passes| && j < |passNames|
    requires Binding.Target(passes, passNames, passNames[j]) == Some(passes[j])
    ensures TableOf(BindAll(cv, passes, passNames, t, pre + [BindNode(cv, slot, passNames[j])], x), passes[j])
            == SetSlot(TableOf(BindAll(cv, passes, passNames, t, pre, x), passes[j]), slot, x)
  {
    var b := BindNode(cv, slot, passNames[j]);
    assert (pre + [b])[..|pre + [b]| - 1] == pre;
    assert AttrInt(cv, b, "slot") == slot by {
      assert cv.asInt(cv.intText(slot)) == slot;
    }
  }

  /** The `bind` children naming one pass leave every other pass's table as
      it was. */
  lemma OtherPassFrame(cv: Conv, passes: seq<ShaderPass>, passNames: seq<string>, t: BindTables,
                       list: seq<string>, x: string, passName: string, p: ShaderPass)
    requires Binding.Target(passes, passNames, passName) != Some(p)
    ensures TableOf(BindAll(cv, passes, passNames, t, SlotBinds(cv, list, x, passName, |list|), x), p) == TableOf(t, p)
  {
    BindAllFrame(cv, passes, passNames, t, SlotBinds(cv, list, x, passName, |list|), x, p);
  }

  predicate PassesDistinct(passes: seq<ShaderPass>)
  {
    forall i, j :: 0 <= i < j < |passes| ==> passes[i] != passes[j]
  }

  /** Every `bind` child of the first `m` passes names one of them. */
  lemma {:induction false} BindNodesNames(cv: Conv, lists: seq<seq<string>>, passNames: seq<string>, x: string, m: nat)
    requires m <= |lists| && m <= |passNames|
    ensures forall i :: 0 <= i < |BindNodes(cv, lists, passNames, x, m)| ==>
              exists k :: 0 <= k < m && passNames[k] == AttrText(BindNodes(cv, lists, passNames, x, m)[i], "name")
    decreases m
  {
    if m > 0 {
      BindNodesNames(cv, lists, passNames, x, m - 1);
      var pre := BindNodes(cv, lists, passNames, x, m - 1);
      var last := SlotBinds(cv, lists[m - 1], x, passNames[m - 1], |lists[m - 1]|);
      var r := BindNodes(cv, lists, passNames, x, m);
      assert r == pre + last;
      forall i | 0 <= i < |r|
        ensures exists k :: 0 <= k < m && passNames[k] == AttrText(r[i], "name")
      {
        if i < |pre| {
          assert r[i] == pre[i];
          var k :| 0 <= k < m - 1 && passNames[k] == AttrText(pre[i], "name");
          assert 0 <= k < m && passNames[k] == AttrText(r[i], "name");
        } else {
          assert r[i] == last[i - |pre|];
          assert passNames[m - 1] == AttrText(r[i], "name");
        }
      }
    } else {
      assert BindNodes(cv, lists, passNames, x, m) == [];
    }
  }

  lemma BindNodesStep(cv: Conv, passes: seq<ShaderPass>, passNames: seq<string>, lists: seq<seq<string>>,
                      t: BindTables, x: string, m: nat)
    requires 0 < m <= |lists| && m <= |passNames|
    ensures BindAll(cv, passes, passNames, t, BindNodes(cv, lists, passNames, x, m), x)
            == BindAll(cv, passes, passNames, BindAll(cv, passes, passNames, t, BindNodes(cv, lists, passNames, x, m - 1), x),
                       SlotBinds(cv, lists[m - 1], x, passNames[m - 1], |lists[m - 1]|), x)
  {
    BindAllAppend(cv, passes, passNames, t, BindNodes(cv, lists, passNames, x, m - 1),
                  SlotBinds(cv, lists[m - 1], x, passNames[m - 1], |lists[m - 1]|), x);
  }

  /** The `bind` children of the passes before `m` leave the table of a
      later pass as it was. */
  lemma BindNodesBefore(cv: Conv, passes: seq<ShaderPass>, passNames: seq<string>, lists: seq<seq<string>>,
                        t: BindTables, x: string, j: nat, m: nat)
    requires |lists| == |passes| && |passNames| == |passes| && m <= j < |passes|
    requires PassesDistinct(passes) && Distinct(passNames)
    ensures TableOf(BindAll(cv, passes, passNames, t, BindNodes(cv, lists, passNames, x, m), x), passes[j]) == TableOf(t, passes[j])
  {
    var binds := BindNodes(cv, lists, passNames, x, m);
    BindNodesNames(cv, lists, passNames, x, m);
    forall k | 0 <= k < |binds|
      ensures Binding.Target(passes, passNames, AttrText(binds[k], "name")) != Some(passes[j])
    {
      var i :| 0 <= i < m && passNames[i] == AttrText(binds[k], "name");
      TargetOfName(passes, passNames, i);
    }
    BindAllFrame(cv, passes, passNames, t, binds, x, passes[j]);
  }

  /** The `bind` children of pass `j` itself, read after those of the
      passes before it, overlay its table. */
  lemma OwnPassBinds(cv: Conv, passes: seq<ShaderPass>, passNames: seq<string>, lists: seq<seq<string>>,
                     t: BindTables, x: string, j: nat)
    requires Coherent(cv) && |lists| == |passes| && |passNames| == |passes| && j < |passes|
    requires PassesDistinct(passes) && Distinct(passNames)
    ensures TableOf(BindAll(cv, passes, passNames, t, BindNodes(cv, lists, passNames, x, j + 1), x), passes[j])
            == Overlay(TableOf(t, passes[j]), lists[j], x, |lists[j]|)
  {
    var t1 := BindAll(cv, passes, passNames, t, BindNodes(cv, lists, passNames, x, j), x);
    var own := SlotBinds(cv, lists[j], x, passNames[j], |lists[j]|);
    BindNodesStep(cv, passes, passNames, lists, t, x, j + 1);
    assert BindAll(cv, passes, passNames, t, BindNodes(cv, lists, passNames, x, j + 1), x) == BindAll(cv, passes, passNames, t1, own, x);
    TargetOfName(passes, passNames, j);
    SlotBindsEffect(cv, passes, passNames, t1, lists[j], x, j, |lists[j]|);
    BindNodesBefore(cv, passes, passNames, lists, t, x, j, j);
  }

  /** The `bind` children of a later pass leave the table of pass `j` as it
      was. */
  lemma LaterPassBinds(cv: Conv, passes: seq<ShaderPass>, passNames: seq<string>, lists: seq<seq<string>>,
                       t: BindTables, x: string, j: nat, m: nat)
    requires |lists| == |passes| && |passNames| == |passes| && j < m - 1 && m <= |passes|
    requires PassesDistinct(passes) && Distinct(passNames)
    ensures TableOf(BindAll(cv, passes, passNames, t, BindNodes(cv, lists, passNames, x, m), x), passes[j])
            == TableOf(BindAll(cv, passes, passNames, t, BindNodes(cv, lists, passNames, x, m - 1), x), passes[j])
  {
    BindNodesStep(cv, passes, passNames, lists, t, x, m);
    TargetOfName(passes, passNames, m - 1);
    assert passes[m - 1] != passes[j];
    var t1 := BindAll(cv, passes, passNames, t, BindNodes(cv, lists, passNames, x, m - 1), x);
    OtherPassFrame(cv, passes, passNames, t1, lists[m - 1], x, passNames[m - 1], passes[j]);
  }

  /** All `bind` children of object `x`: the table of pass `j` is overlaid
      with the slots of its own list that hold `x`. */
  lemma {:induction false} BindNodesEffect(cv: Conv, passes: seq<ShaderPass>, passNames: seq<string>, lists: seq<seq<string>>,
                                           t: BindTables, x: string, j: nat, m: nat)
    requires Coherent(cv) && |lists| == |passes| && |passNames| == |passes| && j < m <= |passes|
    requires PassesDistinct(passes) && Distinct(passNames)
    ensures TableOf(BindAll(cv, passes, passNames, t, BindNodes(cv, lists, passNames, x, m), x), passes[j])
            == Overlay(TableOf(t, passes[j]), lists[j], x, |lists[j]|)
    decreases m
  {
    if j == m - 1 {
      OwnPassBinds(cv, passes, passNames, lists, t, x, j);
    } else {
      BindNodesEffect(cv, passes, passNames, lists, t, x, j, m - 1);
      LaterPassBinds(cv, passes, passNames, lists, t, x, j, m);
    }
  }

  // ---- what the tables hold after a run of objects ----

  /** A table holds, at each slot of `list`, the name there when it is one of
      `done` and an empty slot otherwise, and it ends after the last slot
      that holds one of `done`. */
  ghost predicate Represents(t: seq<string>, list: seq<string>, done: set<string>)
  {
    && |t| <= |list|
    && (forall s :: 0 <= s < |t| ==> t[s] == if list[s] in done then list[s] else "")
    && (forall s :: 0 <= s < |list| && list[s] in done ==> s < |t|)
  }

  ghost predicate OverlaidUpTo(t: seq<string>, list: seq<string>, done: set<string>, x: string, k: nat)
  {
    && |t| <= |list|
    && (forall s :: 0 <= s < |t| ==> t[s] == if list[s] in done || (s < k && list[s] == x) then list[s] else "")
    && (forall s :: 0 <= s < |list| && (list[s] in done || (s < k && list[s] == x)) ==> s < |t|)
  }

  lemma {:induction false} OverlayUpTo(t: seq<string>, list: seq<string>, done: set<string>, x: string, k: nat)
    requires Represents(t, list, done) && k <= |list|
    ensures OverlaidUpTo(Overlay(t, list, x, k), list, done, x, k)
    decreases k
  {
    if k > 0 {
      OverlayUpTo(t, list, done, x, k - 1);
    }
  }

  /** Reading the binds of one more object `x` extends a represented table
      by `x`. */
  lemma OverlayRepresents(t: seq<string>, list: seq<string>, done: set<string>, x: string)
    requires Represents(t, list, done)
    ensures Represents(Overlay(t, list, x, |list|), list, done + {x})
  {
    OverlayUpTo(t, list, done, x, |list|);
  }

  /** A table that represents every name of its list is that list. */
  lemma RepresentsAll(t: seq<string>, list: seq<string>, done: set<string>)
    requires Represents(t, list, done)
    requires forall s :: 0 <= s < |list| ==> list[s] in done
    ensures t == list
  {
    if |list| > 0 {
      assert list[|list| - 1] in done;
    }
  }

  /** A list without empty slots commits in full. */
  lemma {:induction false} NonEmptyWhole(list: seq<string>)
    requires forall s :: 0 <= s < |list| ==> list[s] != ""
    ensures NonEmpty(list) == list
    decreases |list|
  {
    if list != [] {
      NonEmptyWhole(list[..|list| - 1]);
      assert list == list[..|list| - 1] + [list[|list| - 1]];
    }
  }

  // ---- the objects loop over the written elements ----

  /** The names among the first `i` objects whose binds go to the buffer
      table (`buffers`) or to the texture table (`!buffers`). */
  ghost function Done(names: seq<string>, kinds: map<string, ObjectKind>, buffers: bool, i: nat): set<string>
    requires i <= |names| && forall k :: 0 <= k < |names| ==> names[k] in kinds
    decreases i
  {
    if i == 0 then {}
    else Done(names, kinds, buffers, i - 1) + (if kinds[names[i - 1]].Buffer? == buffers then {names[i - 1]} else {})
  }

  lemma {:induction false} InDone(names: seq<string>, kinds: map<string, ObjectKind>, buffers: bool, i: nat, k: nat)
    requires i <= |names| && forall k :: 0 <= k < |names| ==> names[k] in kinds
    requires k < i && kinds[names[k]].Buffer? == buffers
    ensures names[k] in Done(names, kinds, buffers, i)
    decreases i
  {
    if k < i - 1 {
      InDone(names, kinds, buffers, i - 1, k);
    }
  }

  /** The buffer table (`buffers`) or the texture table of phase 1. */
  function TableSel(s: Phase1, buffers: bool): BindTables
  {
    if buffers then s.buffers else s.textures
  }

  /** What the reader does with the element of one object: the binds go,
      under the object's name, to the table of its kind and overlay, for
      each reading pass, the slots of the matching saved list that hold the
      object; the other table is left alone. */
  lemma ElementTables(cv: Conv, tables: Tables, newPasses: seq<ShaderPass>, saved: seq<ShaderPass>, passNames: seq<string>,
                      name: string, kind: ObjectKind, table: BindTables, s: Phase1, buffers: bool, j: nat)
    requires Coherent(cv) && NameKept(name, kind)
    requires |newPasses| == |saved| == |passNames| && j < |newPasses| && PassesDistinct(newPasses) && Distinct(passNames)
    ensures TableOf(TableSel(ReadObjectElement(cv, tables, false, newPasses, passNames, s,
                                               ObjectNode(cv, tables, saved, passNames, name, kind, table)), buffers), newPasses[j])
            == if kind.Buffer? == buffers
               then Overlay(TableOf(TableSel(s, buffers), newPasses[j]), BindListOf(table, saved[j]), name, |BindListOf(table, saved[j])|)
               else TableOf(TableSel(s, buffers), newPasses[j])
  {
    var lists := BindLists(table, saved);
    var kids := BindNodes(cv, lists, passNames, name, |saved|);
    var n := ObjectNode(cv, tables, saved, passNames, name, kind, table);
    assert n == Node("object", ObjectAttrs(cv, tables, name, kind), "", kids);
    ObjectElementRead(cv, tables, name, kind, kids);
    assert ObjectName(cv, n) == name && TableOfElement(false, n) == Some(kind.Buffer?);
    AllNamed(kids, "bind");
    assert ChildrenNamed(n, "bind") == kids;
    if kind.Buffer? {
      BindNodesEffect(cv, newPasses, passNames, lists, s.buffers, name, j, |saved|);
    } else {
      BindNodesEffect(cv, newPasses, passNames, lists, s.textures, name, j, |saved|);
    }
  }

  lemma ObjectsAfterStep(cv: Conv, tables: Tables, passes: seq<ShaderPass>, passNames: seq<string>, s0: Phase1,
                         nodes: seq<Node>, i: nat)
    requires 0 < i <= |nodes|
    ensures ObjectsAfter(cv, tables, false, passes, passNames, s0, nodes[..i])
            == ReadObjectElement(cv, tables, false, passes, passNames,
                                 ObjectsAfter(cv, tables, false, passes, passNames, s0, nodes[..i - 1]), nodes[i - 1])
  {
    assert nodes[..i][..i - 1] == nodes[..i - 1];
  }

  /** Reading the element of object `i - 1` extends what a table represents
      by that object, or leaves it when the object binds through the other
      table. */
  lemma ElementStep(cv: Conv, tables: Tables, newPasses: seq<ShaderPass>, saved: seq<ShaderPass>, passNames: seq<string>,
                    names: seq<string>, kinds: map<string, ObjectKind>, binds: BindTables, uniformBinds: BindTables,
                    s: Phase1, buffers: bool, i: nat, j: nat)
    requires Coherent(cv) && |newPasses| == |saved| == |passNames| && j < |newPasses| && PassesDistinct(newPasses) && Distinct(passNames)
    requires forall k :: 0 <= k < |names| ==> names[k] in kinds && NameKept(names[k], kinds[names[k]])
    requires 0 < i <= |names|
    requires Represents(TableOf(TableSel(s, buffers), newPasses[j]), BindListOf(if buffers then uniformBinds else binds, saved[j]),
                        Done(names, kinds, buffers, i - 1))
    ensures Represents(TableOf(TableSel(ReadObjectElement(cv, tables, false, newPasses, passNames, s,
                                                         ObjectElements(cv, tables, saved, passNames, names, kinds, binds, uniformBinds)[i - 1]),
                                        buffers), newPasses[j]),
                       BindListOf(if buffers then uniformBinds else binds, saved[j]), Done(names, kinds, buffers, i))
  {
    var list := BindListOf(if buffers then uniformBinds else binds, saved[j]);
    var name := names[i - 1];
    var kind := kinds[name];
    var table := BindTableOf(binds, uniformBinds, kind);
    ElementTables(cv, tables, newPasses, saved, passNames, name, kind, table, s, buffers, j);
    if kind.Buffer? == buffers {
      OverlayRepresents(TableOf(TableSel(s, buffers), newPasses[j]), list, Done(names, kinds, buffers, i - 1), name);
    } else {
      assert Done(names, kinds, buffers, i) == Done(names, kinds, buffers, i - 1);
    }
  }

  /** The same, stated over the objects loop's prefixes. */
  lemma TablesStep(cv: Conv, tables: Tables, newPasses: seq<ShaderPass>, saved: seq<ShaderPass>, passNames: seq<string>,
                   names: seq<string>, kinds: map<string, ObjectKind>, binds: BindTables, uniformBinds: BindTables,
                   s0: Phase1, buffers: bool, i: nat, j: nat)
    requires Coherent(cv) && |newPasses| == |saved| == |passNames| && j < |newPasses| && PassesDistinct(newPasses) && Distinct(passNames)
    requires forall k :: 0 <= k < |names| ==> names[k] in kinds && NameKept(names[k], kinds[names[k]])
    requires 0 < i <= |names|
    requires Represents(TableOf(TableSel(ObjectsAfter(cv, tables, false, newPasses, passNames, s0,
                                                      ObjectElements(cv, tables, saved, passNames, names, kinds, binds, uniformBinds)[..i - 1]),
                                         buffers), newPasses[j]),
                        BindListOf(if buffers then uniformBinds else binds, saved[j]), Done(names, kinds, buffers, i - 1))
    ensures Represents(TableOf(TableSel(ObjectsAfter(cv, tables, false, newPasses, passNames, s0,
                                                     ObjectElements(cv, tables, saved, passNames, names, kinds, binds, uniformBinds)[..i]),
                                        buffers), newPasses[j]),
                       BindListOf(if buffers then uniformBinds else binds, saved[j]), Done(names, kinds, buffers, i))
  {
    var nodes := ObjectElements(cv, tables, saved, passNames, names, kinds, binds, uniformBinds);
    ObjectsAfterStep(cv, tables, newPasses, passNames, s0, nodes, i);
    var s := ObjectsAfter(cv, tables, false, newPasses, passNames, s0, nodes[..i - 1]);
    ElementStep(cv, tables, newPasses, saved, passNames, names, kinds, binds, uniformBinds, s, buffers, i, j);
  }

  /** The tables after the elements of the first `i` objects: for every
      reading pass, each represents the saved list of the same position
      restricted to the objects read so far. */
  lemma {:induction false} TablesAfter(cv: Conv, tables: Tables, newPasses: seq<ShaderPass>, saved: seq<ShaderPass>, passNames: seq<string>,
                                       names: seq<string>, kinds: map<string, ObjectKind>, binds: BindTables, uniformBinds: BindTables,
                                       s0: Phase1, buffers: bool, i: nat, j: nat)
    requires Coherent(cv) && |newPasses| == |saved| == |passNames| && j < |newPasses| && PassesDistinct(newPasses) && Distinct(passNames)
    requires forall k :: 0 <= k < |names| ==> names[k] in kinds && NameKept(names[k], kinds[names[k]])
    requires i <= |names| && s0.textures == map[] && s0.buffers == map[]
    ensures Represents(TableOf(TableSel(ObjectsAfter(cv, tables, false, newPasses, passNames, s0,
                                                     ObjectElements(cv, tables, saved, passNames, names, kinds, binds, uniformBinds)[..i]),
                                        buffers), newPasses[j]),
                       BindListOf(if buffers then uniformBinds else binds, saved[j]), Done(names, kinds, buffers, i))
    decreases i
  {
    if i == 0 {
      var nodes := ObjectElements(cv, tables, saved, passNames, names, kinds, binds, uniformBinds);
      assert nodes[..0] == [];
      assert TableSel(s0, buffers) == map[];
    } else {
      TablesAfter(cv, tables, newPasses, saved, passNames, names, kinds, binds, uniformBinds, s0, buffers, i - 1, j);
      TablesStep(cv, tables, newPasses, saved, passNames, names, kinds, binds, uniformBinds, s0, buffers, i, j);
    }
  }

  /** Every name a list holds, when all of them are objects binding through
      the table `buffers` selects, is among them once all objects are read. */
  lemma AllDone(names: seq<string>, kinds: map<string, ObjectKind>, buffers: bool, list: seq<string>)
    requires forall x :: x in kinds <==> x in names
    requires forall s :: 0 <= s < |list| ==> list[s] in kinds && kinds[list[s]].Buffer? == buffers
    ensures forall k :: 0 <= k < |names| ==> names[k] in kinds
    ensures forall s :: 0 <= s < |list| ==> list[s] in Done(names, kinds, buffers, |names|)
  {
    forall s | 0 <= s < |list|
      ensures list[s] in Done(names, kinds, buffers, |names|)
    {
      assert list[s] in names;
      var k :| 0 <= k < |names| && names[k] == list[s];
      InDone(names, kinds, buffers, |names|, k);
    }
  }

  /** The saved bind lists hold only names of objects of the matching kind:
      textures, cube maps, render textures and audio files in the texture
      lists, buffers in the uniform lists; there are no empty slots. */
  ghost predicate SavedBinds(objects: ObjectManager, saved: seq<ShaderPass>)
    reads objects
  {
    forall j :: 0 <= j < |saved| ==>
      && (forall s :: 0 <= s < |BindListOf(objects.binds, saved[j])| ==>
            var x := BindListOf(objects.binds, saved[j])[s];
            x != "" && x in objects.kinds && !objects.kinds[x].Buffer?)
      && (forall s :: 0 <= s < |BindListOf(objects.uniformBinds, saved[j])| ==>
            var x := BindListOf(objects.uniformBinds, saved[j])[s];
            x != "" && x in objects.kinds && objects.kinds[x].Buffer?)
  }

  /** Every object a path names keeps that name when read back. */
  ghost predicate NamesKept(objects: ObjectManager)
    reads objects
  {
    forall x :: x in objects.kinds ==> NameKept(x, objects.kinds[x])
  }

  /** After every written element is read, the table of each reading pass
      is the saved list of the pass at the same position. */
  lemma TableReadBack(cv: Conv, tables: Tables, objects: ObjectManager, saved: seq<ShaderPass>, newPasses: seq<ShaderPass>,
                      passNames: seq<string>, buffers: bool, j: nat)
    requires Coherent(cv) && objects.Valid() && NamesKept(objects) && SavedBinds(objects, saved)
    requires |newPasses| == |saved| == |passNames| && j < |newPasses| && PassesDistinct(newPasses) && Distinct(passNames)
    ensures TableOf(TableSel(ObjectsAfter(cv, tables, false, newPasses, passNames, Phase1([], map[], map[], map[]),
                                          ObjectNodesOf(cv, tables, objects, saved, passNames)), buffers), newPasses[j])
            == BindListOf(if buffers then objects.uniformBinds else objects.binds, saved[j])
  {
    var names, kinds := objects.names, objects.kinds;
    var list := BindListOf(if buffers then objects.uniformBinds else objects.binds, saved[j]);
    AllDone(names, kinds, buffers, list);
    var nodes := ObjectElements(cv, tables, saved, passNames, names, kinds, objects.binds, objects.uniformBinds);
    assert nodes[..|names|] == nodes;
    TablesAfter(cv, tables, newPasses, saved, passNames, names, kinds, objects.binds, objects.uniformBinds,
                Phase1([], map[], map[], map[]), buffers, |names|, j);
    var s := ObjectsAfter(cv, tables, false, newPasses, passNames, Phase1([], map[], map[], map[]), nodes);
    RepresentsAll(TableOf(TableSel(s, buffers), newPasses[j]), list, Done(names, kinds, buffers, |names|));
  }

  /** Saving and reopening keeps every pass's bindings: once the written
      objects are read against the reopened passes, which carry the saved
      passes' names, and the bindings are committed, each reopened pass has
      the texture bind list and the uniform buffer bind list of the saved
      pass at its position, slot for slot. */
  lemma BindsRoundTrip(cv: Conv, tables: Tables, objects: ObjectManager, saved: seq<ShaderPass>, newPasses: seq<ShaderPass>,
                       passNames: seq<string>, j: nat)
    requires Coherent(cv) && objects.Valid() && NamesKept(objects) && SavedBinds(objects, saved)
    requires |newPasses| == |saved| == |passNames| && j < |newPasses| && PassesDistinct(newPasses) && Distinct(passNames)
    ensures BindListOf(RegistryAfter(cv, tables, false, newPasses, passNames, EmptyRegistry,
                                     ObjectNodesOf(cv, tables, objects, saved, passNames)).binds, newPasses[j])
            == BindListOf(objects.binds, saved[j])
    ensures BindListOf(RegistryAfter(cv, tables, false, newPasses, passNames, EmptyRegistry,
                                     ObjectNodesOf(cv, tables, objects, saved, passNames)).uniformBinds, newPasses[j])
            == BindListOf(objects.uniformBinds, saved[j])
  {
    var nodes := ObjectNodesOf(cv, tables, objects, saved, passNames);
    var s := ObjectsAfter(cv, tables, false, newPasses, passNames, Phase1([], map[], map[], map[]), nodes);
    TableReadBack(cv, tables, objects, saved, newPasses, passNames, false, j);
    TableReadBack(cv, tables, objects, saved, newPasses, passNames, true, j);
    NonEmptyWhole(BindListOf(objects.binds, saved[j]));
    NonEmptyWhole(BindListOf(objects.uniformBinds, saved[j]));
    CommittedList(map[], newPasses, s.textures, newPasses[j]);
    CommittedList(map[], newPasses, s.buffers, newPasses[j]);
  }
}
