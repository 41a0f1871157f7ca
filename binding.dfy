/** The two-phase binding of objects to passes. While the object elements are
    read, each `bind` child only records the object's name in a per-pass
    table (`boundTextures`, `boundUBOs`) at its slot; once every object
    exists, the tables are committed to the registry with `Bind` and
    `BindUniform`. */
module Binding {
  import opened Common
  import opened Document
  import opened Names
  import opened Pipeline
  import opened Objects

  /** `std::map<PipelineItem*, std::vector<std::string>>`: the names waiting
      to be bound to each pass, by slot. */
  type BindTables = map<ShaderPass, seq<string>>

  /** `tables[pass]`, which is empty until something is stored in it. */
  function TableOf(t: BindTables, p: ShaderPass): seq<string>
  {
    if p in t then t[p] else []
  }

  /** `if (t.size() <= slot) t.resize(slot + 1); t[slot] = name;` */
  function SetSlot(t: seq<string>, slot: nat, name: string): (r: seq<string>)
    ensures |r| == if slot < |t| then |t| else slot + 1
    ensures r[slot] == name
    ensures forall k :: 0 <= k < |t| && k != slot ==> r[k] == t[k]
    ensures forall k :: |t| <= k < |r| && k != slot ==> r[k] == ""
  {
    var grown := if |t| <= slot then t + seq(slot + 1 - |t|, _ => "") else t;
    grown[slot := name]
  }

  /** The pass a `bind` child names: the first of the pipeline's passes with
      that name (the search over `m_pipe->GetList()` that `break`s on the
      first match), given the passes and their names. */
  function Target(passes: seq<ShaderPass>, passNames: seq<string>, passName: string): (r: Option<ShaderPass>)
    ensures r.Some? ==> r.value in passes
    ensures |passNames| == |passes| ==> (r.None? <==> passName !in passNames)
  {
    match FirstIn(passNames, passName)
    case Some(i) => if i < |passes| then Some(passes[i]) else None
    case None => None
  }

  /** Phase 1 for one `bind` child of an object named `objName`: the table
      of the pass it names grows to hold the slot, the slot takes the name,
      every other entry and every other pass's table stays as it was, and new
      entries are empty. A bind naming no pass changes nothing. */
  function BindToPass(t: BindTables, passes: seq<ShaderPass>, passNames: seq<string>, passName: string, slot: int, objName: string): BindTables
  {
    match Target(passes, passNames, passName)
    case None => t
    case Some(p) => if slot < 0 then t else t[p := SetSlot(TableOf(t, p), slot, objName)]
  }

  lemma BindPhaseOne(t: BindTables, passes: seq<ShaderPass>, passNames: seq<string>, passName: string, slot: int, objName: string)
    ensures var r := BindToPass(t, passes, passNames, passName, slot, objName);
            Target(passes, passNames, passName).None? || slot < 0 ==> r == t
    ensures var r := BindToPass(t, passes, passNames, passName, slot, objName);
            forall q :: Target(passes, passNames, passName) != Some(q) ==> TableOf(r, q) == TableOf(t, q)
    ensures var r := BindToPass(t, passes, passNames, passName, slot, objName);
            Target(passes, passNames, passName).Some? && slot >= 0 ==>
              var p := Target(passes, passNames, passName).value;
              && |TableOf(r, p)| >= slot + 1
              && |TableOf(r, p)| >= |TableOf(t, p)|
              && TableOf(r, p)[slot] == objName
              && (forall k :: 0 <= k < |TableOf(t, p)| && k != slot ==> TableOf(r, p)[k] == TableOf(t, p)[k])
              && (forall k :: |TableOf(t, p)| <= k < |TableOf(r, p)| && k != slot ==> TableOf(r, p)[k] == "")
    ensures var r := BindToPass(t, passes, passNames, passName, slot, objName);
            forall q :: q in r ==> q in t || q in passes
  {
  }

  /** The reading loop's step over one `bind` child. */
  function BindStep(cv: Conv, passes: seq<ShaderPass>, passNames: seq<string>, objName: string): (BindTables, Node) -> BindTables
  {
    (t: BindTables, b: Node) => BindToPass(t, passes, passNames, AttrText(b, "name"), AttrInt(cv, b, "slot"), objName)
  }

  /** All `bind` children of one object element. */
  function BindAll(cv: Conv, passes: seq<ShaderPass>, passNames: seq<string>, t: BindTables, binds: seq<Node>, objName: string): BindTables
  {
    Fold(t, binds, BindStep(cv, passes, passNames, objName))
  }

  /** Phase 1 only ever stores the object's own name: every entry already in
      a table keeps its value or takes that name, and tables never shrink. */
  lemma {:induction false} BindAllWritesOnlyItsName(cv: Conv, passes: seq<ShaderPass>, passNames: seq<string>, t: BindTables, binds: seq<Node>, objName: string, p: ShaderPass)
    ensures var r := TableOf(BindAll(cv, passes, passNames, t, binds, objName), p);
            && |TableOf(t, p)| <= |r|
            && forall k :: 0 <= k < |TableOf(t, p)| ==> r[k] == TableOf(t, p)[k] || r[k] == objName
    decreases |binds|
  {
    if binds != [] {
      var init := binds[..|binds| - 1];
      BindAllWritesOnlyItsName(cv, passes, passNames, t, init, objName, p);
    }
  }

  /** A pass no `bind` child names keeps its table. */
  lemma {:induction false} BindAllFrame(cv: Conv, passes: seq<ShaderPass>, passNames: seq<string>, t: BindTables, binds: seq<Node>, objName: string, p: ShaderPass)
    requires forall k :: 0 <= k < |binds| ==> Target(passes, passNames, AttrText(binds[k], "name")) != Some(p)
    ensures TableOf(BindAll(cv, passes, passNames, t, binds, objName), p) == TableOf(t, p)
    decreases |binds|
  {
    if binds != [] {
      var init := binds[..|binds| - 1];
      BindAllFrame(cv, passes, passNames, t, init, objName, p);
    }
  }

  /** Some `bind` child names a pass. */
  predicate AnyMatch(passes: seq<ShaderPass>, passNames: seq<string>, binds: seq<Node>)
  {
    exists k :: 0 <= k < |binds| && Target(passes, passNames, AttrText(binds[k], "name")).Some?
  }

  lemma AnyMatchSnoc(passes: seq<ShaderPass>, passNames: seq<string>, binds: seq<Node>, i: nat)
    requires i < |binds|
    ensures AnyMatch(passes, passNames, binds[..i + 1])
            <==> AnyMatch(passes, passNames, binds[..i]) || Target(passes, passNames, AttrText(binds[i], "name")).Some?
  {
    var pre := binds[..i + 1];
    if Target(passes, passNames, AttrText(binds[i], "name")).Some? {
      assert pre[i] == binds[i];
    }
    if AnyMatch(passes, passNames, binds[..i]) {
      var k :| 0 <= k < i && Target(passes, passNames, AttrText(binds[..i][k], "name")).Some?;
      assert pre[k] == binds[..i][k];
    }
    if AnyMatch(passes, passNames, pre) {
      var k :| 0 <= k < i + 1 && Target(passes, passNames, AttrText(pre[k], "name")).Some?;
      if k < i {
        assert pre[k] == binds[..i][k];
      }
    }
  }

  /** The registry's objects after `Create(name, kind)`. */
  function Created(names: seq<string>, kinds: map<string, ObjectKind>, name: string, kind: ObjectKind): (seq<string>, map<string, ObjectKind>)
  {
    if name in kinds then (names, kinds) else (names + [name], kinds[name := kind])
  }

  /** The `bind` loop of an object element (texture, render texture, audio or
      buffer). */
  method ReadBinds(cv: Conv, passes: seq<ShaderPass>, passNames: seq<string>, t: BindTables, binds: seq<Node>, objName: string)
    returns (r: BindTables)
    ensures r == BindAll(cv, passes, passNames, t, binds, objName)
  {
    r := ReadChildren(t, binds, BindStep(cv, passes, passNames, objName));
  }

  /** One `bind` child of a texture or cube-map element. */
  method ReadTextureBind(cv: Conv, objects: ObjectManager, passes: seq<ShaderPass>, passNames: seq<string>,
                         t: BindTables, b: Node, objName: string, kind: ObjectKind)
    returns (r: BindTables)
    requires objects.Valid()
    modifies objects
    ensures objects.Valid()
    ensures r == BindStep(cv, passes, passNames, objName)(t, b)
    ensures (objects.names, objects.kinds) ==
              if Target(passes, passNames, AttrText(b, "name")).Some? then Created(old(objects.names), old(objects.kinds), objName, kind)
              else (old(objects.names), old(objects.kinds))
    ensures objects.binds == old(objects.binds) && objects.uniformBinds == old(objects.uniformBinds)
  {
    r := BindToPass(t, passes, passNames, AttrText(b, "name"), AttrInt(cv, b, "slot"), objName);
    if Target(passes, passNames, AttrText(b, "name")).Some? {
      objects.Create(objName, kind);
    }
  }

  /** The `bind` loop of a texture or cube-map element, which also creates
      the object inside every bind that names a pass: the object is created
      exactly when some bind matched. */
  method ReadTextureBinds(cv: Conv, objects: ObjectManager, passes: seq<ShaderPass>, passNames: seq<string>,
                          t: BindTables, binds: seq<Node>, objName: string, kind: ObjectKind)
    returns (r: BindTables)
    requires objects.Valid()
    modifies objects
    ensures objects.Valid()
    ensures r == BindAll(cv, passes, passNames, t, binds, objName)
    ensures (objects.names, objects.kinds) ==
              if AnyMatch(passes, passNames, binds) then Created(old(objects.names), old(objects.kinds), objName, kind)
              else (old(objects.names), old(objects.kinds))
    ensures objects.binds == old(objects.binds) && objects.uniformBinds == old(objects.uniformBinds)
  {
    r := t;
    var i := 0;
    assert binds[..0] == [];
    while i < |binds|
      invariant 0 <= i <= |binds|
      invariant objects.Valid()
      invariant r == BindAll(cv, passes, passNames, t, binds[..i], objName)
      invariant (objects.names, objects.kinds) ==
                  if AnyMatch(passes, passNames, binds[..i]) then Created(old(objects.names), old(objects.kinds), objName, kind)
                  else (old(objects.names), old(objects.kinds))
      invariant objects.binds == old(objects.binds) && objects.uniformBinds == old(objects.uniformBinds)
    {
      assert binds[..i + 1][..i] == binds[..i];
      AnyMatchSnoc(passes, passNames, binds, i);
      r := ReadTextureBind(cv, objects, passes, passNames, r, binds[i], objName, kind);
      i := i + 1;
    }
    assert binds[..i] == binds;
  }

  // ---- phase 2 ----

  /** The names of a table in slot order, empty slots skipped. */
  function NonEmpty(names: seq<string>): (r: seq<string>)
    ensures |r| <= |names|
    ensures forall x :: x in r <==> x in names && x != ""
    decreases |names|
  {
    if names == [] then []
    else
      var prefix := NonEmpty(names[..|names| - 1]);
      var last := names[|names| - 1];
      assert names == names[..|names| - 1] + [last];
      if last != "" then prefix + [last] else prefix
  }

  /** Skipping empty slots distributes over concatenation. */
  lemma {:induction false} NonEmptyAppend(a: seq<string>, b: seq<string>)
    ensures NonEmpty(a + b) == NonEmpty(a) + NonEmpty(b)
    decreases |b|
  {
    if b == [] {
      assert a + b == a;
    } else {
      assert (a + b)[..|a + b| - 1] == a + b[..|b| - 1];
      NonEmptyAppend(a, b[..|b| - 1]);
    }
  }

  /** A one-slot table commits its name unless the slot is empty. */
  lemma NonEmptySingle(name: string)
    ensures NonEmpty([name]) == if name == "" then [] else [name]
  {
    assert [name][..0] == [];
  }

  /** A bind list map after `names` are appended to the list of `p`, in
      order; appending nothing leaves the map as it was. */
  function Appended(m: BindTables, p: ShaderPass, names: seq<string>): BindTables
  {
    if names == [] then m else m[p := BindListOf(m, p) + names]
  }

  /** Appending only reaches the one pass's list. */
  lemma AppendedList(m: BindTables, p: ShaderPass, names: seq<string>, q: ShaderPass)
    ensures BindListOf(Appended(m, p, names), q) == BindListOf(m, q) + (if q == p then names else [])
  {
  }

  /** Two appends to one pass are one append of both runs. */
  lemma AppendedTwice(m: BindTables, p: ShaderPass, a: seq<string>, b: seq<string>)
    ensures Appended(Appended(m, p, a), p, b) == Appended(m, p, a + b)
  {
    if a == [] {
      assert a + b == b;
    } else if b == [] {
      assert a + b == a;
    } else {
      assert (BindListOf(m, p) + a) + b == BindListOf(m, p) + (a + b);
    }
  }

  /** Phase 2 over a run of passes: each pass's list gains its table's
      names, empty slots skipped. */
  function Committed(m: BindTables, passes: seq<ShaderPass>, tables: BindTables): BindTables
    decreases |passes|
  {
    if passes == [] then m
    else
      var p := passes[|passes| - 1];
      Appended(Committed(m, passes[..|passes| - 1], tables), p, NonEmpty(TableOf(tables, p)))
  }

  /** When the passes are distinct, every pass's list ends up as it was
      followed by the names of its own table, and a pass outside the run
      keeps its list; so the order in which the passes are visited does not
      matter. */
  lemma {:induction false} CommittedList(m: BindTables, passes: seq<ShaderPass>, tables: BindTables, q: ShaderPass)
    requires forall i, j :: 0 <= i < j < |passes| ==> passes[i] != passes[j]
    ensures BindListOf(Committed(m, passes, tables), q) == BindListOf(m, q) + (if q in passes then NonEmpty(TableOf(tables, q)) else [])
    decreases |passes|
  {
    if passes == [] {
      assert BindListOf(m, q) + [] == BindListOf(m, q);
    } else {
      var init := passes[..|passes| - 1];
      var p := passes[|passes| - 1];
      assert passes == init + [p];
      CommittedList(m, init, tables, q);
      AppendedList(Committed(m, init, tables), p, NonEmpty(TableOf(tables, p)), q);
      if q == p {
        assert q !in init;
        assert BindListOf(m, q) + [] == BindListOf(m, q);
      } else {
        assert q in passes <==> q in init;
        assert BindListOf(Committed(m, init, tables), q) + [] == BindListOf(Committed(m, init, tables), q);
      }
    }
  }

  /** `for (auto id : table) if (!id.empty()) Bind(id, pass)`: the pass's
      bind list gains the table's names in slot order, empty slots skipped;
      no other list changes. */
  method CommitTextures(objects: ObjectManager, pass: ShaderPass, table: seq<string>)
    modifies objects
    ensures objects.binds == Appended(old(objects.binds), pass, NonEmpty(table))
    ensures objects.uniformBinds == old(objects.uniformBinds)
    ensures objects.names == old(objects.names) && objects.kinds == old(objects.kinds)
  {
    var slot := 0;
    while slot < |table|
      invariant 0 <= slot <= |table|
      invariant objects.binds == Appended(old(objects.binds), pass, NonEmpty(table[..slot]))
      invariant objects.uniformBinds == old(objects.uniformBinds)
      invariant objects.names == old(objects.names) && objects.kinds == old(objects.kinds)
    {
      var id := table[slot];
      assert table[..slot + 1] == table[..slot] + [id];
      NonEmptyAppend(table[..slot], [id]);
      NonEmptySingle(id);
      AppendedTwice(old(objects.binds), pass, NonEmpty(table[..slot]), NonEmpty([id]));
      if id != "" {
        objects.Bind(id, pass);
      }
      slot := slot + 1;
    }
    assert table[..slot] == table;
  }

  /** The same loop over a buffer table with `BindUniform`. */
  method CommitBuffers(objects: ObjectManager, pass: ShaderPass, table: seq<string>)
    modifies objects
    ensures objects.uniformBinds == Appended(old(objects.uniformBinds), pass, NonEmpty(table))
    ensures objects.binds == old(objects.binds)
    ensures objects.names == old(objects.names) && objects.kinds == old(objects.kinds)
  {
    var slot := 0;
    while slot < |table|
      invariant 0 <= slot <= |table|
      invariant objects.uniformBinds == Appended(old(objects.uniformBinds), pass, NonEmpty(table[..slot]))
      invariant objects.binds == old(objects.binds)
      invariant objects.names == old(objects.names) && objects.kinds == old(objects.kinds)
    {
      var id := table[slot];
      assert table[..slot + 1] == table[..slot] + [id];
      NonEmptyAppend(table[..slot], [id]);
      NonEmptySingle(id);
      AppendedTwice(old(objects.uniformBinds), pass, NonEmpty(table[..slot]), NonEmpty([id]));
      if id != "" {
        objects.BindUniform(id, pass);
      }
      slot := slot + 1;
    }
    assert table[..slot] == table;
  }

  /** Phase 2 for textures, render textures and audio, over the passes in
      pipeline order (`CommittedList` gives each pass's resulting list). */
  method CommitAllTextures(objects: ObjectManager, passes: seq<ShaderPass>, tables: BindTables)
    modifies objects
    ensures objects.binds == Committed(old(objects.binds), passes, tables)
    ensures objects.uniformBinds == old(objects.uniformBinds)
    ensures objects.names == old(objects.names) && objects.kinds == old(objects.kinds)
  {
    var i := 0;
    while i < |passes|
      invariant 0 <= i <= |passes|
      invariant objects.binds == Committed(old(objects.binds), passes[..i], tables)
      invariant objects.uniformBinds == old(objects.uniformBinds)
      invariant objects.names == old(objects.names) && objects.kinds == old(objects.kinds)
    {
      var p := passes[i];
      assert passes[..i + 1][..i] == passes[..i];
      CommitTextures(objects, p, TableOf(tables, p));
      i := i + 1;
    }
    assert passes[..i] == passes;
  }

  /** Phase 2 for buffers, from their own tables, through `BindUniform`. */
  method CommitAllBuffers(objects: ObjectManager, passes: seq<ShaderPass>, tables: BindTables)
    modifies objects
    ensures objects.uniformBinds == Committed(old(objects.uniformBinds), passes, tables)
    ensures objects.binds == old(objects.binds)
    ensures objects.names == old(objects.names) && objects.kinds == old(objects.kinds)
  {
    var i := 0;
    while i < |passes|
      invariant 0 <= i <= |passes|
      invariant objects.uniformBinds == Committed(old(objects.uniformBinds), passes[..i], tables)
      invariant objects.binds == old(objects.binds)
      invariant objects.names == old(objects.names) && objects.kinds == old(objects.kinds)
    {
      var p := passes[i];
      assert passes[..i + 1][..i] == passes[..i];
      CommitBuffers(objects, p, TableOf(tables, p));
      i := i + 1;
    }
    assert passes[..i] == passes;
  }
}
