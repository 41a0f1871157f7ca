/** The geometry and model pipeline items (`pipe::GeometryItem`,
    `pipe::Model`): how ProjectParser.cpp reads them from an `item` element
    and how `SaveAs` writes them, and the dispatch over an item's `type`
    attribute. */
module Items {
  import opened Common
  import opened Document
  import opened Names
  import opened Paths
  import opened RenderStates

  /** `x != 0.0f` in the writer is an IEEE comparison: both zeros compare
      equal to 0, so neither is written. `x != 1.0f` singles out one bit
      pattern. */
  const NegativeZero: Scalar := Scalar(0x8000_0000)

  predicate IsZero(x: Scalar)
  {
    x == Zero || x == NegativeZero
  }

  predicate NoNegativeZero(v: Vec3)
  {
    v.x != NegativeZero && v.y != NegativeZero && v.z != NegativeZero
  }

  /** A zero that the writer leaves out comes back as +0. */
  function Settled(v: Vec3): (r: Vec3)
    ensures NoNegativeZero(v) ==> r == v
  {
    Vec3(if IsZero(v.x) then Zero else v.x, if IsZero(v.y) then Zero else v.y, if IsZero(v.z) then Zero else v.z)
  }

  /** Scale, rotation (pitch in `x`, yaw in `y`, roll in `z`) and position,
      shared by geometry and model items. */
  datatype Transform = Transform(scale: Vec3, rotation: Vec3, position: Vec3)

  /** What the reader sets before looking at the children: unit scale, no
      rotation, at the origin. */
  const FreshTransform: Transform := Transform(Vec3One, Vec3Zero, Vec3Zero)

  /** The transform as a save and a reload leave it: a rotation or position
      component that is -0 was not written and is read back as +0. */
  function ReloadedTransform(tr: Transform): (r: Transform)
    ensures NoNegativeZero(tr.rotation) && NoNegativeZero(tr.position) ==> r == tr
  {
    Transform(tr.scale, Settled(tr.rotation), Settled(tr.position))
  }

  datatype TransformField = ScaleX | ScaleY | ScaleZ | Roll | Yaw | Pitch | PositionX | PositionY | PositionZ

  /** The transform tags, in the reader's order. */
  function TransformFieldOf(tag: string): Option<TransformField>
  {
    if tag == "scaleX" then Some(ScaleX)
    else if tag == "scaleY" then Some(ScaleY)
    else if tag == "scaleZ" then Some(ScaleZ)
    else if tag == "roll" then Some(Roll)
    else if tag == "yaw" then Some(Yaw)
    else if tag == "pitch" then Some(Pitch)
    else if tag == "x" then Some(PositionX)
    else if tag == "y" then Some(PositionY)
    else if tag == "z" then Some(PositionZ)
    else None
  }

  function SetTransform(tr: Transform, f: TransformField, v: Scalar): Transform
  {
    match f
    case ScaleX => tr.(scale := tr.scale.(x := v))
    case ScaleY => tr.(scale := tr.scale.(y := v))
    case ScaleZ => tr.(scale := tr.scale.(z := v))
    case Roll => tr.(rotation := tr.rotation.(z := v))
    case Yaw => tr.(rotation := tr.rotation.(y := v))
    case Pitch => tr.(rotation := tr.rotation.(x := v))
    case PositionX => tr.(position := tr.position.(x := v))
    case PositionY => tr.(position := tr.position.(y := v))
    case PositionZ => tr.(position := tr.position.(z := v))
  }

  /** The transform children the writer emits: a scale component when it is
      not 1, a rotation or position component when it is not 0, in the order
      scale x, y, z, roll, pitch, yaw, position x, y, z. */
  function TransformEntries(cv: Conv, tr: Transform): seq<Entry>
  {
    ScaleEntries(cv, tr) + RotationEntries(cv, tr) + PositionEntries(cv, tr)
  }

  function ScaleEntries(cv: Conv, tr: Transform): seq<Entry>
  {
    [ Entry(tr.scale.x != One, "scaleX", cv.floatText(tr.scale.x)),
      Entry(tr.scale.y != One, "scaleY", cv.floatText(tr.scale.y)),
      Entry(tr.scale.z != One, "scaleZ", cv.floatText(tr.scale.z)) ]
  }

  function RotationEntries(cv: Conv, tr: Transform): seq<Entry>
  {
    [ Entry(!IsZero(tr.rotation.z), "roll", cv.floatText(tr.rotation.z)),
      Entry(!IsZero(tr.rotation.x), "pitch", cv.floatText(tr.rotation.x)),
      Entry(!IsZero(tr.rotation.y), "yaw", cv.floatText(tr.rotation.y)) ]
  }

  function PositionEntries(cv: Conv, tr: Transform): seq<Entry>
  {
    [ Entry(!IsZero(tr.position.x), "x", cv.floatText(tr.position.x)),
      Entry(!IsZero(tr.position.y), "y", cv.floatText(tr.position.y)),
      Entry(!IsZero(tr.position.z), "z", cv.floatText(tr.position.z)) ]
  }

  /** `pipe::GeometryItem`: the shape (an index into the geometry names), its
      size, its transform and its primitive topology. */
  datatype Geometry = Geometry(kind: nat, size: Vec3, transform: Transform, topology: GLenum)

  /** `new pipe::GeometryItem` with the reader's transform. The constructor is
      in a header that is not part of this model; shape 0 (a cube), a zero
      size and triangles stand for what it leaves. */
  const FreshGeometry: Geometry := Geometry(0, Vec3Zero, FreshTransform, GL_TRIANGLES)

  datatype GeometryField = SizeWidth | SizeHeight | SizeDepth | GeometryPlacement(f: TransformField) | Topology | Shape

  /** The tags of a geometry item, in the reader's order. */
  function GeometryFieldOf(tag: string): Option<GeometryField>
  {
    if tag == "width" then Some(SizeWidth)
    else if tag == "height" then Some(SizeHeight)
    else if tag == "depth" then Some(SizeDepth)
    else match TransformFieldOf(tag)
      case Some(f) => Some(GeometryPlacement(f))
      case None =>
        if tag == "topology" then Some(Topology)
        else if tag == "type" then Some(Shape)
        else None
  }

  /** What each tag sets. Topology and shape take the LAST table entry whose
      name matches, and keep their value when none does. */
  function SetGeometryField(cv: Conv, tables: Tables, g: Geometry, f: GeometryField, t: string): Geometry
  {
    var x := cv.asFloat(t);
    match f
    case SizeWidth => g.(size := g.size.(x := x))
    case SizeHeight => g.(size := g.size.(y := x))
    case SizeDepth => g.(size := g.size.(z := x))
    case GeometryPlacement(p) => g.(transform := SetTransform(g.transform, p, x))
    case Topology => g.(topology := LastValue(tables.topology, t, g.topology))
    case Shape => g.(kind := LastPosition(tables.geometry, t, g.kind))
  }

  function GeometryStep(cv: Conv, tables: Tables, g: Geometry, n: Node): Geometry
  {
    match GeometryFieldOf(n.tag)
    case None => g
    case Some(f) => SetGeometryField(cv, tables, g, f, n.text)
  }

  function GeometryStepper(cv: Conv, tables: Tables): (Geometry, Node) -> Geometry
  {
    (g, n) => GeometryStep(cv, tables, g, n)
  }

  /** A `geometry` item. */
  function ReadGeometry(cv: Conv, tables: Tables, item: Node): Geometry
  {
    Fold(FreshGeometry, item.children, GeometryStepper(cv, tables))
  }

  /** The shape name and the three sizes, always written, shape first. */
  function ShapeEntries(cv: Conv, tables: Tables, g: Geometry): seq<Entry>
  {
    [ Entry(true, "type", NameAt(tables.geometry, g.kind)),
      Entry(true, "width", cv.floatText(g.size.x)),
      Entry(true, "height", cv.floatText(g.size.y)),
      Entry(true, "depth", cv.floatText(g.size.z)) ]
  }

  /** The topology is written under the name of the first entry carrying
      it, and not at all when no entry does. */
  function TopologyEntry(tables: Tables, g: Geometry): Entry
  {
    Entry(HasValue(tables.topology, g.topology), "topology", NameOf(tables.topology, g.topology))
  }

  function GeometryEntries(cv: Conv, tables: Tables, g: Geometry): seq<Entry>
  {
    ShapeEntries(cv, tables, g) + TransformEntries(cv, g.transform) + [TopologyEntry(tables, g)]
  }

  function GeometryNodes(cv: Conv, tables: Tables, g: Geometry): seq<Node>
  {
    Emit(GeometryEntries(cv, tables, g))
  }

  /** The geometry as a save and a reload leave it: the topology falls back
      to the fresh one when no table entry carries it. */
  function ReloadedGeometry(tables: Tables, g: Geometry): Geometry
  {
    Geometry(g.kind, g.size, ReloadedTransform(g.transform),
             if HasValue(tables.topology, g.topology) then g.topology else FreshGeometry.topology)
  }

  /** `pipe::Model`: the model file, the group to draw and whether to draw
      only that group, and the transform. */
  datatype ModelItem = ModelItem(filename: string, groupName: string, onlyGroup: bool, transform: Transform)

  /** `new pipe::Model` with the reader's `OnlyGroup` and transform; the
      names start empty. */
  const FreshModel: ModelItem := ModelItem("", "", false, FreshTransform)

  datatype ModelField = Filepath | Group | GroupOnly | ModelPlacement(f: TransformField)

  /** The tags of a model item, in the reader's order. */
  function ModelFieldOf(tag: string): Option<ModelField>
  {
    if tag == "filepath" then Some(Filepath)
    else if tag == "group" then Some(Group)
    else if tag == "grouponly" then Some(GroupOnly)
    else match TransformFieldOf(tag)
      case Some(f) => Some(ModelPlacement(f))
      case None => None
  }

  function SetModelField(cv: Conv, m: ModelItem, f: ModelField, t: string): ModelItem
  {
    match f
    case Filepath => m.(filename := t)
    case Group => m.(groupName := t)
    case GroupOnly => m.(onlyGroup := cv.asBool(t))
    case ModelPlacement(p) => m.(transform := SetTransform(m.transform, p, cv.asFloat(t)))
  }

  function ModelStep(cv: Conv, m: ModelItem, n: Node): ModelItem
  {
    match ModelFieldOf(n.tag)
    case None => m
    case Some(f) => SetModelField(cv, m, f, n.text)
  }

  function ModelStepper(cv: Conv): (ModelItem, Node) -> ModelItem
  {
    (m, n) => ModelStep(cv, m, n)
  }

  /** A `model` item: the children, then a non-empty file name turned into a
      generic path. */
  function ReadModelItem(cv: Conv, item: Node): ModelItem
  {
    var m := Fold(FreshModel, item.children, ModelStepper(cv));
    if |m.filename| > 0 then m.(filename := ToGenericPath(m.filename)) else m
  }

  /** The file, always written as `savedPath` (the file name made relative to
      the new project directory by the caller), the group switch, always, and
      the group name only when the switch is on. */
  function ModelFileEntries(cv: Conv, m: ModelItem, savedPath: string): seq<Entry>
  {
    [ Entry(true, "filepath", savedPath),
      Entry(true, "grouponly", cv.boolText(m.onlyGroup)),
      Entry(m.onlyGroup, "group", m.groupName) ]
  }

  function ModelEntries(cv: Conv, m: ModelItem, savedPath: string): seq<Entry>
  {
    ModelFileEntries(cv, m, savedPath) + TransformEntries(cv, m.transform)
  }

  function ModelNodes(cv: Conv, m: ModelItem, savedPath: string): seq<Node>
  {
    Emit(ModelEntries(cv, m, savedPath))
  }

  lemma ReadWidth(cv: Conv, tables: Tables, g: Geometry, x: string)
    ensures GeometryStep(cv, tables, g, TextNode("width", x)) == g.(size := g.size.(x := cv.asFloat(x)))
  {
  }

  lemma ReadHeight(cv: Conv, tables: Tables, g: Geometry, x: string)
    ensures GeometryStep(cv, tables, g, TextNode("height", x)) == g.(size := g.size.(y := cv.asFloat(x)))
  {
  }

  lemma ReadDepth(cv: Conv, tables: Tables, g: Geometry, x: string)
    ensures GeometryStep(cv, tables, g, TextNode("depth", x)) == g.(size := g.size.(z := cv.asFloat(x)))
  {
  }

  lemma ReadGeometryScaleX(cv: Conv, tables: Tables, g: Geometry, x: string)
    ensures GeometryStep(cv, tables, g, TextNode("scaleX", x)) == g.(transform := g.transform.(scale := g.transform.scale.(x := cv.asFloat(x))))
  {
  }

  lemma ReadGeometryScaleY(cv: Conv, tables: Tables, g: Geometry, x: string)
    ensures GeometryStep(cv, tables, g, TextNode("scaleY", x)) == g.(transform := g.transform.(scale := g.transform.scale.(y := cv.asFloat(x))))
  {
  }

  lemma ReadGeometryScaleZ(cv: Conv, tables: Tables, g: Geometry, x: string)
    ensures GeometryStep(cv, tables, g, TextNode("scaleZ", x)) == g.(transform := g.transform.(scale := g.transform.scale.(z := cv.asFloat(x))))
  {
  }

  lemma ReadGeometryRoll(cv: Conv, tables: Tables, g: Geometry, x: string)
    ensures GeometryStep(cv, tables, g, TextNode("roll", x)) == g.(transform := g.transform.(rotation := g.transform.rotation.(z := cv.asFloat(x))))
  {
  }

  lemma ReadGeometryYaw(cv: Conv, tables: Tables, g: Geometry, x: string)
    ensures GeometryStep(cv, tables, g, TextNode("yaw", x)) == g.(transform := g.transform.(rotation := g.transform.rotation.(y := cv.asFloat(x))))
  {
  }

  lemma ReadGeometryPitch(cv: Conv, tables: Tables, g: Geometry, x: string)
    ensures GeometryStep(cv, tables, g, TextNode("pitch", x)) == g.(transform := g.transform.(rotation := g.transform.rotation.(x := cv.asFloat(x))))
  {
  }

  lemma ReadGeometryPositionX(cv: Conv, tables: Tables, g: Geometry, x: string)
    ensures GeometryStep(cv, tables, g, TextNode("x", x)) == g.(transform := g.transform.(position := g.transform.position.(x := cv.asFloat(x))))
  {
  }

  lemma ReadGeometryPositionY(cv: Conv, tables: Tables, g: Geometry, x: string)
    ensures GeometryStep(cv, tables, g, TextNode("y", x)) == g.(transform := g.transform.(position := g.transform.position.(y := cv.asFloat(x))))
  {
  }

  lemma ReadGeometryPositionZ(cv: Conv, tables: Tables, g: Geometry, x: string)
    ensures GeometryStep(cv, tables, g, TextNode("z", x)) == g.(transform := g.transform.(position := g.transform.position.(z := cv.asFloat(x))))
  {
  }

  lemma ReadTopology(cv: Conv, tables: Tables, g: Geometry, x: string)
    ensures GeometryStep(cv, tables, g, TextNode("topology", x)) == g.(topology := LastValue(tables.topology, x, g.topology))
  {
  }

  lemma ReadShape(cv: Conv, tables: Tables, g: Geometry, x: string)
    ensures GeometryStep(cv, tables, g, TextNode("type", x)) == g.(kind := LastPosition(tables.geometry, x, g.kind))
  {
  }

  lemma ReadFilepath(cv: Conv, m: ModelItem, x: string)
    ensures ModelStep(cv, m, TextNode("filepath", x)) == m.(filename := x)
  {
  }

  lemma ReadGroup(cv: Conv, m: ModelItem, x: string)
    ensures ModelStep(cv, m, TextNode("group", x)) == m.(groupName := x)
  {
  }

  lemma ReadGroupOnly(cv: Conv, m: ModelItem, x: string)
    ensures ModelStep(cv, m, TextNode("grouponly", x)) == m.(onlyGroup := cv.asBool(x))
  {
  }

  lemma ReadModelScaleX(cv: Conv, m: ModelItem, x: string)
    ensures ModelStep(cv, m, TextNode("scaleX", x)) == m.(transform := m.transform.(scale := m.transform.scale.(x := cv.asFloat(x))))
  {
  }

  lemma ReadModelScaleY(cv: Conv, m: ModelItem, x: string)
    ensures ModelStep(cv, m, TextNode("scaleY", x)) == m.(transform := m.transform.(scale := m.transform.scale.(y := cv.asFloat(x))))
  {
  }

  lemma ReadModelScaleZ(cv: Conv, m: ModelItem, x: string)
    ensures ModelStep(cv, m, TextNode("scaleZ", x)) == m.(transform := m.transform.(scale := m.transform.scale.(z := cv.asFloat(x))))
  {
  }

  lemma ReadModelRoll(cv: Conv, m: ModelItem, x: string)
    ensures ModelStep(cv, m, TextNode("roll", x)) == m.(transform := m.transform.(rotation := m.transform.rotation.(z := cv.asFloat(x))))
  {
  }

  lemma ReadModelYaw(cv: Conv, m: ModelItem, x: string)
    ensures ModelStep(cv, m, TextNode("yaw", x)) == m.(transform := m.transform.(rotation := m.transform.rotation.(y := cv.asFloat(x))))
  {
  }

  lemma ReadModelPitch(cv: Conv, m: ModelItem, x: string)
    ensures ModelStep(cv, m, TextNode("pitch", x)) == m.(transform := m.transform.(rotation := m.transform.rotation.(x := cv.asFloat(x))))
  {
  }

  lemma ReadModelPositionX(cv: Conv, m: ModelItem, x: string)
    ensures ModelStep(cv, m, TextNode("x", x)) == m.(transform := m.transform.(position := m.transform.position.(x := cv.asFloat(x))))
  {
  }

  lemma ReadModelPositionY(cv: Conv, m: ModelItem, x: string)
    ensures ModelStep(cv, m, TextNode("y", x)) == m.(transform := m.transform.(position := m.transform.position.(y := cv.asFloat(x))))
  {
  }

  lemma ReadModelPositionZ(cv: Conv, m: ModelItem, x: string)
    ensures ModelStep(cv, m, TextNode("z", x)) == m.(transform := m.transform.(position := m.transform.position.(z := cv.asFloat(x))))
  {
  }

  /** Reading back the scale children of a geometry item. */
  lemma GeometryScaleReload(cv: Conv, tables: Tables, t: Geometry, tr: Transform)
    requires Coherent(cv)
    requires t.transform.scale == Vec3One
    ensures Replay(t, ScaleEntries(cv, tr), GeometryStepper(cv, tables)) ==
            t.(transform := t.transform.(scale := tr.scale))
  {
    var st := GeometryStepper(cv, tables);
    var es := ScaleEntries(cv, tr);
    var u0 := t;
    ReadGeometryScaleX(cv, tables, u0, es[0].text);
    var u1 := Do(u0, es[0], st);
    ReadGeometryScaleY(cv, tables, u1, es[1].text);
    var u2 := Do(u1, es[1], st);
    ReadGeometryScaleZ(cv, tables, u2, es[2].text);
    var u3 := Do(u2, es[2], st);
    Replay3(t, es[0], es[1], es[2], st);
    assert es == [es[0], es[1], es[2]];
  }

  /** Reading back the rotation children of a geometry item. */
  lemma GeometryRotationReload(cv: Conv, tables: Tables, t: Geometry, tr: Transform)
    requires Coherent(cv)
    requires t.transform.rotation == Vec3Zero
    ensures Replay(t, RotationEntries(cv, tr), GeometryStepper(cv, tables)) ==
            t.(transform := t.transform.(rotation := Settled(tr.rotation)))
  {
    var st := GeometryStepper(cv, tables);
    var es := RotationEntries(cv, tr);
    var u0 := t;
    ReadGeometryRoll(cv, tables, u0, es[0].text);
    var u1 := Do(u0, es[0], st);
    ReadGeometryPitch(cv, tables, u1, es[1].text);
    var u2 := Do(u1, es[1], st);
    ReadGeometryYaw(cv, tables, u2, es[2].text);
    var u3 := Do(u2, es[2], st);
    Replay3(t, es[0], es[1], es[2], st);
    assert es == [es[0], es[1], es[2]];
  }

  /** Reading back the position children of a geometry item. */
  lemma GeometryPositionReload(cv: Conv, tables: Tables, t: Geometry, tr: Transform)
    requires Coherent(cv)
    requires t.transform.position == Vec3Zero
    ensures Replay(t, PositionEntries(cv, tr), GeometryStepper(cv, tables)) ==
            t.(transform := t.transform.(position := Settled(tr.position)))
  {
    var st := GeometryStepper(cv, tables);
    var es := PositionEntries(cv, tr);
    var u0 := t;
    ReadGeometryPositionX(cv, tables, u0, es[0].text);
    var u1 := Do(u0, es[0], st);
    ReadGeometryPositionY(cv, tables, u1, es[1].text);
    var u2 := Do(u1, es[1], st);
    ReadGeometryPositionZ(cv, tables, u2, es[2].text);
    var u3 := Do(u2, es[2], st);
    Replay3(t, es[0], es[1], es[2], st);
    assert es == [es[0], es[1], es[2]];
  }

  /** Reading back the scale children of a model item. */
  lemma ModelScaleReload(cv: Conv, t: ModelItem, tr: Transform)
    requires Coherent(cv)
    requires t.transform.scale == Vec3One
    ensures Replay(t, ScaleEntries(cv, tr), ModelStepper(cv)) ==
            t.(transform := t.transform.(scale := tr.scale))
  {
    var st := ModelStepper(cv);
    var es := ScaleEntries(cv, tr);
    var u0 := t;
    ReadModelScaleX(cv, u0, es[0].text);
    var u1 := Do(u0, es[0], st);
    ReadModelScaleY(cv, u1, es[1].text);
    var u2 := Do(u1, es[1], st);
    ReadModelScaleZ(cv, u2, es[2].text);
    var u3 := Do(u2, es[2], st);
    Replay3(t, es[0], es[1], es[2], st);
    assert es == [es[0], es[1], es[2]];
  }

  /** Reading back the rotation children of a model item. */
  lemma ModelRotationReload(cv: Conv, t: ModelItem, tr: Transform)
    requires Coherent(cv)
    requires t.transform.rotation == Vec3Zero
    ensures Replay(t, RotationEntries(cv, tr), ModelStepper(cv)) ==
            t.(transform := t.transform.(rotation := Settled(tr.rotation)))
  {
    var st := ModelStepper(cv);
    var es := RotationEntries(cv, tr);
    var u0 := t;
    ReadModelRoll(cv, u0, es[0].text);
    var u1 := Do(u0, es[0], st);
    ReadModelPitch(cv, u1, es[1].text);
    var u2 := Do(u1, es[1], st);
    ReadModelYaw(cv, u2, es[2].text);
    var u3 := Do(u2, es[2], st);
    Replay3(t, es[0], es[1], es[2], st);
    assert es == [es[0], es[1], es[2]];
  }

  /** Reading back the position children of a model item. */
  lemma ModelPositionReload(cv: Conv, t: ModelItem, tr: Transform)
    requires Coherent(cv)
    requires t.transform.position == Vec3Zero
    ensures Replay(t, PositionEntries(cv, tr), ModelStepper(cv)) ==
            t.(transform := t.transform.(position := Settled(tr.position)))
  {
    var st := ModelStepper(cv);
    var es := PositionEntries(cv, tr);
    var u0 := t;
    ReadModelPositionX(cv, u0, es[0].text);
    var u1 := Do(u0, es[0], st);
    ReadModelPositionY(cv, u1, es[1].text);
    var u2 := Do(u1, es[1], st);
    ReadModelPositionZ(cv, u2, es[2].text);
    var u3 := Do(u2, es[2], st);
    Replay3(t, es[0], es[1], es[2], st);
    assert es == [es[0], es[1], es[2]];
  }

  /** Reading back the shape and the size. */
  lemma ShapeReload(cv: Conv, tables: Tables, t: Geometry, g: Geometry)
    requires Coherent(cv)
    requires Distinct(tables.geometry) && g.kind < |tables.geometry|
    ensures Replay(t, ShapeEntries(cv, tables, g), GeometryStepper(cv, tables)) ==
            t.(kind := g.kind, size := g.size)
  {
    LastIndexOfDistinct(tables.geometry, g.kind);
    var st := GeometryStepper(cv, tables);
    var es := ShapeEntries(cv, tables, g);
    var u0 := t;
    ReadShape(cv, tables, u0, es[0].text);
    var u1 := Do(u0, es[0], st);
    ReadWidth(cv, tables, u1, es[1].text);
    var u2 := Do(u1, es[1], st);
    ReadHeight(cv, tables, u2, es[2].text);
    var u3 := Do(u2, es[2], st);
    ReadDepth(cv, tables, u3, es[3].text);
    var u4 := Do(u3, es[3], st);
    Replay4(t, es[0], es[1], es[2], es[3], st);
    assert es == [es[0], es[1], es[2], es[3]];
  }

  /** Reading back the model file and group children. */
  lemma ModelFileReload(cv: Conv, t: ModelItem, m: ModelItem, savedPath: string)
    requires Coherent(cv)
    requires !t.onlyGroup
    ensures Replay(t, ModelFileEntries(cv, m, savedPath), ModelStepper(cv)) ==
            t.(filename := savedPath, onlyGroup := m.onlyGroup, groupName := if m.onlyGroup then m.groupName else t.groupName)
  {
    var st := ModelStepper(cv);
    var es := ModelFileEntries(cv, m, savedPath);
    var u0 := t;
    ReadFilepath(cv, u0, es[0].text);
    var u1 := Do(u0, es[0], st);
    ReadGroupOnly(cv, u1, es[1].text);
    var u2 := Do(u1, es[1], st);
    ReadGroup(cv, u2, es[2].text);
    var u3 := Do(u2, es[2], st);
    Replay3(t, es[0], es[1], es[2], st);
    assert es == [es[0], es[1], es[2]];
  }


  lemma GeometryTransformReload(cv: Conv, tables: Tables, t: Geometry, tr: Transform)
    requires Coherent(cv) && t.transform == FreshTransform
    ensures Replay(t, TransformEntries(cv, tr), GeometryStepper(cv, tables)) == t.(transform := ReloadedTransform(tr))
  {
    var st := GeometryStepper(cv, tables);
    var sc := ScaleEntries(cv, tr);
    var ro := RotationEntries(cv, tr);
    ReplayAppend(t, sc + ro, PositionEntries(cv, tr), st);
    ReplayAppend(t, sc, ro, st);
    GeometryScaleReload(cv, tables, t, tr);
    var u1 := Replay(t, sc, st);
    GeometryRotationReload(cv, tables, u1, tr);
    var u2 := Replay(u1, ro, st);
    GeometryPositionReload(cv, tables, u2, tr);
  }

  lemma ModelTransformReload(cv: Conv, t: ModelItem, tr: Transform)
    requires Coherent(cv) && t.transform == FreshTransform
    ensures Replay(t, TransformEntries(cv, tr), ModelStepper(cv)) == t.(transform := ReloadedTransform(tr))
  {
    var st := ModelStepper(cv);
    var sc := ScaleEntries(cv, tr);
    var ro := RotationEntries(cv, tr);
    ReplayAppend(t, sc + ro, PositionEntries(cv, tr), st);
    ReplayAppend(t, sc, ro, st);
    ModelScaleReload(cv, t, tr);
    var u1 := Replay(t, sc, st);
    ModelRotationReload(cv, u1, tr);
    var u2 := Replay(u1, ro, st);
    ModelPositionReload(cv, u2, tr);
  }

  /** Saving a geometry item and reading it back: everything returns, except
      that a -0 in the rotation or position comes back as +0 and a topology no
      table entry carries comes back as the fresh one. */
  lemma GeometryReload(cv: Conv, tables: Tables, g: Geometry, item: Node)
    requires Coherent(cv)
    requires Distinct(tables.geometry) && g.kind < |tables.geometry| && NamesDistinct(tables.topology)
    requires item.children == GeometryNodes(cv, tables, g)
    ensures ReadGeometry(cv, tables, item) == ReloadedGeometry(tables, g)
  {
    var st := GeometryStepper(cv, tables);
    var sh := ShapeEntries(cv, tables, g);
    var tr := TransformEntries(cv, g.transform);
    var top := TopologyEntry(tables, g);
    FoldEmit(FreshGeometry, GeometryEntries(cv, tables, g), st);
    ReplayAppend(FreshGeometry, sh + tr, [top], st);
    ReplayAppend(FreshGeometry, sh, tr, st);
    ShapeReload(cv, tables, FreshGeometry, g);
    var u1 := Replay(FreshGeometry, sh, st);
    GeometryTransformReload(cv, tables, u1, g.transform);
    var u2 := Replay(u1, tr, st);
    ReplayPrefix(u2, [top], 0, st);
    assert [top][..1] == [top];
    ReadTopology(cv, tables, u2, top.text);
    if HasValue(tables.topology, g.topology) {
      LastValueOfName(tables.topology, g.topology, u2.topology);
    }
  }

  /** A geometry item whose shape has a name, whose topology is in the table
      and whose rotation and position hold no -0 survives a save and a reload
      unchanged. */
  lemma GeometryRoundTrip(cv: Conv, tables: Tables, g: Geometry, item: Node)
    requires Coherent(cv)
    requires Distinct(tables.geometry) && g.kind < |tables.geometry|
    requires NamesDistinct(tables.topology) && HasValue(tables.topology, g.topology)
    requires NoNegativeZero(g.transform.rotation) && NoNegativeZero(g.transform.position)
    requires item.children == GeometryNodes(cv, tables, g)
    ensures ReadGeometry(cv, tables, item) == g
  {
    GeometryReload(cv, tables, g, item);
  }

  /** Saving a model item under `savedPath` and reading it back: the file
      name is the saved path in generic form, the group name returns only when
      the item draws just that group, and the transform returns up to the sign
      of zeros. */
  lemma ModelReload(cv: Conv, m: ModelItem, savedPath: string, item: Node)
    requires Coherent(cv)
    requires item.children == ModelNodes(cv, m, savedPath)
    ensures ReadModelItem(cv, item) ==
            ModelItem(ToGenericPath(savedPath), if m.onlyGroup then m.groupName else FreshModel.groupName,
                      m.onlyGroup, ReloadedTransform(m.transform))
  {
    var st := ModelStepper(cv);
    var fe := ModelFileEntries(cv, m, savedPath);
    FoldEmit(FreshModel, ModelEntries(cv, m, savedPath), st);
    ReplayAppend(FreshModel, fe, TransformEntries(cv, m.transform), st);
    ModelFileReload(cv, FreshModel, m, savedPath);
    ModelTransformReload(cv, Replay(FreshModel, fe, st), m.transform);
  }

  /** Whatever the children say, the model file name the reader keeps uses
      only forward slashes. */
  lemma ModelFilenameIsGeneric(cv: Conv, item: Node)
    ensures '\\' !in ReadModelItem(cv, item).filename
  {
    var m := Fold(FreshModel, item.children, ModelStepper(cv));
    if |m.filename| > 0 {
      GenericPathHasNoBackslash(m.filename);
    }
  }

  /** The data of a pipeline item, by its `PipelineItem::ItemType`. */
  datatype ItemData = GeometryData(geometry: Geometry) | RenderStateData(state: RenderState) | ModelData(model: ModelItem)

  /** A pipeline item of a shader pass: its name and its data. */
  datatype PipelineItem = PipelineItem(name: string, data: ItemData)

  /** The `type` attributes the reader understands: geometry and model in
      both versions, `blend`, `depthstencil` and `rasterizer` in version 1
      and `renderstate` in version 2. */
  predicate KnownItemType(version1: bool, ty: string)
  {
    ty == "geometry" || ty == "model"
    || (version1 && (ty == "blend" || ty == "depthstencil" || ty == "rasterizer"))
    || (!version1 && ty == "renderstate")
  }

  /** The data an `item` element describes, read by the branch its `type`
      attribute selects; `None` when no branch does. */
  function ReadItemData(cv: Conv, tables: Tables, version1: bool, node: Node): (r: Option<ItemData>)
    ensures r.Some? <==> KnownItemType(version1, AttrText(node, "type"))
    ensures r.Some? ==> (r.value.GeometryData? <==> AttrText(node, "type") == "geometry")
    ensures r.Some? ==> (r.value.ModelData? <==> AttrText(node, "type") == "model")
  {
    var ty := AttrText(node, "type");
    if ty == "geometry" then Some(GeometryData(ReadGeometry(cv, tables, node)))
    else if version1 && ty == "blend" then Some(RenderStateData(ReadBlendItem(cv, tables, node)))
    else if version1 && ty == "depthstencil" then Some(RenderStateData(ReadDepthStencilItem(cv, tables, node)))
    else if version1 && ty == "rasterizer" then Some(RenderStateData(ReadRasterizerItem(cv, tables, node)))
    else if !version1 && ty == "renderstate" then Some(RenderStateData(ReadRenderState(cv, tables, node)))
    else if ty == "model" then Some(ModelData(ReadModelItem(cv, node)))
    else None
  }

  /** What the reader does with one `item` element as written. */
  datatype ItemOutcome = Added(item: PipelineItem) | NullDereference

  /** As written, an unknown `type` leaves the item type at Geometry and its
      data pointer null, and the step that builds the geometry's vertex
      buffers then reads the shape through that null pointer. */
  function ReadItemAsWritten(cv: Conv, tables: Tables, version1: bool, node: Node): ItemOutcome
  {
    match ReadItemData(cv, tables, version1, node)
    case Some(d) => Added(PipelineItem(AttrText(node, "name"), d))
    case None => NullDereference
  }

  /** An item of an unknown type makes the reader of either version
      dereference a null pointer. */
  lemma UnknownItemTypeCrashes(cv: Conv, tables: Tables)
    ensures ReadItemAsWritten(cv, tables, false, Node("item", map["name" := "Box", "type" := "mesh"], "", [])) == NullDereference
    ensures ReadItemAsWritten(cv, tables, true, Node("item", map["name" := "Box", "type" := "mesh"], "", [])) == NullDereference
  {
    var node := Node("item", map["name" := "Box", "type" := "mesh"], "", []);
    assert AttrText(node, "type") == "mesh";
  }

  /** The intended reader: an item of an unknown type is skipped. */
  function ReadItem(cv: Conv, tables: Tables, version1: bool, node: Node): (r: Option<PipelineItem>)
    ensures r.Some? <==> KnownItemType(version1, AttrText(node, "type"))
    ensures r.Some? ==> r.value.name == AttrText(node, "name")
    ensures ReadItemAsWritten(cv, tables, version1, node) == if r.Some? then Added(r.value) else NullDereference
  {
    match ReadItemData(cv, tables, version1, node)
    case Some(d) => Some(PipelineItem(AttrText(node, "name"), d))
    case None => None
  }
}
