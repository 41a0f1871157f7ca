# SHADERed project files: a Dafny model of `ProjectParser`

SHADERed is a shader editor. It keeps a project in an XML file (`.sprj`) with
three parts:

- a pipeline of shader passes. Each pass has its vertex, pixel and geometry
  shader stages, its render targets, its shader variables, its macros, and
  its pipeline items: geometry, render states and 3D models. Each pass also
  has per-item overrides of its variables ("item values").
- objects: textures, cube maps, render textures, audio files and uniform
  buffers. Each object is bound to pass slots.
- editor settings.

`ProjectParser` reads such a file into the pipeline manager, the object
manager, the message stack, the model cache and the render engine. It reads
two formats: version 1 (`m_parseV1`) and version 2 (`m_parseV2`). It writes
the pipeline and the objects back as a version 2 file (`SaveAs`, `Save`).

This project models that reader and writer and proves what they promise:

- how each element is read;
- which errors are reported;
- how objects are registered and bound in two phases;
- how render targets are resolved;
- that a saved project reads back as the same pipeline, with the exceptions
  listed below.

## Modules

| file | module | what it holds |
|---|---|---|
| `common.dfy` | `Common` | options, opaque 32-bit float scalars, OpenGL enumerants, texture handles |
| `document.dfy` | `Document` | the XML tree, the pugixml conversions, child selection, the reading loop over children, the writer's append lists |
| `paths.dfy` | `Paths` | `toGenericPath`, `GetProjectPath`, the project directory of a file name |
| `names.dfy` | `Names` | the name/value tables and the `m_to*` lookups; the first-match and last-match searches |
| `variables.dfy` | `Variables` | shader variable declarations, `m_parseVariableValue`, `m_exportVariableValue`, `m_exportShaderVariables` |
| `pipeline.dfy` | `Pipeline` | the `ShaderPass` class with its fixed render-target buffer; the pipeline manager, render engine and message stack |
| `models.dfy` | `Models` | the model cache and `LoadModel` |
| `renderstate.dfy` | `RenderStates` | render-state items: the version 2 reader and writer, and the version 1 blend, depthstencil and rasterizer items |
| `items.dfy` | `Items` | geometry and model items, and the dispatch on the item type |
| `objects.dfy` | `Objects` | the `ObjectManager` class; render texture, buffer and cube-map elements |
| `binding.dfy` | `Binding` | phase 1 of binding (slot tables per pass) and phase 2 (committing them to the object manager) |
| `objectreader.dfy` | `ObjectReader` | one object element and the objects loop |
| `reader.dfy` | `Reader` | one pass element: shaders, variables, macros, items, item values; the passes loop |
| `project.dfy` | `Project` | render-target chain resolution, the whole reader, `ProjectParser.Open` |
| `writer.dfy` | `Writer` | one pass element of `SaveAs` and its read-back lemmas |
| `objectwriter.dfy` | `ObjectWriter` | the objects section of `SaveAs` and the round trip of its bindings |
| `projectwriter.dfy` | `ProjectWriter` | the whole document, `SaveAs`, `Save`, and the round trip of every pass |

## Modelling conventions

- **The XML document** is a tree `Node(tag, attrs, text, children)`.
  `child(tag)` is the first child with that tag, or the null node.
  `children(tag)` keeps document order.
- **pugixml's text conversions** are a record `Conv` of functions:
  `as_int`, `as_uint`, `as_bool`, `as_float`, and `set(...)` for integers,
  booleans and floats. They are passed in, not defined.
  - Round-trip lemmas require `Coherent(cv)`: reading the text written for a
    value gives the value back.
- **The name tables of `Names.h`** are a `Tables` parameter, because that
  header is not part of this model. Examples: `BLEND_NAMES`/`BLEND_VALUES`
  and `GEOMETRY_NAMES`.
  - The same goes for the answers of `SystemVariableManager::GetType`,
    `FunctionVariableManager` and `ShaderVariable` layout queries. They are a
    `VariableOracles` parameter.
- **Floats** are `Scalar` values kept as bit patterns. The parser only
  stores, copies and compares them.
  - The writer tests `!= 0.0f`. `-0.0` compares equal to zero, so it is
    left out of the file and read back as `+0`. `Settled` and
    `ReloadedTransform` state this.
- **File existence** and **model loading** are functions passed in:
  `fileExists` and `loadsModel`/`loads`.
- **Classes.** A pass is a `ShaderPass` object. Its `renderTextures` field
  is an `array<Handle>` of fixed size. The reader fills it in place, in two
  loops. The pipeline manager, object manager, model cache, message stack,
  render engine and the `ProjectParser` itself are classes whose methods
  change their fields.
- **Reading loops.** A loop over an element's children is a `Fold` of a step
  function.
- **Writer lists.** The writer's runs of `append_child` calls are lists of
  entries, some present and some not. `Emit` turns them into children, and
  `Replay` lemmas connect the entries to what the reader's step does with
  them.

## Model

| member | source | states |
|---|---|---|
| Document.Named | Objects/ProjectParser.cpp:1444 | `children(tag)` selects children carrying the tag, and every child carrying it, never more than there are children |
| Document.Child | Objects/ProjectParser.cpp:1384 | `child(tag)` is the null node or the first child carrying the tag |
| Document.FirstNamed | Objects/ProjectParser.cpp:1443-1444 | first child with a tag; null when no child has it |
| Document.NamedAppend | Objects/ProjectParser.cpp:1444 | selecting children by tag distributes over concatenation of child runs |
| Document.TextNode | Objects/ProjectParser.cpp:237 | `append_child(tag).text().set(x)` is an element with that tag and text and no children |
| Document.ReadChildren | Objects/ProjectParser.cpp:1517-1589 | the loop over an element's children ends in the fold of its step over them |
| Document.FoldAppend | Objects/ProjectParser.cpp:1517-1589 | reading two runs of children is reading the first, then the second from where it left the state |
| Document.Emit | Objects/ProjectParser.cpp:241-249 | a run of conditional appends yields at most one child per entry |
| Document.FoldEmit | Objects/ProjectParser.cpp:262-304 | reading the children the writer emitted is replaying the writer's entries |
| Document.EmitNone | Objects/ProjectParser.cpp:262-304 | when no conditional append fires, nothing is written |
| Document.FoldPreserves | Objects/ProjectParser.cpp:891-978 | a property every step of a reading loop keeps holds after the loop |
| Paths.ToGenericPath | Objects/ProjectParser.cpp:24-29 | same length; each backslash becomes `/` and every other character stays in place |
| Paths.GenericPathHasNoBackslash | Objects/ProjectParser.cpp:24-29 | a generic path holds no backslash |
| Paths.GenericPathIdempotent | Objects/ProjectParser.cpp:24-29 | normalising twice is normalising once |
| Paths.GenericPathKeepsGeneric | Objects/ProjectParser.cpp:24-29 | a path without backslashes is unchanged |
| Paths.ProjectPath | Objects/ProjectParser.cpp:593-596 | directory, then `to`, joined by one `/` that is dropped when the directory already ends in `/`; needs a non-empty directory, as the source reads its last character |
| Paths.LastSeparator | Objects/ProjectParser.cpp:103 | `find_last_of("/\\")`: a separator position with none after it, or -1 |
| Paths.DirectoryOf | Objects/ProjectParser.cpp:103 | the part of a file name before its last separator, or the whole name when it has none |
| Names.FirstIndex | Objects/ProjectParser.cpp:688-694 | index of the first table entry with the name; none exactly when no entry has it |
| Names.FirstIn | Objects/ProjectParser.cpp:1404-1408 | index of the first name equal to the text; none exactly when no name is |
| Names.ToValueFirstMatch | Objects/ProjectParser.cpp:688-722 | every `m_to*` lookup gives the value of the first entry with the name, or its default when there is none |
| Names.UnknownNames | Objects/ProjectParser.cpp:688-722 | an unknown name gives GL_CONSTANT_COLOR, GL_FUNC_ADD, GL_ALWAYS, GL_KEEP or GL_BACK, per lookup |
| Names.LastIndex | Objects/ProjectParser.cpp:1504-1508 | index of the last name equal to the text (the search has no `break`); none exactly when no name is |
| Names.NameOfFinds | Objects/ProjectParser.cpp:250-255 | a value in the table is written as the name of an entry carrying it |
| Names.NameRoundTrip | Objects/ProjectParser.cpp:688-694 | with distinct names, looking up the name written for a value gives the value |
| Names.LastIndexOfDistinct | Objects/ProjectParser.cpp:1504-1508 | with distinct names the last-match search finds the entry itself |
| Names.FirstInOfDistinct | Objects/ProjectParser.cpp:1404-1408 | with distinct names the first-match search finds the entry itself |
| Names.LastPosition | Objects/ProjectParser.cpp:1504-1508 | geometry `type`: the current shape, or a position whose name is the text |
| Names.LastValue | Objects/ProjectParser.cpp:1499-1503 | `topology`: the current value, or the value of an entry with the text as name |
| Names.LastValueOfName | Objects/ProjectParser.cpp:250-255 | the topology the writer names is the one the reader finds |
| Variables.NewVariable | Objects/ProjectParser.cpp:1431 | a new variable has its type, name and system kind, no flags, no function, no value |
| Variables.AllocateArgumentSpace | Objects/ProjectParser.cpp:1433 | the variable takes the function and blank arguments, nothing else changes |
| Variables.ReadType | Objects/ProjectParser.cpp:1401-1409 | Float1 when `type` is missing or names no type; otherwise a type with that name |
| Variables.ReadSystem | Objects/ProjectParser.cpp:1410-1419 | the first system kind named by `system`, kept only when its type is the declared type |
| Variables.ReadFunction | Objects/ProjectParser.cpp:1420-1429 | the first function named by `function`, kept only when no system kind was kept and it can return the type |
| Variables.ReadDeclaration | Objects/ProjectParser.cpp:1384-1433 | name, type, consistent system and function kinds, `invert`/`lastframe` flags (version 2 only), empty value |
| Variables.SystemAndFunctionExclusive | Objects/ProjectParser.cpp:1427-1428 | a declared variable never has both a system kind and a function |
| Variables.Put | Objects/ProjectParser.cpp:614-627 | one store changes the addressed cell to the converted text and keeps type, name, kinds and flags |
| Variables.PutLookup | Objects/ProjectParser.cpp:614-627 | a store changes the cell it names and no other |
| Variables.ValueRows | Objects/ProjectParser.cpp:611-613 | one list of value texts per `row` element |
| Variables.ApplyLastWins | Objects/ProjectParser.cpp:611-631 | after all stores, a cell holds the conversion of the last text stored to it, or its old value |
| Variables.FloatWrites | Objects/ProjectParser.cpp:621-622 | float types: value c of row r lands in cell (c, r) and nothing else does |
| Variables.LastInColumn | Objects/ProjectParser.cpp:623-626 | the c-th value of the last row that has one |
| Variables.VectorWrites | Objects/ProjectParser.cpp:623-626 | boolean and integer types: component c takes the c-th value of the last row having one; other rows' cells are untouched |
| Variables.ArgumentWrites | Objects/ProjectParser.cpp:617-618 | function variables: argument c takes the c-th value of the last row having one |
| Variables.LastRowValue | Objects/ProjectParser.cpp:615-616 | the last value of the last non-empty row |
| Variables.PointerWrites | Objects/ProjectParser.cpp:615-616 | the Pointer function's string argument takes the last value of the element |
| Variables.ParseFloatCell | Objects/ProjectParser.cpp:608-632 | what parsing leaves in a float cell |
| Variables.ParseVectorComponent | Objects/ProjectParser.cpp:608-632 | what parsing leaves in a boolean or integer component |
| Variables.ParseArgument | Objects/ProjectParser.cpp:608-632 | what parsing leaves in a function argument |
| Variables.ParsePointer | Objects/ProjectParser.cpp:608-632 | what parsing leaves in the Pointer argument |
| Variables.ParseRow | Objects/ProjectParser.cpp:613-629 | the value loop of one row performs that row's stores in order |
| Variables.ParseVariableValue | Objects/ProjectParser.cpp:608-632 | the row loop gives the specified parsed value |
| Variables.ConstantRows | Objects/ProjectParser.cpp:639-651 | the export loop as written: at least one row |
| Variables.Grow | Objects/ProjectParser.cpp:642-650 | one iteration appends the text to the last row and opens an empty row when the break rule fires |
| Variables.ArgumentTexts | Objects/ProjectParser.cpp:658-660 | one text per function argument, in order |
| Variables.ValueRowsOfRowNodes | Objects/ProjectParser.cpp:611-613 | reading back the rows the writer emitted gives the same texts |
| Variables.TextsOfValueNodes | Objects/ProjectParser.cpp:642-647 | the texts of the emitted value elements are the exported texts |
| Variables.ExportVariableValue | Objects/ProjectParser.cpp:633-663 | appends exactly the row elements of the exported rows to the node |
| Variables.ConstantRowsCount | Objects/ProjectParser.cpp:639-651 | after n values the as-written loop has `1 + (n - 1) / cols` rows |
| Variables.ConstantRowsFlat | Objects/ProjectParser.cpp:639-651 | the rows back to back are the n values in loop order, each taken at its row counter |
| Variables.FirstRowLength | Objects/ProjectParser.cpp:639-651 | the first row holds `cols + 1` values once there are that many: the break comes one value late |
| Variables.OnlyRow | Objects/ProjectParser.cpp:639-651 | the loop has a single row exactly while at most `cols` values are written |
| Variables.TwoRows | Objects/ProjectParser.cpp:639-651 | between `cols + 2` and `2 * cols` values: two rows of lengths `cols + 1` and the rest, with their texts |
| Variables.MatrixRows | Objects/ProjectParser.cpp:639-651 | a 2x2 float matrix is written as a row of three values, cell (0,0) twice, and a row holding cell (1,1) |
| Variables.MatrixDoesNotRoundTrip | Objects/ProjectParser.cpp:639-651 | as written, a saved 2x2 matrix reloads with the old cell (1,1) in cell (0,1), and cell (1,1) zero |
| Variables.AsWrittenSingleRow | Objects/ProjectParser.cpp:639-651 | as written, a value of at most one row is one row of its texts |
| Variables.IntendedConstantRows | Objects/ProjectParser.cpp:639-651 | corrected layout: row r holds columns 0..cols-1 of row r, with their texts |
| Variables.IntendedFloatRoundTrip | Objects/ProjectParser.cpp:608-651 | with the corrected layout every float cell survives a save and a load |
| Variables.IntendedSingleRow | Objects/ProjectParser.cpp:639-651 | corrected layout of a one-row value is a single row of its texts |
| Variables.IntendedVectorText | Objects/ProjectParser.cpp:623-626 | the last text in column c of a one-row layout is component c's text |
| Variables.IntendedBooleanRoundTrip | Objects/ProjectParser.cpp:608-651 | every boolean component survives a save and a load |
| Variables.IntendedIntegerRoundTrip | Objects/ProjectParser.cpp:608-651 | every integer component survives a save and a load |
| Variables.OneRowAgrees | Objects/ProjectParser.cpp:639-651 | for values of at most one row, the as-written and corrected layouts agree |
| Variables.SavedFloatRoundTrip | Objects/ProjectParser.cpp:608-651 | as the source writes it, every float cell of a value of at most one row survives a save and a load |
| Variables.SavedBooleanRoundTrip | Objects/ProjectParser.cpp:608-651 | as the source writes it, every boolean component of a value of at most one row survives a save and a load |
| Variables.SavedIntegerRoundTrip | Objects/ProjectParser.cpp:608-651 | as the source writes it, every integer component of a value of at most one row survives a save and a load |
| Variables.TextOnFirstRow | Objects/ProjectParser.cpp:639-651 | on the first row the two layouts write the same text per column |
| Variables.ArgumentsRoundTrip | Objects/ProjectParser.cpp:655-660 | every function argument survives a save and a load |
| Variables.PointerRoundTrip | Objects/ProjectParser.cpp:653-656 | the Pointer argument survives a save and a load |
| Variables.ReloadFloatCell | Objects/ProjectParser.cpp:621-622 | a float cell reads back as the converted text at its row and column, or keeps its value when the rows have no such text |
| Variables.ReloadVectorComponent | Objects/ProjectParser.cpp:623-626 | when its column has a last text, a boolean or integer component reads back as that text converted |
| Variables.ReloadArgument | Objects/ProjectParser.cpp:617-618 | a function argument reads back as the converted last text of its column |
| Variables.ReloadPointer | Objects/ProjectParser.cpp:615-616 | the Pointer argument reads back as the last saved text |
| Variables.Cleared | Objects/ProjectParser.cpp:1431-1433 | the variable as declared before parsing: same declaration, empty value |
| Variables.ReadOneVariable | Objects/ProjectParser.cpp:1384-1440 | one `variable` element: declare, then parse the value unless a system kind drives it |
| Variables.VariableNode | Objects/ProjectParser.cpp:664-687 | `type` and `name` always; `invert`, `lastframe`, `system` exactly when set, `function` exactly when set and no system kind is; value rows, in the layout the source writes, only without a system kind |
| Variables.DeclarationRoundTrip | Objects/ProjectParser.cpp:664-687 | a written variable's declaration reads back unchanged |
| Variables.ParsedFromRows | Objects/ProjectParser.cpp:608-632 | a written variable's value is parsed from its rows alone |
| Variables.VariableRoundTrip | Objects/ProjectParser.cpp:664-687 | a written variable reads back as its declaration with the saved rows parsed in |
| Variables.VariableNodes | Objects/ProjectParser.cpp:666-686 | one element per variable, in order |
| Variables.ExportShaderVariables | Objects/ProjectParser.cpp:664-687 | no `variables` element for an empty list; otherwise one holding each variable's element |
| Variables.VariablesRoundTrip | Objects/ProjectParser.cpp:664-687 | the reader finds exactly the written variable elements, in order |
| Pipeline.InitialTargets | Objects/ProjectParser.cpp:1325-1327 | the window's texture in slot 0, 0 in every other slot |
| Pipeline.ShaderPass.constructor | Objects/ProjectParser.cpp:1323 | a new pass: one render target, no shaders, variables, macros or items |
| Pipeline.ShaderPass.ResetTargets | Objects/ProjectParser.cpp:1325-1327 | the buffer becomes the initial targets |
| Pipeline.ShaderPass.SetTargets | Objects/ProjectParser.cpp:1976-1984 | the handles fill the buffer from slot 0; later slots keep their contents |
| Pipeline.ShaderPass.SetTargetCount | Objects/ProjectParser.cpp:1349 | only `RTCount` changes |
| Pipeline.ShaderPass.SetShader | Objects/ProjectParser.cpp:1363-1376 | only the named stage's path, entry and switch change |
| Pipeline.ShaderPass.AddVariable | Objects/ProjectParser.cpp:1439 | the variable joins the end of the list; nothing else changes |
| Pipeline.ShaderPass.AddMacro | Objects/ProjectParser.cpp:1453 | the macro joins the end of the list; nothing else changes |
| Pipeline.ShaderPass.AddItem | Objects/ProjectParser.cpp:1661 | the item joins the end of the list; nothing else changes |
| Pipeline.FindVariable | Objects/ProjectParser.cpp:1672-1677 | index of the first variable with the name; none exactly when none has it |
| Pipeline.FindItem | Objects/ProjectParser.cpp:1680-1685 | index of the first item with the name; none exactly when none has it |
| Pipeline.FindPass | Objects/ProjectParser.cpp:1727-1740 | index of the first pass with the name; none exactly when none has it |
| Pipeline.PipelineManager.Clear | Objects/ProjectParser.cpp:64 | no passes |
| Pipeline.PipelineManager.AddPass | Objects/ProjectParser.cpp:1352 | the pass joins the end of the pipeline |
| Pipeline.RenderEngine.AddItemValue | Objects/ProjectParser.cpp:1691 | the override joins the end of the list |
| Pipeline.MessageStack.Clear | Objects/ProjectParser.cpp:47 | no messages |
| Pipeline.MessageStack.Add | Objects/ProjectParser.cpp:1380 | the message joins the end of the stack |
| Models.CacheIndex | Objects/ProjectParser.cpp:564-566 | index of the first cached entry for the file; none exactly when none is |
| Models.ModelCache.Clear | Objects/ProjectParser.cpp:49-55 | the cache is empty |
| Models.ModelCache.LoadModel | Objects/ProjectParser.cpp:561-577 | a cached file returns its entry unchanged, even after a failed load; a new file is appended, and the model is returned only when it loads |
| Models.LoadedDistinct | Objects/ProjectParser.cpp:561-577 | however many loads run, the cache holds one entry per file, and one for each file asked for |
| RenderStates.ReadWireframe | Objects/ProjectParser.cpp:1519-1520 | `wireframe` sets the polygon mode: GL_LINE when true, GL_FILL otherwise; nothing else changes |
| RenderStates.ReadCull | Objects/ProjectParser.cpp:1521-1522 | `cull` sets whether faces are culled; nothing else changes |
| RenderStates.ReadCullFront | Objects/ProjectParser.cpp:1523-1524 | `cullfront` selects GL_FRONT when true, GL_BACK otherwise; nothing else changes |
| RenderStates.ReadCcw | Objects/ProjectParser.cpp:1525-1526 | `ccw` selects GL_CCW when true, GL_CW otherwise; nothing else changes |
| RenderStates.ReadBlend | Objects/ProjectParser.cpp:1529-1530 | `blend` switches blending; nothing else changes |
| RenderStates.ReadColorSrcFactor | Objects/ProjectParser.cpp:1531-1532 | `colorsrcfactor` sets the color source factor by blend name lookup; nothing else changes |
| RenderStates.ReadColorFunc | Objects/ProjectParser.cpp:1533-1534 | `colorfunc` sets the color equation by operator name lookup; nothing else changes |
| RenderStates.ReadColorDstFactor | Objects/ProjectParser.cpp:1535-1536 | `colordstfactor` sets the color destination factor by blend name lookup; nothing else changes |
| RenderStates.ReadAlphaSrcFactor | Objects/ProjectParser.cpp:1537-1538 | `alphasrcfactor` sets the alpha source factor by blend name lookup; nothing else changes |
| RenderStates.ReadAlphaFunc | Objects/ProjectParser.cpp:1539-1540 | `alphafunc` sets the alpha equation by operator name lookup; nothing else changes |
| RenderStates.ReadAlphaDstFactor | Objects/ProjectParser.cpp:1541-1542 | `alphadstfactor` sets the alpha destination factor by blend name lookup; nothing else changes |
| RenderStates.ReadAlphaToCoverage | Objects/ProjectParser.cpp:1543-1544 | `alpha2coverage` sets alpha-to-coverage; nothing else changes |
| RenderStates.ReadBlendFactorR | Objects/ProjectParser.cpp:1545-1546 | `blendfactor_r` sets the red factor from the text read as an unsigned integer; nothing else changes |
| RenderStates.ReadBlendFactorG | Objects/ProjectParser.cpp:1547-1548 | `blendfactor_g` sets the green factor from the text read as an unsigned integer; nothing else changes |
| RenderStates.ReadBlendFactorB | Objects/ProjectParser.cpp:1549-1550 | `blendfactor_b` sets the blue factor from the text read as an unsigned integer; nothing else changes |
| RenderStates.ReadBlendFactorA | Objects/ProjectParser.cpp:1551-1552 | `blendfactor_a` sets the alpha factor from the text read as an unsigned integer; nothing else changes |
| RenderStates.ReadDepthTest | Objects/ProjectParser.cpp:1555-1556 | `depthtest` switches the depth test; nothing else changes |
| RenderStates.ReadDepthFunc | Objects/ProjectParser.cpp:1557-1558 | `depthfunc` sets the depth comparison by name lookup; nothing else changes |
| RenderStates.ReadDepthBias | Objects/ProjectParser.cpp:1559-1560 | `depthbias` sets the depth bias; nothing else changes |
| RenderStates.ReadDepthClamp | Objects/ProjectParser.cpp:1561-1562 | `depthclamp` sets depth clamping; nothing else changes |
| RenderStates.ReadDepthMask | Objects/ProjectParser.cpp:1563-1564 | `depthmask` sets the depth write mask; nothing else changes |
| RenderStates.ReadStencilTest | Objects/ProjectParser.cpp:1567-1568 | `stenciltest` switches the stencil test; nothing else changes |
| RenderStates.ReadStencilMask | Objects/ProjectParser.cpp:1569-1570 | `stencilmask` sets the stencil mask as an unsigned integer; nothing else changes |
| RenderStates.ReadStencilRef | Objects/ProjectParser.cpp:1571-1572 | `stencilref` sets the stencil reference as an unsigned integer; nothing else changes |
| RenderStates.ReadStencilFrontFunc | Objects/ProjectParser.cpp:1573-1574 | `stencilfrontfunc` sets the front comparison by name lookup; nothing else changes |
| RenderStates.ReadStencilFrontPass | Objects/ProjectParser.cpp:1575-1576 | `stencilfrontpass` sets the front pass operation by name lookup; nothing else changes |
| RenderStates.ReadStencilFrontFail | Objects/ProjectParser.cpp:1577-1578 | `stencilfrontfail` sets the front stencil-fail operation by name lookup; nothing else changes |
| RenderStates.ReadStencilBackFunc | Objects/ProjectParser.cpp:1579-1580 | `stencilbackfunc` sets the back comparison by name lookup; nothing else changes |
| RenderStates.ReadStencilBackPass | Objects/ProjectParser.cpp:1581-1582 | `stencilbackpass` sets the back pass operation by name lookup; nothing else changes |
| RenderStates.ReadStencilBackFail | Objects/ProjectParser.cpp:1583-1584 | `stencilbackfail` sets the back stencil-fail operation by name lookup; nothing else changes |
| RenderStates.ReadDepthFrontFail | Objects/ProjectParser.cpp:1585-1586 | `depthfrontfail` sets the front depth-fail operation by name lookup; nothing else changes |
| RenderStates.ReadDepthBackFail | Objects/ProjectParser.cpp:1587-1588 | `depthbackfail` sets the back depth-fail operation by name lookup; nothing else changes |
| RenderStates.RasterReload | Objects/ProjectParser.cpp:262-265 | from a fresh state, the rasterizer children read back as the rasterizer settings, a non-line polygon mode coming back as fill |
| RenderStates.BlendColorReload | Objects/ProjectParser.cpp:267-274 | with blending off nothing is written or read; with it on, the switch, alpha-to-coverage and the color equation read back through the name tables |
| RenderStates.BlendAlphaReload | Objects/ProjectParser.cpp:275-277 | the alpha equation reads back through the name tables, and only when blending is on |
| RenderStates.BlendFactorReload | Objects/ProjectParser.cpp:278-281 | each blend factor reads back as its float text read as an unsigned integer, and only when blending is on |
| RenderStates.BlendReload | Objects/ProjectParser.cpp:267-282 | from a fresh blend state, the blend children read back as the reloaded blend state |
| RenderStates.DepthReload | Objects/ProjectParser.cpp:284-290 | from a fresh depth state, the depth children read back as the depth settings when the test is on, and leave it alone when it is off |
| RenderStates.StencilTestReload | Objects/ProjectParser.cpp:292-295 | switch, mask and reference read back when the stencil test is on; nothing is written when it is off |
| RenderStates.StencilFuncReload | Objects/ProjectParser.cpp:296-299 | the compare functions and pass operations read back through the name tables when the stencil test is on |
| RenderStates.StencilFailReload | Objects/ProjectParser.cpp:300-303 | the stencil-fail and depth-fail operations read back through the name tables when the stencil test is on |
| RenderStates.StencilReload | Objects/ProjectParser.cpp:292-304 | from a fresh stencil state, the stencil children read back as the reloaded stencil state |
| RenderStates.RenderStateReload | Objects/ProjectParser.cpp:1511-1589 | an item holding the written render-state children reads back as the reloaded state |
| RenderStates.RenderStateRoundTrip | Objects/ProjectParser.cpp:257-305 | a canonical render state saved and read back is unchanged |
| RenderStates.WriterOmitsDefaults | Objects/ProjectParser.cpp:262-304 | the children are the rasterizer, blend, depth and stencil groups in order; a default rasterizer and each disabled feature write nothing |
| RenderStates.DefaultStateWritesNothing | Objects/ProjectParser.cpp:262-304 | the default render state writes no children |
| RenderStates.BlendItemStepKeeps | Objects/ProjectParser.cpp:895-923 | each child of a version 1 `blend` item keeps blending on and leaves depth, stencil and rasterizer untouched |
| RenderStates.BlendItemOnlyBlends | Objects/ProjectParser.cpp:891-924 | whatever its children, a version 1 `blend` item turns blending on and changes nothing outside the blend state |
| RenderStates.DepthStencilStepKeeps | Objects/ProjectParser.cpp:929-954 | each child of a version 1 `depthstencil` item keeps the shape that item promises |
| RenderStates.DepthStencilItemShape | Objects/ProjectParser.cpp:925-955 | whatever its children, a version 1 `depthstencil` item leaves rasterizer, blend, clamp, mask and bias at default, has stencil mask 0xFF, and gives each face one operation for stencil and depth failure |
| RenderStates.RasterizerStepKeeps | Objects/ProjectParser.cpp:960-977 | each child of a version 1 `rasterizer` item keeps the shape that item promises |
| RenderStates.RasterizerItemShape | Objects/ProjectParser.cpp:956-978 | whatever its children, a version 1 `rasterizer` item culls exactly when its cull face is not GL_ZERO and touches no blend or stencil state |
| Items.Settled | Objects/ProjectParser.cpp:241-249 | a vector with no negative zero is unchanged by a save and a reload |
| Items.ReloadedTransform | Objects/ProjectParser.cpp:241-249 | a transform with no negative zero in rotation or position survives a save and a reload |
| Items.ReadWidth | Objects/ProjectParser.cpp:1475-1476 | `width` sets size x of a geometry item; nothing else changes |
| Items.ReadHeight | Objects/ProjectParser.cpp:1477-1478 | `height` sets size y of a geometry item; nothing else changes |
| Items.ReadDepth | Objects/ProjectParser.cpp:1479-1480 | `depth` sets size z of a geometry item; nothing else changes |
| Items.ReadGeometryScaleX | Objects/ProjectParser.cpp:1481-1482 | `scaleX` sets scale x of a geometry item; nothing else changes |
| Items.ReadGeometryScaleY | Objects/ProjectParser.cpp:1483-1484 | `scaleY` sets scale y of a geometry item; nothing else changes |
| Items.ReadGeometryScaleZ | Objects/ProjectParser.cpp:1485-1486 | `scaleZ` sets scale z of a geometry item; nothing else changes |
| Items.ReadGeometryRoll | Objects/ProjectParser.cpp:1487-1488 | `roll` sets rotation z of a geometry item; nothing else changes |
| Items.ReadGeometryYaw | Objects/ProjectParser.cpp:1489-1490 | `yaw` sets rotation y of a geometry item; nothing else changes |
| Items.ReadGeometryPitch | Objects/ProjectParser.cpp:1491-1492 | `pitch` sets rotation x of a geometry item; nothing else changes |
| Items.ReadGeometryPositionX | Objects/ProjectParser.cpp:1493-1494 | `x` sets position x of a geometry item; nothing else changes |
| Items.ReadGeometryPositionY | Objects/ProjectParser.cpp:1495-1496 | `y` sets position y of a geometry item; nothing else changes |
| Items.ReadGeometryPositionZ | Objects/ProjectParser.cpp:1497-1498 | `z` sets position z of a geometry item; nothing else changes |
| Items.ReadTopology | Objects/ProjectParser.cpp:1499-1503 | `topology` sets the topology by the last matching name, and keeps it when no name matches |
| Items.ReadShape | Objects/ProjectParser.cpp:1504-1508 | `type` sets the shape to the last matching name, and keeps it when no name matches |
| Items.ReadFilepath | Objects/ProjectParser.cpp:1603-1604 | `filepath` sets the file name of a model item; nothing else changes |
| Items.ReadGroup | Objects/ProjectParser.cpp:1605-1606 | `group` sets the group name of a model item; nothing else changes |
| Items.ReadGroupOnly | Objects/ProjectParser.cpp:1607-1608 | `grouponly` sets whether only the group is drawn of a model item; nothing else changes |
| Items.ReadModelScaleX | Objects/ProjectParser.cpp:1609-1610 | `scaleX` sets scale x of a model item; nothing else changes |
| Items.ReadModelScaleY | Objects/ProjectParser.cpp:1611-1612 | `scaleY` sets scale y of a model item; nothing else changes |
| Items.ReadModelScaleZ | Objects/ProjectParser.cpp:1613-1614 | `scaleZ` sets scale z of a model item; nothing else changes |
| Items.ReadModelRoll | Objects/ProjectParser.cpp:1615-1616 | `roll` sets rotation z of a model item; nothing else changes |
| Items.ReadModelYaw | Objects/ProjectParser.cpp:1617-1618 | `yaw` sets rotation y of a model item; nothing else changes |
| Items.ReadModelPitch | Objects/ProjectParser.cpp:1619-1620 | `pitch` sets rotation x of a model item; nothing else changes |
| Items.ReadModelPositionX | Objects/ProjectParser.cpp:1621-1622 | `x` sets position x of a model item; nothing else changes |
| Items.ReadModelPositionY | Objects/ProjectParser.cpp:1623-1624 | `y` sets position y of a model item; nothing else changes |
| Items.ReadModelPositionZ | Objects/ProjectParser.cpp:1625-1626 | `z` sets position z of a model item; nothing else changes |
| Items.GeometryScaleReload | Objects/ProjectParser.cpp:241-243 | from scale one, the written scale children read back as the scale |
| Items.GeometryRotationReload | Objects/ProjectParser.cpp:244-246 | from rotation zero, the written rotation children read back as the rotation, -0 as +0 |
| Items.GeometryPositionReload | Objects/ProjectParser.cpp:247-249 | from position zero, the written position children read back as the position, -0 as +0 |
| Items.ModelScaleReload | Objects/ProjectParser.cpp:318-320 | the same for a model item's scale |
| Items.ModelRotationReload | Objects/ProjectParser.cpp:321-323 | the same for a model item's rotation |
| Items.ModelPositionReload | Objects/ProjectParser.cpp:324-326 | the same for a model item's position |
| Items.ShapeReload | Objects/ProjectParser.cpp:237-240 | with distinct shape names, the shape and the size read back unchanged |
| Items.ModelFileReload | Objects/ProjectParser.cpp:313-317 | the file reads back as the saved path; `grouponly` reads back; the group name only when it was written |
| Items.GeometryTransformReload | Objects/ProjectParser.cpp:241-249 | from a fresh transform, the transform children read back as the reloaded transform |
| Items.ModelTransformReload | Objects/ProjectParser.cpp:318-326 | the same for a model item |
| Items.GeometryReload | Objects/ProjectParser.cpp:1465-1510 | a geometry item element as written reads back as the reloaded geometry |
| Items.GeometryRoundTrip | Objects/ProjectParser.cpp:232-256 | with distinct names, a table topology and no negative zero, a saved geometry item reads back unchanged |
| Items.ModelReload | Objects/ProjectParser.cpp:306-327 | a model item reads back with the generic saved path, its group only when group-only, and its reloaded transform |
| Items.ModelFilenameIsGeneric | Objects/ProjectParser.cpp:1629-1630 | whatever the children say, the file name kept holds no backslash |
| Items.ReadItemData | Objects/ProjectParser.cpp:1464-1634 | data exists exactly for the known item types of the version; geometry data exactly for `geometry`, model data exactly for `model` |
| Items.UnknownItemTypeCrashes | Objects/ProjectParser.cpp:1459-1661 | as written, an item of type `mesh` leaves the data pointer null and the reader of either version dereferences it |
| Items.ReadItem | Objects/ProjectParser.cpp:1459-1661 | corrected: an item exists exactly for a known type and carries the element's name; it agrees with the code wherever the code does not crash |
| Objects.ObjectManager.constructor | Objects/ProjectParser.cpp:65 | an empty manager: no objects, no bindings |
| Objects.ObjectManager.Clear | Objects/ProjectParser.cpp:65 | every object and every binding is removed |
| Objects.ObjectManager.Create | Objects/ProjectParser.cpp:1731-1736 | a new name is registered last with its kind; a name already registered leaves the manager unchanged; bindings untouched |
| Objects.ObjectManager.Update | Objects/ProjectParser.cpp:1747-1806 | the named object takes the properties the element gives; names and bindings unchanged |
| Objects.ObjectManager.Bind | Objects/ProjectParser.cpp:1874-1877 | the name joins the end of the pass's texture bind list; nothing else changes |
| Objects.ObjectManager.BindUniform | Objects/ProjectParser.cpp:1879-1882 | the name joins the end of the pass's uniform buffer bind list; nothing else changes |
| Objects.ObjectManager.GetTexture | Objects/ProjectParser.cpp:1980 | never the window's texture; an object's handle exactly when the name is registered, and that handle's name is the name |
| Objects.ObjectManager.TextureNameRoundTrip | Objects/ProjectParser.cpp:1980 | looking up the name of a registered handle gives the handle back |
| Objects.ReadFormat | Objects/ProjectParser.cpp:1749-1758 | no `format` attribute keeps the format; otherwise the format is kept or comes from a format table entry |
| Objects.SettledScalar | Objects/ProjectParser.cpp:381-384 | a non-zero clear component survives a save; a zero one (either sign) comes back as 0 |
| Objects.RedGreenLookups | Objects/ProjectParser.cpp:381-382 | the red and green clear components of a written render texture read back, zero as 0 |
| Objects.BlueAlphaLookups | Objects/ProjectParser.cpp:383-384 | the blue and alpha clear components of a written render texture read back, zero as 0 |
| Objects.FormatLookups | Objects/ProjectParser.cpp:371-380 | `format` is written exactly when the format is not GL_RGBA and carries its table name; `clear` is always written |
| Objects.RenderTextureRoundTrip | Objects/ProjectParser.cpp:1743-1806 | with a named format, a written render texture reads back as itself up to zero clear components |
| Objects.ReadBuffer | Objects/ProjectParser.cpp:1839-1844 | `size` and `format` are taken when present; each otherwise keeps the buffer's value |
| Objects.BufferRoundTrip | Objects/ProjectParser.cpp:400-404 | a written buffer element reads back as the buffer's size and view format |
| Objects.CubeLookups | Objects/ProjectParser.cpp:389-397 | a cube-map element carries the six face paths in their attributes |
| Objects.CubeBackLost | Objects/ProjectParser.cpp:389-397 | as written, a saved cube map reads back with its right face in place of its back face |
| Objects.CubeBackCounterexample | Objects/ProjectParser.cpp:397 | as written, a cube map with distinct faces does not survive saving |
| Objects.CubeRoundTrip | Objects/ProjectParser.cpp:389-397 | corrected: writing the back face from the back face, a cube map with generic paths survives saving |
| Binding.SetSlot | Objects/ProjectParser.cpp:1729-1732 | the table grows to hold the slot; the slot takes the name; other entries are kept; new entries are empty |
| Binding.Target | Objects/ProjectParser.cpp:1727-1735 | the pass found is one of the pipeline's; none exactly when no pass has the name |
| Binding.BindPhaseOne | Objects/ProjectParser.cpp:1723-1736 | an unknown pass or negative slot changes nothing; only the target pass's table changes; it takes the name at the slot and keeps its other entries |
| Binding.BindAllWritesOnlyItsName | Objects/ProjectParser.cpp:1723-1736 | a bind loop only stores the object's own name: tables never shrink, and entries keep their value or take the name |
| Binding.BindAllFrame | Objects/ProjectParser.cpp:1723-1736 | a pass that no `bind` child names keeps its table |
| Binding.ReadBinds | Objects/ProjectParser.cpp:1771-1806 | the bind loop of an object element folds its `bind` children into the tables |
| Binding.ReadTextureBind | Objects/ProjectParser.cpp:1723-1739 | one `bind` of a texture: the table step, and the texture or cube map is created exactly when the bind names a pass |
| Binding.ReadTextureBinds | Objects/ProjectParser.cpp:1723-1741 | the texture is created exactly when some bind names a pass; object bindings are untouched |
| Binding.NonEmpty | Objects/ProjectParser.cpp:1874-1877 | the names of a table in slot order, exactly the non-empty ones |
| Binding.NonEmptyAppend | Objects/ProjectParser.cpp:1874-1877 | skipping empty slots distributes over concatenation |
| Binding.NonEmptySingle | Objects/ProjectParser.cpp:1876 | a one-slot table commits its name unless the slot is empty |
| Binding.AppendedList | Objects/ProjectParser.cpp:1874-1877 | committing to one pass reaches only that pass's list |
| Binding.AppendedTwice | Objects/ProjectParser.cpp:1874-1877 | two commits to a pass are one commit of both runs |
| Binding.CommittedList | Objects/ProjectParser.cpp:1873-1882 | with distinct passes, each pass's list gains exactly the non-empty names of its own table, whatever the order of passes |
| Binding.CommitTextures | Objects/ProjectParser.cpp:1874-1877 | the pass's bind list gains the table's non-empty names; nothing else changes |
| Binding.CommitBuffers | Objects/ProjectParser.cpp:1879-1882 | the pass's uniform list gains the table's non-empty names; nothing else changes |
| Binding.CommitAllTextures | Objects/ProjectParser.cpp:1873-1877 | phase 2 for textures commits every pass's table; uniform lists and objects unchanged |
| Binding.CommitAllBuffers | Objects/ProjectParser.cpp:1878-1882 | phase 2 for buffers commits every pass's buffer table; texture lists and objects unchanged |
| ObjectReader.TextureRegisteredIffBound | Objects/ProjectParser.cpp:1702-1742 | a texture element registers its object exactly when a bind names a pass and the name is new; nothing else is registered |
| ObjectReader.RenderTextureRegistered | Objects/ProjectParser.cpp:1743-1811 | a render texture is always registered or updated in place with the element's properties, and its binds go to the texture tables |
| ObjectReader.AudioRegistered | Objects/ProjectParser.cpp:1812-1832 | an audio element always registers its generic path, which holds no backslash |
| ObjectReader.BufferRegistered | Objects/ProjectParser.cpp:1833-1870 | version 1 skips buffers; version 2 registers the buffer and binds it in the buffer tables only |
| ObjectReader.OtherElementSkipped | Objects/ProjectParser.cpp:1700-1871 | an element of any other type changes nothing |
| ObjectReader.BindAllEntries | Objects/ProjectParser.cpp:1723-1736 | after a bind loop every table entry is an old entry, the object's name, or empty |
| ObjectReader.BindAllUnmatched | Objects/ProjectParser.cpp:1723-1736 | a bind loop in which no bind names a pass changes no table |
| ObjectReader.BindAllKeepsBound | Objects/ProjectParser.cpp:1723-1736 | when every waiting name is an object before, it still is after a bind loop of a registered object |
| ObjectReader.CreatedKeeps | Objects/ProjectParser.cpp:1731-1736 | registering keeps the registry valid, adds the name and keeps earlier names in front |
| ObjectReader.WithRenderTextureKeeps | Objects/ProjectParser.cpp:1743-1806 | registering a render texture keeps the registry valid and only adds |
| ObjectReader.WithBufferKeeps | Objects/ProjectParser.cpp:1833-1844 | registering a buffer keeps the registry valid and only adds |
| ObjectReader.RegistrationKeeps | Objects/ProjectParser.cpp:1700-1871 | one element's registration keeps the registry valid, only adds, and registers the object whenever a bind of it names a pass |
| ObjectReader.ReadObjectElementKeeps | Objects/ProjectParser.cpp:1700-1871 | one element keeps the registry valid, keeps every waiting name an object, and only adds |
| ObjectReader.ObjectsAfterKeeps | Objects/ProjectParser.cpp:1699-1871 | the whole loop keeps every waiting name an object, and names before it stay in front in order |
| ObjectReader.ReadObject | Objects/ProjectParser.cpp:1700-1871 | the object manager and the tables end as the element's specified step leaves them; bindings untouched |
| ObjectReader.ReadObjects | Objects/ProjectParser.cpp:1697-1871 | the loop, starting from empty tables, ends in the fold of the element step; bindings untouched |
| Reader.TargetCount | Objects/ProjectParser.cpp:1340-1349 | one target per `rendertexture` element, and 1 when there is none |
| Reader.ItemValueOf | Objects/ProjectParser.cpp:1665-1693 | an override exists exactly when a pass variable has the `variable` name; it copies the first such variable and the first item named by `for`, if any, records the pass being read, and parses its value from the element |
| Reader.MacrosElementInvisible | Objects/ProjectParser.cpp:1443-1444 | the empty `macros` element the reader appends is never the one it reads: it reads the document's own |
| Reader.LastOfType | Objects/ProjectParser.cpp:1355-1378 | the last shader element of a stage type, or none when no element has that type |
| Reader.LastShaderWins | Objects/ProjectParser.cpp:1355-1376 | each stage's path and entry come from the last shader element of that type, and stay when there is none |
| Reader.SetStageOnly | Objects/ProjectParser.cpp:1363-1376 | setting one stage leaves the other two as they were |
| Reader.LastGeometryShaderSwitch | Objects/ProjectParser.cpp:1370-1372 | the geometry switch is the `used` attribute of the last `gs` element, false when it has none, unchanged when there is no `gs` |
| Reader.RepeatedModelIsSilent | Objects/ProjectParser.cpp:1649-1658 | a model file the cache has seen, loaded or not, reports no error when used again |
| Reader.LoadItemModel | Objects/ProjectParser.cpp:1649-1658 | a model item's file goes through the cache, and the pass gains the load error the items loop specifies for that item |
| Reader.ReadVariablesInto | Objects/ProjectParser.cpp:1384-1440 | the pass's variables gain one read variable per `variable` element, in order; nothing else changes |
| Reader.ReadShaderStage | Objects/ProjectParser.cpp:1355-1381 | one shader element sets its stage and reports a missing file with the stage's kind |
| Reader.ReadNextShader | Objects/ProjectParser.cpp:1355-1381 | the shader loop's body extends the fold of the shader step, the stage variables (version 1) and the missing-file messages by one element |
| Reader.ReadShaders | Objects/ProjectParser.cpp:1355-1381 | after the loop the stages are the fold of the step, version 1 stage variables are appended, and one message per missing shader file is added |
| Reader.ReadMacros | Objects/ProjectParser.cpp:1444-1454 | one macro per `define`, in order; active unless `active` says otherwise; the value is the element's text |
| Reader.LoadedAppend | Objects/ProjectParser.cpp:561-577 | loading two runs of files is loading the first, then the second from the cache the first left |
| Reader.ModelErrorsAppend | Objects/ProjectParser.cpp:1649-1658 | the errors of a run of items are those of a prefix followed by those of the rest against the cache the prefix left |
| Reader.ReadNextItem | Objects/ProjectParser.cpp:1457-1662 | the items loop's body extends the items, the cache and the load errors by the next element |
| Reader.ReadItems | Objects/ProjectParser.cpp:1457-1662 | the pass gains the read items in order; the cache loads their model files; one error per model that fails to load the first time |
| Reader.ReadItemValues | Objects/ProjectParser.cpp:1665-1693 | the render engine gains exactly the overrides whose variable exists, in element order |
| Reader.NewPass | Objects/ProjectParser.cpp:1320-1352 | a fresh pass with the element's name and target count, no shaders, the initial targets, appended to the pipeline |
| Reader.ReadPassCode | Objects/ProjectParser.cpp:1355-1454 | shaders, then in version 2 the pass's variables and its macros, plus the missing-shader messages |
| Reader.ReadPassItems | Objects/ProjectParser.cpp:1457-1693 | items, the model cache, their load errors, then the item overrides |
| Reader.FillPass | Objects/ProjectParser.cpp:1355-1693 | the pass ends in the specified read state, with its messages, cache and overrides |
| Reader.ReadPass | Objects/ProjectParser.cpp:1320-1694 | one pass element gives a fresh pass appended to the pipeline, in its read state, with the initial targets and the target names to resolve later |
| Reader.ReadNextPass | Objects/ProjectParser.cpp:1320-1694 | the passes loop's body extends every running result by one element |
| Reader.ReadPasses | Objects/ProjectParser.cpp:1319-1694 | the passes loop: one fresh pass per element, in order, each in its read state; messages, cache and overrides accumulate across passes |
| Project.ResolveWindow | Objects/ProjectParser.cpp:1976-1984 | a target is the window's texture exactly when its name denotes the window; otherwise it is the object's handle, which exists exactly when the name is an object |
| Project.ChainLength | Objects/ProjectParser.cpp:1976-1984 | the corrected chain writes one entry per name up to the buffer's size |
| Project.ChainedEntries | Objects/ProjectParser.cpp:1976-1984 | each slot with a name holds that name's handle; later slots keep what the buffer held |
| Project.ResolveTargets | Objects/ProjectParser.cpp:1976-1984 | corrected: the chain loop stops at the buffer's end and leaves the buffer as the chain specifies |
| Project.ResolveTargetsAsWritten | Objects/ProjectParser.cpp:1976-1984 | as written the loop only stays within the buffer when a pass has at most 16 targets |
| Project.TargetOverflow | Objects/ProjectParser.cpp:1976-1984 | a pass element with 17 `rendertexture` children gives 17 names for a 16-slot buffer |
| Project.ResolveChain | Objects/ProjectParser.cpp:1976-1984 | every pass's buffer is resolved from its own names; no other buffer changes |
| Project.ResolveNewChains | Objects/ProjectParser.cpp:1976-1984 | every new pass's chain is resolved; the pipeline, the objects and every pass's other state stay as they were |
| Project.PassNamesOf | Objects/ProjectParser.cpp:1727-1728 | the names the bind loops compare with, one per pass, in pipeline order |
| Project.NewPassesValid | Objects/ProjectParser.cpp:1320-1352 | the passes a reader adds each own a distinct buffer of the fixed size |
| Project.ReadObjectsOf | Objects/ProjectParser.cpp:1697-1882 | the object manager ends as the specified registry: every element read, then phase 2 commits (buffers in version 2 only) |
| Project.ReadObjectsAndChain | Objects/ProjectParser.cpp:1697-1984 | objects are read, then every new pass's chain resolved; the passes' states do not change |
| Project.ReadProject | Objects/ProjectParser.cpp:1313-1985 | passes, then objects, then chains: every manager ends as specified, and the new passes are in their read states |
| Project.ReadRegistryBindsObjects | Objects/ProjectParser.cpp:1697-1882 | from an empty manager, names are distinct and registered, every bound name is an object, and version 1 binds no uniform buffer |
| Project.ProjectVersion | Objects/ProjectParser.cpp:70-73 | the `version` attribute as an integer, or 1 when there is none |
| Project.ReadEmptied | Objects/ProjectParser.cpp:63-77 | the version reader on emptied managers leaves them as the project specifies |
| Project.ReadDocument | Objects/ProjectParser.cpp:63-77 | pipeline and objects are emptied, then the reader of the document's version runs; an unknown version leaves everything empty |
| Project.ProjectParser.constructor | Objects/ProjectParser.cpp:31-37 | a parser over the given managers, with no file and no project directory |
| Project.ProjectParser.Open | Objects/ProjectParser.cpp:40-87 | records the file and its directory; a document that fails to parse only empties messages and models; an unknown version empties everything; versions 1 and 2 read as specified |
| Writer.LeadingTargets | Objects/ProjectParser.cpp:203-212 | how many buffer entries come before the first 0: all of them are non-zero, and the next one is 0 |
| Writer.ChainNodes | Objects/ProjectParser.cpp:203-212 | one `rendertexture` element per entry before the first 0, in slot order |
| Writer.ChainNames | Objects/ProjectParser.cpp:203-212 | one name per written target |
| Writer.WriteTargets | Objects/ProjectParser.cpp:203-212 | the render-target loop appends exactly the chain's elements |
| Writer.ChainRoundTrip | Objects/ProjectParser.cpp:203-212 | the written chain fits the buffer, and each written target resolves back to its handle |
| Writer.EmptyChainReadsAsWindow | Objects/ProjectParser.cpp:203-212 | a buffer starting with 0 writes no target, and reads back as one target, the window, in slot 0 |
| Writer.StageRead | Objects/ProjectParser.cpp:172-185 | a written vertex or pixel element sets its stage to the generic path and the entry |
| Writer.GeometryStageRead | Objects/ProjectParser.cpp:187-200 | a written geometry element sets path, entry and the switch |
| Writer.VertexPixelRead | Objects/ProjectParser.cpp:163-185 | the two written vertex and pixel elements read back as those stages |
| Writer.ShadersRoundTrip | Objects/ProjectParser.cpp:163-201 | the written shader elements read back as the reloaded stages; geometry only when path and entry are non-empty |
| Writer.Defines | Objects/ProjectParser.cpp:217-224 | one `define` per macro, in order |
| Writer.WriteMacros | Objects/ProjectParser.cpp:217-224 | the macros element holds exactly the defines |
| Writer.MacrosRoundTrip | Objects/ProjectParser.cpp:217-224 | saved macros read back as themselves, in order |
| Writer.ItemRoundTrip | Objects/ProjectParser.cpp:228-326 | a saved item reads back as its reloaded self |
| Writer.ItemNodes | Objects/ProjectParser.cpp:228-326 | one `item` element per item, in order |
| Writer.WriteItems | Objects/ProjectParser.cpp:227-326 | the items element holds exactly the item elements |
| Writer.ItemsRoundTrip | Objects/ProjectParser.cpp:227-326 | every saved item reads back, in order, none skipped |
| Writer.ValueNodes | Objects/ProjectParser.cpp:329-348 | at most one `value` element per override |
| Writer.ValueNodesSelect | Objects/ProjectParser.cpp:333-341 | of the given overrides, the written ones are exactly those whose item is one of the pass's items |
| Writer.HoldsItem | Objects/ProjectParser.cpp:333-339 | true exactly when the override was recorded for this pass and its item is one of the pass's items |
| Writer.OverridesOfMembers | Objects/ProjectParser.cpp:331-339 | the overrides a pass can write are exactly the recorded overrides whose item lives in that pass |
| Writer.OverrideOfOnePass | Objects/ProjectParser.cpp:333-339 | with distinct passes, an override's item lives in at most one of them, so it is written at most once |
| Writer.WrittenOverrides | Objects/ProjectParser.cpp:329-348 | the value elements of a pass are exactly those of the recorded overrides whose item is one of its items |
| Writer.WriteItemValues | Objects/ProjectParser.cpp:329-348 | the loop over all recorded overrides writes, in order, a value element for each one whose item is one of this pass's items |
| Writer.ValueReadBack | Objects/ProjectParser.cpp:342-347 | a written override reads back for the pass being read, on the same variable and item names, its value parsed from the rows the source writes |
| Writer.PassNodeShape | Objects/ProjectParser.cpp:150-349 | a written pass element is shaders, targets, variables, macros, items and itemvalues, in that order |
| Writer.PassShadersRead | Objects/ProjectParser.cpp:163-201 | the reader finds the saved shaders in a written pass |
| Writer.ChainTargetNames | Objects/ProjectParser.cpp:203-212 | the `name` attributes of the written chain are the chain's names |
| Writer.PassTargetsRead | Objects/ProjectParser.cpp:203-212 | the reader finds the chain's names in a written pass |
| Writer.PassVariableNodes | Objects/ProjectParser.cpp:214-215 | the reader finds the saved variable elements, in order |
| Writer.PassTailRead | Objects/ProjectParser.cpp:217-349 | the macros, items and itemvalues the reader picks are the saved ones |
| Writer.VariablesOfEach | Objects/ProjectParser.cpp:1384-1440 | the variables loop reads one variable per element, in order |
| Writer.PassVariablesRead | Objects/ProjectParser.cpp:214-215 | the reader rebuilds the saved variables |
| Writer.PassRoundTrip | Objects/ProjectParser.cpp:150-349 | a saved pass reads back with its name, target count, reloaded shaders, variables and items, and its macros unchanged |
| Writer.WritePass | Objects/ProjectParser.cpp:150-349 | the body of the passes loop writes the specified pass element |
| ObjectWriter.BindNode | Objects/ProjectParser.cpp:421-423 | a `bind` element with the slot and the pass name |
| ObjectWriter.SlotBinds | Objects/ProjectParser.cpp:418-424 | `bind` elements naming the pass only |
| ObjectWriter.SlotBindsExactly | Objects/ProjectParser.cpp:418-424 | a slot is written exactly when it holds the object |
| ObjectWriter.BindNodes | Objects/ProjectParser.cpp:416-424 | only `bind` elements, pass after pass |
| ObjectWriter.ObjectElements | Objects/ProjectParser.cpp:353-439 | one element per object, in order, each with its kind's binds |
| ObjectWriter.ObjectNodesOf | Objects/ProjectParser.cpp:353-439 | one `object` element per registered object |
| ObjectWriter.WriteSlotBinds | Objects/ProjectParser.cpp:418-424 | the slot loop writes exactly the specified binds |
| ObjectWriter.WriteObjectBinds | Objects/ProjectParser.cpp:415-425 | the pass loop writes exactly the specified binds |
| ObjectWriter.WriteObject | Objects/ProjectParser.cpp:360-438 | one object's element with its binds |
| ObjectWriter.WriteElements | Objects/ProjectParser.cpp:353-439 | the objects loop writes the specified elements |
| ObjectWriter.WriteObjects | Objects/ProjectParser.cpp:351-440 | the objects section writes one element per registered object, in creation order |
| ObjectWriter.ObjectElementRead | Objects/ProjectParser.cpp:361-369 | a written element is read under the object's own name, with its binds sent to the table of its kind |
| ObjectWriter.TargetOfName | Objects/ProjectParser.cpp:1727-1728 | with distinct pass names, a pass is found by its own name |
| ObjectWriter.SlotBindsEffect | Objects/ProjectParser.cpp:418-424 | the binds written from one list set, in their pass's table, exactly the slots holding the object |
| ObjectWriter.BindNodesEffect | Objects/ProjectParser.cpp:416-424 | all binds of an object overlay each pass's table with the slots of its own list holding the object |
| ObjectWriter.TablesAfter | Objects/ProjectParser.cpp:1699-1871 | after reading the written elements so far, each table holds the saved list's entries for the objects read |
| ObjectWriter.TableReadBack | Objects/ProjectParser.cpp:1699-1871 | after every written element is read, each pass's table is the saved list of the pass at the same position |
| ObjectWriter.BindsRoundTrip | Objects/ProjectParser.cpp:1873-1882 | saved texture and buffer bind lists read back as the same lists, slot for slot |
| ProjectWriter.DocumentReadBack | Objects/ProjectParser.cpp:142-147 | a saved document has version 2 and exactly the written pass and object elements |
| ProjectWriter.WritePasses | Objects/ProjectParser.cpp:150-349 | the pipeline section writes one element per pass, in order |
| ProjectWriter.WriteNextPass | Objects/ProjectParser.cpp:150-349 | one step of the passes loop appends the next pass's element after those of the passes before it |
| ProjectWriter.PassElementAt | Objects/ProjectParser.cpp:150-349 | element k is the element of pass k, with the overrides whose item lives in pass k |
| ProjectWriter.NamesOfPasses | Objects/ProjectParser.cpp:428-436 | the pass names the objects section writes, one per pass, in order |
| ProjectWriter.WriteDocument | Objects/ProjectParser.cpp:142-440 | the document of the pipeline and its objects |
| ProjectWriter.SaveAs | Objects/ProjectParser.cpp:97-530 | records the file and its directory, and produces the specified document |
| ProjectWriter.Save | Objects/ProjectParser.cpp:93-96 | `SaveAs` to the project's own file: the file and directory stay |
| ProjectWriter.PassesRoundTrip | Objects/ProjectParser.cpp:142-349 | every saved pass reads back, in order, as its reloaded self, variables in the value layout the source writes |
| ProjectWriter.SavedBindsRoundTrip | Objects/ProjectParser.cpp:142-440 | in a saved document, the texture and buffer bind lists of each pass read back unchanged |

## Left out

- Parsing the `.sprj` text into a tree and `save_file`: the document is a parameter of the readers and the result of the writer.
- Copying shader and resource files into a new directory on "save as" (`copyFiles`), and `GetRelativePath`: the relative path is a parameter.
- Reading and writing the side-car `.buf` files that hold buffer contents: file I/O.
- GPU calls (`glBufferData`, the vertex arrays built by `GeometryFactory`, render-texture allocation): they have no observable effect on the project's data.
- Loading model files from disk: an oracle `loads` says which paths load.
- `FileExists`: an oracle `fileExists` stands for the file system.
- The settings sections (`property`, `file`, `camera`, `clearcolor`), the pipeline-tree `collapsed` flags and the UI: they belong to other components.
- The `Logger` calls and `SystemVariableManager::Reset`: they change nothing in the project.
- Float arithmetic, the division of colour channels by 255, `stof`/`stoi` on sizes, fixed and relative render-texture sizes (`CalculateSize`, `ResizeRenderTexture`): floats are opaque `Scalar` values compared only for equality.
- The internals of the function and system variable managers (argument counts, default arguments, name tables): they are the `VariableOracles` parameter.
- The string tables of `Names.h`: they are the `Tables` parameter.
- Adding a variable to a pass's variable store is modelled as appending it; the store's own bookkeeping is not part of this model.
- The object manager's internals: binding appends to the pass's list, and creating an object under a name that already exists changes nothing.
- A negative bind slot: the source indexes with it (undefined behaviour); the model drops the bind.
- The default field values of freshly created geometry and models (`FreshGeometry`, `FreshModel`): the default constructors are not part of this model and the constants are chosen to be plain.
- The contents of render targets: only which handle occupies each slot of a pass is tracked.
- Phase 2 of the reader walks a `std::map` keyed by pass pointer; the model walks passes in pipeline order (`CommittedList` shows the per-pass lists do not depend on the order).
- `UI/ObjectPreviewUI.h`, `OpenTemplate`, `LoadProjectFile`, `SaveProjectFile` and `ResetProjectDirectory`: outside the parser's core.
- The constructor sets the project path to the process's current directory; the model starts with the empty path.
- `Open` empties the pipeline and the objects before it looks at the file's version; the model keeps that order.
- A pass whose name is never set reads as the empty name; the source leaves the buffer uninitialised.
- Paths.ProjectPath: the `generic_string` normalisation of separators is not modelled; paths are joined as plain strings.
- RenderStates.RenderStateRoundTrip: requires (through `Canonical`) that blend factors survive `asUint(floatText(x))`; the writer prints a factor as float text and the reader reads it with `as_uint`, so a fractional factor does not survive and is excluded rather than modelled as lost.
- Writer.HoldsItem: the source compares item pointers. The model compares the override's recorded pass by identity and its item by value, so two equal items of one pass are not told apart. Both would be written under the same names, so the saved file is the same.
- ObjectReader.RenderTextureRegistered: the read never fails. The source reads `rsize`/`fsize` with `std::stof`/`std::stoi`, which throw when the attribute is missing or not a number (Objects/ProjectParser.cpp:1761-1774; version 1 at :1138-1141). The model leaves out sizes, so it has no such failure.
- ObjectReader.RenderTextureRegistered: when the name belongs to an object of another kind, the model changes nothing. The source dereferences the pointer `GetRenderTexture` returns without a check (Objects/ProjectParser.cpp:1747; version 1 at :1134-1135), which is null in that case.
- RenderStates.DefaultRenderState: the `pipe::RenderState` constructor is not part of this model. The values are chosen to match what the writer omits. The version 1 `depthstencil` reader sets the stencil mask to 0xFF itself (Objects/ProjectParser.cpp:931), so the real default mask may differ.
- RenderStates.RenderStateRoundTrip, RenderStates.RenderStateReload, RenderStates.RasterReload, RenderStates.BlendReload, RenderStates.DepthReload, RenderStates.StencilReload, RenderStates.DefaultStateWritesNothing and RenderStates.WriterOmitsDefaults: these start from, or compare with, `DefaultRenderState`. They hold for the chosen defaults, not necessarily for the constructor's. Where a real default differs from the chosen one, a field the writer omits reads back as that real default.
- Objects.FreshRenderTexture: the format, clear flag and colour a new render texture starts with are chosen, since `CreateRenderTexture` is not part of this model. The clear flag and colour are not affected, because the reader sets them whether or not their attributes are present (Objects/ProjectParser.cpp:1781-1794).
- Objects.RenderTextureRoundTrip: it assumes that a new render texture's format is GL_RGBA. The writer leaves out `format` exactly for RGBA (Objects/ProjectParser.cpp:371-380), so the round trip of an RGBA texture rests on that assumed default.
- Objects.FreshBuffer: size 0 and an empty view format are chosen, since `CreateBuffer` is not part of this model. No round trip rests on them, because the writer always writes both attributes.
- Names.NameOf: the writer names blend factors, blend equations, comparison functions, stencil operations and texture formats with `gl::String::BlendFactor`, `BlendFunction`, `ComparisonFunction`, `StencilOperation` and `Format` (Objects/ProjectParser.cpp:272-303, :375). `gl::String` is not part of this model. `NameOf` takes each of them to be the inverse of the reader's own table (`Names.h`), giving the empty name to a value the table lacks. If `gl::String` prints a name the table does not hold, the value does not read back. RenderStates.BlendColorReload, BlendAlphaReload, DepthReload, StencilFuncReload, StencilFailReload, BlendReload, StencilReload, RenderStateReload and RenderStateRoundTrip, Objects.FormatLookups and RenderTextureRoundTrip, and through `ReloadedRenderState` Writer.ItemRoundTrip, ItemsRoundTrip, PassRoundTrip and ProjectWriter.PassesRoundTrip rest on that assumption. The topology names at :250-255 come from the source's own loop and do not.
- Fixed-size name and path buffers: the reader copies document text with `strcpy` into fixed-size buffers. These are the pass name (Objects/ProjectParser.cpp:1331; version 1 at :743), the item name (:1462; version 1 at :842), the shader path and the stage path and entry fields (:1360-1375; version 1 at :770-782), the macro name and value (:1447, :1452), the Pointer argument (:616), the model file and group names (:1604-1606, :1630; version 1 at :992-994, :1018), the object name and cube-face paths (:1711-1721; version 1 at :1099-1108) and the buffer view format (:1844). The model keeps every name and path as an unbounded string. So its read and round-trip lemmas also cover names longer than those buffers, where the source overflows them (undefined behaviour).
- Variables.Put: a float cell is keyed by its (column, row) pair. The as-written first row holds `cols + 1` values (Objects/ProjectParser.cpp:639-651), so reading it stores a cell at column `cols` of row 0. In the source's flat buffer that is column 0 of row 1, which the next row then overwrites. The model keeps it as a key of its own that the program never has. The cells inside the matrix agree, so `MatrixDoesNotRoundTrip` is unaffected. A row longer than the matrix in a hand-edited file writes past the source's buffer; the model stores those cells too.

## Findings

| source | as written | input that shows it | evidently intended | confidence | as-written member | corrected member |
|---|---|---|---|---|---|---|
| Objects/ProjectParser.cpp:639-651 | a new `row` is started after value `i` when `i % cols == 0 && i != 0`, so the first row holds `cols + 1` values and the last fewer | a 2x2 float matrix: rows of 3 and 1 values instead of 2 and 2 | rows of exactly `cols` values, so the value reads back as written | not executed | Variables.MatrixDoesNotRoundTrip | Variables.IntendedFloatRoundTrip |
| Objects/ProjectParser.cpp:397 | the `back` face of a cube map is written from the fifth face (`right`) | a cube map with six distinct faces: `back` reads back as the right face | `back` written from the sixth face, so all six faces round-trip | not executed | Objects.CubeBackCounterexample | Objects.CubeRoundTrip |
| Objects/ProjectParser.cpp:1976-1984 | the render-target index is not bounded by `MAX_RENDER_TEXTURES`; the version 1 chain loop at Objects/ProjectParser.cpp:1302-1311 has the same unbounded `index` (the write at :1308) | a pass with 17 `rendertexture` children writes past the 16-slot array | targets beyond the sixteenth ignored | not executed | Project.TargetOverflow | Project.ResolveTargets |
| Objects/ProjectParser.cpp:1459-1661 | an item whose `type` is none of the known kinds leaves its data pointer null and then dereferences it; version 1 does the same, leaving `itemData` null at Objects/ProjectParser.cpp:839-840 and dereferencing it at :1021-1023 | an item with type `mesh`, in a file of either version | the item skipped; the corrected `Items.ReadItem` serves both versions | not executed | Items.UnknownItemTypeCrashes | Items.ReadItem |

The writer in this model saves variable values and cube maps as the source writes them (`ExportRows`, `CubeAttrsAsWritten`), so the project-level round trips carry the first two discrepancies; the corrected layouts are proved on their own. The reader uses the corrected `Items.ReadItem`, and the render-target chain uses the corrected `Project.ResolveTargets`.
