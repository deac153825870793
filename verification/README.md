# Schematic editing in KiCAD-MCP-Server, modelled in Dafny

KiCAD-MCP-Server edits KiCad schematic files on behalf of an assistant. This
project models three parts of its Python code and proves properties of them.

**Tree-level editing** (`python/commands/component_schematic.py` and
`python/commands/connection_schematic.py`).

- A schematic is a sequence of top-level S-expression nodes. It is held in
  the `Schematic` class and changed in place.
- Adding a symbol instance, a wire or a label builds a node and inserts it
  just before the first top-level `sheet_instances` node. With no such node
  it goes at the end.
- Adding a symbol involves four steps:
  - its library definition is copied into the first `lib_symbols` section,
    at most once;
  - the project UUID is the first 8-4-4-4-12 lowercase-hex path found under
    an instance's `instances` descriptor, or else a fresh one;
  - the pin numbers are read from the cached definition by a walk of depth
    at most 10;
  - the instance node is assembled from a fixed header, four properties, one
    pin entry per pin and an `instances` descriptor.
- Identifiers that `uuid.uuid4` would produce are drawn from a `UuidSource`.
  It holds a caller-supplied stream and a count of identifiers drawn so far.
- Library files are a map from library name to parsed file.

**Layout arithmetic** (`component_schematic.py`).

- The next free cell of a 20×20 grid window, using Python's round-half-to-even
  `round`.
- Eight-direction placement relative to an anchor symbol.
- Row-major placement of a group, using Python's floor `%` and `//`.
- The voltage-divider macro is modelled as a sequence of edits applied in
  order.

**The parser-free deletion handlers** (`python/kicad_interface.py`).

- The file text is split into lines. A line scanner copies lines or drops
  whole blocks, and the kept lines are joined back with newlines.
- A block runs to the first line where the running count of `(` minus `)`
  returns to zero.
- The symbol scan copies the `lib_symbols` region verbatim. It recognises two
  instance layouts and drops a block when the reference it reads is one of
  the targets.
- The wire scan drops every `(wire`, `(junction` and `(label` block.
- Each loop is a method proved equal to a recursive specification function.
- Lemmas about those functions prove two things:
  - the output is an order-preserving subsequence of the input;
  - the written text equals the text read exactly when nothing was dropped.

Files, one module each:

| file | module |
|---|---|
| `sexpr.dfy` | `SExprs` |
| `schematic.dfy` | `Schematics` |
| `library.dfy` | `SymbolLibrary` |
| `pins.dfy` | `Pins` |
| `project_uuid.dfy` | `ProjectUuids` |
| `instance.dfy` | `InstanceNodes` |
| `layout.dfy` | `Layout` |
| `component.dfy` | `ComponentSchematic` |
| `group.dfy` | `ComponentGroups` |
| `connection.dfy` | `ConnectionSchematic` |
| `text.dfy` | `PyText` |
| `text_delete.dfy` | `TextDeletion` |

## Model

| member | source | states |
|---|---|---|
| SExprs.HeadIsMeansHead | python/commands/component_schematic.py:85-86 | A node is headed by a tag exactly when it is a non-empty list whose first item is that bare symbol. This is the `item[0].value() == tag` test every scan makes. |
| Schematics.AnchorIndex | python/commands/component_schematic.py:485-491 | The insertion index is at most the tree's length. No node before it is headed `sheet_instances`. When it is below the length, the node there is the first `sheet_instances` node. |
| Schematics.Schematic.InsertBeforeSheetInstances | python/commands/component_schematic.py:485-493 | The node goes in at the anchor index of the old tree. The new tree is the old one with that node spliced in there. |
| Schematics.Insert | python/commands/component_schematic.py:493 | The tree grows by one and the new node sits at the given index. |
| Schematics.InsertKeepsOthers | python/commands/component_schematic.py:493 | Nodes before the insertion index are unchanged. Every later node moves one place on. |
| Schematics.InsertMovesAnchor | python/commands/connection_schematic.py:44-52 | After inserting a node that is not `sheet_instances`, the anchor is one place further on, so the next addition lands right after this one. |
| Schematics.InsertTwiceKeepsOrder | python/commands/connection_schematic.py:239-249 | Two successive additions appear in the order they were made, between the nodes before the anchor and those from it on. |
| Schematics.SheetInstancesStaysLast | python/commands/component_schematic.py:484-493 | A `sheet_instances` node that ends the document still ends it after an addition. |
| Schematics.CountUuid | python/commands/component_schematic.py:265 | Counts the top-level nodes carrying an identifier. The count is zero exactly when no node carries it. |
| Schematics.InsertFreshIdIsUnique | python/commands/component_schematic.py:265 | Inserting a node whose identifier no top-level node has leaves exactly one node with that identifier. |
| Schematics.UuidSource.Next | python/commands/connection_schematic.py:26 | Each draw yields the next identifier of the stream and advances the count by one. |
| Schematics.SavedRoot | python/commands/component_schematic.py:451 | The saved root is a list headed `kicad_sch` with one item per node after the first. |
| Schematics.SavedRootOfSchematic | python/commands/component_schematic.py:451 | When the tree already starts with `kicad_sch`, the saved root is the tree itself. |
| SymbolLibrary.SplitLibId | python/commands/component_schematic.py:25-29 | Fails exactly when the id has no `:`. Otherwise it splits at the first `:`: the library part has no `:` and the parts rejoin to the id. |
| SymbolLibrary.SplitLibIdOf | python/commands/component_schematic.py:29 | A library name without `:` and any symbol name are recovered exactly from `lib:name`. |
| SymbolLibrary.FindDefinition | python/commands/component_schematic.py:48-52 | Finds the first item `(symbol "<name>" ...)` of a library, and none when no item defines the name. |
| SymbolLibrary.LoadSymbol | python/commands/component_schematic.py:14-66 | Never succeeds for an id without `:`. A result always defines the full library id. |
| SymbolLibrary.LoadSymbolFinds | python/commands/component_schematic.py:25-57 | Lookup succeeds exactly when the library exists, is a list and defines the symbol. The result is the first such definition: `symbol`, then the full id, then the definition's items from the third on. |
| SymbolLibrary.LibSymbolsIndex | python/commands/component_schematic.py:84-89 | Gives the index of the first top-level `lib_symbols` node, or none when there is none. |
| SymbolLibrary.EnsureCached | python/commands/component_schematic.py:69-111 | A failed cache step leaves the tree untouched. Without a `lib_symbols` section it fails. The top-level shape (length and heads) never changes. |
| SymbolLibrary.EnsureCachedKeepsOthers | python/commands/component_schematic.py:84-111 | Every top-level node that is not `lib_symbols` is unchanged. |
| SymbolLibrary.EnsureCachedAppends | python/commands/component_schematic.py:103-109 | A changed tree is the old one with the loaded definition appended to the first `lib_symbols` section. That happens only when the id was not cached and the lookup succeeded. |
| SymbolLibrary.EnsureCachedCaches | python/commands/component_schematic.py:95-111 | After a successful step, the first `lib_symbols` section holds a definition for the id. |
| SymbolLibrary.EnsureCachedIdempotent | python/commands/component_schematic.py:95-101 | A second step right after the first returns the same answer and changes nothing, so a definition is appended at most once. |
| SymbolLibrary.EnsureCachedSucceeds | python/commands/component_schematic.py:91-111 | The step succeeds exactly when a `lib_symbols` section exists and the id is either cached there or found by lookup. |
| Pins.FirstString | python/commands/component_schematic.py:207-210 | Finds a string atom exactly when one exists from the start index on. It is the first one. |
| Pins.ReadPinNumber | python/commands/component_schematic.py:207-210 | The loop over a pin node's items returns the pin's number. |
| Pins.ExtractPins | python/commands/component_schematic.py:199-211 | The recursive walk appends exactly the pin numbers the walk specification gives for that node and depth. |
| Pins.PinsAreFromPinNodes | python/commands/component_schematic.py:199-211 | Every number the walk reports is the first string atom of some `pin` node inside the walked node. |
| Pins.PinNodesAreReported | python/commands/component_schematic.py:199-211 | Conversely, every `pin` node with a string atom that lies no deeper than the walk's depth cut of 10 has its number reported. |
| Pins.SectionPins | python/commands/component_schematic.py:190-215 | Gives the pins of the first entry carrying the id whose walk yields any, so every earlier entry for the id yields none. It is empty exactly when no entry for the id yields pins. |
| Pins.TreePins | python/commands/component_schematic.py:185-219 | Gives the pins of the first `lib_symbols` section that holds a yielding entry for the id, taken from that section's first yielding entry. It is empty exactly when no section holds one. |
| Pins.GetLibrarySymbolPins | python/commands/component_schematic.py:180-219 | The scan over the document returns the pins of the first `lib_symbols` entry for the id whose walk yields any, else none. |
| Pins.ScanSection | python/commands/component_schematic.py:190-215 | The scan over one section returns the pins of its first entry for the id that yields any. |
| Pins.ScanEntry | python/commands/component_schematic.py:194-215 | An entry that carries the id as a string item yields its walk's pins. Any other entry yields none. |
| Pins.FlatDefinitionPins | python/commands/component_schematic.py:180-219 | A cached resistor with two direct pins yields `["1", "2"]`, in document order. |
| ProjectUuids.FirstUuidPath | python/commands/component_schematic.py:146 | Finds nothing only when no `/` is followed by a UUID. Otherwise it gives a UUID that follows a `/`, with no earlier match. |
| ProjectUuids.FirstUuidPathOfPath | python/commands/component_schematic.py:146-148 | A text `/<uuid>...` yields that UUID. |
| ProjectUuids.FirstUuidPathShort | python/commands/component_schematic.py:146 | A text shorter than 37 characters yields no match. |
| ProjectUuids.UuidInSymbol | python/commands/component_schematic.py:138-148 | A match found in a node is a lowercase 8-4-4-4-12 UUID. |
| ProjectUuids.UuidInSymbolIsFirst | python/commands/component_schematic.py:136-148 | A top-level node yields no match exactly when it is not a `symbol` or none of its `instances` children holds one. Otherwise the match comes from its first `instances` child that holds one. |
| ProjectUuids.ProjectUuidIn | python/commands/component_schematic.py:135-148 | Finds nothing exactly when no top-level `symbol` node's `instances` yields a match. Otherwise it gives the match of the first node that yields one. |
| ProjectUuids.ProjectUuidAfterInsert | python/commands/component_schematic.py:135-148 | Inserting a symbol that carries the document's project UUID, or any UUID when the document has none, makes that the document's UUID. |
| ProjectUuids.ProjectUuidIgnoresOtherNodes | python/commands/component_schematic.py:136-138 | Replacing a non-`symbol` node by another non-`symbol` node leaves the project UUID unchanged. |
| ProjectUuids.ProjectUuidInsertOther | python/commands/component_schematic.py:136-148 | Inserting a node that yields no match leaves the project UUID unchanged. |
| ProjectUuids.FirstSomeUnique | python/commands/component_schematic.py:136-148 | The first top-level node that yields a match decides the project UUID. |
| InstanceNodes.PropertyNode | python/commands/component_schematic.py:154-177 | A property node holds, in order: the head `property`, the name, the value, an `at` node that reads back as the position and rotation, and an `effects` node that reads back as the justification and visibility. |
| InstanceNodes.ReadProperty | python/commands/component_schematic.py:155-177 | Reads only nodes of exactly the property shape. |
| InstanceNodes.PropertyRoundTrip | python/commands/component_schematic.py:155-177 | A property node reads back as the property it was built from. This covers name, value, position, rotation, visibility and the optional justification. |
| InstanceNodes.PinsRoundTrip | python/commands/component_schematic.py:225-237 | The pin nodes read back as the pin entries they were built from, in order. |
| InstanceNodes.InstancesRoundTrip | python/commands/component_schematic.py:239-254 | The `instances` descriptor reads back as its project, reference and unit. |
| InstanceNodes.InstancesNode | python/commands/component_schematic.py:239-254 | The descriptor is headed `instances`. When the project is a UUID, the project UUID search finds it again in the path `/<project>`. |
| InstanceNodes.SymbolNode | python/commands/component_schematic.py:291-311 | The node is headed `symbol`, has 15 items plus one per pin, and carries the instance's identifier. |
| InstanceNodes.SymbolNodeParts | python/commands/component_schematic.py:291-311 | The node's items are, in order: ten header nodes, then Reference, Value, Footprint and Datasheet, then the pins, then the `instances` descriptor. |
| InstanceNodes.HeaderRoundTrip | python/commands/component_schematic.py:291-301 | The header reads back as the lib id, position, rotation, unit, the five yes/no switches and the identifier. |
| InstanceNodes.SymbolRoundTrip | python/commands/component_schematic.py:257-311 | An instance node reads back as the instance it was built from. |
| InstanceNodes.DatasheetText | python/commands/component_schematic.py:279 | The shown datasheet is never empty. It is the given one whenever that is non-empty. |
| InstanceNodes.InstanceFor | python/commands/component_schematic.py:257-311 | The instance carries the symbol identifier, one pin per pin number in order, the project and the placement's reference and unit. |
| InstanceNodes.InstanceForProperties | python/commands/component_schematic.py:274-282 | Reference sits at (x, y−5.08) and Value at (x, y−2.54), both shown. Footprint and Datasheet sit at (x, y), hidden. Footprint is justified exactly when non-empty. An empty datasheet shows as `~`. |
| InstanceNodes.SymbolNodeCarriesProject | python/commands/component_schematic.py:138-148 | The project UUID search finds an instance node's project UUID in that node. |
| InstanceNodes.OnlyLastChildIsInstances | python/commands/component_schematic.py:140-148 | Only the last child of an instance node is headed `instances`. |
| Layout.RoundHalfEven | python/commands/component_schematic.py:513-514 | The result is within 0.5 of its argument, and a tie goes to the even integer. |
| Layout.RoundHalfEvenUnique | python/commands/component_schematic.py:513-514 | Those two conditions determine the result. |
| Layout.RoundHalfEvenExamples | python/commands/component_schematic.py:513-514 | 2.5 rounds to 2, 3.5 to 4 and −2.5 to −2. |
| Layout.Occupied | python/commands/component_schematic.py:509-517 | With cell size 0 no cell is occupied: the division fails and every symbol is skipped. |
| Layout.OccupiedMeans | python/commands/component_schematic.py:509-517 | With a non-zero cell size, a cell is occupied exactly when some existing symbol rounds to it. |
| Layout.FirstFree | python/commands/component_schematic.py:520-523 | A cell found lies in the window and is unoccupied. |
| Layout.FirstFreeIsFirst | python/commands/component_schematic.py:520-523 | Every cell before the one found, in row-major order, is occupied. With none found, all 400 cells are occupied. |
| Layout.GetNextGridPosition | python/commands/component_schematic.py:506-526 | The occupancy loop and the nested row and column loops return the corner of the first free cell, or the window origin when the window is full. |
| Layout.NextGridPositionIsFree | python/commands/component_schematic.py:519-523 | When the window has a free cell, no existing symbol rounds to the chosen cell. A symbol placed there rounds back to it. |
| Layout.NextGridPositionZeroSize | python/commands/component_schematic.py:506-526 | With cell size 0 the position is (0, 0). |
| Layout.FindSymbol | python/commands/component_schematic.py:409-420 | Finds the first symbol with the reference, so no earlier symbol has it, and finds none exactly when no symbol has it. |
| Layout.DirectionOffset | python/commands/component_schematic.py:564-575 | Each coordinate of an offset is d, −d or 0. |
| Layout.DirectionOffsetMeaning | python/commands/component_schematic.py:564-573 | Each direction and its opposite cancel out. The x offset is d exactly for the three `right` directions and the y offset is d exactly for the three `below` ones. |
| Layout.UnknownDirectionIsRight | python/commands/component_schematic.py:575 | An unrecognised direction is treated as `right`. |
| Layout.RelativePosition | python/commands/component_schematic.py:546-576 | There is no position exactly when no symbol has the anchor reference. Otherwise it is the position of the first symbol with that reference plus the direction's offset. |
| Layout.RelativePositionExamples | python/commands/component_schematic.py:564-576 | The right of (100, 100) by 25.4 is (125.4, 100). The above-left of (100, 100) by 10 is (90, 90). A missing anchor gives none. |
| Layout.FloorDivMod | python/commands/component_schematic.py:615-616 | Python's `//` and `%` satisfy a = b·q + r, with r taking the divisor's sign. |
| Layout.GroupPositionGrid | python/commands/component_schematic.py:615-618 | With positive columns, member i is at column i mod columns and row i div columns. |
| Layout.GroupPositionInjective | python/commands/component_schematic.py:615-618 | With non-zero spacing, distinct members never share a position. |
| Layout.GroupPositionExample | python/commands/component_schematic.py:615-618 | With 5 columns, member 5 starts the second row. |
| ComponentSchematic.LoadSymbolFromLibrary | python/commands/component_schematic.py:14-66 | The library scan returns what `LoadSymbol` specifies. |
| ComponentSchematic.EnsureSymbolInLibSymbols | python/commands/component_schematic.py:69-117 | The answer and the new tree are those of the cache step `EnsureCached`. |
| ComponentSchematic.GetProjectUuid | python/commands/component_schematic.py:120-152 | Returns the document's project UUID, or else the next fresh identifier. Exactly one identifier is drawn in the second case and none in the first. |
| ComponentSchematic.CreatePinSexprs | python/commands/component_schematic.py:225-237 | Gives one `(pin <number> (uuid <id>))` node per pin number, in order, each with the next fresh identifier. |
| ComponentSchematic.CreateSymbolSexpr | python/commands/component_schematic.py:257-311 | The node is built with identifiers drawn in order: the symbol's, then the project's if the document has none, then one per pin. |
| ComponentSchematic.AddComponentSexpr | python/commands/component_schematic.py:469-495 | The addition always succeeds. The document and the draw count become those of the cache step followed by the insertion of the new node at the anchor. |
| ComponentSchematic.AddComponentAuto | python/commands/component_schematic.py:529-540 | The symbol is added at the next free grid position. |
| ComponentSchematic.AddComponentRelative | python/commands/component_schematic.py:579-594 | Succeeds exactly when the anchor exists, adding at the relative position. Otherwise nothing changes. |
| ComponentSchematic.AddedTreeLength | python/commands/component_schematic.py:485-493 | An addition adds exactly one top-level node. |
| ComponentSchematic.AddedTreeShape | python/commands/component_schematic.py:474-493 | The new node sits at the anchor and reads back as the instance built. Every node that is not `lib_symbols` keeps its place, shifted by one after the anchor. |
| ComponentSchematic.AddedInstanceContents | python/commands/component_schematic.py:264-292 | The new instance's pins are those of the cached definition, in order. Its project is the document's project UUID when there is one. Its identifier is the first one drawn. |
| ComponentSchematic.ProjectUuidAcrossCache | python/commands/component_schematic.py:103-109 | The cache step does not change the project UUID. |
| ComponentSchematic.AddComponentKeepsProjectUuid | python/commands/component_schematic.py:120-152 | An addition keeps the document's project UUID. On a document without one, the identifier drawn for it becomes the document's. |
| ComponentSchematic.AddComponentFreshId | python/commands/component_schematic.py:265 | When the symbol's identifier is fresh, the document afterwards has exactly one top-level node with it. |
| ComponentSchematic.AddComponentCachesOnce | python/commands/component_schematic.py:95-101 | After one successful addition, the next addition with the same library id finds the definition cached and its cache step changes nothing. |
| ComponentSchematic.LibSymbolsIndexAfterInsert | python/commands/component_schematic.py:84-89 | Inserting a node that is not `lib_symbols` leaves the first `lib_symbols` section in place, shifted past the insertion. |
| ComponentGroups.GroupPlacementAt | python/commands/component_schematic.py:613-629 | Member i keeps its own lib id, reference, value, footprint and datasheet, with rotation 0 and unit 1. With positive columns it sits at x = start_x + (i % columns)·spacing and y = start_y + (i // columns)·spacing. With non-zero spacing no other member shares its position. |
| ComponentGroups.AddComponentGroup | python/commands/component_schematic.py:600-638 | The result is true exactly when columns is non-zero or the list is empty. An empty list changes nothing, and neither does zero columns with members, which fails. Otherwise the members are added in order, one addition each. |
| ComponentGroups.AddMember | python/commands/component_schematic.py:613-633 | One loop step adds member i at its grid position and succeeds. |
| ComponentGroups.AddAllAddsOneNodeEach | python/commands/component_schematic.py:613-633 | Adding n placements adds exactly n top-level nodes. |
| ConnectionSchematic.WireNode | python/commands/connection_schematic.py:28-41 | The wire node is headed `wire`, is neither `symbol` nor `sheet_instances`, and carries its identifier. |
| ConnectionSchematic.ReadWire | python/commands/connection_schematic.py:28-41 | Reads only nodes of exactly the wire shape. |
| ConnectionSchematic.WireRoundTrip | python/commands/connection_schematic.py:28-41 | A wire node reads back as its two end points and identifier. |
| ConnectionSchematic.LabelNode | python/commands/connection_schematic.py:84-100 | The head is the caller's label type, unchecked. The node carries its identifier. |
| ConnectionSchematic.LabelRoundTrip | python/commands/connection_schematic.py:84-100 | A label node reads back as its type, text, position and identifier. |
| ConnectionSchematic.AddWire | python/commands/connection_schematic.py:11-54 | Returns the wire node with the next identifier and inserts it at the anchor. |
| ConnectionSchematic.AddLabel | python/commands/connection_schematic.py:66-113 | Returns the label node with the next identifier and inserts it at the anchor. |
| ConnectionSchematic.AddConnection | python/commands/connection_schematic.py:125-143 | Always false, and the schematic is not modified. |
| ConnectionSchematic.RemoveConnection | python/commands/connection_schematic.py:146-154 | Always false, and the schematic is not modified. |
| ConnectionSchematic.GetNetConnections | python/commands/connection_schematic.py:157-165 | Always the empty list. |
| ConnectionSchematic.ApplyEditsLength | python/commands/connection_schematic.py:208-259 | Each edit adds exactly one top-level node. |
| ConnectionSchematic.ApplyEditsKeepProjectUuid | python/commands/connection_schematic.py:211-259 | Once the document has a project UUID, later symbol, wire and label additions keep it. |
| ConnectionSchematic.LabelCarriesNoProject | python/commands/connection_schematic.py:84-100 | The project UUID search finds nothing in a label node. |
| ConnectionSchematic.Truncate | python/commands/connection_schematic.py:212 | Python's `int()` truncates toward zero. |
| ConnectionSchematic.NatText | python/commands/connection_schematic.py:212 | The text is decimal digits without leading zeros. |
| ConnectionSchematic.NatTextRoundTrip | python/commands/connection_schematic.py:212 | Reading a number's decimal text back gives the number. |
| ConnectionSchematic.IntText | python/commands/connection_schematic.py:212 | The text starts with `-` exactly for a negative number. |
| ConnectionSchematic.DividerEdits | python/commands/connection_schematic.py:201-259 | A divider is eleven edits: four symbol placements, then four wires, then three labels of type `label`. |
| ConnectionSchematic.PerformEdit | python/commands/connection_schematic.py:211-259 | Each step is the symbol, wire or label addition it stands for, and succeeds. |
| ConnectionSchematic.AllTrueAppend | python/commands/connection_schematic.py:262 | The conjunction of the results extended by one is the old conjunction and the new result. |
| ConnectionSchematic.LowerResistor | python/commands/connection_schematic.py:197-199 | A given lower resistor is used as is. Otherwise it is the value r with r·(v_in − v_out) = v_out·r_upper. There is none exactly when it must be computed and the voltages are equal. |
| ConnectionSchematic.DividerOutput | python/commands/connection_schematic.py:270 | The summary's output voltage v satisfies v·(r_upper + r_lower) = v_in·r_lower. It is undefined exactly when the resistances sum to zero. |
| ConnectionSchematic.ComputedLowerMeetsTarget | python/commands/connection_schematic.py:193-199 | With a computed lower resistor, the summary reports the requested output voltage whenever its division is defined. |
| ConnectionSchematic.CreateVoltageDivider | python/commands/connection_schematic.py:168-286 | Fails before any change when the component manager's import does not resolve, and when the lower resistor must be computed and the two voltages are equal. Otherwise it applies the eleven edits in order. It then reports failure when the resistances sum to zero, since the summary divides by their sum, and otherwise reports that all edits succeeded. |
| ConnectionSchematic.DividerProjectUuid | python/commands/connection_schematic.py:211-259 | A divider adds eleven nodes. Afterwards the document's project UUID is the old one, or else the one drawn for the supply symbol. |
| ConnectionSchematic.DividerSymbolProject | python/commands/connection_schematic.py:210-235 | Each of the four symbol placements inserts the symbol node of an instance whose path names the same project UUID: the document's, or else the one drawn for the supply symbol. |
| ConnectionSchematic.PlacedSymbolNode | python/commands/connection_schematic.py:210-235 | A symbol edit inserts, into the document the earlier edits produced, the symbol node of the instance built on the cached document at its anchor. |
| ConnectionSchematic.PlacedSymbolProject | python/commands/connection_schematic.py:210-235 | When the first edit places a symbol, every later symbol edit inserts an instance naming the document's project UUID, or else the one the first symbol drew. |
| ConnectionSchematic.FirstPlacementSetsProjectUuid | python/commands/connection_schematic.py:211-259 | When the first edit places a symbol, the document ends with its old project UUID, or else the one that symbol drew. |
| PyText.TrimLeftRemovesLeadingSpace | python/kicad_interface.py:974 | Stripping on the left removes exactly the leading run of white space. |
| PyText.TrimRightRemovesTrailingSpace | python/kicad_interface.py:974 | Stripping on the right removes exactly the trailing run of white space. |
| PyText.StripLeavesNoOuterSpace | python/kicad_interface.py:974 | What `strip()` leaves is a slice of the input that neither starts nor ends with white space. |
| PyText.StripChar | python/kicad_interface.py:1030 | `strip('"')` leaves a text that neither starts nor ends with `"`. |
| PyText.Count | python/kicad_interface.py:1015 | The count is zero exactly when the character does not occur. |
| PyText.SplitPieces | python/kicad_interface.py:963 | `split` gives one more piece than there are separators, and no piece holds one. |
| PyText.JoinSplit | python/kicad_interface.py:1089 | Joining the split lines with the separator gives back the text. |
| PyText.SplitJoin | python/kicad_interface.py:1021 | Splitting joined pieces that hold no separator gives back the pieces. |
| TextDeletion.TagMeaning | python/kicad_interface.py:978-1048 | A line's tag answers the loop's tests, taken in the loop's order. |
| TextDeletion.BlockStopIsFirstZero | python/kicad_interface.py:1011-1036 | A block ends at the first line where the balance counted from its opening line is zero. With none, it runs to the end. |
| TextDeletion.RefStep | python/kicad_interface.py:1017-1033 | The single-line layout never sets the split-line flags and never replaces a reference once found. A reference changes only when an empty one is filled from a line holding `property "Reference"`, or when a quoted line follows the `"Reference"` line in the split-line layout. |
| TextDeletion.InlineScanFindsFirst | python/kicad_interface.py:1056-1069 | In the single-line layout the reference is the fourth `"`-field of the first line holding `property "Reference"` that has one. |
| TextDeletion.SplitFormFindsValue | python/kicad_interface.py:1024-1032 | A bare `property` line, then a bare `"Reference"` line, then a quoted line yield the quoted value, unquoted. |
| TextDeletion.Classify | python/kicad_interface.py:978-1048 | A symbol block opens exactly outside the library region, at a `(symbol` line or at a lone `(` followed by a bare `symbol` line. The split-line layout is the lone `(` form. A copied line leaves the scan inside the region exactly when it opens the region, or is inside it and is not a lone `)`. |
| TextDeletion.SymbolScan | python/kicad_interface.py:1127-1241 | The loop's specification. The kept lines plus the dropped blocks never outnumber the lines scanned, because each dropped block removes at least one line. |
| TextDeletion.SymbolScanSubseq | python/kicad_interface.py:1120-1241 | The kept lines are input lines in their original order. |
| TextDeletion.SymbolScanIdentity | python/kicad_interface.py:1120-1241 | Kept lines plus dropped blocks never exceed the input. Nothing is dropped exactly when every line is kept. |
| TextDeletion.LibRegionVerbatim | python/kicad_interface.py:1131-1150 | The `lib_symbols` region is copied line for line up to and including the first lone `)`, at any depth. |
| TextDeletion.UnclosedLibRegionVerbatim | python/kicad_interface.py:1131-1150 | A `lib_symbols` region that never closes copies the rest of the input and drops nothing. |
| TextDeletion.ReadSymbolBlock | python/kicad_interface.py:1158-1191 | Returns the block's lines up to the zero-balance line, the stop index and the reference found. |
| TextDeletion.DeleteSymbolBlocks | python/kicad_interface.py:1120-1241 | The scan loop's output lines and drop count are those the scan specification gives. |
| TextDeletion.TakeSymbolBlock | python/kicad_interface.py:1155-1237 | One block is read, then dropped and counted when its reference is a target, or kept whole. The scan goes on after it. |
| TextDeletion.WireScan | python/kicad_interface.py:1279-1298 | The wire loop's specification. It never keeps more lines than it scans. |
| TextDeletion.WireScanSubseq | python/kicad_interface.py:1279-1298 | The lines kept by the wire scan are input lines in their original order. |
| TextDeletion.WireScanIdentity | python/kicad_interface.py:1279-1298 | The output is the input exactly when no line opens a wire, junction or label block. |
| TextDeletion.SkipBlock | python/kicad_interface.py:1285-1293 | Stops at the first line where the balance returns to zero. |
| TextDeletion.DeleteWireBlocks | python/kicad_interface.py:1275-1298 | The wire loop's output is what the wire-scan specification gives. |
| TextDeletion.DeleteSymbol | python/kicad_interface.py:946-1096 | Refuses a missing `file_path`, then a missing reference. Otherwise it writes the one-target deletion to `output_path` when given, else to `file_path`. |
| TextDeletion.DeleteSymbols | python/kicad_interface.py:1103-1254 | Refuses a missing `file_path`, then a missing or empty reference list. Otherwise it writes the deletion and reports the number of dropped blocks. |
| TextDeletion.DeleteAllWires | python/kicad_interface.py:1261-1309 | Refuses a missing `file_path`. Otherwise it writes the text without wire, junction and label blocks. |
| TextDeletion.EmptyTextIsKept | python/kicad_interface.py:1082-1084 | The single empty line is kept by both scans. |
| TextDeletion.SymbolDeletedTextIdentity | python/kicad_interface.py:1086-1089 | The written text is the text read exactly when no symbol block was dropped. |
| TextDeletion.WireDeletedTextIdentity | python/kicad_interface.py:1300-1303 | The written text is the text read exactly when no line opens a wire, junction or label block. |
| TextDeletion.KeptTextDeterminesLines | python/kicad_interface.py:1089 | Kept lines that join back to the text they came from are all the lines, or none. |

## Left out

- **Bare symbols and quoted strings are distinct atoms.** Every `isinstance(x, str)` test (pin numbers, lib id matches) accepts quoted strings only. This matches an S-expression reader that keeps symbols separate from strings. With a reader whose symbols are `str` subclasses, those tests would also accept bare symbols.
- **The kicad-skip branch of `_get_project_uuid`** (`component_schematic.py:124-133`) is not modelled. It searches the text of kicad-skip's first loaded symbol; only the tree scan is modelled.
- **How the project UUID search reads `str()` of an `instances` node.** It is modelled atom by atom. The separators Python's list rendering puts between atoms are not hex digits, so a match never spans two atoms.
- **The thin kicad-skip wrappers** (`add_component`, `remove_component`, `update_component`, `get_component`, `search_components`, `get_all_components`; `component_schematic.py:316-440`) are not modelled.
  - Existing symbol positions are a caller-supplied sequence of coordinate pairs.
  - Anchor lookup is a sequence of (reference, x, y) triples searched for the first match.
- **Parsing and printing S-expressions** (`sexpdata.loads`/`dumps`) and all file reads and writes are left out.
  - Library files are a map from library name to the parsed file.
  - A missing key stands for a missing file; a file that fails to parse is not represented.
  - The deletion handlers take the file's text as a parameter and return the path and the text they would write.
  - Saving contributes only the `kicad_sch` root, `SavedRoot`.
- **`uuid.uuid4`** is a caller-supplied stream of identifiers, drawn in the same order as the source draws them.
- **The voltage divider's value texts and summary dictionary** are left out.
  - The texts formatted from the voltages and resistances (`f"+{v_in}V"`, `f"{r_lower:.1f}k"`) are parameters.
  - The summary's rounding and its other fields are not modelled.
  - Both divisions are modelled: the lower-resistor computation (`LowerResistor`) and the summary's output voltage (`DividerOutput`), together with the failures they cause.
  - The parameter defaults (5 V in, 3 V out, position (120, 80), 10 kΩ) are not modelled; every value is passed explicitly.
- CreateVoltageDivider: whether the bare-name import `from component_schematic import ComponentManager` (`connection_schematic.py:185`) resolves is the parameter `importResolves`, because it depends on the interpreter's module search path, which this model does not represent. The server puts only the `python` directory on that path (`kicad_interface.py:79-81`) and imports the module as `commands.connection_schematic` (`kicad_interface.py:170`, `kicad_interface.py:1430`). Unless something else adds `python/commands` to the path, the import fails, and the macro reports failure before any edit.
- **Exceptions, `print`, tracebacks and logging** are left out. A failure the source catches is a result value, as in `AddComponentGroup` with zero columns.
  - Library lookups that raise (for example on a non-list library item) and a non-list tree are not modelled.
- **Deletion handler parameters are strings, or a list of strings for the batch handler.** JSON `null` entries, non-string references and a non-list `references` value are not modelled.
- **Coordinates are exact reals.** Binary floating point effects in positions and offsets are not modelled.
- **Inner loops are factored into helper methods.**
  - The inner loops of the source are separate methods: `ReadPinNumber`, `ScanSection`, `ScanEntry`, `ReadSymbolBlock`, `TakeSymbolBlock`, `SkipBlock`, `DrawInstance`/`AssembleSymbol` and `AddMember`.
  - What each loop reads from a line is computed once per line by `Infos` and passed to the scans: the stripped-form tests, the `"`-split and the parenthesis counts.
- **`_handle_add_symbol`** passes keyword arguments that `add_component_sexpr` does not accept. It is command plumbing outside this model.
- **The JSON-RPC loop, command routing, KiCad process control and PDF export** in `kicad_interface.py` are left out.
