/**
 * Adding symbol instances to a schematic: cache the library definition,
 * build the instance node (drawing identifiers as the node is built) and
 * insert it before the first `sheet_instances` node; plus the three
 * placement front ends (grid, relative, group).
 */
module ComponentSchematic {
  import opened SExprs
  import opened Schematics
  import opened SymbolLibrary
  import opened Pins
  import opened ProjectUuids
  import opened InstanceNodes
  import opened Layout

  /** The identifiers `stream(from)`, ..., `stream(from + n - 1)`, in draw order. */
  function Draws(stream: nat -> string, from: nat, n: nat): (r: seq<string>)
    ensures |r| == n
  {
    seq(n, k requires 0 <= k < n => stream(from + k))
  }

  /** The `k`-th drawn identifier is `stream(from + k)`. */
  lemma DrawsAt(stream: nat -> string, from: nat, n: nat, k: nat)
    requires k < n
    ensures Draws(stream, from, n)[k] == stream(from + k)
  {
  }

  /** Drawing one more identifier extends the sequence by it. */
  lemma DrawsAppend(stream: nat -> string, from: nat, n: nat)
    ensures Draws(stream, from, n + 1) == Draws(stream, from, n) + [stream(from + n)]
  {
  }

  /** The project identifier a new instance gets: the document's, or the next fresh one. */
  function ProjectFor(t: seq<SExpr>, stream: nat -> string, d: nat): string {
    match ProjectUuidIn(t)
    case Some(u) => u
    case None => stream(d)
  }

  /** How many identifiers finding the project identifier uses up: none when the document has one. */
  function ProjectDraws(t: seq<SExpr>): nat {
    if ProjectUuidIn(t).Some? then 0 else 1
  }

  /**
   * The instance built for placement `p` on document `t` with identifiers
   * drawn from `stream(d)` on: first the symbol's, then the project's if
   * the document has none, then one per pin.
   */
  function BuiltInstance(t: seq<SExpr>, p: Placement, stream: nat -> string, d: nat): Instance {
    var pins := LibraryPins(t, p.libId);
    InstanceFor(p, stream(d), ProjectFor(t, stream, d + 1), pins, Draws(stream, d + 1 + ProjectDraws(t), |pins|))
  }

  /** How many identifiers building an instance of `libId` on `t` uses up. */
  function DrawCount(t: seq<SExpr>, libId: string): nat {
    1 + ProjectDraws(t) + |LibraryPins(t, libId)|
  }

  /** The placement `add_component_sexpr` asks for: unit 1 and the default switches. */
  function ComponentPlacement(libId: string, reference: string, value: string, x: real, y: real,
                              rotation: int, footprint: string, datasheet: string): Placement {
    Placement(libId, reference, value, x, y, rotation, 1, footprint, datasheet, DefaultFlags)
  }

  /** The document after adding placement `p`: cache step, then the new node at the anchor. */
  function AddedTree(t: seq<SExpr>, libs: map<string, SExpr>, p: Placement, stream: nat -> string, d: nat): seq<SExpr> {
    var c := EnsureCached(t, libs, p.libId).tree;
    Insert(c, AnchorIndex(c), SymbolNode(BuiltInstance(c, p, stream, d)))
  }

  /** How many identifiers adding placement `p` to `t` uses up. */
  function AddedDraws(t: seq<SExpr>, libs: map<string, SExpr>, p: Placement): nat {
    DrawCount(EnsureCached(t, libs, p.libId).tree, p.libId)
  }

  /** The document and the identifier count after adding `p` to document `s.0` with `s.1` identifiers drawn. */
  function AddOne(s: (seq<SExpr>, nat), libs: map<string, SExpr>, p: Placement, stream: nat -> string): (seq<SExpr>, nat)
  {
    (AddedTree(s.0, libs, p, stream, s.1), s.1 + AddedDraws(s.0, libs, p))
  }

  /** Adding a component adds exactly one top-level node. */
  lemma {:induction false} AddedTreeLength(t: seq<SExpr>, libs: map<string, SExpr>, p: Placement, stream: nat -> string, d: nat)
    ensures |AddedTree(t, libs, p, stream, d)| == |t| + 1
  {
    var c := EnsureCached(t, libs, p.libId).tree;
    assert |c| == |t|;
  }

  /** The library scan: split the id, open the library, take the first matching definition. */
  method LoadSymbolFromLibrary(libs: map<string, SExpr>, libId: string) returns (r: Option<SExpr>)
    ensures r == LoadSymbol(libs, libId)
  {
    if ':' !in libId {
      return None;
    }
    var (lib, name) := SplitLibId(libId).value;
    if lib !in libs || !libs[lib].List? {
      return None;
    }
    var items := libs[lib].items;
    var j := 0;
    while j < |items|
      invariant 0 <= j <= |items|
      invariant FindDefinition(items, name, j) == FindDefinition(items, name, 0)
    {
      var item := items[j];
      if item.List? && |item.items| > 0 && item.items[0] == Sym("symbol") {
        if |item.items| > 1 && item.items[1] == Str(name) {
          return Some(List([Sym("symbol"), Str(libId)] + item.items[2..]));
        }
      }
      j := j + 1;
    }
    return None;
  }

  /**
   * Finds the first `lib_symbols` section, looks for `libId` among its
   * entries, and appends the library definition when it is missing.
   */
  method EnsureSymbolInLibSymbols(sch: Schematic, libs: map<string, SExpr>, libId: string) returns (ok: bool)
    modifies sch
    ensures ok == EnsureCached(old(sch.tree), libs, libId).ok
    ensures sch.tree == EnsureCached(old(sch.tree), libs, libId).tree
  {
    var k := 0;
    while k < |sch.tree| && !HeadIs(sch.tree[k], "lib_symbols")
      invariant 0 <= k <= |sch.tree|
      invariant forall j :: 0 <= j < k ==> !HeadIs(sch.tree[j], "lib_symbols")
    {
      k := k + 1;
    }
    if k == |sch.tree| {
      return false;
    }
    assert LibSymbolsIndex(sch.tree) == Some(k);
    var section := sch.tree[k];
    var q := 1;
    while q < |section.items|
      invariant 1 <= q <= |section.items|
      invariant forall j :: 1 <= j < q ==> !DefinesSymbol(section.items[j], libId)
    {
      var item := section.items[q];
      if item.List? && |item.items| > 1 && item.items[0] == Sym("symbol") && item.items[1] == Str(libId) {
        assert DefinesSymbol(item, libId);
        return true;
      }
      q := q + 1;
    }
    var def := LoadSymbolFromLibrary(libs, libId);
    if def.None? {
      return false;
    }
    sch.tree := sch.tree[k := List(section.items + [def.value])];
    return true;
  }

  /**
   * The project identifier: the first match in the `instances` children of
   * the top-level `symbol` nodes, else a freshly drawn identifier.
   */
  method GetProjectUuid(sch: Schematic, ids: UuidSource) returns (u: string)
    modifies ids
    ensures u == ProjectFor(sch.tree, ids.stream, old(ids.drawn))
    ensures ids.drawn == old(ids.drawn) + ProjectDraws(sch.tree)
  {
    var i := 0;
    while i < |sch.tree|
      invariant 0 <= i <= |sch.tree|
      invariant forall j :: 0 <= j < i ==> UuidInSymbol(sch.tree[j]).None?
    {
      var item := sch.tree[i];
      if HeadIs(item, "symbol") {
        var j := 0;
        while j < |item.items|
          invariant 0 <= j <= |item.items|
          invariant UuidInInstances(item.items, j) == UuidInInstances(item.items, 0)
        {
          var sub := item.items[j];
          if HeadIs(sub, "instances") {
            var m := FirstUuidPathIn(sub);
            if m.Some? {
              FirstSomeUnique(sch.tree, i);
              return m.value;
            }
          }
          j := j + 1;
        }
      }
      i := i + 1;
    }
    u := ids.Next();
  }

  /** One `(pin <number> (uuid <fresh id>))` node per pin number, drawing an identifier for each. */
  method CreatePinSexprs(numbers: seq<string>, ids: UuidSource) returns (nodes: seq<SExpr>)
    modifies ids
    ensures nodes == PinNodes(PinEntries(numbers, Draws(ids.stream, old(ids.drawn), |numbers|)))
    ensures ids.drawn == old(ids.drawn) + |numbers|
  {
    nodes := [];
    var i := 0;
    while i < |numbers|
      invariant 0 <= i <= |numbers|
      invariant ids.drawn == old(ids.drawn) + i
      invariant nodes == PinNodes(PinEntries(numbers[..i], Draws(ids.stream, old(ids.drawn), i)))
    {
      var id := ids.Next();
      DrawsAppend(ids.stream, old(ids.drawn), i);
      ghost var before := PinEntries(numbers[..i], Draws(ids.stream, old(ids.drawn), i));
      ghost var after := PinEntries(numbers[..i + 1], Draws(ids.stream, old(ids.drawn), i + 1));
      assert after == before + [PinEntry(numbers[i], id)];
      PinNodesAppend(before, PinEntry(numbers[i], id));
      nodes := nodes + [PinNode(PinEntry(numbers[i], id))];
      i := i + 1;
    }
    assert numbers[..i] == numbers;
  }

  lemma {:induction false} PinNodesAppend(pins: seq<PinEntry>, p: PinEntry)
    ensures PinNodes(pins + [p]) == PinNodes(pins) + [PinNode(p)]
  {
    if pins == [] {
      assert [p][1..] == [];
    } else {
      PinNodesAppend(pins[1..], p);
      assert (pins + [p])[1..] == pins[1..] + [p];
    }
  }

  /**
   * Builds the instance node for `p`: draws the symbol identifier, finds or
   * draws the project identifier, reads the cached pins and draws one
   * identifier per pin.
   */
  method CreateSymbolSexpr(sch: Schematic, p: Placement, ids: UuidSource) returns (node: SExpr)
    modifies ids
    ensures node == SymbolNode(BuiltInstance(sch.tree, p, ids.stream, old(ids.drawn)))
    ensures ids.drawn == old(ids.drawn) + DrawCount(sch.tree, p.libId)
  {
    var inst, pinNodes := DrawInstance(sch, p, ids);
    node := AssembleSymbol(inst, pinNodes);
  }

  /** The identifiers and pins of the instance for `p`, drawn in the order the node lists them. */
  method DrawInstance(sch: Schematic, p: Placement, ids: UuidSource) returns (inst: Instance, pinNodes: seq<SExpr>)
    modifies ids
    ensures inst == BuiltInstance(sch.tree, p, ids.stream, old(ids.drawn))
    ensures pinNodes == PinNodes(inst.pins)
    ensures ids.drawn == old(ids.drawn) + DrawCount(sch.tree, p.libId)
  {
    var symbolUuid := ids.Next();
    var project := GetProjectUuid(sch, ids);
    var pins := GetLibrarySymbolPins(sch.tree, p.libId);
    var pinFrom := ids.drawn;
    pinNodes := CreatePinSexprs(pins, ids);
    inst := InstanceFor(p, symbolUuid, project, pins, Draws(ids.stream, pinFrom, |pins|));
    BuiltInstanceFrom(sch.tree, p, ids.stream, old(ids.drawn), symbolUuid, project, pins, pinFrom);
  }

  /** Puts the header, the four properties, the pin nodes and the `instances` block together. */
  method AssembleSymbol(inst: Instance, pinNodes: seq<SExpr>) returns (node: SExpr)
    requires pinNodes == PinNodes(inst.pins)
    ensures node == SymbolNode(inst)
  {
    node := List(HeaderNodes(inst) +
                 [PropertyNode(inst.reference), PropertyNode(inst.value), PropertyNode(inst.footprint), PropertyNode(inst.datasheet)] +
                 pinNodes +
                 [InstancesNode(inst.project, inst.pathReference, inst.pathUnit)]);
  }

  lemma BuiltInstanceFrom(t: seq<SExpr>, p: Placement, stream: nat -> string, d: nat,
                          symbolUuid: string, project: string, pins: seq<string>, pinFrom: nat)
    requires symbolUuid == stream(d) && project == ProjectFor(t, stream, d + 1)
    requires pins == LibraryPins(t, p.libId) && pinFrom == d + 1 + ProjectDraws(t)
    ensures InstanceFor(p, symbolUuid, project, pins, Draws(stream, pinFrom, |pins|)) == BuiltInstance(t, p, stream, d)
  {
    var ds := Draws(stream, pinFrom, |pins|);
    assert ds == Draws(stream, d + 1 + ProjectDraws(t), |LibraryPins(t, p.libId)|);
  }

  /**
   * Adds a symbol instance at exactly `(x, y)`: cache step (its failure is
   * only reported), build the node, insert it at the anchor. Always succeeds.
   */
  method AddComponentSexpr(sch: Schematic, libs: map<string, SExpr>, libId: string, reference: string, value: string,
                           x: real, y: real, rotation: int, footprint: string, datasheet: string, ids: UuidSource)
    returns (ok: bool)
    modifies sch, ids
    ensures ok
    ensures (sch.tree, ids.drawn) == AddOne((old(sch.tree), old(ids.drawn)), libs,
                                            ComponentPlacement(libId, reference, value, x, y, rotation, footprint, datasheet), ids.stream)
  {
    var p := ComponentPlacement(libId, reference, value, x, y, rotation, footprint, datasheet);
    var cached := EnsureSymbolInLibSymbols(sch, libs, libId);
    ghost var c := sch.tree;
    ghost var d := ids.drawn;
    var node := CreateSymbolSexpr(sch, p, ids);
    var pos := sch.InsertBeforeSheetInstances(node);
    AddOneFrom(old(sch.tree), libs, p, ids.stream, d, c, node, sch.tree, ids.drawn);
    ok := true;
  }

  /** The three steps of an addition, in order, make up `AddOne`. */
  lemma AddOneFrom(t: seq<SExpr>, libs: map<string, SExpr>, p: Placement, stream: nat -> string, d: nat,
                   c: seq<SExpr>, node: SExpr, r: seq<SExpr>, d': nat)
    requires c == EnsureCached(t, libs, p.libId).tree
    requires node == SymbolNode(BuiltInstance(c, p, stream, d)) && d' == d + DrawCount(c, p.libId)
    requires r == Insert(c, AnchorIndex(c), node)
    ensures (r, d') == AddOne((t, d), libs, p, stream)
  {
    AddedTreeFrom(t, libs, p, stream, d, c, node, r);
    AddOneIs(t, libs, p, stream, d, r, d');
  }

  lemma AddOneIs(t: seq<SExpr>, libs: map<string, SExpr>, p: Placement, stream: nat -> string, d: nat,
                 r: seq<SExpr>, d': nat)
    requires r == AddedTree(t, libs, p, stream, d) && d' == d + AddedDraws(t, libs, p)
    ensures (r, d') == AddOne((t, d), libs, p, stream)
  {
  }

  lemma AddedTreeFrom(t: seq<SExpr>, libs: map<string, SExpr>, p: Placement, stream: nat -> string, d: nat,
                      c: seq<SExpr>, node: SExpr, r: seq<SExpr>)
    requires c == EnsureCached(t, libs, p.libId).tree
    requires node == SymbolNode(BuiltInstance(c, p, stream, d))
    requires r == Insert(c, AnchorIndex(c), node)
    ensures r == AddedTree(t, libs, p, stream, d)
  {
  }

  /** Adds a symbol instance at the next free cell of the grid window. */
  method AddComponentAuto(sch: Schematic, libs: map<string, SExpr>, positions: seq<(real, real)>,
                          libId: string, reference: string, value: string, gx: int, gy: int, g: real,
                          rotation: int, footprint: string, datasheet: string, ids: UuidSource)
    returns (ok: bool)
    modifies sch, ids
    ensures ok
    ensures var pos := NextGridPosition(positions, gx, gy, g);
            (sch.tree, ids.drawn) == AddOne((old(sch.tree), old(ids.drawn)), libs,
                                            ComponentPlacement(libId, reference, value, pos.0, pos.1, rotation, footprint, datasheet),
                                            ids.stream)
  {
    var pos := GetNextGridPosition(positions, gx, gy, g);
    ok := AddComponentSexpr(sch, libs, libId, reference, value, pos.0, pos.1, rotation, footprint, datasheet, ids);
  }

  /**
   * Adds a symbol instance next to an anchor symbol; fails, changing
   * nothing, when no symbol carries the anchor reference.
   */
  method AddComponentRelative(sch: Schematic, libs: map<string, SExpr>, symbols: seq<PlacedSymbol>,
                              libId: string, reference: string, value: string, anchor: string,
                              direction: string, distance: real, rotation: int, footprint: string,
                              datasheet: string, ids: UuidSource)
    returns (ok: bool)
    modifies sch, ids
    ensures ok <==> RelativePosition(symbols, anchor, direction, distance).Some?
    ensures !ok ==> sch.tree == old(sch.tree) && ids.drawn == old(ids.drawn)
    ensures ok ==> var pos := RelativePosition(symbols, anchor, direction, distance).value;
                   (sch.tree, ids.drawn) == AddOne((old(sch.tree), old(ids.drawn)), libs,
                                                   ComponentPlacement(libId, reference, value, pos.0, pos.1, rotation, footprint, datasheet),
                                                   ids.stream)
  {
    var position := RelativePosition(symbols, anchor, direction, distance);
    if position.None? {
      return false;
    }
    var (x, y) := position.value;
    ok := AddComponentSexpr(sch, libs, libId, reference, value, x, y, rotation, footprint, datasheet, ids);
  }

  /**
   * The added node sits at the anchor of the original document, every node
   * other than `lib_symbols` keeps its place (shifted by one after the
   * anchor), and the node reads back as the instance built for `p`.
   */
  lemma {:induction false} AddedTreeShape(t: seq<SExpr>, libs: map<string, SExpr>, p: Placement, stream: nat -> string, d: nat)
    ensures var r := AddedTree(t, libs, p, stream, d);
            var k := AnchorIndex(t);
            var c := EnsureCached(t, libs, p.libId).tree;
            |r| == |t| + 1 &&
            ReadSymbol(r[k]) == Some(BuiltInstance(c, p, stream, d)) &&
            (forall j :: 0 <= j < k && !HeadIs(t[j], "lib_symbols") ==> r[j] == t[j]) &&
            (forall j :: k <= j < |t| && !HeadIs(t[j], "lib_symbols") ==> r[j + 1] == t[j])
  {
    var c := EnsureCached(t, libs, p.libId).tree;
    var inst := BuiltInstance(c, p, stream, d);
    EnsureCachedKeepsOthers(t, libs, p.libId);
    InsertAtAnchorKeeps(t, c, SymbolNode(inst));
    SymbolRoundTrip(inst);
  }

  /** Inserting at the anchor of a copy that differs only in `lib_symbols` nodes keeps the other nodes in place. */
  lemma InsertAtAnchorKeeps(t: seq<SExpr>, c: seq<SExpr>, node: SExpr)
    requires |c| == |t| && Heads(c) == Heads(t)
    requires forall j :: 0 <= j < |t| && !HeadIs(t[j], "lib_symbols") ==> c[j] == t[j]
    ensures var r := Insert(c, AnchorIndex(c), node);
            var k := AnchorIndex(t);
            k == AnchorIndex(c) && r[k] == node &&
            (forall j :: 0 <= j < k && !HeadIs(t[j], "lib_symbols") ==> r[j] == t[j]) &&
            (forall j :: k <= j < |t| && !HeadIs(t[j], "lib_symbols") ==> r[j + 1] == t[j])
  {
    AnchorIndexByHeads(c, t);
    InsertKeepsOthers(c, AnchorIndex(c), node);
  }

  /**
   * The new instance's pins are those of the definition cached for its
   * library id, and its path names the document's project identifier.
   */
  lemma {:induction false} AddedInstanceContents(t: seq<SExpr>, libs: map<string, SExpr>, p: Placement, stream: nat -> string, d: nat)
    ensures var c := EnsureCached(t, libs, p.libId).tree;
            var inst := BuiltInstance(c, p, stream, d);
            |inst.pins| == |LibraryPins(c, p.libId)| &&
            (forall k :: 0 <= k < |inst.pins| ==> inst.pins[k].number == LibraryPins(c, p.libId)[k]) &&
            (ProjectUuidIn(t).Some? ==> inst.project == ProjectUuidIn(t).value) &&
            inst.uuid == stream(d)
  {
    ProjectUuidAcrossCache(t, libs, p.libId);
  }

  /** The cache step leaves the project identifier alone. */
  lemma {:induction false} ProjectUuidAcrossCache(t: seq<SExpr>, libs: map<string, SExpr>, libId: string)
    ensures ProjectUuidIn(EnsureCached(t, libs, libId).tree) == ProjectUuidIn(t)
  {
    var r := EnsureCached(t, libs, libId);
    EnsureCachedAppends(t, libs, libId);
    if r.tree != t {
      var k, def :| LibSymbolsIndex(t) == Some(k) && !IsCached(t[k], libId) &&
                    LoadSymbol(libs, libId) == Some(def) && r.tree == t[k := List(t[k].items + [def])];
      ProjectUuidIgnoresOtherNodes(t, k, List(t[k].items + [def]));
    }
  }

  /**
   * Adding a component keeps the document's project identifier; on a
   * document without one, the identifier drawn for the first component
   * becomes the document's.
   */
  lemma {:induction false} AddComponentKeepsProjectUuid(t: seq<SExpr>, libs: map<string, SExpr>, p: Placement, stream: nat -> string, d: nat)
    requires ProjectUuidIn(t).None? ==> IsUuidText(stream(d + 1))
    ensures ProjectUuidIn(AddedTree(t, libs, p, stream, d)) ==
            (if ProjectUuidIn(t).Some? then ProjectUuidIn(t) else Some(stream(d + 1)))
  {
    var c := EnsureCached(t, libs, p.libId).tree;
    ProjectUuidAcrossCache(t, libs, p.libId);
    var inst := BuiltInstance(c, p, stream, d);
    SymbolNodeCarriesProject(inst);
    ProjectUuidAfterInsert(c, AnchorIndex(c), SymbolNode(inst), inst.project);
  }

  /**
   * When the symbol's identifier is fresh for the document, the document
   * afterwards holds exactly one top-level node with that identifier.
   */
  lemma {:induction false} AddComponentFreshId(t: seq<SExpr>, libs: map<string, SExpr>, p: Placement, stream: nat -> string, d: nat)
    requires forall j :: 0 <= j < |t| ==> UuidOf(t[j]) != Some(stream(d))
    ensures CountUuid(AddedTree(t, libs, p, stream, d), stream(d)) == 1
  {
    var r := EnsureCached(t, libs, p.libId);
    var c := r.tree;
    EnsureCachedAppends(t, libs, p.libId);
    EnsureCachedKeepsOthers(t, libs, p.libId);
    if c != t {
      var k, def :| LibSymbolsIndex(t) == Some(k) && !IsCached(t[k], p.libId) &&
                    LoadSymbol(libs, p.libId) == Some(def) && c == t[k := List(t[k].items + [def])];
      FirstUuidChildAppend(t[k].items, def);
      assert UuidOf(c[k]) == UuidOf(t[k]);
    }
    assert forall j :: 0 <= j < |c| ==> UuidOf(c[j]) != Some(stream(d));
    InsertFreshIdIsUnique(c, AnchorIndex(c), SymbolNode(BuiltInstance(c, p, stream, d)), stream(d));
  }

  /**
   * A second component with the same library id finds the definition the
   * first one cached: its cache step changes nothing, so the definition is
   * appended at most once.
   */
  lemma {:induction false} AddComponentCachesOnce(t: seq<SExpr>, libs: map<string, SExpr>, p: Placement, stream: nat -> string, d: nat)
    requires EnsureCached(t, libs, p.libId).ok
    ensures var r := AddedTree(t, libs, p, stream, d);
            EnsureCached(r, libs, p.libId) == CacheResult(true, r)
  {
    var c := EnsureCached(t, libs, p.libId).tree;
    EnsureCachedCaches(t, libs, p.libId);
    var k :| LibSymbolsIndex(c) == Some(k) && IsCached(c[k], p.libId);
    var node := SymbolNode(BuiltInstance(c, p, stream, d));
    LibSymbolsIndexAfterInsert(c, AnchorIndex(c), node, k);
  }

  /** Inserting a node that is not a `lib_symbols` section leaves the section where it was, shifted past the insertion. */
  lemma {:induction false} LibSymbolsIndexAfterInsert(c: seq<SExpr>, a: nat, node: SExpr, k: nat)
    requires a <= |c| && LibSymbolsIndex(c) == Some(k) && !HeadIs(node, "lib_symbols")
    ensures var k' := if a <= k then k + 1 else k;
            LibSymbolsIndex(Insert(c, a, node)) == Some(k') && Insert(c, a, node)[k'] == c[k]
  {
    var r := Insert(c, a, node);
    var k' := if a <= k then k + 1 else k;
    InsertKeepsOthers(c, a, node);
    assert r[k'] == c[k];
    assert forall j :: 0 <= j < k' ==> !HeadIs(r[j], "lib_symbols");
    FirstLibSymbols(r, k');
  }
}
