/**
 * Wires, net labels and the voltage-divider macro: each wire or label is
 * one node built from its coordinates and a fresh identifier and inserted
 * before the first `sheet_instances` node, like a symbol instance.
 */
module ConnectionSchematic {
  import opened SExprs
  import opened Schematics
  import opened ProjectUuids
  import opened InstanceNodes
  import opened SymbolLibrary
  import opened ComponentSchematic

  /** A wire segment from `(sx, sy)` to `(ex, ey)`. */
  datatype Wire = Wire(sx: real, sy: real, ex: real, ey: real, uuid: string)

  /** A label of kind `labelType` (`label`, `global_label`, ... — not checked) at `(x, y)`. */
  datatype Label = Label(labelType: string, text: string, x: real, y: real, uuid: string)

  function XyNode(x: real, y: real): SExpr {
    List([Sym("xy"), Num(x), Num(y)])
  }

  /** `(stroke (width 0) (type default))`. */
  function StrokeNode(): SExpr {
    List([Sym("stroke"), List([Sym("width"), Num(0.0)]), List([Sym("type"), Sym("default")])])
  }

  /** `(wire (pts (xy sx sy) (xy ex ey)) (stroke (width 0) (type default)) (uuid u))`. */
  function WireNode(w: Wire): (r: SExpr)
    ensures HeadIs(r, "wire") && !HeadIs(r, "symbol") && !HeadIs(r, "sheet_instances")
    ensures UuidOf(r) == Some(w.uuid)
  {
    var r := List([Sym("wire"), List([Sym("pts"), XyNode(w.sx, w.sy), XyNode(w.ex, w.ey)]), StrokeNode(),
                   List([Sym("uuid"), Str(w.uuid)])]);
    FirstUuidChildIsFirst(r.items, 3);
    r
  }

  function ReadXy(e: SExpr): (r: Option<(real, real)>)
    ensures r.Some? ==> e == XyNode(r.value.0, r.value.1)
  {
    if e.List? && |e.items| == 3 && e.items[0] == Sym("xy") && e.items[1].Num? && e.items[2].Num? then
      assert e.items == [Sym("xy"), Num(e.items[1].val), Num(e.items[2].val)];
      Some((e.items[1].val, e.items[2].val))
    else None
  }

  /** The wire a node records, when it has exactly the shape `WireNode` builds. */
  function ReadWire(e: SExpr): (r: Option<Wire>)
    ensures r.Some? ==> e == WireNode(r.value)
  {
    if !(e.List? && |e.items| == 4 && e.items[0] == Sym("wire") && e.items[2] == StrokeNode()) then None
    else
      var pts := e.items[1];
      var id := e.items[3];
      if !(pts.List? && |pts.items| == 3 && pts.items[0] == Sym("pts")) then None
      else if !(id.List? && |id.items| == 2 && id.items[0] == Sym("uuid") && id.items[1].Str?) then None
      else match (ReadXy(pts.items[1]), ReadXy(pts.items[2]))
        case (Some(s), Some(t)) =>
          assert pts.items == [Sym("pts"), XyNode(s.0, s.1), XyNode(t.0, t.1)];
          assert id.items == [Sym("uuid"), Str(id.items[1].text)];
          assert e.items == WireNode(Wire(s.0, s.1, t.0, t.1, id.items[1].text)).items;
          Some(Wire(s.0, s.1, t.0, t.1, id.items[1].text))
        case _ => None
  }

  lemma WireRoundTrip(w: Wire)
    ensures ReadWire(WireNode(w)) == Some(w)
  {
  }

  /** `(effects (font (size 1.27 1.27)) (justify left bottom))`. */
  function LabelEffectsNode(): SExpr {
    List([Sym("effects"), FontNode(), List([Sym("justify"), Sym("left"), Sym("bottom")])])
  }

  /** `(<labelType> "text" (at x y 0) (fields_autoplaced yes) (effects ...) (uuid u))`. */
  function LabelNode(l: Label): (r: SExpr)
    ensures Head(r) == Some(l.labelType)
    ensures UuidOf(r) == Some(l.uuid)
  {
    var r := List([Sym(l.labelType), Str(l.text), AtNode(l.x, l.y, 0), Pair("fields_autoplaced", Sym("yes")),
                   LabelEffectsNode(), List([Sym("uuid"), Str(l.uuid)])]);
    FirstUuidChildIsFirst(r.items, 5);
    r
  }

  /** The label a node records, when it has exactly the shape `LabelNode` builds. */
  function ReadLabel(e: SExpr): (r: Option<Label>)
    ensures r.Some? ==> e == LabelNode(r.value)
  {
    if !(e.List? && |e.items| == 6 && e.items[0].Sym? && e.items[1].Str? &&
         e.items[3] == Pair("fields_autoplaced", Sym("yes")) && e.items[4] == LabelEffectsNode()) then None
    else
      var id := e.items[5];
      if !(id.List? && |id.items| == 2 && id.items[0] == Sym("uuid") && id.items[1].Str?) then None
      else match ReadAt(e.items[2])
        case Some((x, y, rot)) =>
          if rot != 0 then None
          else
            var l := Label(e.items[0].name, e.items[1].text, x, y, id.items[1].text);
            assert id.items == [Sym("uuid"), Str(id.items[1].text)];
            assert e.items == LabelNode(l).items;
            Some(l)
        case None => None
  }

  lemma LabelRoundTrip(l: Label)
    ensures ReadLabel(LabelNode(l)) == Some(l)
  {
  }

  /**
   * Draws the wire's identifier, builds the node and inserts it at the
   * anchor; returns the node.
   */
  method AddWire(sch: Schematic, sx: real, sy: real, ex: real, ey: real, ids: UuidSource) returns (node: SExpr)
    modifies sch, ids
    ensures node == WireNode(Wire(sx, sy, ex, ey, ids.stream(old(ids.drawn))))
    ensures sch.tree == Insert(old(sch.tree), AnchorIndex(old(sch.tree)), node)
    ensures ids.drawn == old(ids.drawn) + 1
  {
    var u := ids.Next();
    node := WireNode(Wire(sx, sy, ex, ey, u));
    var pos := sch.InsertBeforeSheetInstances(node);
  }

  /**
   * Draws the label's identifier, builds the node with `labelType` as its
   * head and inserts it at the anchor; returns the node.
   */
  method AddLabel(sch: Schematic, text: string, x: real, y: real, labelType: string, ids: UuidSource) returns (node: SExpr)
    modifies sch, ids
    ensures node == LabelNode(Label(labelType, text, x, y, ids.stream(old(ids.drawn))))
    ensures sch.tree == Insert(old(sch.tree), AnchorIndex(old(sch.tree)), node)
    ensures ids.drawn == old(ids.drawn) + 1
  {
    var u := ids.Next();
    node := LabelNode(Label(labelType, text, x, y, u));
    var pos := sch.InsertBeforeSheetInstances(node);
  }

  /** Pin-to-pin connection is not implemented: always false, nothing changes. */
  method AddConnection(sch: Schematic, sourceRef: string, sourcePin: string, targetRef: string, targetPin: string)
    returns (ok: bool)
    ensures !ok
  {
    ok := false;
  }

  /** Connection removal is not implemented: always false, nothing changes. */
  method RemoveConnection(sch: Schematic, connectionId: string) returns (ok: bool)
    ensures !ok
  {
    ok := false;
  }

  /** Net queries are not implemented: always the empty list. */
  method GetNetConnections(sch: Schematic, netName: string) returns (connections: seq<string>)
    ensures connections == []
  {
    connections := [];
  }

  /** One step of an editing macro. */
  datatype Edit =
    | PlaceSymbol(libId: string, reference: string, value: string, x: real, y: real, rotation: int,
                  footprint: string, datasheet: string)
    | DrawWire(sx: real, sy: real, ex: real, ey: real)
    | PutLabel(labelType: string, text: string, x: real, y: real)

  /** The document and identifier count after one edit. */
  function ApplyEdit(s: (seq<SExpr>, nat), libs: map<string, SExpr>, e: Edit, stream: nat -> string): (seq<SExpr>, nat) {
    match e
    case PlaceSymbol(libId, reference, value, x, y, rotation, footprint, datasheet) =>
      AddOne(s, libs, ComponentPlacement(libId, reference, value, x, y, rotation, footprint, datasheet), stream)
    case DrawWire(sx, sy, ex, ey) =>
      (Insert(s.0, AnchorIndex(s.0), WireNode(Wire(sx, sy, ex, ey, stream(s.1)))), s.1 + 1)
    case PutLabel(labelType, text, x, y) =>
      (Insert(s.0, AnchorIndex(s.0), LabelNode(Label(labelType, text, x, y, stream(s.1)))), s.1 + 1)
  }

  /** The document and identifier count after the edits, in order. */
  function ApplyEdits(s: (seq<SExpr>, nat), libs: map<string, SExpr>, es: seq<Edit>, stream: nat -> string): (seq<SExpr>, nat) {
    if es == [] then s
    else ApplyEdit(ApplyEdits(s, libs, es[..|es| - 1], stream), libs, es[|es| - 1], stream)
  }

  lemma {:induction false} ApplyEditsStep(s: (seq<SExpr>, nat), libs: map<string, SExpr>, es: seq<Edit>,
                                          stream: nat -> string, i: nat)
    requires i < |es|
    ensures ApplyEdits(s, libs, es[..i + 1], stream) == ApplyEdit(ApplyEdits(s, libs, es[..i], stream), libs, es[i], stream)
  {
    var q := es[..i + 1];
    assert q[..i] == es[..i];
  }

  /** Every edit adds exactly one top-level node. */
  lemma {:induction false} ApplyEditsLength(s: (seq<SExpr>, nat), libs: map<string, SExpr>, es: seq<Edit>, stream: nat -> string)
    ensures |ApplyEdits(s, libs, es, stream).0| == |s.0| + |es|
  {
    if es != [] {
      ApplyEditsLength(s, libs, es[..|es| - 1], stream);
      ApplyEditLength(ApplyEdits(s, libs, es[..|es| - 1], stream), libs, es[|es| - 1], stream);
    }
  }

  /** One edit adds exactly one top-level node. */
  lemma ApplyEditLength(s: (seq<SExpr>, nat), libs: map<string, SExpr>, e: Edit, stream: nat -> string)
    ensures |ApplyEdit(s, libs, e, stream).0| == |s.0| + 1
  {
    if e.PlaceSymbol? {
      AddedTreeLength(s.0, libs, ComponentPlacement(e.libId, e.reference, e.value, e.x, e.y, e.rotation, e.footprint, e.datasheet),
                      stream, s.1);
    }
  }

  /** Once the document has a project identifier, no edit changes it. */
  lemma {:induction false} ApplyEditsKeepProjectUuid(s: (seq<SExpr>, nat), libs: map<string, SExpr>, es: seq<Edit>,
                                                     stream: nat -> string)
    requires ProjectUuidIn(s.0).Some?
    ensures ProjectUuidIn(ApplyEdits(s, libs, es, stream).0) == ProjectUuidIn(s.0)
  {
    if es != [] {
      ApplyEditsKeepProjectUuid(s, libs, es[..|es| - 1], stream);
      ApplyEditKeepsProjectUuid(ApplyEdits(s, libs, es[..|es| - 1], stream), libs, es[|es| - 1], stream);
    }
  }

  /** One edit on a document that has a project identifier keeps it. */
  lemma ApplyEditKeepsProjectUuid(s: (seq<SExpr>, nat), libs: map<string, SExpr>, e: Edit, stream: nat -> string)
    requires ProjectUuidIn(s.0).Some?
    ensures ProjectUuidIn(ApplyEdit(s, libs, e, stream).0) == ProjectUuidIn(s.0)
  {
    match e
    case PlaceSymbol(libId, reference, value, x, y, rotation, footprint, datasheet) =>
      AddComponentKeepsProjectUuid(s.0, libs, ComponentPlacement(libId, reference, value, x, y, rotation, footprint, datasheet),
                                   stream, s.1);
    case DrawWire(sx, sy, ex, ey) =>
      ProjectUuidInsertOther(s.0, AnchorIndex(s.0), WireNode(Wire(sx, sy, ex, ey, stream(s.1))));
    case PutLabel(labelType, text, x, y) =>
      var l := Label(labelType, text, x, y, stream(s.1));
      LabelCarriesNoProject(l);
      ProjectUuidInsertOther(s.0, AnchorIndex(s.0), LabelNode(l));
  }

  /** A label node never carries a project identifier, whatever its head. */
  lemma LabelCarriesNoProject(l: Label)
    ensures UuidInSymbol(LabelNode(l)).None?
  {
    var items := LabelNode(l).items;
    if HeadIs(LabelNode(l), "symbol") {
      assert !HeadIs(items[0], "instances") && !HeadIs(items[1], "instances");
      assert !HeadIs(items[2], "instances") && !HeadIs(items[3], "instances");
      assert !HeadIs(items[4], "instances") && !HeadIs(items[5], "instances");
      assert UuidInInstances(items, 6).None?;
      assert UuidInInstances(items, 5).None?;
      assert UuidInInstances(items, 4).None?;
      assert UuidInInstances(items, 3).None?;
      assert UuidInInstances(items, 2).None?;
      assert UuidInInstances(items, 1).None?;
    }
  }

  /** Python's `int()` on a number: truncation toward zero. */
  function Truncate(x: real): (r: int)
    ensures 0.0 <= x ==> 0 <= r && r as real <= x < r as real + 1.0
    ensures x < 0.0 ==> r <= 0 && r as real - 1.0 < x <= r as real
  {
    if 0.0 <= x then x.Floor else -((-x).Floor)
  }

  function DigitChar(d: nat): char
    requires d < 10
  {
    "0123456789"[d]
  }

  /** Decimal digits of a natural number, without leading zeros. */
  function NatText(n: nat): (r: string)
    ensures |r| > 0 && forall k :: 0 <= k < |r| ==> '0' <= r[k] <= '9'
    ensures |r| > 1 ==> r[0] != '0'
  {
    if n < 10 then [DigitChar(n)] else NatText(n / 10) + [DigitChar(n % 10)]
  }

  /** `str()` of an integer: decimal digits, with `-` in front of a negative one. */
  function IntText(i: int): (r: string)
    ensures |r| > 0
    ensures (r[0] == '-') <==> i < 0
  {
    if i < 0 then "-" + NatText(-i) else NatText(i)
  }

  /** The value of a string of decimal digits. */
  function DigitsValue(s: string): int
  {
    if s == [] then 0 else DigitsValue(s[..|s| - 1]) * 10 + (s[|s| - 1] as int - '0' as int)
  }

  /** Reading the decimal text of `n` back gives `n`. */
  lemma {:induction false} NatTextRoundTrip(n: nat)
    ensures DigitsValue(NatText(n)) == n
  {
    if n >= 10 {
      NatTextRoundTrip(n / 10);
      var r := NatText(n);
      assert r[..|r| - 1] == NatText(n / 10);
    }
  }

  /** `_<int(x)>_<int(y)>`, the suffix that names the divider's parts after its position. */
  function PositionSuffix(px: real, py: real): string {
    "_" + IntText(Truncate(px)) + "_" + IntText(Truncate(py))
  }

  const ResistorFootprint := "Resistor_SMD:R_0603_1608Metric"

  /**
   * The eleven edits of a voltage divider at `(px, py)`: supply symbol,
   * upper and lower resistor, ground symbol, four wires, three labels.
   * The value texts are the caller's formatted numbers.
   */
  function DividerEdits(px: real, py: real, supplyValue: string, upperValue: string, lowerValue: string): (r: seq<Edit>)
    ensures |r| == 11
    ensures forall k :: 0 <= k < 4 ==> r[k].PlaceSymbol?
    ensures forall k :: 4 <= k < 8 ==> r[k].DrawWire?
    ensures forall k :: 8 <= k < 11 ==> r[k].PutLabel? && r[k].labelType == "label"
  {
    var sfx := PositionSuffix(px, py);
    [ PlaceSymbol("power:+5V", "#PWR_VCC" + sfx, supplyValue, px, py - 20.0, 0, "", ""),
      PlaceSymbol("Device:R", "R_upper" + sfx, upperValue, px, py, 90, ResistorFootprint, ""),
      PlaceSymbol("Device:R", "R_lower" + sfx, lowerValue, px, py + 20.0, 90, ResistorFootprint, ""),
      PlaceSymbol("power:GND", "#PWR_GND" + sfx, "GND", px, py + 40.0, 0, "", ""),
      DrawWire(px, py - 20.0, px, py - 5.0),
      DrawWire(px, py + 5.0, px, py + 15.0),
      DrawWire(px, py + 25.0, px, py + 40.0),
      DrawWire(px, py + 5.0, px + 15.0, py + 10.0),
      PutLabel("label", "VCC", px + 5.0, py - 20.0),
      PutLabel("label", "VOUT", px + 20.0, py + 10.0),
      PutLabel("label", "GND", px + 5.0, py + 40.0) ]
  }

  /** One macro step: the component, wire or label call it stands for. */
  method PerformEdit(sch: Schematic, libs: map<string, SExpr>, e: Edit, ids: UuidSource) returns (ok: bool)
    modifies sch, ids
    ensures ok
    ensures (sch.tree, ids.drawn) == ApplyEdit((old(sch.tree), old(ids.drawn)), libs, e, ids.stream)
  {
    match e
    case PlaceSymbol(libId, reference, value, x, y, rotation, footprint, datasheet) =>
      ok := AddComponentSexpr(sch, libs, libId, reference, value, x, y, rotation, footprint, datasheet, ids);
    case DrawWire(sx, sy, ex, ey) =>
      var wire := AddWire(sch, sx, sy, ex, ey, ids);
      ok := true;
    case PutLabel(labelType, text, x, y) =>
      var labelNode := AddLabel(sch, text, x, y, labelType, ids);
      ok := true;
  }

  function AllTrue(results: seq<bool>): bool {
    forall k :: 0 <= k < |results| ==> results[k]
  }

  lemma AllTrueAppend(results: seq<bool>, b: bool)
    ensures AllTrue(results + [b]) <==> AllTrue(results) && b
  {
    assert forall k :: 0 <= k < |results| ==> (results + [b])[k] == results[k];
    assert (results + [b])[|results|] == b;
  }

  /**
   * The lower resistor: the one given, or else the value that makes the
   * divider turn `vin` into `vout`; none when that computation divides by
   * zero (equal voltages).
   */
  function LowerResistor(vin: real, vout: real, rUpper: real, rLower: Option<real>): (r: Option<real>)
    ensures r.None? <==> rLower.None? && vin == vout
    ensures rLower.Some? ==> r == rLower
    ensures rLower.None? && r.Some? ==> r.value * (vin - vout) == vout * rUpper
  {
    if rLower.Some? then rLower
    else if vin == vout then None
    else Some(vout * rUpper / (vin - vout))
  }

  /**
   * The output voltage reported in the summary, before rounding; none when
   * the two resistances sum to zero and the division fails.
   */
  function DividerOutput(vin: real, rUpper: real, rLower: real): (r: Option<real>)
    ensures r.None? <==> rUpper + rLower == 0.0
    ensures r.Some? ==> r.value * (rUpper + rLower) == vin * rLower
  {
    if rUpper + rLower == 0.0 then None else Some(vin * rLower / (rUpper + rLower))
  }

  /**
   * A computed lower resistor makes the summary report the requested output
   * voltage, whenever the summary's division is defined.
   */
  lemma ComputedLowerMeetsTarget(vin: real, vout: real, rUpper: real)
    requires vin != vout
    requires DividerOutput(vin, rUpper, LowerResistor(vin, vout, rUpper, None).value).Some?
    ensures DividerOutput(vin, rUpper, LowerResistor(vin, vout, rUpper, None).value) == Some(vout)
  {
    var rl := LowerResistor(vin, vout, rUpper, None).value;
    var o := DividerOutput(vin, rUpper, rl).value;
    var g := vin - vout;
    assert rl * g == vout * rUpper;
    assert (rUpper + rl) * g == rUpper * vin by {
      assert (rUpper + rl) * g == rUpper * g + rl * g;
    }
    assert o * (rUpper + rl) == vin * rl;
    assert o * rUpper * vin == vout * rUpper * vin by {
      calc {
        o * rUpper * vin;
        o * ((rUpper + rl) * g);
        (o * (rUpper + rl)) * g;
        vin * rl * g;
        vin * (vout * rUpper);
      }
    }
    assert rUpper * vin != 0.0 by {
      assert (rUpper + rl) * g != 0.0;
    }
    MulCancel(o, vout, rUpper * vin);
  }

  lemma MulCancel(a: real, b: real, c: real)
    requires c != 0.0 && a * c == b * c
    ensures a == b
  {
    assert (a - b) * c == 0.0;
  }

  /**
   * Builds a voltage divider. The macro first imports the component
   * manager by its bare module name; `importResolves` says whether the
   * interpreter's module path finds it, and when it does not the macro
   * fails before any change. Without a given lower resistor and with equal
   * input and output voltages, computing the lower resistor divides by zero
   * and the macro fails before any change. Otherwise it applies the eleven
   * edits in order; it then reports failure, with the edits made, when the
   * summary's division by the summed resistances fails, and whether all
   * edits succeeded otherwise.
   */
  method CreateVoltageDivider(sch: Schematic, libs: map<string, SExpr>, importResolves: bool, inputVoltage: real,
                              outputVoltage: real, rUpper: real, rLower: Option<real>, px: real, py: real,
                              supplyValue: string, upperValue: string, lowerValue: string, ids: UuidSource)
    returns (ok: bool)
    modifies sch, ids
    ensures var rl := LowerResistor(inputVoltage, outputVoltage, rUpper, rLower);
            ok <==> importResolves && rl.Some? && DividerOutput(inputVoltage, rUpper, rl.value).Some?
    ensures !importResolves || LowerResistor(inputVoltage, outputVoltage, rUpper, rLower).None? ==>
              sch.tree == old(sch.tree) && ids.drawn == old(ids.drawn)
    ensures importResolves && LowerResistor(inputVoltage, outputVoltage, rUpper, rLower).Some? ==>
              (sch.tree, ids.drawn) == ApplyEdits((old(sch.tree), old(ids.drawn)), libs,
                                                  DividerEdits(px, py, supplyValue, upperValue, lowerValue), ids.stream)
  {
    if !importResolves {
      return false;
    }
    var rl := LowerResistor(inputVoltage, outputVoltage, rUpper, rLower);
    if rl.None? {
      return false;
    }
    var es := DividerEdits(px, py, supplyValue, upperValue, lowerValue);
    ghost var s0 := (sch.tree, ids.drawn);
    var results: seq<bool> := [];
    var i := 0;
    while i < |es|
      invariant i <= |es| && AllTrue(results)
      invariant (sch.tree, ids.drawn) == ApplyEdits(s0, libs, es[..i], ids.stream)
    {
      var r := PerformEdit(sch, libs, es[i], ids);
      ApplyEditsStep(s0, libs, es, ids.stream, i);
      AllTrueAppend(results, r);
      results := results + [r];
      i := i + 1;
    }
    assert es[..i] == es;

    if DividerOutput(inputVoltage, rUpper, rl.value).None? {
      return false;
    }
    ok := AllTrue(results);
  }

  /**
   * A divider adds eleven top-level nodes, and afterwards the document's
   * project identifier is the one it had, or the one drawn for the supply
   * symbol when it had none.
   */
  lemma {:induction false} DividerProjectUuid(t: seq<SExpr>, libs: map<string, SExpr>, px: real, py: real,
                                              supplyValue: string, upperValue: string, lowerValue: string,
                                              stream: nat -> string, d: nat)
    requires ProjectUuidIn(t).None? ==> IsUuidText(stream(d + 1))
    ensures var r := ApplyEdits((t, d), libs, DividerEdits(px, py, supplyValue, upperValue, lowerValue), stream);
            |r.0| == |t| + 11 &&
            ProjectUuidIn(r.0) == (if ProjectUuidIn(t).Some? then ProjectUuidIn(t) else Some(stream(d + 1)))
  {
    var es := DividerEdits(px, py, supplyValue, upperValue, lowerValue);
    ApplyEditsLength((t, d), libs, es, stream);
    FirstPlacementSetsProjectUuid(t, libs, es, stream, d);
  }

  /**
   * Each of the divider's four symbols, edit `k`, is inserted as the symbol
   * node of an instance whose path names one and the same project
   * identifier: the document's, or the one drawn for the supply symbol
   * when the document had none.
   */
  lemma DividerSymbolProject(t: seq<SExpr>, libs: map<string, SExpr>, px: real, py: real,
                             supplyValue: string, upperValue: string, lowerValue: string,
                             stream: nat -> string, d: nat, k: nat)
    requires ProjectUuidIn(t).None? ==> IsUuidText(stream(d + 1))
    requires k < 4
    ensures var es := DividerEdits(px, py, supplyValue, upperValue, lowerValue);
            var s := ApplyEdits((t, d), libs, es[..k], stream);
            var p := PlacementOf(es[k]);
            var c := EnsureCached(s.0, libs, p.libId).tree;
            var inst := BuiltInstance(c, p, stream, s.1);
            ApplyEdits((t, d), libs, es[..k + 1], stream).0 == Insert(c, AnchorIndex(c), SymbolNode(inst)) &&
            inst.project == (if ProjectUuidIn(t).Some? then ProjectUuidIn(t).value else stream(d + 1))
  {
    PlacedSymbolProject(t, libs, DividerEdits(px, py, supplyValue, upperValue, lowerValue), stream, d, k);
  }

  /** The placement a symbol edit asks for. */
  function PlacementOf(e: Edit): Placement
    requires e.PlaceSymbol?
  {
    ComponentPlacement(e.libId, e.reference, e.value, e.x, e.y, e.rotation, e.footprint, e.datasheet)
  }

  /**
   * When the first edit places a symbol, every symbol an edit places is
   * inserted with the project identifier the document had, or else the one
   * the first symbol drew.
   */
  lemma {:induction false} PlacedSymbolProject(t: seq<SExpr>, libs: map<string, SExpr>, es: seq<Edit>,
                                               stream: nat -> string, d: nat, k: nat)
    requires ProjectUuidIn(t).None? ==> IsUuidText(stream(d + 1))
    requires k < |es| && es[0].PlaceSymbol? && es[k].PlaceSymbol?
    ensures var s := ApplyEdits((t, d), libs, es[..k], stream);
            var p := PlacementOf(es[k]);
            var c := EnsureCached(s.0, libs, p.libId).tree;
            var inst := BuiltInstance(c, p, stream, s.1);
            ApplyEdits((t, d), libs, es[..k + 1], stream).0 == Insert(c, AnchorIndex(c), SymbolNode(inst)) &&
            inst.project == (if ProjectUuidIn(t).Some? then ProjectUuidIn(t).value else stream(d + 1))
  {
    var s := ApplyEdits((t, d), libs, es[..k], stream);
    var p := PlacementOf(es[k]);
    PlacedSymbolNode((t, d), libs, es, stream, k);
    AddedInstanceContents(s.0, libs, p, stream, s.1);
    if k == 0 {
      assert es[..0] == [];
      ProjectUuidAcrossCache(t, libs, p.libId);
    } else {
      var pre := es[..k];
      assert pre[0] == es[0];
      FirstPlacementSetsProjectUuid(t, libs, pre, stream, d);
    }
  }

  /** Symbol edit `k` inserts the symbol node of the instance it builds on the document the earlier edits produced. */
  lemma PlacedSymbolNode(s0: (seq<SExpr>, nat), libs: map<string, SExpr>, es: seq<Edit>, stream: nat -> string, k: nat)
    requires k < |es| && es[k].PlaceSymbol?
    ensures var s := ApplyEdits(s0, libs, es[..k], stream);
            var p := PlacementOf(es[k]);
            var c := EnsureCached(s.0, libs, p.libId).tree;
            ApplyEdits(s0, libs, es[..k + 1], stream).0 == Insert(c, AnchorIndex(c), SymbolNode(BuiltInstance(c, p, stream, s.1)))
  {
    ApplyEditsStep(s0, libs, es, stream, k);
    PlaceSymbolInserts(ApplyEdits(s0, libs, es[..k], stream), libs, es[k], stream);
  }

  /** A symbol edit inserts, at the anchor of the cached document, the symbol node of the instance it builds. */
  lemma PlaceSymbolInserts(s: (seq<SExpr>, nat), libs: map<string, SExpr>, e: Edit, stream: nat -> string)
    requires e.PlaceSymbol?
    ensures var p := PlacementOf(e);
            var c := EnsureCached(s.0, libs, p.libId).tree;
            ApplyEdit(s, libs, e, stream).0 == Insert(c, AnchorIndex(c), SymbolNode(BuiltInstance(c, p, stream, s.1)))
  {
  }

  /**
   * When the first edit places a symbol, the document ends up with the
   * project identifier it had, or else the one that symbol drew.
   */
  lemma FirstPlacementSetsProjectUuid(t: seq<SExpr>, libs: map<string, SExpr>, es: seq<Edit>, stream: nat -> string, d: nat)
    requires |es| >= 1 && es[0].PlaceSymbol?
    requires ProjectUuidIn(t).None? ==> IsUuidText(stream(d + 1))
    ensures ProjectUuidIn(ApplyEdits((t, d), libs, es, stream).0) ==
            (if ProjectUuidIn(t).Some? then ProjectUuidIn(t) else Some(stream(d + 1)))
  {
    var p := PlacementOf(es[0]);
    var s1 := ApplyEdits((t, d), libs, es[..1], stream);
    ApplyEditsFirst((t, d), libs, es, stream);
    AddComponentKeepsProjectUuid(t, libs, p, stream, d);
    ApplyEditsSplit((t, d), libs, es, stream, 1);
    ApplyEditsKeepProjectUuid(s1, libs, es[1..], stream);
  }

  /** The first edit alone, when it places a symbol, is that symbol's addition. */
  lemma ApplyEditsFirst(s: (seq<SExpr>, nat), libs: map<string, SExpr>, es: seq<Edit>, stream: nat -> string)
    requires |es| >= 1 && es[0].PlaceSymbol?
    ensures ApplyEdits(s, libs, es[..1], stream) == AddOne(s, libs, PlacementOf(es[0]), stream)
  {
    ApplyEditsStep(s, libs, es, stream, 0);
    assert es[..0] == [];
  }

  /** Applying a sequence of edits is applying its prefix, then the rest. */
  lemma {:induction false} ApplyEditsSplit(s: (seq<SExpr>, nat), libs: map<string, SExpr>, es: seq<Edit>,
                                           stream: nat -> string, n: nat)
    requires n <= |es|
    ensures ApplyEdits(s, libs, es, stream) == ApplyEdits(ApplyEdits(s, libs, es[..n], stream), libs, es[n..], stream)
    decreases |es|
  {
    if n == |es| {
      assert es[..n] == es;
      assert es[n..] == [];
    } else {
      var m := |es| - 1;
      var rest := es[n..];
      ApplyEditsSplit(s, libs, es[..m], stream, n);
      EditSlices(es, n);
      ApplyEditsLast(s, libs, es, stream);
      ApplyEditsLast(ApplyEdits(s, libs, es[..n], stream), libs, rest, stream);
    }
  }

  lemma EditSlices(es: seq<Edit>, n: nat)
    requires n < |es|
    ensures var rest := es[n..];
            es[..|es| - 1][..n] == es[..n] && rest[..|rest| - 1] == es[..|es| - 1][n..] && rest[|rest| - 1] == es[|es| - 1]
  {
  }

  /** The last edit is applied to the document the others produced. */
  lemma ApplyEditsLast(s: (seq<SExpr>, nat), libs: map<string, SExpr>, es: seq<Edit>, stream: nat -> string)
    requires es != []
    ensures ApplyEdits(s, libs, es, stream) == ApplyEdit(ApplyEdits(s, libs, es[..|es| - 1], stream), libs, es[|es| - 1], stream)
  {
  }
}
