/**
 * The nodes a symbol instance is assembled from: properties, pin entries,
 * the `instances` descriptor and the instance node itself, each with a
 * reader that recovers the record it was built from.
 */
module InstanceNodes {
  import opened SExprs
  import opened ProjectUuids

  /** A property: name, value, position and rotation, visibility, and the justification ("" for none). */
  datatype Property = Property(name: string, value: string, x: real, y: real, rot: int, hidden: bool, justify: string)

  /** One `(pin <number> (uuid <id>))` entry of an instance. */
  datatype PinEntry = PinEntry(number: string, uuid: string)

  /** The five yes/no switches, in the order the instance node lists them. */
  datatype Flags = Flags(excludeFromSim: bool, inBom: bool, onBoard: bool, dnp: bool, fieldsAutoplaced: bool)

  /** Everything a symbol instance node records. */
  datatype Instance = Instance(
    libId: string, x: real, y: real, rotation: int, unit: int, flags: Flags, uuid: string,
    reference: Property, value: Property, footprint: Property, datasheet: Property,
    pins: seq<PinEntry>, project: string, pathReference: string, pathUnit: int)

  /** What a caller asks for when placing a symbol. */
  datatype Placement = Placement(
    libId: string, reference: string, value: string, x: real, y: real, rotation: int, unit: int,
    footprint: string, datasheet: string, flags: Flags)

  /** The switch values a placement gets when the caller does not set them. */
  const DefaultFlags := Flags(false, true, true, false, true)

  /** The property text size, 1.27 by 1.27. */
  const FontSize: real := 1.27

  /** Vertical offsets of the two visible properties from the symbol origin. */
  const ReferenceOffsetY: real := -5.08
  const ValueOffsetY: real := -2.54

  function IntAtom(i: int): SExpr {
    Num(i as real)
  }

  /** A number atom holding a whole number. */
  function ReadInt(e: SExpr): (r: Option<int>)
    ensures r.Some? ==> e == IntAtom(r.value)
  {
    if e.Num? && e.val == e.val.Floor as real then Some(e.val.Floor) else None
  }

  lemma ReadIntAtom(i: int)
    ensures ReadInt(IntAtom(i)) == Some(i)
  {
  }

  function YesNo(b: bool): SExpr {
    Sym(if b then "yes" else "no")
  }

  function ReadYesNo(e: SExpr): (r: Option<bool>)
    ensures r.Some? ==> e == YesNo(r.value)
  {
    if e == Sym("yes") then Some(true) else if e == Sym("no") then Some(false) else None
  }

  /** `(tag <atom>)`. */
  function Pair(tag: string, a: SExpr): SExpr {
    List([Sym(tag), a])
  }

  /** The atom of `(tag <atom>)`. */
  function ReadPair(e: SExpr, tag: string): (r: Option<SExpr>)
    ensures r.Some? ==> e == Pair(tag, r.value)
  {
    if e.List? && |e.items| == 2 && e.items[0] == Sym(tag) then
      assert e.items == [Sym(tag), e.items[1]];
      Some(e.items[1])
    else None
  }

  /** `(at x y rot)`. */
  function AtNode(x: real, y: real, rot: int): SExpr {
    List([Sym("at"), Num(x), Num(y), IntAtom(rot)])
  }

  function ReadAt(e: SExpr): (r: Option<(real, real, int)>)
    ensures r.Some? ==> e == AtNode(r.value.0, r.value.1, r.value.2)
  {
    if e.List? && |e.items| == 4 && e.items[0] == Sym("at") && e.items[1].Num? && e.items[2].Num? &&
       ReadInt(e.items[3]).Some?
    then
      assert e.items == [Sym("at"), Num(e.items[1].val), Num(e.items[2].val), IntAtom(ReadInt(e.items[3]).value)];
      Some((e.items[1].val, e.items[2].val, ReadInt(e.items[3]).value))
    else None
  }

  function FontNode(): SExpr {
    List([Sym("font"), List([Sym("size"), Num(FontSize), Num(FontSize)])])
  }

  function HideNode(): SExpr {
    List([Sym("hide"), Sym("yes")])
  }

  /** `(effects (font (size 1.27 1.27)) [(justify <j>)] [(hide yes)])`. */
  function EffectsNode(justify: string, hidden: bool): SExpr {
    List([Sym("effects"), FontNode()] +
         (if justify != "" then [Pair("justify", Sym(justify))] else []) +
         (if hidden then [HideNode()] else []))
  }

  /** The justification and visibility an effects node records. */
  function ReadEffects(e: SExpr): (r: Option<(string, bool)>)
    ensures r.Some? ==> e == EffectsNode(r.value.0, r.value.1)
  {
    if !e.List? || |e.items| < 2 || e.items[0] != Sym("effects") || e.items[1] != FontNode() then None
    else
      var rest := e.items[2..];
      assert e.items == [Sym("effects"), FontNode()] + rest;
      if rest == [] then Some(("", false))
      else if |rest| == 1 && rest[0] == HideNode() then Some(("", true))
      else if ReadJustify(rest[0]).Some? && (|rest| == 1 || (|rest| == 2 && rest[1] == HideNode())) then
        Some((ReadJustify(rest[0]).value, |rest| == 2))
      else None
  }

  function ReadJustify(e: SExpr): (r: Option<string>)
    ensures r.Some? ==> r.value != "" && e == Pair("justify", Sym(r.value))
  {
    match ReadPair(e, "justify")
    case Some(Sym(j)) => if j != "" then Some(j) else None
    case _ => None
  }

  /** `(property "<name>" "<value>" (at x y rot) (effects ...))`. */
  function PropertyNode(p: Property): (r: SExpr)
    ensures HeadIs(r, "property") && |r.items| == 5
    ensures r.items[1] == Str(p.name) && r.items[2] == Str(p.value)
    ensures ReadAt(r.items[3]) == Some((p.x, p.y, p.rot))
    ensures ReadEffects(r.items[4]) == Some((p.justify, p.hidden))
  {
    AtRoundTrip(p.x, p.y, p.rot);
    EffectsRoundTrip(p.justify, p.hidden);
    List([Sym("property"), Str(p.name), Str(p.value), AtNode(p.x, p.y, p.rot), EffectsNode(p.justify, p.hidden)])
  }

  function ReadProperty(e: SExpr): (r: Option<Property>)
    ensures r.Some? ==> e == PropertyNode(r.value)
  {
    if e.List? && |e.items| == 5 && e.items[0] == Sym("property") && e.items[1].Str? && e.items[2].Str? &&
       ReadAt(e.items[3]).Some? && ReadEffects(e.items[4]).Some?
    then
      var at := ReadAt(e.items[3]).value;
      var fx := ReadEffects(e.items[4]).value;
      var p := Property(e.items[1].text, e.items[2].text, at.0, at.1, at.2, fx.1, fx.0);
      assert e.items == PropertyNode(p).items;
      Some(p)
    else None
  }

  /** A property node is read back as the property it was built from. */
  lemma PropertyRoundTrip(p: Property)
    ensures ReadProperty(PropertyNode(p)) == Some(p)
  {
  }

  /** An effects node is read back as the justification and visibility it was built from. */
  lemma EffectsRoundTrip(justify: string, hidden: bool)
    ensures ReadEffects(EffectsNode(justify, hidden)) == Some((justify, hidden))
  {
    var rest := EffectsNode(justify, hidden).items[2..];
    if justify != "" {
      assert rest[0] == Pair("justify", Sym(justify));
    }
  }

  /** `(pin "<number>" (uuid "<id>"))`. */
  function PinNode(p: PinEntry): (r: SExpr)
    ensures HeadIs(r, "pin")
  {
    List([Sym("pin"), Str(p.number), Pair("uuid", Str(p.uuid))])
  }

  function ReadPin(e: SExpr): (r: Option<PinEntry>)
    ensures r.Some? ==> e == PinNode(r.value)
  {
    if e.List? && |e.items| == 3 && e.items[0] == Sym("pin") && e.items[1].Str? &&
       ReadPair(e.items[2], "uuid").Some? && ReadPair(e.items[2], "uuid").value.Str?
    then
      var p := PinEntry(e.items[1].text, ReadPair(e.items[2], "uuid").value.text);
      assert e.items == PinNode(p).items;
      Some(p)
    else None
  }

  /** The pin entries in order, one node each. */
  function PinNodes(pins: seq<PinEntry>): (r: seq<SExpr>)
    ensures |r| == |pins|
    ensures forall i :: 0 <= i < |pins| ==> HeadIs(r[i], "pin")
  {
    if pins == [] then [] else [PinNode(pins[0])] + PinNodes(pins[1..])
  }

  function ReadPins(s: seq<SExpr>): (r: Option<seq<PinEntry>>)
    ensures r.Some? ==> s == PinNodes(r.value)
  {
    if s == [] then Some([])
    else match (ReadPin(s[0]), ReadPins(s[1..]))
      case (Some(p), Some(ps)) =>
        assert ([p] + ps)[1..] == ps;
        Some([p] + ps)
      case _ => None
  }

  /** Pin entries are read back in the order and with the identifiers they were written with. */
  lemma {:induction false} PinsRoundTrip(pins: seq<PinEntry>)
    ensures ReadPins(PinNodes(pins)) == Some(pins)
  {
    if pins != [] {
      PinsRoundTrip(pins[1..]);
      var s := PinNodes(pins);
      assert s[0] == PinNode(pins[0]) && s[1..] == PinNodes(pins[1..]);
      assert [pins[0]] + pins[1..] == pins;
    }
  }

  /** One entry per pin number, the k-th number paired with the k-th identifier. */
  function PinEntries(numbers: seq<string>, ids: seq<string>): (r: seq<PinEntry>)
    requires |ids| == |numbers|
    ensures |r| == |numbers|
    ensures forall k :: 0 <= k < |r| ==> r[k] == PinEntry(numbers[k], ids[k])
  {
    seq(|numbers|, k requires 0 <= k < |numbers| => PinEntry(numbers[k], ids[k]))
  }

  /** `(instances (project "" (path "/<project>" (reference "<ref>") (unit <u>))))`. */
  function InstancesNode(project: string, reference: string, unit: int): (r: SExpr)
    ensures HeadIs(r, "instances")
    ensures IsUuidText(project) ==> FirstUuidPathIn(r) == Some(project)
  {
    var path := List([Sym("path"), Str("/" + project), Pair("reference", Str(reference)), Pair("unit", IntAtom(unit))]);
    var proj := List([Sym("project"), Str(""), path]);
    var node := List([Sym("instances"), proj]);
    assert IsUuidText(project) ==> FirstUuidPathIn(node) == Some(project) by {
      if IsUuidText(project) {
        FirstUuidPathOfPath(project, "");
        assert "/" + project + "" == "/" + project;
        FirstUuidPathShort("path");
        assert FirstUuidPathInItems(path, 1) == Some(project);
        assert FirstUuidPathInItems(path, 0) == Some(project);
        FirstUuidPathShort("project");
        FirstUuidPathShort("");
        assert FirstUuidPathIn(proj.items[1]) == None;
        assert FirstUuidPathInItems(proj, 2) == Some(project);
        assert FirstUuidPathInItems(proj, 0) == Some(project);
        assert FirstUuidPathIn(proj) == Some(project);
        assert FirstUuidPathInItems(node, 1) == Some(project);
        FirstUuidPathShort("instances");
        assert FirstUuidPathIn(node.items[0]) == None;
        assert FirstUuidPathInItems(node, 0) == Some(project);
      }
    }
    node
  }

  function ReadInstances(e: SExpr): (r: Option<(string, string, int)>)
    ensures r.Some? ==> e == InstancesNode(r.value.0, r.value.1, r.value.2)
  {
    if e.List? && |e.items| == 2 && e.items[0] == Sym("instances") &&
       e.items[1].List? && |e.items[1].items| == 3 && e.items[1].items[0] == Sym("project") &&
       e.items[1].items[1] == Str("")
    then
      var path := e.items[1].items[2];
      if path.List? && |path.items| == 4 && path.items[0] == Sym("path") &&
         path.items[1].Str? && |path.items[1].text| >= 1 && path.items[1].text[0] == '/' &&
         ReadPair(path.items[2], "reference").Some? && ReadPair(path.items[2], "reference").value.Str? &&
         ReadPair(path.items[3], "unit").Some? && ReadInt(ReadPair(path.items[3], "unit").value).Some?
      then
        var project := path.items[1].text[1..];
        var reference := ReadPair(path.items[2], "reference").value.text;
        var unit := ReadInt(ReadPair(path.items[3], "unit").value).value;
        assert path.items[1].text == "/" + project;
        assert path.items == InstancesNode(project, reference, unit).items[1].items[2].items;
        assert e.items[1].items == InstancesNode(project, reference, unit).items[1].items;
        Some((project, reference, unit))
      else None
    else None
  }

  lemma InstancesRoundTrip(project: string, reference: string, unit: int)
    ensures ReadInstances(InstancesNode(project, reference, unit)) == Some((project, reference, unit))
  {
    assert ("/" + project)[1..] == project;
  }

  /** The ten nodes that open an instance: head, `lib_id`, `at`, `unit`, five switches, `uuid`. */
  function HeaderNodes(inst: Instance): (r: seq<SExpr>)
    ensures |r| == 10
  {
    [Sym("symbol"), Pair("lib_id", Str(inst.libId)), AtNode(inst.x, inst.y, inst.rotation), Pair("unit", IntAtom(inst.unit)),
     Pair("exclude_from_sim", YesNo(inst.flags.excludeFromSim)), Pair("in_bom", YesNo(inst.flags.inBom)),
     Pair("on_board", YesNo(inst.flags.onBoard)), Pair("dnp", YesNo(inst.flags.dnp)),
     Pair("fields_autoplaced", YesNo(inst.flags.fieldsAutoplaced)), Pair("uuid", Str(inst.uuid))]
  }

  /** The instance node: header, the four properties, the pins, then the `instances` descriptor. */
  function SymbolNode(inst: Instance): (r: SExpr)
    ensures HeadIs(r, "symbol") && |r.items| == 15 + |inst.pins|
    ensures UuidOf(r) == Some(inst.uuid)
  {
    var r := List(HeaderNodes(inst) +
                  [PropertyNode(inst.reference), PropertyNode(inst.value), PropertyNode(inst.footprint), PropertyNode(inst.datasheet)] +
                  PinNodes(inst.pins) +
                  [InstancesNode(inst.project, inst.pathReference, inst.pathUnit)]);
    assert forall j :: 0 <= j < 10 ==> r.items[j] == HeaderNodes(inst)[j];
    assert UuidOf(r) == Some(inst.uuid) by {
      FirstUuidChildIsFirst(r.items, 9);
    }
    r
  }

  /** The switch of `(tag yes|no)`. */
  function ReadSwitch(e: SExpr, tag: string): Option<bool> {
    match ReadPair(e, tag)
    case None => None
    case Some(a) => ReadYesNo(a)
  }

  /** The five switches, in the order the header lists them. */
  function ReadFlags(e0: SExpr, e1: SExpr, e2: SExpr, e3: SExpr, e4: SExpr): Option<Flags> {
    var s0, s1, s2 := ReadSwitch(e0, "exclude_from_sim"), ReadSwitch(e1, "in_bom"), ReadSwitch(e2, "on_board");
    var s3, s4 := ReadSwitch(e3, "dnp"), ReadSwitch(e4, "fields_autoplaced");
    if s0.Some? && s1.Some? && s2.Some? && s3.Some? && s4.Some? then
      Some(Flags(s0.value, s1.value, s2.value, s3.value, s4.value))
    else None
  }

  function ReadHeader(items: seq<SExpr>): (r: Option<(string, real, real, int, int, Flags, string)>)
    requires |items| == 10
  {
    var libId, at, unit := ReadPair(items[1], "lib_id"), ReadAt(items[2]), ReadPair(items[3], "unit");
    var flags := ReadFlags(items[4], items[5], items[6], items[7], items[8]);
    var uuid := ReadPair(items[9], "uuid");
    if items[0] == Sym("symbol") && libId.Some? && libId.value.Str? && at.Some? &&
       unit.Some? && ReadInt(unit.value).Some? && flags.Some? && uuid.Some? && uuid.value.Str?
    then
      Some((libId.value.text, at.value.0, at.value.1, at.value.2, ReadInt(unit.value).value, flags.value, uuid.value.text))
    else None
  }


  /** Reads an instance node back: header, four properties, pins, `instances` descriptor. */
  function ReadSymbol(e: SExpr): (r: Option<Instance>)
  {
    if !e.List? || |e.items| < 15 then None
    else
      var items := e.items;
      var n := |items|;
      var h := ReadHeader(items[..10]);
      var p0 := ReadProperty(items[10]);
      var p1 := ReadProperty(items[11]);
      var p2 := ReadProperty(items[12]);
      var p3 := ReadProperty(items[13]);
      var pins := ReadPins(items[14..n - 1]);
      var inst := ReadInstances(items[n - 1]);
      if h.Some? && p0.Some? && p1.Some? && p2.Some? && p3.Some? && pins.Some? && inst.Some? then
        var hv := h.value;
        var iv := inst.value;
        Some(Instance(hv.0, hv.1, hv.2, hv.3, hv.4, hv.5, hv.6, p0.value, p1.value, p2.value, p3.value,
                      pins.value, iv.0, iv.1, iv.2))
      else None
  }

  /** An instance node is read back as exactly the instance it was built from. */
  lemma SymbolRoundTrip(inst: Instance)
    ensures ReadSymbol(SymbolNode(inst)) == Some(inst)
  {
    var e := SymbolNode(inst);
    var n := |e.items|;
    SymbolNodeParts(inst);
    HeaderRoundTrip(inst);
    PropertyRoundTrip(inst.reference);
    PropertyRoundTrip(inst.value);
    PropertyRoundTrip(inst.footprint);
    PropertyRoundTrip(inst.datasheet);
    PinsRoundTrip(inst.pins);
    InstancesRoundTrip(inst.project, inst.pathReference, inst.pathUnit);
  }

  /** Where each part of an instance node sits among its items. */
  lemma SymbolNodeParts(inst: Instance)
    ensures var e := SymbolNode(inst);
            var n := |e.items|;
            e.items[..10] == HeaderNodes(inst) &&
            e.items[10] == PropertyNode(inst.reference) && e.items[11] == PropertyNode(inst.value) &&
            e.items[12] == PropertyNode(inst.footprint) && e.items[13] == PropertyNode(inst.datasheet) &&
            e.items[14..n - 1] == PinNodes(inst.pins) &&
            e.items[n - 1] == InstancesNode(inst.project, inst.pathReference, inst.pathUnit)
  {
  }

  lemma HeaderRoundTrip(inst: Instance)
    ensures ReadHeader(HeaderNodes(inst)) == Some((inst.libId, inst.x, inst.y, inst.rotation, inst.unit, inst.flags, inst.uuid))
  {
    var f := inst.flags;
    var h := HeaderNodes(inst);
    PairRoundTrip("lib_id", Str(inst.libId));
    AtRoundTrip(inst.x, inst.y, inst.rotation);
    PairRoundTrip("unit", IntAtom(inst.unit));
    ReadIntAtom(inst.unit);
    FlagsRoundTrip(f);
    PairRoundTrip("uuid", Str(inst.uuid));
    assert ReadFlags(h[4], h[5], h[6], h[7], h[8]) == Some(f);
  }

  lemma PairRoundTrip(tag: string, a: SExpr)
    ensures ReadPair(Pair(tag, a), tag) == Some(a)
  {
  }

  /** The five switch nodes read back as the switches. */
  lemma FlagsRoundTrip(f: Flags)
    ensures ReadFlags(Pair("exclude_from_sim", YesNo(f.excludeFromSim)), Pair("in_bom", YesNo(f.inBom)),
                      Pair("on_board", YesNo(f.onBoard)), Pair("dnp", YesNo(f.dnp)),
                      Pair("fields_autoplaced", YesNo(f.fieldsAutoplaced))) == Some(f)
  {
    SwitchRoundTrip("exclude_from_sim", f.excludeFromSim);
    SwitchRoundTrip("in_bom", f.inBom);
    SwitchRoundTrip("on_board", f.onBoard);
    SwitchRoundTrip("dnp", f.dnp);
    SwitchRoundTrip("fields_autoplaced", f.fieldsAutoplaced);
  }

  lemma SwitchRoundTrip(tag: string, b: bool)
    ensures ReadSwitch(Pair(tag, YesNo(b)), tag) == Some(b)
  {
    PairRoundTrip(tag, YesNo(b));
  }

  lemma AtRoundTrip(x: real, y: real, rot: int)
    ensures ReadAt(AtNode(x, y, rot)) == Some((x, y, rot))
  {
    ReadIntAtom(rot);
  }

  /** The text the Datasheet property shows: the datasheet, or `~` when there is none. */
  function DatasheetText(datasheet: string): (r: string)
    ensures r != ""
    ensures datasheet != "" ==> r == datasheet
  {
    if datasheet != "" then datasheet else "~"
  }

  /**
   * The instance `create_symbol_sexpr` builds for a placement, given the
   * symbol's identifier, the project identifier, and the pin numbers paired
   * with their identifiers.
   */
  function InstanceFor(p: Placement, symbolUuid: string, project: string, pinNumbers: seq<string>, pinUuids: seq<string>): (r: Instance)
    requires |pinUuids| == |pinNumbers|
    ensures r.uuid == symbolUuid
    ensures |r.pins| == |pinNumbers| && forall k :: 0 <= k < |pinNumbers| ==> r.pins[k].number == pinNumbers[k]
    ensures r.project == project && r.pathReference == p.reference && r.pathUnit == p.unit
  {
    Instance(p.libId, p.x, p.y, p.rotation, p.unit, p.flags, symbolUuid,
             Property("Reference", p.reference, p.x, p.y + ReferenceOffsetY, 0, false, ""),
             Property("Value", p.value, p.x, p.y + ValueOffsetY, 0, false, ""),
             Property("Footprint", p.footprint, p.x, p.y, 0, true, if p.footprint != "" then "bottom" else ""),
             Property("Datasheet", DatasheetText(p.datasheet), p.x, p.y, 0, true, ""),
             PinEntries(pinNumbers, pinUuids), project, p.reference, p.unit)
  }

  /**
   * The properties of a placed instance: Reference 5.08 and Value 2.54
   * above the origin and shown, Footprint and Datasheet at the origin and
   * hidden, with `~` standing for a missing datasheet.
   */
  lemma InstanceForProperties(p: Placement, symbolUuid: string, project: string, pinNumbers: seq<string>, pinUuids: seq<string>)
    requires |pinUuids| == |pinNumbers|
    ensures var r := InstanceFor(p, symbolUuid, project, pinNumbers, pinUuids);
            r.libId == p.libId && r.x == p.x && r.y == p.y && r.rotation == p.rotation && r.unit == p.unit &&
            r.flags == p.flags &&
            r.reference == Property("Reference", p.reference, p.x, p.y - 5.08, 0, false, "") &&
            r.value == Property("Value", p.value, p.x, p.y - 2.54, 0, false, "") &&
            r.footprint.name == "Footprint" && r.footprint.value == p.footprint && r.footprint.hidden &&
            r.footprint.x == p.x && r.footprint.y == p.y && r.footprint.rot == 0 &&
            (r.footprint.justify != "" <==> p.footprint != "") &&
            r.datasheet.name == "Datasheet" && r.datasheet.hidden && r.datasheet.justify == "" &&
            r.datasheet.x == p.x && r.datasheet.y == p.y && r.datasheet.rot == 0 &&
            r.datasheet.value == (if p.datasheet == "" then "~" else p.datasheet) &&
            r.project == project && r.pathReference == p.reference && r.pathUnit == p.unit
  {
  }

  /**
   * The instance node carries its project identifier where the project
   * UUID search looks: a document scan that reaches this node finds `project`.
   */
  lemma SymbolNodeCarriesProject(inst: Instance)
    requires IsUuidText(inst.project)
    ensures UuidInSymbol(SymbolNode(inst)) == Some(inst.project)
  {
    var items := SymbolNode(inst).items;
    OnlyLastChildIsInstances(inst);
    InstancesFoundLast(items, 0);
  }

  /** No child of an instance node before the last one is headed `instances`. */
  lemma OnlyLastChildIsInstances(inst: Instance)
    ensures var items := SymbolNode(inst).items;
            forall j :: 0 <= j < |items| - 1 ==> !HeadIs(items[j], "instances")
  {
    var props := [PropertyNode(inst.reference), PropertyNode(inst.value), PropertyNode(inst.footprint), PropertyNode(inst.datasheet)];
    HeaderHasNoInstances(inst);
    NoInstancesBefore(HeaderNodes(inst), props, PinNodes(inst.pins), InstancesNode(inst.project, inst.pathReference, inst.pathUnit));
  }

  lemma HeaderHasNoInstances(inst: Instance)
    ensures var h := HeaderNodes(inst);
            forall j :: 0 <= j < |h| ==> !HeadIs(h[j], "instances")
  {
  }

  /** Nodes headed otherwise, followed by one last node: only the last can be headed `instances`. */
  lemma NoInstancesBefore(h: seq<SExpr>, props: seq<SExpr>, pins: seq<SExpr>, last: SExpr)
    requires forall j :: 0 <= j < |h| ==> !HeadIs(h[j], "instances")
    requires forall j :: 0 <= j < |props| ==> HeadIs(props[j], "property")
    requires forall j :: 0 <= j < |pins| ==> HeadIs(pins[j], "pin")
    ensures var items := h + props + pins + [last];
            forall j :: 0 <= j < |items| - 1 ==> !HeadIs(items[j], "instances")
  {
    var items := h + props + pins + [last];
    forall j | 0 <= j < |items| - 1
      ensures !HeadIs(items[j], "instances")
    {
      if j < |h| {
        assert items[j] == h[j];
      } else if j < |h| + |props| {
        assert items[j] == props[j - |h|];
      } else {
        assert items[j] == pins[j - |h| - |props|];
      }
    }
  }

  /** The `instances` search skips every child before the last when none of them is headed `instances`. */
  lemma {:induction false} InstancesFoundLast(children: seq<SExpr>, i: nat)
    requires i < |children|
    requires forall j :: i <= j < |children| - 1 ==> !HeadIs(children[j], "instances")
    ensures UuidInInstances(children, i) == UuidInInstances(children, |children| - 1)
    decreases |children| - i
  {
    if i < |children| - 1 {
      InstancesFoundLast(children, i + 1);
    }
  }
}
