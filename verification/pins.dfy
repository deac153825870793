/**
 * Pin numbers of a cached symbol definition: the first string atom of each
 * `(pin ...)` node found by a depth-limited walk of the definition.
 */
module Pins {
  import opened SExprs

  /** The walk gives up below this depth (the `depth > 10` guard). */
  const MaxPinDepth: nat := 10

  /** `(pin ...)` with at least one item after the head. */
  predicate IsPinNode(e: SExpr) {
    HeadIs(e, "pin") && |e.items| > 1
  }

  /** The first string atom of `items[from..]`. */
  function FirstString(items: seq<SExpr>, from: nat): (r: Option<string>)
    requires from <= |items|
    ensures r.Some? <==> exists j :: from <= j < |items| && items[j].Str?
    ensures r.Some? ==> exists j :: from <= j < |items| && items[j] == Str(r.value) &&
                                    forall i :: from <= i < j ==> !items[i].Str?
    decreases |items| - from
  {
    if from == |items| then None
    else if items[from].Str? then Some(items[from].text)
    else FirstString(items, from + 1)
  }

  /** The number a pin node carries: its first string atom after the head. */
  function PinNumber(e: SExpr): Option<string>
    requires IsPinNode(e)
  {
    FirstString(e.items, 1)
  }

  /** `p` occurs somewhere inside `node`, at any depth below it. */
  predicate Within(p: SExpr, node: SExpr)
    decreases node
  {
    node.List? && exists i :: 0 <= i < |node.items| && (node.items[i] == p || Within(p, node.items[i]))
  }

  /** What `extract_pins(node, depth)` appends. */
  function PinsIn(node: SExpr, depth: nat): seq<string>
    decreases node, 1, 0
  {
    if depth > MaxPinDepth || !node.List? then [] else PinsUpTo(node, |node.items|, depth)
  }

  /** What the walk of `node` appends while visiting its first `n` children. */
  function PinsUpTo(node: SExpr, n: nat, depth: nat): seq<string>
    requires node.List? && n <= |node.items|
    decreases node, 0, n
  {
    if n == 0 then [] else PinsUpTo(node, n - 1, depth) + ChildPins(node.items[n - 1], depth)
  }

  /** One child visited at `depth`: its own number if it is a pin, then the walk below it. */
  function ChildPins(child: SExpr, depth: nat): seq<string>
    decreases child, 2, 0
  {
    var own := if IsPinNode(child) && PinNumber(child).Some? then [PinNumber(child).value] else [];
    own + PinsIn(child, depth + 1)
  }

  /** Every number the walk reports is the number of a pin node inside the walked node. */
  lemma {:induction false} PinsAreFromPinNodes(node: SExpr, depth: nat)
    ensures forall x :: x in PinsIn(node, depth) ==>
              exists p :: Within(p, node) && IsPinNode(p) && PinNumber(p) == Some(x)
    decreases node, 1, 0
  {
    if depth <= MaxPinDepth && node.List? {
      PinsUpToFromPinNodes(node, |node.items|, depth);
    }
  }

  lemma {:induction false} PinsUpToFromPinNodes(node: SExpr, n: nat, depth: nat)
    requires node.List? && n <= |node.items|
    ensures forall x :: x in PinsUpTo(node, n, depth) ==>
              exists p :: Within(p, node) && IsPinNode(p) && PinNumber(p) == Some(x)
    decreases node, 0, n
  {
    if n > 0 {
      PinsUpToFromPinNodes(node, n - 1, depth);
      var child := node.items[n - 1];
      PinsAreFromPinNodes(child, depth + 1);
      forall x | x in ChildPins(child, depth)
        ensures exists p :: Within(p, node) && IsPinNode(p) && PinNumber(p) == Some(x)
      {
        if IsPinNode(child) && PinNumber(child) == Some(x) {
          assert node.items[n - 1] == child;
          assert Within(child, node);
        } else {
          assert x in PinsIn(child, depth + 1);
          var p :| Within(p, child) && IsPinNode(p) && PinNumber(p) == Some(x);
          assert node.items[n - 1] == child;
          assert Within(p, node);
        }
      }
    }
  }

  /** `p` occurs inside `node` no more than `k` levels below it: as a child when `k` is 1. */
  predicate WithinDepth(p: SExpr, node: SExpr, k: nat)
    decreases node
  {
    node.List? && k > 0 &&
    exists i :: 0 <= i < |node.items| && (node.items[i] == p || WithinDepth(p, node.items[i], k - 1))
  }

  /**
   * The walk misses no pin above its depth cut: every pin node with a
   * number, lying few enough levels below `node` that the walk still
   * visits it, has that number reported.
   */
  lemma {:induction false} PinNodesAreReported(node: SExpr, depth: nat, p: SExpr)
    requires depth <= MaxPinDepth && WithinDepth(p, node, MaxPinDepth + 1 - depth)
    requires IsPinNode(p) && PinNumber(p).Some?
    ensures PinNumber(p).value in PinsIn(node, depth)
    decreases node
  {
    var k := MaxPinDepth + 1 - depth;
    var i :| 0 <= i < |node.items| && (node.items[i] == p || WithinDepth(p, node.items[i], k - 1));
    var child := node.items[i];
    if child != p {
      PinNodesAreReported(child, depth + 1, p);
    }
    assert PinNumber(p).value in ChildPins(child, depth);
    ChildPinsInPinsUpTo(node, |node.items|, depth, i, PinNumber(p).value);
  }

  /** Whatever the walk reports for child `i` is among what it reports for the first `n > i` children. */
  lemma {:induction false} ChildPinsInPinsUpTo(node: SExpr, n: nat, depth: nat, i: nat, x: string)
    requires node.List? && i < n <= |node.items|
    requires x in ChildPins(node.items[i], depth)
    ensures x in PinsUpTo(node, n, depth)
    decreases n
  {
    if i < n - 1 {
      ChildPinsInPinsUpTo(node, n - 1, depth, i, x);
    }
  }

  /**
   * The recursive walk: for each child, append its number when it is a pin
   * node, then walk into it one level deeper.
   */
  method ExtractPins(node: SExpr, depth: nat, pins: seq<string>) returns (out: seq<string>)
    ensures out == pins + PinsIn(node, depth)
    decreases node
  {
    out := pins;
    if depth > MaxPinDepth || !node.List? {
      return;
    }
    var i := 0;
    while i < |node.items|
      invariant 0 <= i <= |node.items|
      invariant out == pins + PinsUpTo(node, i, depth)
    {
      var sub := node.items[i];
      if IsPinNode(sub) {
        var number := ReadPinNumber(sub);
        if number.Some? {
          out := out + [number.value];
        }
      }
      out := ExtractPins(sub, depth + 1, out);
      i := i + 1;
    }
  }

  /** Scans a pin node's items after the head for the first string atom. */
  method ReadPinNumber(sub: SExpr) returns (number: Option<string>)
    requires IsPinNode(sub)
    ensures number == PinNumber(sub)
  {
    var j := 1;
    while j < |sub.items|
      invariant 1 <= j <= |sub.items|
      invariant FirstString(sub.items, j) == FirstString(sub.items, 1)
    {
      if sub.items[j].Str? {
        return Some(sub.items[j].text);
      }
      j := j + 1;
    }
    return None;
  }

  /** `(symbol ... "<libId>" ...)`: a symbol entry carrying `libId` as a string item. */
  predicate IsEntryFor(e: SExpr, libId: string) {
    HeadIs(e, "symbol") && |e.items| > 1 && Str(libId) in e.items[1..]
  }

  /** An entry for `libId` whose walk finds at least one pin. */
  predicate Yields(e: SExpr, libId: string) {
    IsEntryFor(e, libId) && PinsIn(e, 0) != []
  }

  /** The pins of the first entry of `entries[j..]` for `libId` that yields any. */
  function SectionPins(entries: seq<SExpr>, j: nat, libId: string): (r: seq<string>)
    requires j <= |entries|
    ensures r != [] ==> exists q :: j <= q < |entries| && Yields(entries[q], libId) && r == PinsIn(entries[q], 0) &&
                                    forall q' :: j <= q' < q ==> !Yields(entries[q'], libId)
    ensures r == [] <==> forall q :: j <= q < |entries| ==> !Yields(entries[q], libId)
    decreases |entries| - j
  {
    if j == |entries| then []
    else
      var p := if IsEntryFor(entries[j], libId) then PinsIn(entries[j], 0) else [];
      if p != [] then p else SectionPins(entries, j + 1, libId)
  }

  /**
   * A `lib_symbols` node holding an entry for `libId` that yields pins
   * (`SectionPins` is empty exactly when no entry yields any).
   */
  predicate SectionYields(n: SExpr, libId: string) {
    HeadIs(n, "lib_symbols") && SectionPins(n.items, 1, libId) != []
  }

  /**
   * The pins of the first `lib_symbols` node of `t[k..]` holding a yielding
   * entry for `libId`, from its first yielding entry.
   */
  function TreePins(t: seq<SExpr>, k: nat, libId: string): (r: seq<string>)
    requires k <= |t|
    ensures r != [] ==> exists s :: k <= s < |t| && SectionYields(t[s], libId) &&
                                    r == SectionPins(t[s].items, 1, libId) &&
                                    forall s' :: k <= s' < s ==> !SectionYields(t[s'], libId)
    ensures r == [] <==> forall s :: k <= s < |t| ==> !SectionYields(t[s], libId)
    decreases |t| - k
  {
    if k == |t| then []
    else if SectionYields(t[k], libId) then SectionPins(t[k].items, 1, libId)
    else
      var r := TreePins(t, k + 1, libId);
      // the later section the recursive call found is the witness here too
      assert r != [] ==> exists s :: k + 1 <= s < |t| && SectionYields(t[s], libId) &&
                                    r == SectionPins(t[s].items, 1, libId) &&
                                    forall s' :: k + 1 <= s' < s ==> !SectionYields(t[s'], libId);
      r
  }

  /**
   * The pin numbers of `libId` as cached in the document: those of the first
   * `lib_symbols` entry carrying `libId` whose walk yields any, else none.
   */
  function LibraryPins(t: seq<SExpr>, libId: string): seq<string> {
    TreePins(t, 0, libId)
  }

  /** The scan over the document: the first `lib_symbols` section whose scan yields pins decides. */
  method GetLibrarySymbolPins(tree: seq<SExpr>, libId: string) returns (pins: seq<string>)
    ensures pins == LibraryPins(tree, libId)
  {
    var k := 0;
    while k < |tree|
      invariant 0 <= k <= |tree|
      invariant TreePins(tree, k, libId) == LibraryPins(tree, libId)
    {
      if HeadIs(tree[k], "lib_symbols") {
        pins := ScanSection(tree[k].items, libId);
        if pins != [] {
          return;
        }
      }
      k := k + 1;
    }
    pins := [];
  }

  /** The scan over one `lib_symbols` section: the first entry for `libId` whose walk yields pins decides. */
  method ScanSection(entries: seq<SExpr>, libId: string) returns (pins: seq<string>)
    requires 1 <= |entries|
    ensures pins == SectionPins(entries, 1, libId)
  {
    var j := 1;
    while j < |entries|
      invariant 1 <= j <= |entries|
      invariant SectionPins(entries, j, libId) == SectionPins(entries, 1, libId)
    {
      var entry := entries[j];
      if HeadIs(entry, "symbol") && |entry.items| > 1 {
        pins := ScanEntry(entry, libId);
        if pins != [] {
          return;
        }
      }
      j := j + 1;
    }
    pins := [];
  }

  /**
   * The scan over the items of one symbol entry: the first item equal to
   * `libId` starts a walk of the whole entry.
   */
  method ScanEntry(entry: SExpr, libId: string) returns (pins: seq<string>)
    requires HeadIs(entry, "symbol") && |entry.items| > 1
    ensures pins == if IsEntryFor(entry, libId) then PinsIn(entry, 0) else []
  {
    var q := 1;
    while q < |entry.items|
      invariant 1 <= q <= |entry.items|
      invariant Str(libId) in entry.items[1..q] ==> PinsIn(entry, 0) == []
    {
      if entry.items[q] == Str(libId) {
        pins := ExtractPins(entry, 0, []);
        if pins != [] {
          assert entry.items[1..][q - 1] == Str(libId);
          return;
        }
      }
      assert entry.items[1..q + 1] == entry.items[1..q] + [entry.items[q]];
      q := q + 1;
    }
    assert entry.items[1..q] == entry.items[1..];
    pins := [];
  }

  /** A definition whose pins are direct children yields their numbers in document order. */
  lemma FlatDefinitionPins()
    ensures LibraryPins([List([Sym("lib_symbols"), FlatResistor()])], "Device:R") == ["1", "2"]
  {
    var def := FlatResistor();
    FlatResistorWalk();
    var t := [List([Sym("lib_symbols"), def])];
    assert IsEntryFor(def, "Device:R") by {
      assert def.items[1..][0] == Str("Device:R");
    }
    assert SectionPins(t[0].items, 1, "Device:R") == ["1", "2"];
    assert TreePins(t, 0, "Device:R") == ["1", "2"];
  }

  function FlatResistor(): SExpr {
    List([Sym("symbol"), Str("Device:R"), PinWithUuid("1", "a"), PinWithUuid("2", "b")])
  }

  function PinWithUuid(num: string, id: string): SExpr {
    List([Sym("pin"), Str(num), List([Sym("uuid"), Str(id)])])
  }

  lemma PinWithUuidWalk(num: string, id: string)
    ensures ChildPins(PinWithUuid(num, id), 0) == [num]
  {
    var p := PinWithUuid(num, id);
    var u := List([Sym("uuid"), Str(id)]);
    assert ChildPins(u.items[0], 2) == [] && ChildPins(u.items[1], 2) == [];
    assert PinsUpTo(u, 1, 2) == [];
    assert PinsUpTo(u, 2, 2) == [];
    assert PinsIn(u, 2) == [];
    assert ChildPins(p.items[0], 1) == [] && ChildPins(p.items[1], 1) == [];
    assert PinsUpTo(p, 1, 1) == [];
    assert PinsUpTo(p, 2, 1) == [];
    assert PinsUpTo(p, 3, 1) == [];
    assert PinNumber(p) == Some(num);
  }

  lemma FlatResistorWalk()
    ensures PinsIn(FlatResistor(), 0) == ["1", "2"]
  {
    var def := FlatResistor();
    PinWithUuidWalk("1", "a");
    PinWithUuidWalk("2", "b");
    assert PinsUpTo(def, 1, 0) == [];
    assert PinsUpTo(def, 2, 0) == [];
    assert PinsUpTo(def, 3, 0) == ["1"];
    assert PinsUpTo(def, 4, 0) == ["1", "2"];
  }
}
