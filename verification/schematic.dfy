/**
 * The parsed schematic document and its single insertion rule: every node
 * that adds content goes just before the first top-level `sheet_instances`
 * node, or at the end when there is none.
 */
module Schematics {
  import opened SExprs

  /** A loaded schematic: `tree` is the list of top-level nodes, edited in place. */
  class Schematic {
    var tree: seq<SExpr>

    constructor (tree: seq<SExpr>)
      ensures this.tree == tree
    {
      this.tree := tree;
    }

    /**
     * Finds the first top-level `sheet_instances` node and inserts `node`
     * just before it (at the end when there is none).
     */
    method InsertBeforeSheetInstances(node: SExpr) returns (pos: nat)
      modifies this
      ensures pos == AnchorIndex(old(tree))
      ensures tree == Insert(old(tree), pos, node)
    {
      pos := |tree|;
      var i := 0;
      while i < |tree|
        invariant 0 <= i <= |tree|
        invariant forall j :: 0 <= j < i ==> !HeadIs(tree[j], "sheet_instances")
      {
        if HeadIs(tree[i], "sheet_instances") {
          pos := i;
          break;
        }
        i := i + 1;
      }
      AnchorIndexIsFirst(tree, pos);
      tree := tree[..pos] + [node] + tree[pos..];
    }
  }

  /**
   * The identifier generator (`uuid.uuid4()`): the i-th call returns
   * `stream(i)`. `drawn` counts the identifiers handed out so far.
   */
  class UuidSource {
    const stream: nat -> string
    var drawn: nat

    constructor (stream: nat -> string)
      ensures this.stream == stream && drawn == 0
    {
      this.stream := stream;
      drawn := 0;
    }

    method Next() returns (id: string)
      modifies this
      ensures id == stream(old(drawn)) && drawn == old(drawn) + 1
    {
      id := stream(drawn);
      drawn := drawn + 1;
    }
  }

  /** The canonical insertion index: the first `sheet_instances` node, else the end. */
  function AnchorIndex(t: seq<SExpr>): (k: nat)
    ensures k <= |t|
    ensures forall j :: 0 <= j < k ==> !HeadIs(t[j], "sheet_instances")
    ensures k < |t| ==> HeadIs(t[k], "sheet_instances")
  {
    if t == [] || HeadIs(t[0], "sheet_instances") then 0 else 1 + AnchorIndex(t[1..])
  }

  /** Two trees with the same heads have the same anchor. */
  lemma {:induction false} AnchorIndexByHeads(t: seq<SExpr>, u: seq<SExpr>)
    requires Heads(t) == Heads(u)
    ensures AnchorIndex(t) == AnchorIndex(u)
  {
    if t != [] {
      HeadIsMeansHead(t[0], "sheet_instances");
      HeadIsMeansHead(u[0], "sheet_instances");
      assert Heads(t[1..]) == Heads(u[1..]);
      AnchorIndexByHeads(t[1..], u[1..]);
    }
  }

  /** The two properties of `AnchorIndex` pin it down. */
  lemma AnchorIndexIsFirst(t: seq<SExpr>, k: nat)
    requires k <= |t|
    requires forall j :: 0 <= j < k ==> !HeadIs(t[j], "sheet_instances")
    requires k < |t| ==> HeadIs(t[k], "sheet_instances")
    ensures k == AnchorIndex(t)
  {
  }

  function Insert(t: seq<SExpr>, k: nat, node: SExpr): (r: seq<SExpr>)
    requires k <= |t|
    ensures |r| == |t| + 1
    ensures r[k] == node
  {
    t[..k] + [node] + t[k..]
  }

  /** Insertion keeps every other node, in order, around the new one. */
  lemma InsertKeepsOthers(t: seq<SExpr>, k: nat, node: SExpr)
    requires k <= |t|
    ensures var r := Insert(t, k, node);
            (forall j :: 0 <= j < k ==> r[j] == t[j]) &&
            (forall j :: k < j < |r| ==> r[j] == t[j - 1])
  {
  }

  /**
   * Inserting anything that is not itself a `sheet_instances` node moves
   * the anchor one place on: the next insertion lands right after this one.
   */
  lemma InsertMovesAnchor(t: seq<SExpr>, node: SExpr)
    requires !HeadIs(node, "sheet_instances")
    ensures AnchorIndex(Insert(t, AnchorIndex(t), node)) == AnchorIndex(t) + 1
  {
    var k := AnchorIndex(t);
    var r := Insert(t, k, node);
    AnchorIndexIsFirst(r, k + 1);
  }

  /** Two insertions at the anchor keep the nodes in the order they were added. */
  lemma InsertTwiceKeepsOrder(t: seq<SExpr>, n1: SExpr, n2: SExpr)
    requires !HeadIs(n1, "sheet_instances")
    ensures var k := AnchorIndex(t);
            var t1 := Insert(t, k, n1);
            Insert(t1, AnchorIndex(t1), n2) == t[..k] + [n1, n2] + t[k..]
  {
    var k := AnchorIndex(t);
    var t1 := Insert(t, k, n1);
    InsertMovesAnchor(t, n1);
    InsertPieces(t, k, n1);
    InsertTwicePieces(t[..k], n1, t[k..], n2);
  }

  lemma InsertPieces(t: seq<SExpr>, k: nat, node: SExpr)
    requires k <= |t|
    ensures var r := Insert(t, k, node);
            r[..k + 1] == t[..k] + [node] && r[k + 1..] == t[k..]
  {
  }

  lemma InsertTwicePieces(a: seq<SExpr>, n1: SExpr, b: seq<SExpr>, n2: SExpr)
    ensures (a + [n1]) + [n2] + b == a + [n1, n2] + b
  {
  }

  /** A `sheet_instances` section that ends the document still ends it after an insertion. */
  lemma SheetInstancesStaysLast(t: seq<SExpr>, node: SExpr)
    requires |t| > 0 && HeadIs(t[|t| - 1], "sheet_instances")
    ensures var r := Insert(t, AnchorIndex(t), node);
            r[|r| - 1] == t[|t| - 1]
  {
  }

  /** The number of top-level nodes whose identifier is `id`. */
  function CountUuid(t: seq<SExpr>, id: string): (n: nat)
    ensures n <= |t|
    ensures n == 0 <==> forall j :: 0 <= j < |t| ==> UuidOf(t[j]) != Some(id)
  {
    if t == [] then 0
    else CountUuid(t[..|t| - 1], id) + (if UuidOf(t[|t| - 1]) == Some(id) then 1 else 0)
  }

  lemma {:induction false} CountUuidAppend(a: seq<SExpr>, b: seq<SExpr>, id: string)
    ensures CountUuid(a + b, id) == CountUuid(a, id) + CountUuid(b, id)
    decreases |b|
  {
    if b == [] {
      assert a + b == a;
    } else {
      CountUuidAppend(a, b[..|b| - 1], id);
      assert (a + b)[..|a + b| - 1] == a + b[..|b| - 1];
    }
  }

  /**
   * Inserting a node whose identifier is fresh for the document gives the
   * document exactly one node with that identifier.
   */
  lemma {:induction false} InsertFreshIdIsUnique(t: seq<SExpr>, k: nat, node: SExpr, id: string)
    requires k <= |t|
    requires forall j :: 0 <= j < |t| ==> UuidOf(t[j]) != Some(id)
    requires UuidOf(node) == Some(id)
    ensures CountUuid(Insert(t, k, node), id) == 1
  {
    CountUuidAppend(t[..k] + [node], t[k..], id);
    CountUuidAppend(t[..k], [node], id);
    assert CountUuid([node], id) == 1 by {
      assert [node][..0] == [];
    }
    assert t == t[..k] + t[k..];
    CountUuidAppend(t[..k], t[k..], id);
  }

  /**
   * What the document is written out as: the root becomes `kicad_sch` and the
   * rest is everything after the first top-level item.
   */
  function SavedRoot(t: seq<SExpr>): (root: SExpr)
    ensures root.List? && |root.items| == (if t == [] then 1 else |t|)
    ensures HeadIs(root, "kicad_sch")
  {
    List([Sym("kicad_sch")] + (if t == [] then [] else t[1..]))
  }

  /** A tree that already starts with `kicad_sch` is written out unchanged. */
  lemma SavedRootOfSchematic(t: seq<SExpr>)
    requires |t| > 0 && t[0] == Sym("kicad_sch")
    ensures SavedRoot(t) == List(t)
  {
    assert [t[0]] + t[1..] == t;
  }
}
