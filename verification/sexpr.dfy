/**
 * The S-expression values a parsed schematic is made of: bare symbols,
 * quoted strings, numbers and nested lists. A top-level node such as
 * `(wire (pts ...) ...)` is a `List` whose first item is the symbol that
 * names it, its "head".
 */
module SExprs {

  datatype Option<+T> = None | Some(value: T)

  datatype SExpr =
    | Sym(name: string)        // a bare symbol such as `wire` or `yes`
    | Str(text: string)        // a quoted string such as "Device:R"
    | Num(val: real)           // an integer or float literal
    | List(items: seq<SExpr>)  // a parenthesised list

  /** The symbol naming a list node, if it has one. */
  function Head(e: SExpr): (r: Option<string>)
    ensures r.Some? <==> e.List? && |e.items| > 0 && e.items[0].Sym?
  {
    if e.List? && |e.items| > 0 && e.items[0].Sym? then Some(e.items[0].name) else None
  }

  /** `e` is a non-empty list whose first item is the symbol `tag`. */
  predicate HeadIs(e: SExpr, tag: string) {
    e.List? && |e.items| > 0 && e.items[0] == Sym(tag)
  }

  lemma HeadIsMeansHead(e: SExpr, tag: string)
    ensures HeadIs(e, tag) <==> Head(e) == Some(tag)
  {
  }

  /** The head of every node of a sequence, in order. */
  function Heads(t: seq<SExpr>): (r: seq<Option<string>>)
    ensures |r| == |t|
    ensures forall j :: 0 <= j < |t| ==> r[j] == Head(t[j])
  {
    seq(|t|, j requires 0 <= j < |t| => Head(t[j]))
  }

  /** The value of the first `(uuid "...")` child of a list node. */
  function UuidOf(e: SExpr): (r: Option<string>)
  {
    if e.List? then FirstUuidChild(e.items) else None
  }

  function FirstUuidChild(items: seq<SExpr>): (r: Option<string>)
  {
    if items == [] then None
    else if HeadIs(items[0], "uuid") && |items[0].items| > 1 && items[0].items[1].Str? then
      Some(items[0].items[1].text)
    else FirstUuidChild(items[1..])
  }

  /** A child carrying an identifier, preceded by none, is the one `FirstUuidChild` reports. */
  lemma {:induction false} FirstUuidChildIsFirst(items: seq<SExpr>, k: nat)
    requires k < |items| && HeadIs(items[k], "uuid") && |items[k].items| > 1 && items[k].items[1].Str?
    requires forall j :: 0 <= j < k ==> !(HeadIs(items[j], "uuid") && |items[j].items| > 1 && items[j].items[1].Str?)
    ensures FirstUuidChild(items) == Some(items[k].items[1].text)
  {
    if k > 0 {
      FirstUuidChildIsFirst(items[1..], k - 1);
    }
  }

  /** Appending a node that is not an identifier leaves the first identifier as it was. */
  lemma {:induction false} FirstUuidChildAppend(items: seq<SExpr>, d: SExpr)
    requires !HeadIs(d, "uuid")
    ensures FirstUuidChild(items + [d]) == FirstUuidChild(items)
  {
    if items == [] {
      assert items + [d] == [d];
      assert [d][1..] == [];
    } else {
      FirstUuidChildAppend(items[1..], d);
      assert (items + [d])[1..] == items[1..] + [d];
    }
  }
}
