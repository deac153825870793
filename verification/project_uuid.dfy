/**
 * Inferring the project UUID: the first `/` followed by a lowercase
 * 8-4-4-4-12 hexadecimal UUID (the string form of section 3 of RFC 4122)
 * found in the `instances` child of a top-level `symbol` node.
 *
 * The search runs over Python's `str()` rendering of the `instances` list.
 * That rendering separates atoms by quotes, commas and brackets, none of
 * which the pattern admits, so a match never spans two atoms: the model
 * searches the text of each atom in document order.
 */
module ProjectUuids {
  import opened SExprs

  predicate IsLowerHex(c: char) {
    ('0' <= c <= '9') || ('a' <= c <= 'f')
  }

  /** Positions 8, 13, 18 and 23 hold `-`; the other 32 of 36 hold lowercase hex digits. */
  predicate IsUuidText(s: string) {
    |s| == 36 &&
    forall k :: 0 <= k < 36 ==> if k == 8 || k == 13 || k == 18 || k == 23 then s[k] == '-' else IsLowerHex(s[k])
  }

  /** The pattern `/<uuid>` matches `s` at position `k`. */
  predicate UuidPathAt(s: string, k: nat) {
    k + 37 <= |s| && s[k] == '/' && IsUuidText(s[k + 1..k + 37])
  }

  /** `re.search` for the pattern in `s[from..]`: the capture of the leftmost match. */
  function FirstUuidPath(s: string, from: nat): (r: Option<string>)
    ensures r.None? ==> forall k :: from <= k ==> !UuidPathAt(s, k)
    ensures r.Some? ==> IsUuidText(r.value) &&
                        exists k :: from <= k && UuidPathAt(s, k) && r.value == s[k + 1..k + 37] &&
                                    forall j :: from <= j < k ==> !UuidPathAt(s, j)
    decreases |s| - from
  {
    if from + 37 > |s| then None
    else if UuidPathAt(s, from) then Some(s[from + 1..from + 37])
    else FirstUuidPath(s, from + 1)
  }

  /** A string that starts with `/<uuid>` yields that uuid. */
  lemma FirstUuidPathOfPath(u: string, rest: string)
    requires IsUuidText(u)
    ensures FirstUuidPath("/" + u + rest, 0) == Some(u)
  {
    var s := "/" + u + rest;
    assert s[1..37] == u;
    assert UuidPathAt(s, 0);
  }

  /** Text shorter than a match never matches. */
  lemma FirstUuidPathShort(s: string)
    requires |s| < 37
    ensures FirstUuidPath(s, 0) == None
  {
  }

  /** The first match among the atoms of `e`, depth first. */
  function FirstUuidPathIn(e: SExpr): (r: Option<string>)
    ensures r.Some? ==> IsUuidText(r.value)
    decreases e, 1
  {
    match e
    case Sym(name) => FirstUuidPath(name, 0)
    case Str(text) => FirstUuidPath(text, 0)
    case Num(_) => None
    case List(items) => FirstUuidPathInItems(e, 0)
  }

  function FirstUuidPathInItems(e: SExpr, i: nat): (r: Option<string>)
    requires e.List? && i <= |e.items|
    ensures r.Some? ==> IsUuidText(r.value)
    decreases e, 0, |e.items| - i
  {
    if i == |e.items| then None
    else match FirstUuidPathIn(e.items[i])
      case Some(u) => Some(u)
      case None => FirstUuidPathInItems(e, i + 1)
  }

  /** An `instances` child whose text holds a match. */
  predicate MatchingInstances(c: SExpr) {
    HeadIs(c, "instances") && FirstUuidPathIn(c).Some?
  }

  /** The match found in the `instances` children of one top-level node, if it is a `symbol`. */
  function UuidInSymbol(item: SExpr): (r: Option<string>)
    ensures r.Some? ==> IsUuidText(r.value)
  {
    if HeadIs(item, "symbol") then UuidInInstances(item.items, 0) else None
  }

  function UuidInInstances(children: seq<SExpr>, i: nat): (r: Option<string>)
    requires i <= |children|
    ensures r.Some? ==> IsUuidText(r.value)
    decreases |children| - i
  {
    if i == |children| then None
    else if MatchingInstances(children[i]) then FirstUuidPathIn(children[i])
    else UuidInInstances(children, i + 1)
  }

  /**
   * A top-level node yields no match exactly when it is not a `symbol` or
   * none of its `instances` children holds one; otherwise the first
   * `instances` child that holds one decides.
   */
  lemma UuidInSymbolIsFirst(item: SExpr)
    ensures UuidInSymbol(item).None? <==>
            !HeadIs(item, "symbol") || forall j :: 0 <= j < |item.items| ==> !MatchingInstances(item.items[j])
    ensures UuidInSymbol(item).Some? ==>
            exists j :: 0 <= j < |item.items| && MatchingInstances(item.items[j]) &&
                        UuidInSymbol(item) == FirstUuidPathIn(item.items[j]) &&
                        forall i :: 0 <= i < j ==> !MatchingInstances(item.items[i])
  {
    if HeadIs(item, "symbol") {
      UuidInInstancesIsFirst(item.items, 0);
    }
  }

  lemma {:induction false} UuidInInstancesIsFirst(children: seq<SExpr>, i: nat)
    requires i <= |children|
    ensures UuidInInstances(children, i).None? <==> forall j :: i <= j < |children| ==> !MatchingInstances(children[j])
    ensures UuidInInstances(children, i).Some? ==>
            exists j :: i <= j < |children| && MatchingInstances(children[j]) &&
                        UuidInInstances(children, i) == FirstUuidPathIn(children[j]) &&
                        forall k :: i <= k < j ==> !MatchingInstances(children[k])
    decreases |children| - i
  {
    if i < |children| && !MatchingInstances(children[i]) {
      UuidInInstancesIsFirst(children, i + 1);
    }
  }

  /**
   * The project UUID recorded in the document: the first match over the
   * top-level `symbol` nodes and their `instances` children in document order.
   */
  function ProjectUuidIn(t: seq<SExpr>): (r: Option<string>)
    ensures r.Some? ==> IsUuidText(r.value)
    ensures r.None? <==> forall j :: 0 <= j < |t| ==> UuidInSymbol(t[j]).None?
    ensures r.Some? ==> exists j :: 0 <= j < |t| && UuidInSymbol(t[j]) == r &&
                                    forall i :: 0 <= i < j ==> UuidInSymbol(t[i]).None?
  {
    if t == [] then None
    else if UuidInSymbol(t[0]).Some? then UuidInSymbol(t[0])
    else
      var r := ProjectUuidIn(t[1..]);
      assert forall j :: 1 <= j < |t| ==> t[1..][j - 1] == t[j];
      r
  }

  /**
   * Inserting a node keeps the document's project UUID when the node itself
   * carries that UUID first (or carries one and the document had none).
   */
  lemma {:induction false} ProjectUuidAfterInsert(t: seq<SExpr>, k: nat, node: SExpr, u: string)
    requires k <= |t|
    requires UuidInSymbol(node) == Some(u)
    requires ProjectUuidIn(t) == Some(u) || ProjectUuidIn(t) == None
    ensures ProjectUuidIn(t[..k] + [node] + t[k..]) == Some(u)
  {
    var t' := t[..k] + [node] + t[k..];
    assert forall i :: 0 <= i < k ==> t'[i] == t[i];
    assert t'[k] == node;
    if ProjectUuidIn(t).Some? {
      var j :| 0 <= j < |t| && UuidInSymbol(t[j]) == ProjectUuidIn(t) &&
                forall i :: 0 <= i < j ==> UuidInSymbol(t[i]).None?;
      if j < k {
        FirstSomeUnique(t', j);
        return;
      }
    }
    FirstSomeUnique(t', k);
  }

  /** Replacing a node that is not a `symbol` by another that is not either keeps the project UUID. */
  lemma {:induction false} ProjectUuidIgnoresOtherNodes(t: seq<SExpr>, k: nat, node: SExpr)
    requires k < |t|
    requires !HeadIs(t[k], "symbol") && !HeadIs(node, "symbol")
    ensures ProjectUuidIn(t[k := node]) == ProjectUuidIn(t)
  {
    var t' := t[k := node];
    assert forall j :: 0 <= j < |t| ==> UuidInSymbol(t'[j]) == UuidInSymbol(t[j]);
    if ProjectUuidIn(t).Some? {
      var j :| 0 <= j < |t| && UuidInSymbol(t[j]) == ProjectUuidIn(t) &&
                forall i :: 0 <= i < j ==> UuidInSymbol(t[i]).None?;
      FirstSomeUnique(t', j);
    }
  }

  /** Inserting a node that carries no project UUID of its own (any node but a `symbol`, for one) keeps the document's. */
  lemma {:induction false} ProjectUuidInsertOther(t: seq<SExpr>, k: nat, node: SExpr)
    requires k <= |t| && UuidInSymbol(node).None?
    ensures ProjectUuidIn(t[..k] + [node] + t[k..]) == ProjectUuidIn(t)
  {
    if ProjectUuidIn(t).Some? {
      var j :| 0 <= j < |t| && UuidInSymbol(t[j]) == ProjectUuidIn(t) &&
                forall i :: 0 <= i < j ==> UuidInSymbol(t[i]).None?;
      InsertOtherKeepsFirst(t, k, node, j);
    } else {
      InsertOtherKeepsNone(t, k, node);
    }
  }

  /** The first carrier of an identifier is still the first one, one place on if it came after the insertion point. */
  lemma InsertOtherKeepsFirst(t: seq<SExpr>, k: nat, node: SExpr, j: nat)
    requires k <= |t| && UuidInSymbol(node).None?
    requires j < |t| && UuidInSymbol(t[j]).Some? && forall i :: 0 <= i < j ==> UuidInSymbol(t[i]).None?
    ensures ProjectUuidIn(t[..k] + [node] + t[k..]) == UuidInSymbol(t[j])
  {
    var t' := t[..k] + [node] + t[k..];
    if j < k {
      assert t'[j] == t[j];
      assert forall i :: 0 <= i < j ==> t'[i] == t[i];
      FirstSomeUnique(t', j);
    } else {
      assert t'[j + 1] == t[j];
      forall i | 0 <= i < j + 1
        ensures UuidInSymbol(t'[i]).None?
      {
        if i < k {
          assert t'[i] == t[i];
        } else if i > k {
          assert t'[i] == t[i - 1];
        }
      }
      FirstSomeUnique(t', j + 1);
    }
  }

  /** A document without a carrier of an identifier still has none after the insertion. */
  lemma InsertOtherKeepsNone(t: seq<SExpr>, k: nat, node: SExpr)
    requires k <= |t| && UuidInSymbol(node).None?
    requires forall i :: 0 <= i < |t| ==> UuidInSymbol(t[i]).None?
    ensures ProjectUuidIn(t[..k] + [node] + t[k..]).None?
  {
    var t' := t[..k] + [node] + t[k..];
    forall i | 0 <= i < |t'|
      ensures UuidInSymbol(t'[i]).None?
    {
      if i < k {
        assert t'[i] == t[i];
      } else if i > k {
        assert t'[i] == t[i - 1];
      }
    }
  }

  lemma {:induction false} FirstSomeUnique(t: seq<SExpr>, j: nat)
    requires j < |t| && UuidInSymbol(t[j]).Some?
    requires forall i :: 0 <= i < j ==> UuidInSymbol(t[i]).None?
    ensures ProjectUuidIn(t) == UuidInSymbol(t[j])
  {
    var i :| 0 <= i < |t| && UuidInSymbol(t[i]) == ProjectUuidIn(t) &&
              forall m :: 0 <= m < i ==> UuidInSymbol(t[m]).None?;
    if i < j {
    } else if j < i {
    }
  }
}
