/**
 * Symbol definitions: looking one up in a parsed library file, and caching
 * it into the document's `lib_symbols` section at most once.
 */
module SymbolLibrary {
  import opened SExprs

  /**
   * `lib_id.split(':', 1)`: the library name before the first `:` and the
   * symbol name after it; `None` when there is no `:`.
   */
  function SplitLibId(libId: string): (r: Option<(string, string)>)
    ensures r.None? <==> ':' !in libId
    ensures r.Some? ==> libId == r.value.0 + ":" + r.value.1 && ':' !in r.value.0
  {
    if libId == [] then None
    else if libId[0] == ':' then Some(("", libId[1..]))
    else match SplitLibId(libId[1..])
      case None => None
      case Some(p) => Some(([libId[0]] + p.0, p.1))
  }

  /** The split is unique: a library name without `:` is recovered exactly. */
  lemma {:induction false} SplitLibIdOf(lib: string, name: string)
    requires ':' !in lib
    ensures SplitLibId(lib + ":" + name) == Some((lib, name))
  {
    if lib == [] {
      assert lib + ":" + name == [':'] + name;
    } else {
      var s := lib + ":" + name;
      SplitLibIdOf(lib[1..], name);
      assert s[0] == lib[0] && s[0] != ':';
      assert s[1..] == lib[1..] + ":" + name;
      assert [lib[0]] + lib[1..] == lib;
    }
  }

  /** `(symbol "<name>" ...)`: a list headed `symbol` whose second item is the string `name`. */
  predicate DefinesSymbol(item: SExpr, name: string) {
    HeadIs(item, "symbol") && |item.items| > 1 && item.items[1] == Str(name)
  }

  /** The index of the first item of `items[from..]` that defines `name`. */
  function FindDefinition(items: seq<SExpr>, name: string, from: nat): (r: Option<nat>)
    requires from <= |items|
    ensures r.Some? ==> from <= r.value < |items| && DefinesSymbol(items[r.value], name)
    ensures r.Some? ==> forall j :: from <= j < r.value ==> !DefinesSymbol(items[j], name)
    ensures r.None? ==> forall j :: from <= j < |items| ==> !DefinesSymbol(items[j], name)
    decreases |items| - from
  {
    if from == |items| then None
    else if DefinesSymbol(items[from], name) then Some(from)
    else FindDefinition(items, name, from + 1)
  }

  /**
   * Looks `libId` up in the store of parsed library files (one per library
   * name; a missing key is a missing file). The first `(symbol "<name>" ...)`
   * item of the library is returned re-tagged as `(symbol "<libId>" ...)`.
   */
  function LoadSymbol(libs: map<string, SExpr>, libId: string): (r: Option<SExpr>)
    ensures ':' !in libId ==> r.None?
    ensures r.Some? ==> DefinesSymbol(r.value, libId)
  {
    match SplitLibId(libId)
    case None => None
    case Some((lib, name)) =>
      if lib !in libs || !libs[lib].List? then None
      else match FindDefinition(libs[lib].items, name, 0)
        case None => None
        case Some(j) => Some(List([Sym("symbol"), Str(libId)] + libs[lib].items[j].items[2..]))
  }

  /**
   * Lookup succeeds exactly when the library file exists, is a list and
   * holds a definition of the symbol; the result is the first such
   * definition with its name replaced by the full library id.
   */
  lemma LoadSymbolFinds(libs: map<string, SExpr>, lib: string, name: string)
    requires ':' !in lib
    ensures var r := LoadSymbol(libs, lib + ":" + name);
            r.Some? <==> (lib in libs && libs[lib].List? &&
                          exists j :: 0 <= j < |libs[lib].items| && DefinesSymbol(libs[lib].items[j], name))
    ensures var r := LoadSymbol(libs, lib + ":" + name);
            r.Some? ==> exists j :: 0 <= j < |libs[lib].items| && DefinesSymbol(libs[lib].items[j], name) &&
                          (forall i :: 0 <= i < j ==> !DefinesSymbol(libs[lib].items[i], name)) &&
                          r.value.items == [Sym("symbol"), Str(lib + ":" + name)] + libs[lib].items[j].items[2..]
  {
    SplitLibIdOf(lib, name);
  }

  /** The document's definitions section already holds a definition keyed `libId`. */
  predicate IsCached(section: SExpr, libId: string)
    requires section.List?
  {
    exists j :: 1 <= j < |section.items| && DefinesSymbol(section.items[j], libId)
  }

  /** The index of the first top-level `lib_symbols` node. */
  function LibSymbolsIndex(t: seq<SExpr>): (r: Option<nat>)
    ensures r.Some? ==> r.value < |t| && HeadIs(t[r.value], "lib_symbols")
    ensures r.Some? ==> forall j :: 0 <= j < r.value ==> !HeadIs(t[j], "lib_symbols")
    ensures r.None? ==> forall j :: 0 <= j < |t| ==> !HeadIs(t[j], "lib_symbols")
  {
    if t == [] then None
    else if HeadIs(t[0], "lib_symbols") then Some(0)
    else match LibSymbolsIndex(t[1..])
      case None => None
      case Some(k) => Some(k + 1)
  }

  /** The first `lib_symbols` node is the one `LibSymbolsIndex` finds. */
  lemma FirstLibSymbols(t: seq<SExpr>, k: nat)
    requires k < |t| && HeadIs(t[k], "lib_symbols")
    requires forall j :: 0 <= j < k ==> !HeadIs(t[j], "lib_symbols")
    ensures LibSymbolsIndex(t) == Some(k)
  {
  }

  /** Two trees with the same heads have their `lib_symbols` section at the same place. */
  lemma {:induction false} LibSymbolsIndexByHeads(t: seq<SExpr>, u: seq<SExpr>)
    requires Heads(t) == Heads(u)
    ensures LibSymbolsIndex(t) == LibSymbolsIndex(u)
  {
    if t != [] {
      HeadIsMeansHead(t[0], "lib_symbols");
      HeadIsMeansHead(u[0], "lib_symbols");
      assert Heads(t[1..]) == Heads(u[1..]);
      LibSymbolsIndexByHeads(t[1..], u[1..]);
    }
  }

  datatype CacheResult = CacheResult(ok: bool, tree: seq<SExpr>)

  /**
   * The cache step: false with the tree untouched when there is no
   * `lib_symbols` section or the lookup fails; true with the tree untouched
   * when `libId` is already cached; otherwise true with the definition
   * appended to the end of the first `lib_symbols` section.
   */
  function EnsureCached(t: seq<SExpr>, libs: map<string, SExpr>, libId: string): (r: CacheResult)
    ensures !r.ok ==> r.tree == t
    ensures LibSymbolsIndex(t).None? ==> !r.ok
    ensures |r.tree| == |t| && Heads(r.tree) == Heads(t)
  {
    match LibSymbolsIndex(t)
    case None => CacheResult(false, t)
    case Some(k) =>
      if IsCached(t[k], libId) then CacheResult(true, t)
      else match LoadSymbol(libs, libId)
        case None => CacheResult(false, t)
        case Some(d) =>
          var t' := t[k := List(t[k].items + [d])];
          assert Heads(t') == Heads(t);
          CacheResult(true, t')
  }

  /** The cache step changes nothing outside `lib_symbols` sections. */
  lemma EnsureCachedKeepsOthers(t: seq<SExpr>, libs: map<string, SExpr>, libId: string)
    ensures var r := EnsureCached(t, libs, libId);
            forall j :: 0 <= j < |t| && !HeadIs(t[j], "lib_symbols") ==> r.tree[j] == t[j]
  {
  }

  /** A changed tree is the first `lib_symbols` section with the loaded definition appended. */
  lemma EnsureCachedAppends(t: seq<SExpr>, libs: map<string, SExpr>, libId: string)
    ensures var r := EnsureCached(t, libs, libId);
            r.tree != t ==> exists k, d :: LibSymbolsIndex(t) == Some(k) && !IsCached(t[k], libId) &&
                                          LoadSymbol(libs, libId) == Some(d) &&
                                          r.tree == t[k := List(t[k].items + [d])]
  {
    var r := EnsureCached(t, libs, libId);
    if r.tree != t {
      var k := LibSymbolsIndex(t).value;
      var d := LoadSymbol(libs, libId).value;
      assert r.tree == t[k := List(t[k].items + [d])];
    }
  }

  /** After a successful cache step the first `lib_symbols` section caches `libId`. */
  lemma EnsureCachedCaches(t: seq<SExpr>, libs: map<string, SExpr>, libId: string)
    ensures var r := EnsureCached(t, libs, libId);
            r.ok ==> exists k :: LibSymbolsIndex(r.tree) == Some(k) && IsCached(r.tree[k], libId)
  {
    var r := EnsureCached(t, libs, libId);
    if r.ok {
      var k := LibSymbolsIndex(t).value;
      if r.tree != t {
        var d := LoadSymbol(libs, libId).value;
        var section := List(t[k].items + [d]);
        assert r.tree == t[k := section];
        LibSymbolsIndexByHeads(r.tree, t);
        assert DefinesSymbol(section.items[|t[k].items|], libId);
        assert IsCached(r.tree[k], libId);
      } else {
        assert IsCached(r.tree[k], libId);
      }
    }
  }

  /**
   * The cache step is idempotent: a second call right after the first
   * returns the same answer and changes nothing, so two consecutive calls
   * append a definition at most once.
   */
  lemma EnsureCachedIdempotent(t: seq<SExpr>, libs: map<string, SExpr>, libId: string)
    ensures var once := EnsureCached(t, libs, libId);
            EnsureCached(once.tree, libs, libId) == once
  {
    var once := EnsureCached(t, libs, libId);
    EnsureCachedCaches(t, libs, libId);
    if once.tree != t {
      LibSymbolsIndexByHeads(once.tree, t);
    }
  }

  /** Whether the cache step succeeds: a section exists and the id is cached or can be loaded. */
  lemma EnsureCachedSucceeds(t: seq<SExpr>, libs: map<string, SExpr>, libId: string)
    ensures EnsureCached(t, libs, libId).ok <==>
              exists k :: LibSymbolsIndex(t) == Some(k) &&
                          (IsCached(t[k], libId) || LoadSymbol(libs, libId).Some?)
  {
  }
}
