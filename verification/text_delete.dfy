/**
 * The parser-free deletion handlers: the schematic file is split into lines,
 * a line scanner copies or drops whole blocks, and the kept lines are joined
 * back with newlines. A block runs from its opening line to the first line
 * at which the running balance of `(` minus `)` returns to zero.
 */
module TextDeletion {
  import opened SExprs
  import opened PyText

  // ---------------------------------------------------------------------
  // Order-preserving subsequences
  // ---------------------------------------------------------------------

  /** `a` is `b` with some elements left out, the rest in their original order. */
  predicate IsSubseq(a: seq<string>, b: seq<string>)
    decreases |b|
  {
    if a == [] then true
    else if b == [] then false
    else (a[0] == b[0] && IsSubseq(a[1..], b[1..])) || IsSubseq(a, b[1..])
  }

  lemma {:induction false} SubseqRefl(b: seq<string>)
    ensures IsSubseq(b, b)
    decreases |b|
  {
    if b != [] {
      SubseqRefl(b[1..]);
    }
  }

  /** Lines in front of the source may all be dropped. */
  lemma {:induction false} SubseqSkip(a: seq<string>, x: seq<string>, b: seq<string>)
    requires IsSubseq(a, b)
    ensures IsSubseq(a, x + b)
    decreases |x|
  {
    if x != [] {
      SubseqSkip(a, x[1..], b);
      assert (x + b)[1..] == x[1..] + b;
    } else {
      assert x + b == b;
    }
  }

  /** Lines in front of both may all be kept. */
  lemma {:induction false} SubseqPrefix(x: seq<string>, a: seq<string>, b: seq<string>)
    requires IsSubseq(a, b)
    ensures IsSubseq(x + a, x + b)
    decreases |x|
  {
    if x != [] {
      SubseqPrefix(x[1..], a, b);
      assert (x + a)[1..] == x[1..] + a;
      assert (x + b)[1..] == x[1..] + b;
    } else {
      assert x + a == a && x + b == b;
    }
  }

  /** Every element of a subsequence is an element of the source. */
  lemma {:induction false} SubseqElements(a: seq<string>, b: seq<string>)
    requires IsSubseq(a, b)
    ensures forall k :: 0 <= k < |a| ==> a[k] in b
    decreases |b|
  {
    if a != [] {
      if a[0] == b[0] && IsSubseq(a[1..], b[1..]) {
        SubseqElements(a[1..], b[1..]);
        forall k | 0 <= k < |a|
          ensures a[k] in b
        {
          if k > 0 {
            assert a[k] == a[1..][k - 1];
            assert a[k] in b[1..];
          }
        }
      } else {
        SubseqElements(a, b[1..]);
      }
    }
  }

  lemma SliceCons(s: seq<string>, i: nat)
    requires i < |s|
    ensures s[i..] == [s[i]] + s[i + 1..]
  {
  }

  lemma SliceConsTo(s: seq<string>, i: nat, j: nat)
    requires i < j <= |s|
    ensures s[i..j] == [s[i]] + s[i + 1..j]
  {
  }

  lemma SliceSplit(s: seq<string>, i: nat, j: nat)
    requires i <= j <= |s|
    ensures s[i..] == s[i..j] + s[j..]
  {
  }

  /** A block in front of the source may be dropped or kept whole. */
  lemma BlockSubseq(block: seq<string>, rest: seq<string>, tail: seq<string>)
    requires IsSubseq(rest, tail)
    ensures IsSubseq(rest, block + tail) && IsSubseq(block + rest, block + tail)
  {
    SubseqSkip(rest, block, tail);
    SubseqPrefix(block, rest, tail);
  }

  // ---------------------------------------------------------------------
  // Block extent
  // ---------------------------------------------------------------------

  /** What a line adds to the running balance: `line.count('(') - line.count(')')`. */
  function Delta(line: string): int {
    Count(line, '(') as int - Count(line, ')') as int
  }

  /** The running balance after the lines of `block`, from zero. */
  function Balance(block: seq<LineInfo>): int {
    if block == [] then 0 else Balance(block[..|block| - 1]) + block[|block| - 1].delta
  }

  /**
   * The index at which the scan of a block stops when it reaches line `j`
   * with running balance `bal`: the first line from `j` on that brings the
   * balance to zero, or the number of lines when none does.
   */
  function BlockStop(infos: seq<LineInfo>, j: nat, bal: int): (stop: nat)
    requires j <= |infos|
    ensures j <= stop <= |infos|
    decreases |infos| - j
  {
    if j == |infos| then |infos|
    else if bal + infos[j].delta == 0 then j
    else BlockStop(infos, j + 1, bal + infos[j].delta)
  }

  /** One past the last line of a block that stopped at `stop`. */
  function BlockEnd(infos: seq<LineInfo>, stop: nat): nat {
    if stop < |infos| then stop + 1 else |infos|
  }

  /** The running balance over lines `i` to `j - 1`. */
  function BalanceFrom(infos: seq<LineInfo>, i: nat, j: nat): int
    requires i <= j <= |infos|
  {
    Balance(infos[i..j])
  }

  /**
   * A block ends at the first line where the balance counted from its
   * opening line is zero; when there is none it runs to the end of the input.
   */
  lemma BlockStopIsFirstZero(infos: seq<LineInfo>, i: nat)
    requires i < |infos|
    ensures var stop := BlockStop(infos, i, 0);
            (stop < |infos| ==> BalanceFrom(infos, i, stop + 1) == 0) &&
            forall j :: i < j <= stop ==> BalanceFrom(infos, i, j) != 0
  {
    assert infos[i..i] == [];
    BlockStopFrom(infos, i, i);
  }

  lemma {:induction false} BlockStopFrom(infos: seq<LineInfo>, i: nat, j: nat)
    requires i <= j <= |infos|
    requires forall m :: i < m <= j ==> BalanceFrom(infos, i, m) != 0
    ensures var stop := BlockStop(infos, j, BalanceFrom(infos, i, j));
            (stop < |infos| ==> BalanceFrom(infos, i, stop + 1) == 0) &&
            forall m :: i < m <= stop ==> BalanceFrom(infos, i, m) != 0
    decreases |infos| - j
  {
    if j < |infos| {
      BalanceStep(infos, i, j);
      if BalanceFrom(infos, i, j + 1) != 0 {
        BlockStopFrom(infos, i, j + 1);
      }
    }
  }

  lemma BalanceStep(infos: seq<LineInfo>, i: nat, j: nat)
    requires i <= j < |infos|
    ensures BalanceFrom(infos, i, j + 1) == BalanceFrom(infos, i, j) + infos[j].delta
  {
    var b := infos[i..j + 1];
    assert b[..|b| - 1] == infos[i..j];
  }

  // ---------------------------------------------------------------------
  // What the scans read from a line
  // ---------------------------------------------------------------------

  /** Lines opening the copied-verbatim library region: `(lib_symbols...` or a bare `lib_symbols`. */
  predicate OpensLibSymbols(stripped: string) {
    StartsWith(stripped, "(lib_symbols") || stripped == "lib_symbols"
  }

  /**
   * What the symbol scan tests a line for, once stripped: the library
   * region opening, a lone `)`, a lone `(`, a `(symbol...` opening, the
   * bare keyword `symbol`, or anything else.
   */
  datatype Tag = LibOpen | Close | Open | SymbolOpen | SymbolWord | Other

  function LineTag(line: string): Tag {
    var stripped := Strip(line);
    if OpensLibSymbols(stripped) then LibOpen
    else if stripped == ")" then Close
    else if stripped == "(" then Open
    else if StartsWith(stripped, "(symbol") then SymbolOpen
    else if stripped == "symbol" then SymbolWord
    else Other
  }

  /** The tags answer the tests of the scan loop, taken in the loop's order. */
  lemma TagMeaning(line: string)
    ensures var stripped := Strip(line);
            (LineTag(line) == LibOpen <==> OpensLibSymbols(stripped)) &&
            (!OpensLibSymbols(stripped) ==> (LineTag(line) == Close <==> stripped == ")")) &&
            (!OpensLibSymbols(stripped) ==> (LineTag(line) == Open <==> stripped == "(")) &&
            (!OpensLibSymbols(stripped) && stripped != "(" ==>
              (LineTag(line) == SymbolOpen <==> StartsWith(stripped, "(symbol"))) &&
            (LineTag(line) == SymbolWord <==> stripped == "symbol")
  {
    var stripped := Strip(line);
    if stripped == "symbol" {
      assert !StartsWith(stripped, "(symbol") && !StartsWith(stripped, "(lib_symbols");
    }
    if StartsWith(stripped, "(lib_symbols") {
      assert stripped[1] == 'l';
    }
  }

  const ReferencePattern: string := "property \"Reference\""

  /**
   * What the reference extraction reads from a line: whether it holds
   * `property "Reference"`, the fourth `"`-separated field when there is
   * one, whether it is a bare `property` or a bare `"Reference"` once
   * stripped, and its value with the quotes stripped when it is quoted.
   */
  datatype RefFacts = RefFacts(hasPattern: bool, inlineValue: Option<string>, isProperty: bool,
                               isReferenceKey: bool, quoted: Option<string>)

  function LineRefFacts(line: string): RefFacts {
    var stripped := Strip(line);
    var parts := Split(line, '"');
    RefFacts(Contains(line, ReferencePattern),
             if |parts| >= 4 then Some(parts[3]) else None,
             stripped == "property",
             stripped == "\"Reference\"",
             if StartsWith(stripped, "\"") && EndsWith(stripped, "\"") then Some(StripChar(stripped, '"')) else None)
  }

  /** Lines opening a dropped block. `(global_label` and `(hierarchical_label` do not qualify. */
  predicate OpensWireBlock(stripped: string) {
    StartsWith(stripped, "(wire") || StartsWith(stripped, "(junction") || StartsWith(stripped, "(label")
  }

  /**
   * Everything the scans read from one line: its symbol-scan tag, its
   * reference facts, what it adds to the parenthesis balance, and whether
   * it opens a wire, junction or label block.
   */
  datatype LineInfo = LineInfo(tag: Tag, facts: RefFacts, delta: int, opensWire: bool)

  function Info(line: string): LineInfo {
    LineInfo(LineTag(line), LineRefFacts(line), Delta(line), OpensWireBlock(Strip(line)))
  }

  /** The information of every line, in order. */
  function Infos(lines: seq<string>): (infos: seq<LineInfo>)
    ensures |infos| == |lines|
    ensures forall k :: 0 <= k < |lines| ==> infos[k] == Info(lines[k])
  {
    seq(|lines|, k requires 0 <= k < |lines| => Info(lines[k]))
  }

  // ---------------------------------------------------------------------
  // Reference extraction
  // ---------------------------------------------------------------------

  /**
   * The reference found so far, and the two flags of the split-line form:
   * a bare `property` line seen, then a bare `"Reference"` line seen.
   */
  datatype RefState = RefState(reference: Option<string>, foundProperty: bool, foundKey: bool)

  /**
   * One line of a block. While no reference is known, a line holding the
   * inline pattern gives its fourth field (or nothing, with no other test);
   * the split-line layout (`splitForm`) also accepts `property`,
   * `"Reference"` and a quoted value on successive matching lines, and that
   * value replaces whatever was found before.
   */
  function RefStep(st: RefState, f: RefFacts, splitForm: bool): (r: RefState)
    ensures !splitForm ==> r.foundProperty == st.foundProperty && r.foundKey == st.foundKey
    ensures !splitForm && st.reference.Some? ==> r == st
    ensures r.reference != st.reference ==>
              (st.reference.None? && f.hasPattern && r.reference == f.inlineValue) ||
              (splitForm && st.foundKey && f.quoted.Some? && r == RefState(f.quoted, false, false))
  {
    if f.hasPattern && st.reference.None? then
      if f.inlineValue.Some? then st.(reference := f.inlineValue) else st
    else if !splitForm then st
    else if f.isProperty then st.(foundProperty := true)
    else if st.foundProperty && f.isReferenceKey then st.(foundKey := true)
    else if st.foundKey && f.quoted.Some? then RefState(f.quoted, false, false)
    else st
  }

  /** The state after the lines of `block`, in order. */
  function RefScan(block: seq<LineInfo>, splitForm: bool): RefState {
    if block == [] then RefState(None, false, false)
    else RefStep(RefScan(block[..|block| - 1], splitForm), block[|block| - 1].facts, splitForm)
  }

  /** A line carrying an inline reference. */
  predicate InlineCarrier(f: RefFacts) {
    f.hasPattern && f.inlineValue.Some?
  }

  /** The inline reference, searched from the front: the first carrier's fourth field. */
  function InlineReference(block: seq<LineInfo>): Option<string> {
    if block == [] then None
    else if InlineCarrier(block[0].facts) then block[0].facts.inlineValue
    else InlineReference(block[1..])
  }

  /** In the single-line layout the scan finds exactly the first inline reference. */
  lemma {:induction false} InlineScanFindsFirst(block: seq<LineInfo>)
    ensures RefScan(block, false) == RefState(InlineReference(block), false, false)
  {
    if block != [] {
      var init := block[..|block| - 1];
      InlineScanFindsFirst(init);
      InlineReferenceAppend(init, block[|block| - 1]);
      assert init + [block[|block| - 1]] == block;
    }
  }

  lemma {:induction false} InlineReferenceAppend(b: seq<LineInfo>, x: LineInfo)
    ensures InlineReference(b + [x]) ==
            if InlineReference(b).Some? then InlineReference(b)
            else if InlineCarrier(x.facts) then x.facts.inlineValue else None
  {
    if b == [] {
      assert [x][1..] == [];
    } else {
      InlineReferenceAppend(b[1..], x);
      assert (b + [x])[1..] == b[1..] + [x];
    }
  }

  /**
   * The split-line layout: a bare `property` line, a bare `"Reference"`
   * line and a quoted line, none holding the inline pattern, yield the
   * quoted value, whatever was found before.
   */
  lemma SplitFormFindsValue(st: RefState, l1: string, l2: string, l3: string)
    requires !Contains(l1, ReferencePattern) && !Contains(l2, ReferencePattern) && !Contains(l3, ReferencePattern)
    requires Strip(l1) == "property" && Strip(l2) == "\"Reference\""
    requires StartsWith(Strip(l3), "\"") && EndsWith(Strip(l3), "\"") && Strip(l3) != "\"Reference\""
    ensures var s1 := RefStep(st, LineRefFacts(l1), true);
            var s2 := RefStep(s1, LineRefFacts(l2), true);
            RefStep(s2, LineRefFacts(l3), true) == RefState(Some(StripChar(Strip(l3), '"')), false, false)
  {
  }

  // ---------------------------------------------------------------------
  // Symbol deletion
  // ---------------------------------------------------------------------

  /** What the scanner does at a line: copy it (and enter or leave the library region), or read a symbol block. */
  datatype LineKind = Copy(inLibAfter: bool) | SymbolBlock(splitForm: bool)

  /**
   * The branch the scan takes at line `i`. A library opening is copied and
   * enters the region; inside the region every line is copied and a lone
   * `)` leaves it; outside, a lone `(` followed by a bare `symbol` line
   * opens a split-line block, a `(symbol...` line opens a single-line one,
   * and any other line is copied.
   */
  function Classify(infos: seq<LineInfo>, i: nat, inLib: bool): (k: LineKind)
    requires i < |infos|
    ensures k.SymbolBlock? <==>
              !inLib && (infos[i].tag == SymbolOpen ||
                         (infos[i].tag == Open && i + 1 < |infos| && infos[i + 1].tag == SymbolWord))
    ensures k.SymbolBlock? ==> (k.splitForm <==> infos[i].tag == Open)
    ensures k.Copy? ==> (k.inLibAfter <==> infos[i].tag == LibOpen || (inLib && infos[i].tag != Close))
  {
    var tag := infos[i].tag;
    if tag == LibOpen then Copy(true)
    else if inLib then Copy(tag != Close)
    else if tag == Open then
      if i + 1 < |infos| && infos[i + 1].tag == SymbolWord then SymbolBlock(true) else Copy(false)
    else if tag == SymbolOpen then SymbolBlock(false)
    else Copy(false)
  }

  datatype ScanResult = ScanResult(kept: seq<string>, deleted: nat)

  /** A block is dropped when a reference was found in it and is one of `refs`. */
  predicate Drops(block: seq<LineInfo>, splitForm: bool, refs: seq<string>) {
    var reference := RefScan(block, splitForm).reference;
    reference.Some? && reference.value in refs
  }

  /**
   * The lines kept and the blocks dropped from line `i` on, `infos` being
   * what was read from the lines: a symbol block is dropped when its
   * reference is one of `refs`, otherwise kept whole.
   */
  function SymbolScan(lines: seq<string>, infos: seq<LineInfo>, refs: seq<string>, i: nat, inLib: bool): (r: ScanResult)
    requires |infos| == |lines|
    ensures i <= |lines| ==> |r.kept| + r.deleted <= |lines| - i
    decreases |lines| - i
  {
    if i >= |lines| then ScanResult([], 0)
    else match Classify(infos, i, inLib)
      case Copy(inLibAfter) =>
        var rest := SymbolScan(lines, infos, refs, i + 1, inLibAfter);
        ScanResult([lines[i]] + rest.kept, rest.deleted)
      case SymbolBlock(splitForm) =>
        var stop := BlockStop(infos, i, 0);
        var end := BlockEnd(infos, stop);
        var rest := SymbolScan(lines, infos, refs, stop + 1, false);
        if Drops(infos[i..end], splitForm, refs) then ScanResult(rest.kept, rest.deleted + 1)
        else ScanResult(lines[i..end] + rest.kept, rest.deleted)
  }

  /** The scan of a whole file's lines. */
  function SymbolDeletion(lines: seq<string>, refs: seq<string>): ScanResult {
    SymbolScan(lines, Infos(lines), refs, 0, false)
  }

  lemma SymbolScanPastEnd(lines: seq<string>, infos: seq<LineInfo>, refs: seq<string>, j: nat)
    requires |infos| == |lines| && j > |lines|
    ensures SymbolScan(lines, infos, refs, j, false) == ScanResult([], 0)
  {
  }

  /** At a copied line the scan keeps the line and goes on with the next one. */
  lemma SymbolCopyStep(lines: seq<string>, infos: seq<LineInfo>, refs: seq<string>, i: nat, inLib: bool)
    requires |infos| == |lines| && i < |lines| && Classify(infos, i, inLib).Copy?
    ensures var rest := SymbolScan(lines, infos, refs, i + 1, Classify(infos, i, inLib).inLibAfter);
            SymbolScan(lines, infos, refs, i, inLib) == ScanResult([lines[i]] + rest.kept, rest.deleted)
  {
  }

  /** At a symbol block the scan either drops the whole block or keeps it whole, then goes on after it. */
  lemma SymbolBlockStep(lines: seq<string>, infos: seq<LineInfo>, refs: seq<string>, i: nat, inLib: bool)
    requires |infos| == |lines| && i < |lines| && Classify(infos, i, inLib).SymbolBlock?
    ensures var stop := BlockStop(infos, i, 0);
            var end := BlockEnd(infos, stop);
            var rest := SymbolScan(lines, infos, refs, stop + 1, false);
            SymbolScan(lines, infos, refs, i, inLib) ==
              if Drops(infos[i..end], Classify(infos, i, inLib).splitForm, refs) then ScanResult(rest.kept, rest.deleted + 1)
              else ScanResult(lines[i..end] + rest.kept, rest.deleted)
  {
  }

  lemma AppendAssoc(a: seq<string>, b: seq<string>, c: seq<string>)
    ensures (a + b) + c == a + (b + c)
  {
  }

  lemma ConsAssoc(x: string, a: seq<string>, b: seq<string>)
    ensures [x] + (a + b) == ([x] + a) + b
  {
  }

  /** The kept lines are the input lines in their original order, some left out. */
  lemma {:induction false} SymbolScanSubseq(lines: seq<string>, infos: seq<LineInfo>, refs: seq<string>, i: nat, inLib: bool)
    requires |infos| == |lines| && i <= |lines|
    ensures IsSubseq(SymbolScan(lines, infos, refs, i, inLib).kept, lines[i..])
    decreases |lines| - i, 1
  {
    if i < |lines| {
      if Classify(infos, i, inLib).Copy? {
        SubseqAtCopy(lines, infos, refs, i, inLib);
      } else {
        SubseqAtBlock(lines, infos, refs, i, inLib);
      }
    }
  }

  lemma {:induction false} SubseqAtCopy(lines: seq<string>, infos: seq<LineInfo>, refs: seq<string>, i: nat, inLib: bool)
    requires |infos| == |lines| && i < |lines| && Classify(infos, i, inLib).Copy?
    ensures IsSubseq(SymbolScan(lines, infos, refs, i, inLib).kept, lines[i..])
    decreases |lines| - i, 0
  {
    var inLibAfter := Classify(infos, i, inLib).inLibAfter;
    SymbolScanSubseq(lines, infos, refs, i + 1, inLibAfter);
    SymbolCopyStep(lines, infos, refs, i, inLib);
    SubseqCopyCase(lines, i, SymbolScan(lines, infos, refs, i + 1, inLibAfter).kept);
  }

  lemma {:induction false} SubseqAtBlock(lines: seq<string>, infos: seq<LineInfo>, refs: seq<string>, i: nat, inLib: bool)
    requires |infos| == |lines| && i < |lines| && Classify(infos, i, inLib).SymbolBlock?
    ensures IsSubseq(SymbolScan(lines, infos, refs, i, inLib).kept, lines[i..])
    decreases |lines| - i, 0
  {
    var stop := BlockStop(infos, i, 0);
    if stop < |lines| {
      SymbolScanSubseq(lines, infos, refs, stop + 1, false);
    } else {
      SymbolScanPastEnd(lines, infos, refs, stop + 1);
    }
    SymbolBlockStep(lines, infos, refs, i, inLib);
    SubseqBlockCase(lines, i, stop, BlockEnd(infos, stop), SymbolScan(lines, infos, refs, stop + 1, false).kept);
  }

  lemma SubseqCopyCase(lines: seq<string>, i: nat, rest: seq<string>)
    requires i < |lines| && IsSubseq(rest, lines[i + 1..])
    ensures IsSubseq([lines[i]] + rest, lines[i..])
  {
    SliceCons(lines, i);
    SubseqPrefix([lines[i]], rest, lines[i + 1..]);
  }

  lemma SubseqBlockCase(lines: seq<string>, i: nat, stop: nat, end: nat, rest: seq<string>)
    requires i <= stop <= |lines| && end == (if stop < |lines| then stop + 1 else |lines|)
    requires stop < |lines| ==> IsSubseq(rest, lines[stop + 1..])
    requires stop == |lines| ==> rest == []
    ensures IsSubseq(rest, lines[i..]) && IsSubseq(lines[i..end] + rest, lines[i..])
  {
    SliceSplit(lines, i, end);
    BlockSubseq(lines[i..end], rest, lines[end..]);
  }

  /**
   * Nothing is dropped exactly when the output is the input; every dropped
   * block removes at least one line.
   */
  lemma {:induction false} SymbolScanIdentity(lines: seq<string>, infos: seq<LineInfo>, refs: seq<string>, i: nat, inLib: bool)
    requires |infos| == |lines| && i <= |lines|
    ensures KeptOrCounted(SymbolScan(lines, infos, refs, i, inLib), lines, i)
    decreases |lines| - i, 1
  {
    if i < |lines| {
      if Classify(infos, i, inLib).Copy? {
        IdentityAtCopy(lines, infos, refs, i, inLib);
      } else {
        IdentityAtBlock(lines, infos, refs, i, inLib);
      }
    }
  }

  lemma {:induction false} IdentityAtCopy(lines: seq<string>, infos: seq<LineInfo>, refs: seq<string>, i: nat, inLib: bool)
    requires |infos| == |lines| && i < |lines| && Classify(infos, i, inLib).Copy?
    ensures KeptOrCounted(SymbolScan(lines, infos, refs, i, inLib), lines, i)
    decreases |lines| - i, 0
  {
    var inLibAfter := Classify(infos, i, inLib).inLibAfter;
    SymbolScanIdentity(lines, infos, refs, i + 1, inLibAfter);
    SymbolCopyStep(lines, infos, refs, i, inLib);
    IdentityCopyCase(lines, i, SymbolScan(lines, infos, refs, i + 1, inLibAfter));
  }

  lemma {:induction false} IdentityAtBlock(lines: seq<string>, infos: seq<LineInfo>, refs: seq<string>, i: nat, inLib: bool)
    requires |infos| == |lines| && i < |lines| && Classify(infos, i, inLib).SymbolBlock?
    ensures KeptOrCounted(SymbolScan(lines, infos, refs, i, inLib), lines, i)
    decreases |lines| - i, 0
  {
    var stop := BlockStop(infos, i, 0);
    if stop < |lines| {
      SymbolScanIdentity(lines, infos, refs, stop + 1, false);
    } else {
      SymbolScanPastEnd(lines, infos, refs, stop + 1);
    }
    SymbolBlockStep(lines, infos, refs, i, inLib);
    IdentityBlockCase(lines, i, stop, BlockEnd(infos, stop), SymbolScan(lines, infos, refs, stop + 1, false),
                      Drops(infos[i..BlockEnd(infos, stop)], Classify(infos, i, inLib).splitForm, refs));
  }

  /**
   * The scan from line `i` kept and dropped no more lines than there are,
   * and dropped nothing exactly when it kept every line.
   */
  predicate KeptOrCounted(r: ScanResult, lines: seq<string>, i: nat)
    requires i <= |lines|
  {
    |r.kept| + r.deleted <= |lines| - i && (r.deleted == 0 <==> r.kept == lines[i..])
  }

  lemma IdentityCopyCase(lines: seq<string>, i: nat, rest: ScanResult)
    requires i < |lines| && KeptOrCounted(rest, lines, i + 1)
    ensures KeptOrCounted(ScanResult([lines[i]] + rest.kept, rest.deleted), lines, i)
  {
    SliceCons(lines, i);
    PrefixCancels([lines[i]], rest.kept, lines[i + 1..]);
  }

  lemma IdentityBlockCase(lines: seq<string>, i: nat, stop: nat, end: nat, rest: ScanResult, dropped: bool)
    requires i <= stop <= |lines| && i < |lines| && end == (if stop < |lines| then stop + 1 else |lines|)
    requires stop < |lines| ==> KeptOrCounted(rest, lines, stop + 1)
    requires stop == |lines| ==> rest == ScanResult([], 0)
    ensures KeptOrCounted(if dropped then ScanResult(rest.kept, rest.deleted + 1)
                          else ScanResult(lines[i..end] + rest.kept, rest.deleted), lines, i)
  {
    SliceSplit(lines, i, end);
    PrefixCancels(lines[i..end], rest.kept, lines[end..]);
  }

  lemma PrefixCancels(block: seq<string>, a: seq<string>, b: seq<string>)
    ensures block + a == block + b <==> a == b
  {
    if block + a == block + b {
      assert a == (block + a)[|block|..];
    }
  }

  /**
   * Inside the library region every line is copied, and the region ends at
   * the first lone `)` line, at whatever depth.
   */
  lemma {:induction false} LibRegionVerbatim(lines: seq<string>, infos: seq<LineInfo>, refs: seq<string>, i: nat, e: nat)
    requires |infos| == |lines| && i <= e < |lines| && infos[e].tag == Close
    requires forall k :: i <= k < e ==> infos[k].tag != Close
    ensures var rest := SymbolScan(lines, infos, refs, e + 1, false);
            SymbolScan(lines, infos, refs, i, true) == ScanResult(lines[i..e + 1] + rest.kept, rest.deleted)
    decreases e - i
  {
    var rest := SymbolScan(lines, infos, refs, e + 1, false);
    SymbolCopyStep(lines, infos, refs, i, true);
    if i == e {
      assert lines[e..e + 1] == [lines[e]];
    } else {
      LibRegionVerbatim(lines, infos, refs, i + 1, e);
      SliceConsTo(lines, i, e + 1);
      ConsAssoc(lines[i], lines[i + 1..e + 1], rest.kept);
    }
  }

  /** A library region that is never closed copies the rest of the input and drops nothing. */
  lemma {:induction false} UnclosedLibRegionVerbatim(lines: seq<string>, infos: seq<LineInfo>, refs: seq<string>, i: nat)
    requires |infos| == |lines| && i <= |lines|
    requires forall k :: i <= k < |lines| ==> infos[k].tag != Close
    ensures SymbolScan(lines, infos, refs, i, true) == ScanResult(lines[i..], 0)
    decreases |lines| - i
  {
    if i < |lines| {
      UnclosedLibRegionVerbatim(lines, infos, refs, i + 1);
      SymbolCopyStep(lines, infos, refs, i, true);
      SliceCons(lines, i);
    }
  }

  /**
   * Reads one symbol block from line `i`: its lines, the line the balance
   * returned to zero at (or `|lines|`), and the reference found in it.
   * `infos` holds what the reference tests read from each line.
   */
  method ReadSymbolBlock(lines: seq<string>, infos: seq<LineInfo>, i: nat, splitForm: bool)
    returns (block: seq<string>, stop: nat, st: RefState)
    requires i < |lines| == |infos|
    ensures stop == BlockStop(infos, i, 0)
    ensures block == lines[i..BlockEnd(infos, stop)]
    ensures st == RefScan(infos[i..BlockEnd(infos, stop)], splitForm)
  {
    block := [];
    var tempI := i;
    var parenCount := 0;
    st := RefState(None, false, false);
    while tempI < |lines|
      invariant i <= tempI <= |lines|
      invariant block == lines[i..tempI]
      invariant st == RefScan(infos[i..tempI], splitForm)
      invariant BlockStop(infos, tempI, parenCount) == BlockStop(infos, i, 0)
    {
      var tempLine := lines[tempI];
      ReadStep(lines, infos, i, tempI, parenCount, splitForm);
      block := block + [tempLine];
      parenCount := parenCount + infos[tempI].delta;
      st := RefStep(st, infos[tempI].facts, splitForm);
      if parenCount == 0 {
        break;
      }
      tempI := tempI + 1;
    }
    stop := tempI;
  }

  /** What reading line `j` of a block started at line `i` does to the block, the reference state and the stop. */
  lemma ReadStep(lines: seq<string>, infos: seq<LineInfo>, i: nat, j: nat, bal: int, splitForm: bool)
    requires i <= j < |lines| == |infos|
    ensures lines[i..j] + [lines[j]] == lines[i..j + 1]
    ensures RefScan(infos[i..j + 1], splitForm) == RefStep(RefScan(infos[i..j], splitForm), infos[j].facts, splitForm)
    ensures bal + infos[j].delta == 0 ==> BlockStop(infos, j, bal) == j
    ensures bal + infos[j].delta != 0 ==> BlockStop(infos, j + 1, bal + infos[j].delta) == BlockStop(infos, j, bal)
  {
    var b := infos[i..j + 1];
    assert b[..|b| - 1] == infos[i..j];
  }

  /**
   * The scan of `_handle_delete_symbols`: copies the library region and
   * ordinary lines, drops each symbol block whose reference is in
   * `references` and counts the drops. `infos` holds the outcome of the
   * tests the scan makes on each line.
   */
  method DeleteSymbolBlocks(lines: seq<string>, infos: seq<LineInfo>, references: seq<string>)
    returns (outputLines: seq<string>, deletedCount: nat)
    requires |infos| == |lines|
    ensures ScanResult(outputLines, deletedCount) == SymbolScan(lines, infos, references, 0, false)
  {
    outputLines := [];
    deletedCount := 0;
    var inLibSymbols := false;
    var i := 0;
    ghost var total := SymbolScan(lines, infos, references, 0, false);
    while i < |lines|
      invariant i <= |lines| + 1
      invariant ScanSoFar(outputLines, deletedCount, SymbolScan(lines, infos, references, i, inLibSymbols), total)
      decreases |lines| + 1 - i
    {
      var line := lines[i];
      var tag := infos[i].tag;
      if tag == LibOpen {
        CopyStepKeeps(lines, infos, references, i, inLibSymbols, true, outputLines, deletedCount, total);
        inLibSymbols := true;
        outputLines := outputLines + [line];
        i := i + 1;
        continue;
      }
      if inLibSymbols && tag == Close {
        CopyStepKeeps(lines, infos, references, i, inLibSymbols, false, outputLines, deletedCount, total);
        inLibSymbols := false;
        outputLines := outputLines + [line];
        i := i + 1;
        continue;
      }
      if inLibSymbols {
        CopyStepKeeps(lines, infos, references, i, inLibSymbols, true, outputLines, deletedCount, total);
        outputLines := outputLines + [line];
        i := i + 1;
        continue;
      }
      if tag == Open {
        if i + 1 < |lines| && infos[i + 1].tag == SymbolWord {
          outputLines, deletedCount, i :=
            TakeSymbolBlock(lines, infos, references, i, inLibSymbols, true, outputLines, deletedCount, total);
          continue;
        }
      } else if tag == SymbolOpen {
        outputLines, deletedCount, i :=
          TakeSymbolBlock(lines, infos, references, i, inLibSymbols, false, outputLines, deletedCount, total);
        continue;
      }
      CopyStepKeeps(lines, infos, references, i, inLibSymbols, false, outputLines, deletedCount, total);
      outputLines := outputLines + [line];
      i := i + 1;
    }
  }

  /**
   * One symbol block of `DeleteSymbolBlocks`, from its first line `i`: the
   * block is read, then dropped and counted when its reference is one of
   * `references`, or else written out whole; the scan goes on after it.
   */
  method TakeSymbolBlock(lines: seq<string>, infos: seq<LineInfo>, references: seq<string>, i: nat, inLib: bool,
                         splitForm: bool, written: seq<string>, count: nat, ghost total: ScanResult)
    returns (written': seq<string>, count': nat, next: nat)
    requires |infos| == |lines| && i < |lines| && Classify(infos, i, inLib) == SymbolBlock(splitForm)
    requires ScanSoFar(written, count, SymbolScan(lines, infos, references, i, inLib), total)
    ensures i < next <= |lines| + 1
    ensures ScanSoFar(written', count', SymbolScan(lines, infos, references, next, false), total)
  {
    var block, stop, st := ReadSymbolBlock(lines, infos, i, splitForm);
    var dropped := st.reference.Some? && st.reference.value in references;
    BlockStepKeeps(lines, infos, references, i, inLib, splitForm, written, count, total, block, stop, dropped);
    if dropped {
      written', count' := written, count + 1;
    } else {
      written', count' := written + block, count;
    }
    next := stop + 1;
  }

  /** The loop invariant of `DeleteSymbolBlocks`: what is written so far, followed by the scan of the rest, is the whole scan. */
  predicate ScanSoFar(written: seq<string>, count: nat, rest: ScanResult, total: ScanResult) {
    written + rest.kept == total.kept && count + rest.deleted == total.deleted
  }

  lemma CopyStepKeeps(lines: seq<string>, infos: seq<LineInfo>, refs: seq<string>, i: nat, inLib: bool, inLibAfter: bool,
                      written: seq<string>, count: nat, total: ScanResult)
    requires |infos| == |lines| && i < |lines| && Classify(infos, i, inLib) == Copy(inLibAfter)
    requires ScanSoFar(written, count, SymbolScan(lines, infos, refs, i, inLib), total)
    ensures ScanSoFar(written + [lines[i]], count, SymbolScan(lines, infos, refs, i + 1, inLibAfter), total)
  {
    SymbolCopyStep(lines, infos, refs, i, inLib);
    AppendAssoc(written, [lines[i]], SymbolScan(lines, infos, refs, i + 1, inLibAfter).kept);
  }

  lemma BlockStepKeeps(lines: seq<string>, infos: seq<LineInfo>, refs: seq<string>, i: nat, inLib: bool, splitForm: bool,
                       written: seq<string>, count: nat, total: ScanResult, block: seq<string>, stop: nat, dropped: bool)
    requires |infos| == |lines| && i < |lines| && Classify(infos, i, inLib) == SymbolBlock(splitForm)
    requires ScanSoFar(written, count, SymbolScan(lines, infos, refs, i, inLib), total)
    requires stop == BlockStop(infos, i, 0) && block == lines[i..BlockEnd(infos, stop)]
    requires dropped == Drops(infos[i..BlockEnd(infos, stop)], splitForm, refs)
    ensures dropped ==> ScanSoFar(written, count + 1, SymbolScan(lines, infos, refs, stop + 1, false), total)
    ensures !dropped ==> ScanSoFar(written + block, count, SymbolScan(lines, infos, refs, stop + 1, false), total)
  {
    SymbolBlockStep(lines, infos, refs, i, inLib);
    AppendAssoc(written, block, SymbolScan(lines, infos, refs, stop + 1, false).kept);
  }

  // ---------------------------------------------------------------------
  // Wire, junction and label deletion
  // ---------------------------------------------------------------------

  /** The lines kept from line `i` on, `infos` marking the lines that open a dropped block. */
  function WireScan(lines: seq<string>, infos: seq<LineInfo>, i: nat): (kept: seq<string>)
    requires |infos| == |lines|
    ensures i <= |lines| ==> |kept| <= |lines| - i
    decreases |lines| - i
  {
    if i >= |lines| then []
    else if infos[i].opensWire then WireScan(lines, infos, BlockStop(infos, i, 0) + 1)
    else [lines[i]] + WireScan(lines, infos, i + 1)
  }

  lemma {:induction false} WireScanSubseq(lines: seq<string>, infos: seq<LineInfo>, i: nat)
    requires |infos| == |lines| && i <= |lines|
    ensures IsSubseq(WireScan(lines, infos, i), lines[i..])
    decreases |lines| - i
  {
    if i < |lines| {
      if infos[i].opensWire {
        var stop := BlockStop(infos, i, 0);
        var end := BlockEnd(infos, stop);
        if stop < |lines| {
          WireScanSubseq(lines, infos, stop + 1);
        }
        SliceSplit(lines, i, end);
        BlockSubseq(lines[i..end], WireScan(lines, infos, stop + 1), lines[end..]);
      } else {
        WireScanSubseq(lines, infos, i + 1);
        SliceCons(lines, i);
        SubseqPrefix([lines[i]], WireScan(lines, infos, i + 1), lines[i + 1..]);
      }
    }
  }

  /** The output is the input exactly when no line opens a dropped block. */
  lemma {:induction false} WireScanIdentity(lines: seq<string>, infos: seq<LineInfo>, i: nat)
    requires |infos| == |lines| && i <= |lines|
    ensures WireScan(lines, infos, i) == lines[i..] <==> forall k :: i <= k < |lines| ==> !infos[k].opensWire
    decreases |lines| - i
  {
    if i < |lines| {
      SliceCons(lines, i);
      if infos[i].opensWire {
        var stop := BlockStop(infos, i, 0);
        if stop < |lines| {
          WireScanIdentity(lines, infos, stop + 1);
        }
      } else {
        WireScanIdentity(lines, infos, i + 1);
      }
    }
  }

  /** Reads past one block from line `i`, counting only the balance. */
  method SkipBlock(infos: seq<LineInfo>, i: nat) returns (stop: nat)
    requires i < |infos|
    ensures stop == BlockStop(infos, i, 0)
  {
    var tempI := i;
    var parenCount := 0;
    while tempI < |infos|
      invariant i <= tempI <= |infos|
      invariant BlockStop(infos, tempI, parenCount) == BlockStop(infos, i, 0)
    {
      parenCount := parenCount + infos[tempI].delta;
      if parenCount == 0 {
        break;
      }
      tempI := tempI + 1;
    }
    stop := tempI;
  }

  /** The scan of `_handle_delete_all_wires`. */
  method DeleteWireBlocks(lines: seq<string>, infos: seq<LineInfo>) returns (outputLines: seq<string>)
    requires |infos| == |lines|
    ensures outputLines == WireScan(lines, infos, 0)
  {
    outputLines := [];
    var i := 0;
    while i < |lines|
      invariant i <= |lines| + 1
      invariant outputLines + WireScan(lines, infos, i) == WireScan(lines, infos, 0)
      decreases |lines| + 1 - i
    {
      var line := lines[i];
      if infos[i].opensWire {
        var stop := SkipBlock(infos, i);
        i := stop + 1;
        continue;
      }
      AppendAssoc(outputLines, [line], WireScan(lines, infos, i + 1));
      outputLines := outputLines + [line];
      i := i + 1;
    }
  }

  // ---------------------------------------------------------------------
  // Handlers
  // ---------------------------------------------------------------------

  /** What a handler returns: a refusal before anything is read, or the path written and the text written there. */
  datatype Outcome = Refused(message: string) | Saved(path: string, text: string)

  /** A parameter that is present and not the empty string. */
  predicate Given(p: Option<string>) {
    p.Some? && p.value != ""
  }

  /** The file written: `output_path` when given, else `file_path`. */
  function SavePath(filePath: string, outputPath: Option<string>): string {
    if Given(outputPath) then outputPath.value else filePath
  }

  /** The file's text after dropping the symbol blocks whose reference is in `refs`. */
  function SymbolDeletedText(content: string, refs: seq<string>): string {
    Join(SymbolDeletion(Split(content, '\n'), refs).kept, '\n')
  }

  /** The file's text after dropping every wire, junction and label block. */
  function WireDeletedText(content: string): string {
    var lines := Split(content, '\n');
    Join(WireScan(lines, Infos(lines), 0), '\n')
  }

  /** `_handle_delete_symbol`: the one-reference case of the batch scan; `content` is the text read from `file_path`. */
  method DeleteSymbol(filePath: Option<string>, reference: Option<string>, outputPath: Option<string>, content: string)
    returns (r: Outcome)
    ensures !Given(filePath) ==> r == Refused("file_path is required")
    ensures Given(filePath) && !Given(reference) ==> r == Refused("reference is required")
    ensures Given(filePath) && Given(reference) ==>
              r == Saved(SavePath(filePath.value, outputPath), SymbolDeletedText(content, [reference.value]))
  {
    if !Given(filePath) {
      return Refused("file_path is required");
    }
    if !Given(reference) {
      return Refused("reference is required");
    }
    var lines := Split(content, '\n');
    var outputLines, _ := DeleteSymbolBlocks(lines, Infos(lines), [reference.value]);
    r := Saved(SavePath(filePath.value, outputPath), Join(outputLines, '\n'));
  }

  /** `_handle_delete_symbols`: the batch scan and its count of dropped blocks. */
  method DeleteSymbols(filePath: Option<string>, references: Option<seq<string>>, outputPath: Option<string>, content: string)
    returns (r: Outcome, deletedCount: nat)
    ensures !Given(filePath) ==> r == Refused("file_path is required") && deletedCount == 0
    ensures Given(filePath) && (references.None? || references.value == []) ==>
              r == Refused("references array is required") && deletedCount == 0
    ensures Given(filePath) && references.Some? && references.value != [] ==>
              r == Saved(SavePath(filePath.value, outputPath), SymbolDeletedText(content, references.value)) &&
              deletedCount == SymbolDeletion(Split(content, '\n'), references.value).deleted
  {
    deletedCount := 0;
    if !Given(filePath) {
      return Refused("file_path is required"), 0;
    }
    if references.None? || references.value == [] {
      return Refused("references array is required"), 0;
    }
    var lines := Split(content, '\n');
    var outputLines;
    outputLines, deletedCount := DeleteSymbolBlocks(lines, Infos(lines), references.value);
    r := Saved(SavePath(filePath.value, outputPath), Join(outputLines, '\n'));
  }

  /** `_handle_delete_all_wires`. */
  method DeleteAllWires(filePath: Option<string>, outputPath: Option<string>, content: string) returns (r: Outcome)
    ensures !Given(filePath) ==> r == Refused("file_path is required")
    ensures Given(filePath) ==> r == Saved(SavePath(filePath.value, outputPath), WireDeletedText(content))
  {
    if !Given(filePath) {
      return Refused("file_path is required");
    }
    var lines := Split(content, '\n');
    var outputLines := DeleteWireBlocks(lines, Infos(lines));
    r := Saved(SavePath(filePath.value, outputPath), Join(outputLines, '\n'));
  }

  /** The single-line text `""` is never dropped by either scan. */
  lemma EmptyTextIsKept(refs: seq<string>)
    ensures SymbolDeletion([""], refs).kept == [""]
    ensures WireScan([""], Infos([""]), 0) == [""]
  {
    assert Strip("") == "";
    assert !StartsWith("", "(symbol") && !StartsWith("", "(lib_symbols");
    assert Infos([""])[0].tag == Other;
    assert !OpensWireBlock("");
  }

  /** The written text is the text read exactly when no symbol block was dropped. */
  lemma SymbolDeletedTextIdentity(content: string, refs: seq<string>)
    ensures SymbolDeletedText(content, refs) == content <==> SymbolDeletion(Split(content, '\n'), refs).deleted == 0
  {
    var lines := Split(content, '\n');
    var r := SymbolDeletion(lines, refs);
    SymbolScanIdentity(lines, Infos(lines), refs, 0, false);
    assert lines[0..] == lines;
    JoinSplit(content, '\n');
    if Join(r.kept, '\n') == content {
      SymbolScanSubseq(lines, Infos(lines), refs, 0, false);
      KeptTextDeterminesLines(content, r.kept, lines);
      if r.kept == [] {
        EmptyTextIsKept(refs);
      }
    }
  }

  /** The written text is the text read exactly when no line opens a wire, junction or label block. */
  lemma WireDeletedTextIdentity(content: string)
    ensures var lines := Split(content, '\n');
            WireDeletedText(content) == content <==> forall k :: 0 <= k < |lines| ==> !OpensWireBlock(Strip(lines[k]))
  {
    var lines := Split(content, '\n');
    var infos := Infos(lines);
    var kept := WireScan(lines, infos, 0);
    WireScanIdentity(lines, infos, 0);
    assert lines[0..] == lines;
    JoinSplit(content, '\n');
    if Join(kept, '\n') == content {
      WireScanSubseq(lines, infos, 0);
      KeptTextDeterminesLines(content, kept, lines);
      if kept == [] {
        EmptyTextIsKept([]);
      }
    }
  }

  /** Kept lines that join back to the text they were split from are all the lines, unless none are kept. */
  lemma KeptTextDeterminesLines(content: string, kept: seq<string>, lines: seq<string>)
    requires lines == Split(content, '\n') && IsSubseq(kept, lines) && Join(kept, '\n') == content
    ensures kept == [] || kept == lines
  {
    if kept != [] {
      SubseqElements(kept, lines);
      SplitPieces(content, '\n');
      forall k | 0 <= k < |kept|
        ensures '\n' !in kept[k]
      {
        var m :| 0 <= m < |lines| && lines[m] == kept[k];
      }
      SplitJoin(kept, '\n');
    }
  }
}
