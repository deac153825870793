/**
 * Placement arithmetic: the next free cell of a 20 by 20 grid window, the
 * eight-direction offset from an anchor symbol, and row-major group layout.
 * Coordinates are exact reals; binary floating point is not modelled.
 */
module Layout {
  import opened SExprs

  /** The side of the search window, in cells. */
  const Window: int := 20

  /** Python's `round` on a number: the nearest integer, ties to the even one. */
  function RoundHalfEven(x: real): (r: int)
    ensures -0.5 <= r as real - x <= 0.5
    ensures (r as real - x == 0.5 || x - r as real == 0.5) ==> r % 2 == 0
  {
    var f := x.Floor;
    var d := x - f as real;
    if d < 0.5 then f
    else if d > 0.5 then f + 1
    else if f % 2 == 0 then f
    else f + 1
  }

  /** The two properties of `RoundHalfEven` determine it. */
  lemma RoundHalfEvenUnique(x: real, n: int)
    requires -0.5 <= n as real - x <= 0.5
    requires (n as real - x == 0.5 || x - n as real == 0.5) ==> n % 2 == 0
    ensures n == RoundHalfEven(x)
  {
  }

  /** Rounding a whole number gives it back; halves go to the even neighbour. */
  lemma RoundHalfEvenExamples()
    ensures RoundHalfEven(3.0) == 3
    ensures RoundHalfEven(2.5) == 2
    ensures RoundHalfEven(3.5) == 4
    ensures RoundHalfEven(-2.5) == -2
    ensures RoundHalfEven(1.2) == 1
  {
    RoundHalfEvenUnique(3.0, 3);
    RoundHalfEvenUnique(2.5, 2);
    RoundHalfEvenUnique(3.5, 4);
    RoundHalfEvenUnique(-2.5, -2);
    RoundHalfEvenUnique(1.2, 1);
  }

  /** The grid cell a position falls in, for a non-zero cell size. */
  function GridCell(p: (real, real), g: real): (int, int)
    requires g != 0.0
  {
    (RoundHalfEven(p.0 / g), RoundHalfEven(p.1 / g))
  }

  /**
   * The cells taken by the existing symbols. With a zero cell size every
   * division fails and the symbol is skipped, so nothing is occupied.
   */
  function Occupied(positions: seq<(real, real)>, g: real): (occ: set<(int, int)>)
    ensures g == 0.0 ==> occ == {}
  {
    if positions == [] then {}
    else Occupied(positions[..|positions| - 1], g) +
         (if g != 0.0 then {GridCell(positions[|positions| - 1], g)} else {})
  }

  /** A cell is occupied exactly when some position rounds to it. */
  lemma {:induction false} OccupiedMeans(positions: seq<(real, real)>, g: real, c: (int, int))
    requires g != 0.0
    ensures c in Occupied(positions, g) <==> exists i :: 0 <= i < |positions| && GridCell(positions[i], g) == c
  {
    if positions != [] {
      var init := positions[..|positions| - 1];
      OccupiedMeans(init, g, c);
      assert forall i :: 0 <= i < |init| ==> init[i] == positions[i];
    }
  }

  /** The first unoccupied column of `row` from `gx + c` to the end of the window. */
  function FirstFreeInRow(occ: set<(int, int)>, gx: int, row: int, c: nat): (r: Option<int>)
    requires c <= Window
    ensures r.Some? ==> gx + c <= r.value < gx + Window && (r.value, row) !in occ
    decreases Window - c
  {
    if c == Window then None
    else if (gx + c, row) !in occ then Some(gx + c)
    else FirstFreeInRow(occ, gx, row, c + 1)
  }

  /**
   * The first unoccupied cell of the window in row-major order, looking at
   * rows `gy + r` onwards.
   */
  function FirstFree(occ: set<(int, int)>, gx: int, gy: int, r: nat): (cell: Option<(int, int)>)
    requires r <= Window
    ensures cell.Some? ==> gx <= cell.value.0 < gx + Window && gy + r <= cell.value.1 < gy + Window
    ensures cell.Some? ==> cell.value !in occ
    decreases Window - r
  {
    if r == Window then None
    else match FirstFreeInRow(occ, gx, gy + r, 0)
      case Some(col) => Some((col, gy + r))
      case None => FirstFree(occ, gx, gy, r + 1)
  }

  /** The columns the row scan passes over are occupied; with no result, all of them are. */
  lemma {:induction false} FirstFreeInRowIsFirst(occ: set<(int, int)>, gx: int, row: int, c: nat)
    requires c <= Window
    ensures var r := FirstFreeInRow(occ, gx, row, c);
            (r.Some? ==> forall col :: gx + c <= col < r.value ==> (col, row) in occ) &&
            (r.None? ==> forall col :: gx + c <= col < gx + Window ==> (col, row) in occ)
    decreases Window - c
  {
    if c < Window && (gx + c, row) in occ {
      FirstFreeInRowIsFirst(occ, gx, row, c + 1);
    }
  }

  /**
   * Every cell before the one found, in row-major order, is occupied; when
   * none is found, all the window's cells from row `gy + r` on are.
   */
  lemma FirstFreeIsFirst(occ: set<(int, int)>, gx: int, gy: int, r: nat)
    requires r <= Window
    ensures var cell := FirstFree(occ, gx, gy, r);
            (cell.Some? ==> (forall row, col :: gy + r <= row < cell.value.1 && gx <= col < gx + Window ==> (col, row) in occ) &&
                            (forall col :: gx <= col < cell.value.0 ==> (col, cell.value.1) in occ)) &&
            (cell.None? ==> forall row, col :: gy + r <= row < gy + Window && gx <= col < gx + Window ==> (col, row) in occ)
  {
    FullRowsBeforeFree(occ, gx, gy, r);
    FreeCellRowStart(occ, gx, gy, r);
    var cell := FirstFree(occ, gx, gy, r);
    var top := if cell.Some? then cell.value.1 else gy + Window;
    forall row, col | gy + r <= row < top && gx <= col < gx + Window
      ensures (col, row) in occ
    {
      assert RowFull(occ, gx, row);
    }
  }

  /** Every column of the window is occupied in `row`. */
  predicate RowFull(occ: set<(int, int)>, gx: int, row: int) {
    forall col :: gx <= col < gx + Window ==> (col, row) in occ
  }

  /** The rows the scan passes over, from `gy + r` up to the row of the cell found (or the window's end), are full. */
  lemma {:induction false} FullRowsBeforeFree(occ: set<(int, int)>, gx: int, gy: int, r: nat)
    requires r <= Window
    ensures var cell := FirstFree(occ, gx, gy, r);
            var top := if cell.Some? then cell.value.1 else gy + Window;
            forall row :: gy + r <= row < top ==> RowFull(occ, gx, row)
    decreases Window - r
  {
    if r == Window {
      assert FirstFree(occ, gx, gy, r).None?;
    } else if FirstFreeInRow(occ, gx, gy + r, 0).Some? {
      assert FirstFree(occ, gx, gy, r).value.1 == gy + r;
    } else {
      FirstFreeInRowIsFirst(occ, gx, gy + r, 0);
      assert RowFull(occ, gx, gy + r);
      FullRowsBeforeFree(occ, gx, gy, r + 1);
      assert FirstFree(occ, gx, gy, r) == FirstFree(occ, gx, gy, r + 1);
    }
  }

  /** In the row of the cell found, the columns before it are occupied. */
  lemma {:induction false} FreeCellRowStart(occ: set<(int, int)>, gx: int, gy: int, r: nat)
    requires r <= Window
    ensures var cell := FirstFree(occ, gx, gy, r);
            cell.Some? ==> forall col :: gx <= col < cell.value.0 ==> (col, cell.value.1) in occ
    decreases Window - r
  {
    if r < Window {
      var row := FirstFreeInRow(occ, gx, gy + r, 0);
      if row.None? {
        FreeCellRowStart(occ, gx, gy, r + 1);
        assert FirstFree(occ, gx, gy, r) == FirstFree(occ, gx, gy, r + 1);
      } else {
        FirstFreeInRowIsFirst(occ, gx, gy + r, 0);
        assert FirstFree(occ, gx, gy, r) == Some((row.value, gy + r));
      }
    }
  }

  /** The first free cell of the window, or the window's origin when all 400 cells are taken. */
  function NextCell(occ: set<(int, int)>, gx: int, gy: int): (int, int) {
    var cell := FirstFree(occ, gx, gy, 0);
    if cell.Some? then cell.value else (gx, gy)
  }

  /** The corner of a cell in schematic coordinates. */
  function Scale(cell: (int, int), g: real): (real, real) {
    (cell.0 as real * g, cell.1 as real * g)
  }

  /** Where the next symbol goes: the corner of the next cell. */
  function NextGridPosition(positions: seq<(real, real)>, gx: int, gy: int, g: real): (real, real) {
    Scale(NextCell(Occupied(positions, g), gx, gy), g)
  }

  /**
   * Fills the occupancy set from the existing positions, then scans rows
   * (outer) and columns (inner) of the window for the first free cell.
   */
  method GetNextGridPosition(positions: seq<(real, real)>, gx: int, gy: int, g: real) returns (pos: (real, real))
    ensures pos == NextGridPosition(positions, gx, gy, g)
  {
    var occupied: set<(int, int)> := {};
    var k := 0;
    while k < |positions|
      invariant 0 <= k <= |positions|
      invariant occupied == Occupied(positions[..k], g)
    {
      assert positions[..k + 1][..k] == positions[..k];
      if g != 0.0 {
        occupied := occupied + {GridCell(positions[k], g)};
      }
      k := k + 1;
    }
    assert positions[..k] == positions;
    var r := 0;
    while r < Window
      invariant 0 <= r <= Window
      invariant FirstFree(occupied, gx, gy, r) == FirstFree(occupied, gx, gy, 0)
    {
      var c := 0;
      while c < Window
        invariant 0 <= c <= Window
        invariant FirstFreeInRow(occupied, gx, gy + r, c) == FirstFreeInRow(occupied, gx, gy + r, 0)
      {
        if (gx + c, gy + r) !in occupied {
          assert FirstFreeInRow(occupied, gx, gy + r, c) == Some(gx + c);
          assert NextCell(occupied, gx, gy) == (gx + c, gy + r);
          return Scale((gx + c, gy + r), g);
        }
        c := c + 1;
      }
      r := r + 1;
    }
    return Scale((gx, gy), g);
  }

  /**
   * With a non-zero cell size and a free cell in the window, no existing
   * symbol rounds to the chosen cell, and a symbol placed at the chosen
   * position rounds back to it, so the next search moves on.
   */
  lemma NextGridPositionIsFree(positions: seq<(real, real)>, gx: int, gy: int, g: real)
    requires g != 0.0
    requires FirstFree(Occupied(positions, g), gx, gy, 0).Some?
    ensures var p := NextGridPosition(positions, gx, gy, g);
            (forall i :: 0 <= i < |positions| ==> GridCell(positions[i], g) != GridCell(p, g)) &&
            GridCell(p, g) in Occupied(positions + [p], g)
  {
    var cell := NextCell(Occupied(positions, g), gx, gy);
    var p := NextGridPosition(positions, gx, gy, g);
    ScaledCell(cell, g);
    assert GridCell(p, g) == cell;
    OccupiedMeans(positions, g, cell);
    OccupiedMeans(positions + [p], g, cell);
    assert (positions + [p])[|positions|] == p;
  }

  /** A cell's corner, divided by the cell size, rounds back to the cell. */
  lemma ScaledCell(cell: (int, int), g: real)
    requires g != 0.0
    ensures GridCell(Scale(cell, g), g) == cell
  {
    var p := Scale(cell, g);
    assert p.0 / g == cell.0 as real && p.1 / g == cell.1 as real;
    RoundHalfEvenUnique(cell.0 as real, cell.0);
    RoundHalfEvenUnique(cell.1 as real, cell.1);
  }

  /** With a zero cell size nothing counts as occupied and the result is the origin. */
  lemma NextGridPositionZeroSize(positions: seq<(real, real)>, gx: int, gy: int)
    ensures NextGridPosition(positions, gx, gy, 0.0) == (0.0, 0.0)
  {
    assert (gx, gy) !in Occupied(positions, 0.0);
  }

  /** The placed symbols an anchor is looked up among: reference and position. */
  datatype PlacedSymbol = PlacedSymbol(reference: string, x: real, y: real)

  /** The first placed symbol with reference `r`. */
  function FindSymbol(symbols: seq<PlacedSymbol>, r: string): (s: Option<PlacedSymbol>)
    ensures s.Some? ==> exists i :: 0 <= i < |symbols| && s.value == symbols[i] && symbols[i].reference == r &&
                                    forall j :: 0 <= j < i ==> symbols[j].reference != r
    ensures s.None? <==> forall i :: 0 <= i < |symbols| ==> symbols[i].reference != r
  {
    if symbols == [] then None
    else if symbols[0].reference == r then Some(symbols[0])
    else
      var s := FindSymbol(symbols[1..], r);
      assert forall i :: 1 <= i < |symbols| ==> symbols[1..][i - 1] == symbols[i];
      s
  }

  /** The offset for each of the eight named directions; anything else counts as `right`. */
  function DirectionOffset(direction: string, d: real): (off: (real, real))
    ensures off.0 == d || off.0 == -d || off.0 == 0.0
    ensures off.1 == d || off.1 == -d || off.1 == 0.0
  {
    match direction
    case "right" => (d, 0.0)
    case "left" => (-d, 0.0)
    case "below" => (0.0, d)
    case "above" => (0.0, -d)
    case "below-right" => (d, d)
    case "below-left" => (-d, d)
    case "above-right" => (d, -d)
    case "above-left" => (-d, -d)
    case _ => (d, 0.0)
  }

  /** The eight recognised direction names. */
  const Directions: seq<string> :=
    ["right", "left", "below", "above", "below-right", "below-left", "above-right", "above-left"]

  /** The direction pointing the other way. */
  function Opposite(direction: string): string {
    match direction
    case "right" => "left"
    case "left" => "right"
    case "below" => "above"
    case "above" => "below"
    case "below-right" => "above-left"
    case "above-left" => "below-right"
    case "below-left" => "above-right"
    case "above-right" => "below-left"
    case _ => direction
  }

  /**
   * Each named direction and its opposite cancel out; the horizontal part is
   * `d` for the `right` family and the vertical part `d` for the `below`
   * family (y grows downwards).
   */
  lemma DirectionOffsetMeaning(direction: string, d: real)
    requires direction in Directions
    ensures var a := DirectionOffset(direction, d);
            var b := DirectionOffset(Opposite(direction), d);
            a.0 + b.0 == 0.0 && a.1 + b.1 == 0.0
    ensures var a := DirectionOffset(direction, d);
            (a.0 == d <==> d == 0.0 || direction in {"right", "below-right", "above-right"}) &&
            (a.1 == d <==> d == 0.0 || direction in {"below", "below-right", "below-left"})
  {
  }

  /** An unrecognised direction is treated as `right`. */
  lemma UnknownDirectionIsRight(direction: string, d: real)
    requires direction !in Directions
    ensures DirectionOffset(direction, d) == DirectionOffset("right", d)
  {
  }

  /** The first anchor's position moved by the direction's offset; none when the anchor is absent. */
  function RelativePosition(symbols: seq<PlacedSymbol>, anchor: string, direction: string, d: real): (p: Option<(real, real)>)
    ensures p.None? <==> forall i :: 0 <= i < |symbols| ==> symbols[i].reference != anchor
    ensures p.Some? ==> exists i :: 0 <= i < |symbols| && symbols[i].reference == anchor &&
                          (forall j :: 0 <= j < i ==> symbols[j].reference != anchor) &&
                          p.value == (symbols[i].x + DirectionOffset(direction, d).0,
                                      symbols[i].y + DirectionOffset(direction, d).1)
  {
    match FindSymbol(symbols, anchor)
    case None => None
    case Some(s) => Some((s.x + DirectionOffset(direction, d).0, s.y + DirectionOffset(direction, d).1))
  }

  /** Two worked cases: right of (100, 100) by 25.4, and above-left of (100, 100) by 10. */
  lemma RelativePositionExamples()
    ensures RelativePosition([PlacedSymbol("R1", 100.0, 100.0)], "R1", "right", 25.4) ==
            Some((125.4, 100.0))
    ensures RelativePosition([PlacedSymbol("R1", 100.0, 100.0)], "R1", "above-left", 10.0) ==
            Some((90.0, 90.0))
    ensures RelativePosition([PlacedSymbol("R1", 100.0, 100.0)], "R2", "right", 10.0) == None
  {
  }

  /** Python's `a // b`: the quotient rounded towards negative infinity. */
  function FloorDiv(a: int, b: int): int
    requires b != 0
  {
    if b > 0 || a % b == 0 then a / b else a / b - 1
  }

  /** Python's `a % b`: the remainder, with the sign of `b`. */
  function FloorMod(a: int, b: int): int
    requires b != 0
  {
    if b > 0 || a % b == 0 then a % b else a % b + b
  }

  /** Python's quotient and remainder recombine to `a`, the remainder taking the sign of `b`. */
  lemma FloorDivMod(a: int, b: int)
    requires b != 0
    ensures a == b * FloorDiv(a, b) + FloorMod(a, b)
    ensures b > 0 ==> 0 <= FloorMod(a, b) < b
    ensures b < 0 ==> b < FloorMod(a, b) <= 0
  {
    if b < 0 && a % b != 0 {
      assert b * (a / b - 1) + (a % b + b) == b * (a / b) + a % b;
    }
  }

  /** Worked cases with a negative divisor: `7 // -2 == -4`, `7 % -2 == -1`, `-6 // -3 == 2`. */
  lemma FloorDivModExamples()
    ensures FloorDiv(7, -2) == -4 && FloorMod(7, -2) == -1
    ensures FloorDiv(-6, -3) == 2 && FloorMod(-6, -3) == 0
    ensures FloorDiv(7, 5) == 1 && FloorMod(7, 5) == 2
  {
  }

  /** Where the `i`-th member of a group goes: column `i % columns`, row `i // columns`. */
  function GroupPosition(i: nat, startX: real, startY: real, spacing: real, columns: int): (real, real)
    requires columns != 0
  {
    (startX + FloorMod(i, columns) as real * spacing, startY + FloorDiv(i, columns) as real * spacing)
  }

  /**
   * With positive columns, Python's floor quotient and remainder are the
   * ordinary ones: member `i` sits in column `i % columns` of row `i / columns`.
   */
  lemma GroupPositionGrid(i: nat, startX: real, startY: real, spacing: real, columns: int)
    requires columns > 0
    ensures GroupPosition(i, startX, startY, spacing, columns) ==
            (startX + (i % columns) as real * spacing, startY + (i / columns) as real * spacing)
  {
    assert FloorMod(i, columns) == i % columns && FloorDiv(i, columns) == i / columns;
  }

  /** Distinct members of a group with non-zero spacing never share a position. */
  lemma GroupPositionInjective(i: nat, j: nat, startX: real, startY: real, spacing: real, columns: int)
    requires columns != 0 && spacing != 0.0 && i != j
    ensures GroupPosition(i, startX, startY, spacing, columns) != GroupPosition(j, startX, startY, spacing, columns)
  {
    var mi, qi := FloorMod(i, columns), FloorDiv(i, columns);
    var mj, qj := FloorMod(j, columns), FloorDiv(j, columns);
    if mi == mj {
      SameColumnOtherRow(i, j, columns);
      ScaleSeparates(startY, qi, qj, spacing);
    } else {
      ScaleSeparates(startX, mi, mj, spacing);
    }
  }

  /** Two distinct members in the same column are in different rows. */
  lemma SameColumnOtherRow(i: nat, j: nat, columns: int)
    requires columns != 0 && i != j && FloorMod(i, columns) == FloorMod(j, columns)
    ensures FloorDiv(i, columns) != FloorDiv(j, columns)
  {
    FloorDivMod(i, columns);
    FloorDivMod(j, columns);
    QuotientsDiffer(i, j, columns, FloorDiv(i, columns), FloorDiv(j, columns), FloorMod(i, columns));
  }

  lemma QuotientsDiffer(i: int, j: int, c: int, qi: int, qj: int, m: int)
    requires i == c * qi + m && j == c * qj + m && i != j
    ensures qi != qj
  {
  }

  lemma ScaleSeparates(x: real, a: int, b: int, s: real)
    requires s != 0.0 && a != b
    ensures x + a as real * s != x + b as real * s
  {
    assert (a as real - b as real) * s != 0.0;
  }

  /** The sixth member of a five-column group starting at (100, 100), spaced 25.4, opens the second row. */
  lemma GroupPositionExample()
    ensures GroupPosition(5, 100.0, 100.0, 25.4, 5) == (100.0, 125.4)
  {
  }
}
