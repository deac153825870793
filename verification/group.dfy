/**
 * Placing a group of symbols on a row-major grid, one addition per member,
 * in order.
 */
module ComponentGroups {
  import opened SExprs
  import opened Schematics
  import opened InstanceNodes
  import opened Layout
  import opened ComponentSchematic

  /** One member of a group: what its dictionary supplies. */
  datatype Member = Member(libId: string, reference: string, value: string, footprint: string, datasheet: string)

  /** Member `i` of a group, placed at its grid position with rotation 0. */
  function MemberPlacement(m: Member, i: nat, startX: real, startY: real, spacing: real, columns: int): Placement
    requires columns != 0
  {
    var pos := GroupPosition(i, startX, startY, spacing, columns);
    ComponentPlacement(m.libId, m.reference, m.value, pos.0, pos.1, 0, m.footprint, m.datasheet)
  }

  /** The placements of a group, member by member. */
  function GroupPlacements(members: seq<Member>, startX: real, startY: real, spacing: real, columns: int): (r: seq<Placement>)
    requires columns != 0
    ensures |r| == |members|
  {
    seq(|members|, i requires 0 <= i < |members| => MemberPlacement(members[i], i, startX, startY, spacing, columns))
  }

  /**
   * Member `i` keeps its own fields with rotation 0 and unit 1; with
   * positive columns it sits in column `i % columns` of row `i / columns`,
   * and with non-zero spacing no other member shares its position.
   */
  lemma {:induction false} GroupPlacementAt(members: seq<Member>, startX: real, startY: real, spacing: real, columns: int, i: nat)
    requires columns != 0 && i < |members|
    ensures var ps := GroupPlacements(members, startX, startY, spacing, columns);
            var m := members[i];
            ps[i].libId == m.libId && ps[i].reference == m.reference && ps[i].value == m.value &&
            ps[i].footprint == m.footprint && ps[i].datasheet == m.datasheet &&
            ps[i].rotation == 0 && ps[i].unit == 1
    ensures var ps := GroupPlacements(members, startX, startY, spacing, columns);
            columns > 0 ==>
              ps[i].x == startX + (i % columns) as real * spacing && ps[i].y == startY + (i / columns) as real * spacing
    ensures var ps := GroupPlacements(members, startX, startY, spacing, columns);
            spacing != 0.0 ==>
              forall j :: 0 <= j < |members| && j != i ==> (ps[j].x, ps[j].y) != (ps[i].x, ps[i].y)
  {
    var ps := GroupPlacements(members, startX, startY, spacing, columns);
    if columns > 0 {
      GroupPositionGrid(i, startX, startY, spacing, columns);
    }
    if spacing != 0.0 {
      forall j | 0 <= j < |members| && j != i
        ensures (ps[j].x, ps[j].y) != (ps[i].x, ps[i].y)
      {
        GroupPositionInjective(j, i, startX, startY, spacing, columns);
      }
    }
  }

  /** The document and the identifier count after adding `ps` in order. */
  function AddAll(t: seq<SExpr>, libs: map<string, SExpr>, ps: seq<Placement>, stream: nat -> string, d: nat): (seq<SExpr>, nat)
  {
    if ps == [] then (t, d)
    else AddOne(AddAll(t, libs, ps[..|ps| - 1], stream, d), libs, ps[|ps| - 1], stream)
  }

  /**
   * Adds the members in order, member `i` at column `i % columns` and row
   * `i // columns`. True when every addition succeeded; zero columns with
   * a non-empty list fails on the first member, before any change.
   */
  method AddComponentGroup(sch: Schematic, libs: map<string, SExpr>, members: seq<Member>, startX: real,
                           startY: real, spacing: real, columns: int, ids: UuidSource)
    returns (ok: bool)
    modifies sch, ids
    ensures ok <==> columns != 0 || members == []
    ensures !ok ==> sch.tree == old(sch.tree) && ids.drawn == old(ids.drawn)
    ensures members == [] ==> sch.tree == old(sch.tree) && ids.drawn == old(ids.drawn)
    ensures columns != 0 ==>
              (sch.tree, ids.drawn) == AddAll(old(sch.tree), libs, GroupPlacements(members, startX, startY, spacing, columns),
                                              ids.stream, old(ids.drawn))
  {
    if members == [] {
      return true;
    }
    if columns == 0 {
      return false;
    }
    ghost var ps := GroupPlacements(members, startX, startY, spacing, columns);
    var added := 0;
    var i := 0;
    while i < |members|
      invariant 0 <= i <= |members| && added == i
      invariant (sch.tree, ids.drawn) == AddAll(old(sch.tree), libs, ps[..i], ids.stream, old(ids.drawn))
    {
      var success := AddMember(sch, libs, members, i, startX, startY, spacing, columns, ids, old(sch.tree), old(ids.drawn));
      if success {
        added := added + 1;
      }
      i := i + 1;
    }
    AllPlaced(ps);
    ok := added == |members|;
  }

  lemma AllPlaced<T>(ps: seq<T>)
    ensures ps[..|ps|] == ps
  {
  }

  /**
   * Adds member `i` of a group at its grid position, with rotation 0: one
   * more placement of the group is then in the document.
   */
  method AddMember(sch: Schematic, libs: map<string, SExpr>, members: seq<Member>, i: nat, startX: real, startY: real,
                   spacing: real, columns: int, ids: UuidSource, ghost t0: seq<SExpr>, ghost d0: nat)
    returns (success: bool)
    requires columns != 0 && i < |members|
    requires (sch.tree, ids.drawn) ==
             AddAll(t0, libs, GroupPlacements(members, startX, startY, spacing, columns)[..i], ids.stream, d0)
    modifies sch, ids
    ensures success
    ensures (sch.tree, ids.drawn) ==
            AddAll(t0, libs, GroupPlacements(members, startX, startY, spacing, columns)[..i + 1], ids.stream, d0)
  {
    ghost var ps := GroupPlacements(members, startX, startY, spacing, columns);
    AddAllStep(t0, libs, ps, ids.stream, d0, i);
    MemberPlacementAt(members, startX, startY, spacing, columns, i);
    var m := members[i];
    var (x, y) := GroupPosition(i, startX, startY, spacing, columns);
    success := AddComponentSexpr(sch, libs, m.libId, m.reference, m.value, x, y, 0, m.footprint, m.datasheet, ids);
  }

  lemma MemberPlacementAt(members: seq<Member>, startX: real, startY: real, spacing: real, columns: int, i: nat)
    requires columns != 0 && i < |members|
    ensures GroupPlacements(members, startX, startY, spacing, columns)[i] ==
            MemberPlacement(members[i], i, startX, startY, spacing, columns)
  {
  }

  lemma {:induction false} AddAllStep(t: seq<SExpr>, libs: map<string, SExpr>, ps: seq<Placement>, stream: nat -> string,
                                      d: nat, i: nat)
    requires i < |ps|
    ensures AddAll(t, libs, ps[..i + 1], stream, d) == AddOne(AddAll(t, libs, ps[..i], stream, d), libs, ps[i], stream)
  {
    var q := ps[..i + 1];
    assert q[..i] == ps[..i];
  }

  /** Adding placements one by one adds exactly one top-level node each. */
  lemma {:induction false} AddAllAddsOneNodeEach(t: seq<SExpr>, libs: map<string, SExpr>, ps: seq<Placement>,
                                                 stream: nat -> string, d: nat)
    ensures |AddAll(t, libs, ps, stream, d).0| == |t| + |ps|
  {
    if ps != [] {
      AddAllAddsOneNodeEach(t, libs, ps[..|ps| - 1], stream, d);
      var s := AddAll(t, libs, ps[..|ps| - 1], stream, d);
      AddedTreeLength(s.0, libs, ps[|ps| - 1], stream, s.1);
      assert AddAll(t, libs, ps, stream, d).0 == AddedTree(s.0, libs, ps[|ps| - 1], stream, s.1);
    }
  }
}
